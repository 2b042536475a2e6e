/** Line framing: a byte stream arrives in arbitrary chunks and leaves as lines. */
module JsonLines {
  import opened AgentsMd

  /** The pieces that a newline ends. */
  function Pieces(stream: Bytes): seq<Bytes>
    decreases |stream|
  {
    if '\n' !in stream then []
    else var (line, rest) := Partition(stream); [line] + Pieces(rest)
  }

  /** What follows the last newline. */
  function Tail(stream: Bytes): Bytes
    decreases |stream|
  {
    if '\n' !in stream then stream
    else var (_, rest) := Partition(stream); Tail(rest)
  }

  // bytes.partition(b"\n")
  function Partition(s: Bytes): (r: (Bytes, Bytes))
    requires '\n' in s
    ensures s == r.0 + "\n" + r.1 && '\n' !in r.0 && |r.1| < |s|
  {
    if s[0] == '\n' then ("", s[1..])
    else var (line, rest) := Partition(s[1..]); ([s[0]] + line, rest)
  }

  function NonBlank(lines: seq<Bytes>): seq<Bytes> {
    if lines == [] then []
    else if Blank(lines[0]) then NonBlank(lines[1..])
    else [lines[0]] + NonBlank(lines[1..])
  }

  function Concat(chunks: seq<Bytes>): Bytes {
    if chunks == [] then "" else Concat(chunks[..|chunks| - 1]) + chunks[|chunks| - 1]
  }

  lemma PartitionOfConcat(s: Bytes, t: Bytes)
    requires '\n' in s
    ensures Partition(s + t) == (Partition(s).0, Partition(s).1 + t)
  {
    if s[0] == '\n' {
      assert (s + t)[1..] == s[1..] + t;
    } else {
      assert (s + t)[1..] == s[1..] + t;
      PartitionOfConcat(s[1..], t);
    }
  }

  /** More bytes only add to what was cut so far, and the cut goes on where the tail left it. */
  lemma {:induction false} CutOfConcat(s: Bytes, t: Bytes)
    ensures Pieces(s + t) == Pieces(s) + Pieces(Tail(s) + t)
    ensures Tail(s + t) == Tail(Tail(s) + t)
    decreases |s|
  {
    hide Partition;
    if '\n' in s {
      PartitionOfConcat(s, t);
      CutOfConcat(Partition(s).1, t);
      assert s + t != "" && '\n' in s + t;
      assert Pieces(s + t) == [Partition(s).0] + Pieces(Partition(s).1 + t);
    } else {
      assert Pieces(s) == [] && [] + Pieces(s + t) == Pieces(s + t);
    }
  }

  /** Cutting loses nothing but the newlines. */
  lemma {:induction false} CutKeepsAll(s: Bytes)
    ensures s == Joined(Pieces(s)) + Tail(s)
    ensures '\n' !in Tail(s) && forall line <- Pieces(s) :: '\n' !in line
    decreases |s|
  {
    if '\n' in s {
      var (line, rest) := Partition(s);
      CutKeepsAll(rest);
      assert Pieces(s)[1..] == Pieces(rest) && Pieces(s)[0] == line;
      assert s == line + "\n" + (Joined(Pieces(rest)) + Tail(rest));
      Regroup(line, Joined(Pieces(rest)), Tail(rest));
    } else {
      assert s == "" + s;
    }
  }

  lemma Regroup(a: Bytes, b: Bytes, c: Bytes)
    ensures a + "\n" + (b + c) == (a + "\n" + b) + c
  {
  }

  function Joined(lines: seq<Bytes>): Bytes {
    if lines == [] then "" else lines[0] + "\n" + Joined(lines[1..])
  }

  /** And it is the only way to cut: lines without newlines, each ended by one, come back as they were. */
  lemma {:induction false} CutOfJoined(lines: seq<Bytes>, tail: Bytes)
    requires '\n' !in tail && forall line <- lines :: '\n' !in line
    ensures Pieces(Joined(lines) + tail) == lines && Tail(Joined(lines) + tail) == tail
  {
    if lines == [] {
      assert Joined(lines) + tail == tail;
    } else {
      CutOfJoined(lines[1..], tail);
      Regroup(lines[0], Joined(lines[1..]), tail);
      var s := lines[0] + "\n" + (Joined(lines[1..]) + tail);
      assert Joined(lines) + tail == s;
      assert s[|lines[0]|] == '\n';
      PartitionAt(lines[0], Joined(lines[1..]) + tail);
      assert lines == [lines[0]] + lines[1..];
    }
  }

  lemma {:induction false} PartitionAt(line: Bytes, rest: Bytes)
    requires '\n' !in line
    ensures '\n' in line + "\n" + rest && Partition(line + "\n" + rest) == (line, rest)
  {
    var s := line + "\n" + rest;
    assert s[|line|] == '\n';
    if line == "" {
      assert s[1..] == rest;
    } else {
      PartitionAt(line[1..], rest);
      assert s[1..] == line[1..] + "\n" + rest;
      assert line == [line[0]] + line[1..];
    }
  }

  lemma {:induction false} NonBlankOfConcat(xs: seq<Bytes>, ys: seq<Bytes>)
    ensures NonBlank(xs + ys) == NonBlank(xs) + NonBlank(ys)
  {
    hide Blank;
    if xs == [] {
      assert xs + ys == ys;
    } else {
      NonBlankOfConcat(xs[1..], ys);
      assert (xs + ys)[1..] == xs[1..] + ys && (xs + ys)[0] == xs[0];
      assert [xs[0]] + (NonBlank(xs[1..]) + NonBlank(ys)) == ([xs[0]] + NonBlank(xs[1..])) + NonBlank(ys);
    }
  }
}
