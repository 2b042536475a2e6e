/** Schema migrations: one version at a time, by registered functions, with a digest before and after each. */
module Migrations {
  import opened Wrappers

  datatype ArtifactKind = PracticePack | CapabilityManifest | GeneratedConfig

  /** An artifact: its schema_version, if that is a string, and the rest. */
  datatype Payload = Payload(version: Option<string>, body: string)

  // SHA-256 of the canonical text, free of collisions.
  datatype Digest = DigestOf(payload: Payload)

  /** A migration returns a mapping, or something that is not one. */
  type Migration = Payload -> Option<Payload>

  datatype Provenance = Provenance(from: string, to: string, before: Digest, after: Digest)

  datatype Migrated = Migrated(payload: Payload, from: string, to: string, provenance: seq<Provenance>)

  datatype MigrationError =
    | NotNumeric
    | NotOneStep
    | Duplicate
    | FutureVersion
    | MissingMigration(at: string)
    | NotAMapping
    | WrongVersion

  type Steps = map<string, (string, Migration)>

  // --- Version strings ---

  predicate IsDigit(c: char) { '0' <= c <= '9' }

  predicate Numeric(s: string) {
    s != "" && forall c <- s :: IsDigit(c)
  }

  function Number(s: string): nat
    requires forall c <- s :: IsDigit(c)
  {
    if s == "" then 0
    else
      assert IsDigit(s[|s| - 1]);
      10 * Number(s[..|s| - 1]) + (s[|s| - 1] as int - '0' as int)
  }

  function Decimal(n: nat): (s: string)
    ensures Numeric(s)
    ensures Number(s) == n
  {
    var digit := (n % 10 + '0' as int) as char;
    if n < 10 then assert [digit][..0] == ""; [digit]
    else
      var front := Decimal(n / 10);
      assert (front + [digit])[..|front|] == front;
      front + [digit]
  }

  /** What register accepts: steps from one version to the next. */
  ghost predicate Valid(steps: Steps) {
    forall v <- steps.Keys :: Numeric(v) && Numeric(steps[v].0) && Number(steps[v].0) == Number(v) + 1
  }

  ghost function Targets(steps: Steps): set<nat>
    requires Valid(steps)
  {
    set v <- steps.Keys :: Number(steps[v].0)
  }

  ghost predicate IsLatest(steps: Steps, latest: nat)
    requires Valid(steps)
  {
    latest in Targets(steps) && forall n <- Targets(steps) :: n <= latest
  }

  // --- The walk to the latest version ---

  function Step(steps: Steps, current: string, payload: Payload): Result<(string, Payload), MigrationError> {
    if current !in steps then Err(MissingMigration(current))
    else
      var (to, migration) := steps[current];
      match migration(payload)
      case None => Err(NotAMapping)
      case Some(migrated) =>
        if migrated.version.None? || !Numeric(migrated.version.value) then Err(NotNumeric)
        else if migrated.version.value != to then Err(WrongVersion)
        else Ok((to, migrated))
  }

  // From current to latest: the payload there, and what happened on the way.
  function Walk(steps: Steps, current: string, latest: string,
                payload: Payload): Result<(Payload, seq<Provenance>), MigrationError>
    requires Valid(steps) && Numeric(current) && Numeric(latest) && IsLatest(steps, Number(latest))
    requires Number(current) <= Number(latest)
    decreases Number(latest) - Number(current)
  {
    if current == latest then Ok((payload, []))
    else
      match Step(steps, current, payload)
      case Err(e) => Err(e)
      case Ok((to, migrated)) =>
        assert Number(to) in Targets(steps);
        After([Provenance(current, to, DigestOf(payload), DigestOf(migrated))], Walk(steps, to, latest, migrated))
  }

  // The entries already made, before those still to come.
  function After(done: seq<Provenance>, rest: Result<(Payload, seq<Provenance>), MigrationError>)
    : Result<(Payload, seq<Provenance>), MigrationError>
  {
    match rest
    case Err(e) => Err(e)
    case Ok((final, more)) => Ok((final, done + more))
  }

  lemma AfterNothing(rest: Result<(Payload, seq<Provenance>), MigrationError>)
    ensures After([], rest) == rest
  {
    if rest.Ok? { assert [] + rest.value.1 == rest.value.1; }
  }

  lemma AfterBoth(done: seq<Provenance>, more: seq<Provenance>,
                  rest: Result<(Payload, seq<Provenance>), MigrationError>)
    ensures After(done, After(more, rest)) == After(done + more, rest)
  {
    if rest.Ok? { assert done + (more + rest.value.1) == done + more + rest.value.1; }
  }

  // No step leads beyond the latest version, so none starts there.
  lemma TargetsAreBelow(steps: Steps, latest: nat, v: string)
    requires Valid(steps) && IsLatest(steps, latest)
    ensures v in steps ==> Number(steps[v].0) <= latest && Number(v) < latest
  {
    assert forall u <- steps.Keys :: Number(steps[u].0) in Targets(steps);
  }

  /** migrate, for an artifact kind with these steps, the latest of which is given. */
  function MigratedTo(steps: Steps, latest: nat, payload: Payload): Result<Migrated, MigrationError>
    requires Valid(steps) && IsLatest(steps, latest)
  {
    if payload.version.None? || !Numeric(payload.version.value) then Err(NotNumeric)
    else
      var original := payload.version.value;
      if Number(original) > latest then Err(FutureVersion)
      else
        match Walk(steps, original, Decimal(latest), payload)
        case Err(e) => Err(e)
        case Ok((final, provenance)) => Ok(Migrated(final, original, Decimal(latest), provenance))
  }

  class MigrationRegistry {
    var migrations: map<ArtifactKind, Steps>

    ghost predicate Sound()
      reads this
    {
      forall k <- migrations.Keys :: Valid(migrations[k]) && migrations[k] != map[]
    }

    constructor ()
      ensures Sound() && migrations == map[]
    {
      migrations := map[];
    }

    method Clear()
      modifies this
      ensures migrations == map[] && Sound()
    {
      migrations := map[];
    }

    method Register(kind: ArtifactKind, from: string, to: string, migration: Migration)
      returns (failed: Option<MigrationError>)
      requires Sound()
      modifies this
      ensures Sound()
      ensures var steps := if kind in old(migrations) then old(migrations)[kind] else map[];
        failed == if !Numeric(from) || !Numeric(to) then Some(NotNumeric)
                  else if Number(to) != Number(from) + 1 then Some(NotOneStep)
                  else if from in steps then Some(Duplicate)
                  else None
      ensures failed.None? ==>
        migrations ==
          old(migrations)[kind :=
            (if kind in old(migrations) then old(migrations)[kind] else map[])[from := (to, migration)]]
      ensures failed.Some? ==> migrations == old(migrations)
    {
      if !Numeric(from) || !Numeric(to) { return Some(NotNumeric); }
      if Number(to) != Number(from) + 1 { return Some(NotOneStep); }
      var steps: Steps := if kind in migrations then migrations[kind] else map[];
      if from in steps { return Some(Duplicate); }
      migrations := migrations[kind := steps[from := (to, migration)]];
      failed := None;
    }

    method LatestVersion(kind: ArtifactKind) returns (latest: Option<string>)
      requires Sound()
      ensures latest.None? <==> kind !in migrations
      ensures latest.Some? ==> Numeric(latest.value) && latest.value == Decimal(Number(latest.value))
      ensures latest.Some? ==> IsLatest(migrations[kind], Number(latest.value))
    {
      if kind !in migrations { return None; }
      var steps := migrations[kind];
      var rest := steps.Keys;
      var v :| v in rest;
      var best := Number(steps[v].0);
      while rest != {}
        invariant rest <= steps.Keys
        invariant best in Targets(steps)
        invariant forall u <- steps.Keys - rest :: Number(steps[u].0) <= best
        decreases rest
      {
        var u :| u in rest;
        rest := rest - {u};
        if Number(steps[u].0) > best { best := Number(steps[u].0); }
      }
      latest := Some(Decimal(best));
    }

    method Migrate(kind: ArtifactKind, payload: Payload) returns (r: Result<Migrated, MigrationError>)
      requires Sound()
      ensures payload.version.None? || !Numeric(payload.version.value) ==> r == Err(NotNumeric)
      ensures kind !in migrations && payload.version.Some? && Numeric(payload.version.value) ==>
        r == Ok(Migrated(payload, payload.version.value, payload.version.value, []))
      ensures kind in migrations && payload.version.Some? && Numeric(payload.version.value) ==>
        exists latest :: IsLatest(migrations[kind], latest) && r == MigratedTo(migrations[kind], latest, payload)
    {
      if payload.version.None? || !Numeric(payload.version.value) { return Err(NotNumeric); }
      var original := payload.version.value;
      var newest := LatestVersion(kind);
      if newest.None? { return Ok(Migrated(payload, original, original, [])); }
      var latest := newest.value;
      if Number(original) > Number(latest) { return Err(FutureVersion); }
      var steps := migrations[kind];
      hide Number, IsLatest;
      ghost var goal := Walk(steps, original, latest, payload);
      AfterNothing(goal);
      var current, migrated := original, payload;
      var provenance: seq<Provenance> := [];
      while current != latest
        invariant Numeric(current) && Number(current) <= Number(latest)
        invariant goal == After(provenance, Walk(steps, current, latest, migrated))
        decreases Number(latest) - Number(current)
      {
        if current !in steps { return Err(MissingMigration(current)); }
        var (to, migration) := steps[current];
        var before := DigestOf(migrated);
        var next := migration(migrated);
        if next.None? { return Err(NotAMapping); }
        if next.value.version.None? || !Numeric(next.value.version.value) { return Err(NotNumeric); }
        if next.value.version.value != to { return Err(WrongVersion); }
        TargetsAreBelow(steps, Number(latest), current);
        var entry := Provenance(current, to, before, DigestOf(next.value));
        AfterBoth(provenance, [entry], Walk(steps, to, latest, next.value));
        provenance := provenance + [entry];
        migrated, current := next.value, to;
      }
      assert provenance + [] == provenance;
      assert goal == Ok((migrated, provenance));
      r := Ok(Migrated(migrated, original, current, provenance));
    }
  }

  // --- What a migration leaves behind ---

  /** Entries in a row: each starts at the version, and with the digest, the one before ended with. */
  ghost predicate Chained(ps: seq<Provenance>, from: string, start: Payload, to: string, final: Payload) {
    if ps == [] then from == to && start == final
    else
      && ps[0].from == from && ps[0].before == DigestOf(start)
      && Numeric(from) && Numeric(ps[0].to) && Number(ps[0].to) == Number(from) + 1
      && ps[|ps| - 1].to == to && ps[|ps| - 1].after == DigestOf(final)
      && forall i :: 0 < i < |ps| ==>
           ps[i].from == ps[i - 1].to && ps[i].before == ps[i - 1].after && Numeric(ps[i].from) && Numeric(ps[i].to)
           && Number(ps[i].to) == Number(ps[i].from) + 1
  }

  lemma ChainedPrepends(p: Provenance, ps: seq<Provenance>, start: Payload, next: Payload, to: string, final: Payload)
    requires Chained(ps, p.to, next, to, final) && p.before == DigestOf(start) && p.after == DigestOf(next)
    requires Numeric(p.from) && Numeric(p.to) && Number(p.to) == Number(p.from) + 1
    ensures Chained([p] + ps, p.from, start, to, final)
  {
    hide Numeric, Number;
    var more := [p] + ps;
    assert forall i :: 0 < i < |more| ==> more[i] == ps[i - 1];
  }

  lemma {:induction false} WalkIsChained(steps: Steps, current: string, latest: string, payload: Payload)
    requires Valid(steps) && Numeric(current) && Numeric(latest) && IsLatest(steps, Number(latest))
    requires Number(current) <= Number(latest)
    requires Walk(steps, current, latest, payload).Ok? && payload.version == Some(current)
    ensures var (final, ps) := Walk(steps, current, latest, payload).value;
      && |ps| == Number(latest) - Number(current) && Chained(ps, current, payload, latest, final)
      && final.version == Some(latest)
    decreases Number(latest) - Number(current)
  {
    hide Number, IsLatest;
    if current != latest {
      var (to, migrated) := Step(steps, current, payload).value;
      TargetsAreBelow(steps, Number(latest), current);
      WalkIsChained(steps, to, latest, migrated);
      var (final, rest) := Walk(steps, to, latest, migrated).value;
      ChainedPrepends(Provenance(current, to, DigestOf(payload), DigestOf(migrated)), rest, payload, migrated, latest,
        final);
    } else {
      hide Step;
    }
  }

  /** A migration that succeeds leaves exactly one entry per version it passed, chained by version and digest, and
      ends at the latest. */
  lemma MigratedIs(steps: Steps, latest: nat, payload: Payload)
    requires Valid(steps) && IsLatest(steps, latest) && MigratedTo(steps, latest, payload).Ok?
    ensures var m := MigratedTo(steps, latest, payload).value;
      && payload.version == Some(m.from) && Numeric(m.from) && Number(m.from) <= latest
      && |m.provenance| == latest - Number(m.from)
      && Chained(m.provenance, m.from, payload, m.to, m.payload)
      && m.payload.version == Some(m.to) && m.to == Decimal(latest)
  {
    WalkIsChained(steps, payload.version.value, Decimal(latest), payload);
  }

  // The migration registered for v leads to w, and makes q of p.
  ghost predicate Passes(steps: Steps, v: string, w: string, p: Payload, q: Payload) {
    v in steps && steps[v].0 == w && steps[v].1(p) == Some(q) && q.version == Some(w)
  }

  // What the walk met with, one payload for each version.
  ghost predicate Trail(steps: Steps, vs: seq<string>, ps: seq<Payload>) {
    |vs| == |ps| >= 1 && forall i :: 0 < i < |vs| ==> Passes(steps, vs[i - 1], vs[i], ps[i - 1], ps[i])
  }

  // The entries such a walk leaves.
  ghost predicate Accounts(vs: seq<string>, ps: seq<Payload>, entries: seq<Provenance>)
    requires |vs| == |ps| >= 1
  {
    && |entries| == |vs| - 1
    && forall i :: 0 <= i < |entries| ==>
         entries[i] == Provenance(vs[i], vs[i + 1], DigestOf(ps[i]), DigestOf(ps[i + 1]))
  }

  // Why a walk cannot go on from v.
  ghost predicate StopsAt(steps: Steps, v: string, p: Payload, e: MigrationError) {
    if v !in steps then e == MissingMigration(v)
    else
      match steps[v].1(p)
      case None => e == NotAMapping
      case Some(next) =>
        if next.version.None? || !Numeric(next.version.value) then e == NotNumeric
        else e == WrongVersion && next.version != Some(steps[v].0)
  }

  lemma TrailPrepends(steps: Steps, v: string, p: Payload, vs: seq<string>, ps: seq<Payload>)
    requires Trail(steps, vs, ps) && Passes(steps, v, vs[0], p, ps[0])
    ensures Trail(steps, [v] + vs, [p] + ps)
  {
    hide Passes;
    var ws, qs := [v] + vs, [p] + ps;
    forall i | 0 < i < |ws| ensures Passes(steps, ws[i - 1], ws[i], qs[i - 1], qs[i]) {
      assert ws[i] == vs[i - 1] && qs[i] == ps[i - 1];
      if i > 1 { assert ws[i - 1] == vs[i - 2] && qs[i - 1] == ps[i - 2]; }
    }
  }

  lemma AccountsPrepends(v: string, p: Payload, vs: seq<string>, ps: seq<Payload>, entries: seq<Provenance>)
    requires |vs| == |ps| >= 1 && Accounts(vs, ps, entries)
    ensures Accounts([v] + vs, [p] + ps, [Provenance(v, vs[0], DigestOf(p), DigestOf(ps[0]))] + entries)
  {
    var more := [Provenance(v, vs[0], DigestOf(p), DigestOf(ps[0]))] + entries;
    forall i | 0 < i < |more| ensures more[i] == entries[i - 1] {}
  }

  lemma {:induction false} WalkTrail(steps: Steps, current: string, latest: string, payload: Payload)
    returns (vs: seq<string>, ps: seq<Payload>)
    requires Valid(steps) && Numeric(current) && Numeric(latest) && IsLatest(steps, Number(latest))
    requires Number(current) <= Number(latest)
    ensures |vs| == |ps| >= 1 && Trail(steps, vs, ps) && vs[0] == current && ps[0] == payload
    ensures match Walk(steps, current, latest, payload)
      case Ok((final, entries)) => vs[|vs| - 1] == latest && ps[|ps| - 1] == final && Accounts(vs, ps, entries)
      case Err(e) => vs[|vs| - 1] != latest && StopsAt(steps, vs[|vs| - 1], ps[|ps| - 1], e)
    decreases Number(latest) - Number(current)
  {
    hide Number, IsLatest, Trail, Accounts;
    if current == latest || Step(steps, current, payload).Err? {
      vs, ps := [current], [payload];
      StandsStill(steps, current, payload);
    } else {
      var (to, migrated) := Step(steps, current, payload).value;
      TargetsAreBelow(steps, Number(latest), current);
      vs, ps := WalkTrail(steps, to, latest, migrated);
      LastOfMore(current, payload, vs, ps);
      assert Passes(steps, current, vs[0], payload, ps[0]);
      TrailPrepends(steps, current, payload, vs, ps);
      var rest := Walk(steps, to, latest, migrated);
      if rest.Ok? { AccountsPrepends(current, payload, vs, ps, rest.value.1); }
      vs, ps := [current] + vs, [payload] + ps;
    }
  }

  lemma StandsStill(steps: Steps, v: string, p: Payload)
    ensures Trail(steps, [v], [p]) && Accounts([v], [p], [])
  {
  }

  lemma LastOfMore(v: string, p: Payload, vs: seq<string>, ps: seq<Payload>)
    requires |vs| == |ps| >= 1
    ensures ([v] + vs)[|vs|] == vs[|vs| - 1] && ([p] + ps)[|ps|] == ps[|ps| - 1]
    ensures ([v] + vs)[0] == v && ([p] + ps)[0] == p
  {
  }

  /** A migration passes the payload through the registered migrations, one version after the other, and its entries
      say so; the outcome is what the last of them returned. It ends in an error if and only if one of them is missing
      or returns what it must not, and nothing after that one has run. */
  lemma MigratedThrough(steps: Steps, latest: nat, payload: Payload) returns (vs: seq<string>, ps: seq<Payload>)
    requires Valid(steps) && IsLatest(steps, latest)
    requires payload.version.Some? && Numeric(payload.version.value) && Number(payload.version.value) <= latest
    ensures |vs| == |ps| >= 1 && Trail(steps, vs, ps) && vs[0] == payload.version.value && ps[0] == payload
    ensures match MigratedTo(steps, latest, payload)
      case Ok(m) => && vs[|vs| - 1] == m.to == Decimal(latest) && m.from == vs[0] && m.payload == ps[|ps| - 1]
                    && Accounts(vs, ps, m.provenance)
      case Err(e) => vs[|vs| - 1] != Decimal(latest) && StopsAt(steps, vs[|vs| - 1], ps[|ps| - 1], e)
  {
    vs, ps := WalkTrail(steps, payload.version.value, Decimal(latest), payload);
  }

  /** Without a version that is a number there is nothing to migrate from, and beyond the latest nothing to migrate
      to. */
  lemma RefusedIff(steps: Steps, latest: nat, payload: Payload)
    requires Valid(steps) && IsLatest(steps, latest)
    ensures payload.version.None? || !Numeric(payload.version.value) ==>
      MigratedTo(steps, latest, payload) == Err(NotNumeric)
    ensures MigratedTo(steps, latest, payload) == Err(FutureVersion) <==>
      payload.version.Some? && Numeric(payload.version.value) && Number(payload.version.value) > latest
  {
    if payload.version.Some? && Numeric(payload.version.value) && Number(payload.version.value) <= latest {
      var vs, ps := MigratedThrough(steps, latest, payload);
    }
  }

  /** Versions are numbers in decimal, and a leading zero makes no difference to which. */
  lemma VersionsAreDecimal(s: string)
    requires Numeric(s)
    ensures Number("0") == 0 && Number("9") == 9 && Number("10") == 10
    ensures Number("0" + s) == Number(s) && Number(s + "0") == 10 * Number(s)
  {
    assert "10"[..1] == "1" && "1"[..0] == "" && "9"[..0] == "" && "0"[..0] == "";
    assert (s + "0")[..|s|] == s;
    LeadingZero(s);
  }

  lemma {:induction false} LeadingZero(s: string)
    requires forall c <- s :: IsDigit(c)
    ensures Number("0" + s) == Number(s)
  {
    if s == "" {
      assert "0" + s == "0" && "0"[..0] == "";
    } else {
      LeadingZero(s[..|s| - 1]);
      assert ("0" + s)[..|s|] == "0" + s[..|s| - 1];
    }
  }

  /** Migrating the outcome again changes nothing and adds no entry. */
  lemma MigratingAgainIsIdle(steps: Steps, latest: nat, payload: Payload)
    requires Valid(steps) && IsLatest(steps, latest) && MigratedTo(steps, latest, payload).Ok?
    ensures var m := MigratedTo(steps, latest, payload).value;
      MigratedTo(steps, latest, m.payload) == Ok(Migrated(m.payload, m.to, m.to, []))
  {
    MigratedIs(steps, latest, payload);
  }

  /** A version that is the latest by number but not in its spelling, like "02", ends in an error: no step starts
      there. */
  lemma OddSpellingIsMissing(steps: Steps, latest: nat, payload: Payload)
    requires Valid(steps) && IsLatest(steps, latest)
    requires payload.version.Some? && Numeric(payload.version.value) && Number(payload.version.value) == latest
    requires payload.version.value != Decimal(latest)
    ensures MigratedTo(steps, latest, payload) == Err(MissingMigration(payload.version.value))
  {
    TargetsAreBelow(steps, latest, payload.version.value);
  }
}
