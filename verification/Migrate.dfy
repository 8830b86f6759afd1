/** Versioned in-place config migration (cmd/lexa-migrate): backup, staged write, rename,
  * with recovery at the start of the next run.
  *
  * A run may be cut off before any file operation, by a crash or by an I/O error: `Disk.power`
  * counts the file operations that still complete, and `Disk.partial` says whether the write
  * under way at the cut leaves a truncated file behind. A rename is atomic. */
module Migrate {
  import opened Prelude

  datatype Json = Null | Number(n: real) | Other(text: string)

  type Doc = map<string, Json>

  /** What a file's bytes decode to. `JsonNull` is the literal `null`: it decodes without an error
    * into a nil map. `Garbage` is everything else that is not a JSON object. */
  datatype Content = Whole(doc: Doc) | JsonNull | Garbage

  /** One registry entry. `apply` yields None when the step reports an error. On a nil map a step may report an error
    * as well; any other one panics, at the latest when the version is stamped. */
  datatype Migration = Migration(version: int, apply: Doc -> Option<Doc>, failsOnNull: bool)

  const VersionKey := "schema_version"

  predicate Contiguous(steps: seq<Migration>) {
    forall i | 0 <= i < |steps| :: steps[i].version == i + 1
  }

  method CheckRegistry(steps: seq<Migration>) returns (ok: bool)
    ensures ok <==> Contiguous(steps)
  {
    var prev := 0;
    for i := 0 to |steps|
      invariant prev == i
      invariant forall j | 0 <= j < i :: steps[j].version == j + 1
    {
      if steps[i].version != prev + 1 {
        return false;
      }
      prev := steps[i].version;
    }
    return true;
  }

  method MaxKnownVersion(steps: seq<Migration>) returns (max: int)
    ensures 0 <= max && forall i | 0 <= i < |steps| :: steps[i].version <= max
    ensures max == 0 || exists i | 0 <= i < |steps| :: steps[i].version == max
    ensures Contiguous(steps) ==> max == |steps|
  {
    max := 0;
    for k := 0 to |steps|
      invariant 0 <= max && forall i | 0 <= i < k :: steps[i].version <= max
      invariant max == 0 || exists i | 0 <= i < k :: steps[i].version == max
    {
      if steps[k].version > max {
        max := steps[k].version;
      }
    }
    if Contiguous(steps) && |steps| > 0 {
      assert steps[|steps| - 1].version == |steps|;
    }
  }

  /** The document's version; None when the key is present and not a non-negative integer. */
  function ReadVersion(doc: Doc): Option<nat> {
    if VersionKey !in doc then Some(0) else
    match doc[VersionKey]
    case Null => Some(0)
    case Other(_) => None
    case Number(f) => if f < 0.0 || f.Floor as real != f then None else Some(f.Floor)
  }

  /** One step: apply, then stamp the version whatever apply did to it. */
  function Stepped(step: Migration, doc: Doc): Option<Doc> {
    match step.apply(doc)
    case None => None
    case Some(d) => Some(d[VersionKey := Number(step.version as real)])
  }

  lemma SteppedVersion(step: Migration, doc: Doc)
    requires step.version >= 0 && Stepped(step, doc).Some?
    ensures ReadVersion(Stepped(step, doc).value) == Some(step.version)
  {
    assert (step.version as real).Floor == step.version;
  }

  /** The document at version `k`, reached from `doc` at version `from` without any interruption. */
  function DocAt(steps: seq<Migration>, doc: Doc, from: nat, k: nat): Option<Doc>
    requires from <= k <= |steps|
    decreases k
  {
    if k == from then Some(doc) else
    match DocAt(steps, doc, from, k - 1)
    case None => None
    case Some(d) => Stepped(steps[k - 1], d)
  }

  datatype Clean = Clean(doc: Doc, complete: bool)

  /** The crash-free migration of `doc` from version `v`: it stops at the first step that fails. */
  function CleanRun(steps: seq<Migration>, doc: Doc, v: nat): Clean
    requires v <= |steps|
    decreases |steps| - v
  {
    if v == |steps| then Clean(doc, true) else
    match Stepped(steps[v], doc)
    case None => Clean(doc, false)
    case Some(d) => CleanRun(steps, d, v + 1)
  }

  lemma CleanRunStep(steps: seq<Migration>, doc: Doc, v: nat, next: Doc)
    requires v < |steps| && Stepped(steps[v], doc) == Some(next)
    ensures CleanRun(steps, doc, v) == CleanRun(steps, next, v + 1)
  {
  }

  /** Resuming from any document on the way ends where the crash-free run ends. */
  lemma {:induction false} CleanRunResumes(steps: seq<Migration>, doc: Doc, from: nat, k: nat)
    requires from <= k <= |steps| && DocAt(steps, doc, from, k).Some?
    ensures CleanRun(steps, DocAt(steps, doc, from, k).value, k) == CleanRun(steps, doc, from)
    decreases k
  {
    if k > from {
      CleanRunResumes(steps, doc, from, k - 1);
    }
  }

  // ---------------------------------------------------------------- what a migration does to a document

  /** `after` is what the step made of `before`: key for key as it left the document, with the version stamped. */
  ghost predicate Follows(step: Migration, before: Doc, after: Doc) {
    && step.apply(before).Some?
    && var left := step.apply(before).value;
       && VersionKey in after && after[VersionKey] == Number(step.version as real)
       && forall key | key != VersionKey ::
            && (key in after <==> key in left)
            && (key in left ==> after[key] == left[key])
  }

  /** The documents of a migration from version v0 on. */
  ghost predicate History(steps: seq<Migration>, docs: seq<Doc>, v0: nat) {
    && docs != [] && v0 + |docs| - 1 <= |steps|
    && forall i | 0 <= i < |docs| - 1 :: Follows(steps[v0 + i], docs[i], docs[i + 1])
  }

  /** `end` came of `origin` by the steps due, all of them or up to the first that reports an error. */
  ghost predicate MigratedBy(steps: seq<Migration>, origin: Doc, v0: nat, end: Doc, complete: bool) {
    exists docs :: Documents(steps, docs, origin, v0, end, complete)
  }

  ghost predicate Documents(
    steps: seq<Migration>, docs: seq<Doc>, origin: Doc, v0: nat, end: Doc, complete: bool)
  {
    && History(steps, docs, v0) && docs[0] == origin && docs[|docs| - 1] == end
    && var v := v0 + |docs| - 1;
       if complete then v == |steps| else v < |steps| && steps[v].apply(end).None?
  }

  lemma SteppedFollows(step: Migration, doc: Doc)
    requires Stepped(step, doc).Some?
    ensures Follows(step, doc, Stepped(step, doc).value)
  {
  }

  lemma {:induction false} CleanRunHistory(steps: seq<Migration>, doc: Doc, v: nat) returns (docs: seq<Doc>)
    requires v <= |steps|
    ensures var clean := CleanRun(steps, doc, v); Documents(steps, docs, doc, v, clean.doc, clean.complete)
    decreases |steps| - v
  {
    if v == |steps| || Stepped(steps[v], doc).None? {
      docs := [doc];
    } else {
      var next := Stepped(steps[v], doc).value;
      SteppedFollows(steps[v], doc);
      var rest := CleanRunHistory(steps, next, v + 1);
      docs := [doc] + rest;
      assert docs[1..] == rest;
      forall i | 0 <= i < |docs| - 1
        ensures Follows(steps[v + i], docs[i], docs[i + 1])
      {
        if i > 0 {
          assert Follows(steps[v + 1 + (i - 1)], rest[i - 1], rest[i]);
        }
      }
    }
  }

  /** Presence and value agree for every key that is not owned and not the version. */
  ghost predicate SameOutside(a: Doc, b: Doc, owned: set<string>) {
    forall key | key !in owned && key != VersionKey :: (key in a <==> key in b) && (key in a ==> a[key] == b[key])
  }

  /** No step touches a key outside `owned`. */
  ghost predicate OthersLeftAlone(steps: seq<Migration>, owned: set<string>) {
    forall i, doc | 0 <= i < |steps| && steps[i].apply(doc).Some? :: SameOutside(doc, steps[i].apply(doc).value, owned)
  }

  lemma {:induction false} HistoryLeavesOthers(
    steps: seq<Migration>, docs: seq<Doc>, v0: nat, owned: set<string>)
    requires History(steps, docs, v0) && OthersLeftAlone(steps, owned)
    ensures SameOutside(docs[0], docs[|docs| - 1], owned)
    decreases |docs|
  {
    if |docs| > 1 {
      var front := docs[..|docs| - 1];
      HistoryLeavesOthers(steps, front, v0, owned);
      var i := |docs| - 2;
      assert Follows(steps[v0 + i], docs[i], docs[i + 1]);
      assert SameOutside(docs[i], steps[v0 + i].apply(docs[i]).value, owned);
    }
  }

  /** Whatever no step owns is in the result as it was in the original. */
  lemma MigrationLeavesOthers(
    steps: seq<Migration>, origin: Doc, v0: nat, end: Doc, complete: bool, owned: set<string>)
    requires MigratedBy(steps, origin, v0, end, complete) && OthersLeftAlone(steps, owned)
    ensures SameOutside(origin, end, owned)
  {
    var docs :| Documents(steps, docs, origin, v0, end, complete);
    HistoryLeavesOthers(steps, docs, v0, owned);
  }

  /** The crash-free run is such a migration. */
  lemma CleanRunMigrates(steps: seq<Migration>, doc: Doc, v: nat)
    requires v <= |steps|
    ensures var clean := CleanRun(steps, doc, v);
            && MigratedBy(steps, doc, v, clean.doc, clean.complete)
            && forall owned | OthersLeftAlone(steps, owned) :: SameOutside(doc, clean.doc, owned)
  {
    var clean := CleanRun(steps, doc, v);
    var docs := CleanRunHistory(steps, doc, v);
    forall owned | OthersLeftAlone(steps, owned)
      ensures SameOutside(doc, clean.doc, owned)
    {
      MigrationLeavesOthers(steps, doc, v, clean.doc, clean.complete, owned);
    }
  }

  // ---------------------------------------------------------------- the disk

  /** What the live file holds once recovery has run. */
  function Recovered(live: Option<Content>, staged: Option<Content>): Option<Content> {
    if live.None? || staged.None? || staged.value.Garbage? then live else staged
  }

  datatype Outcome =
    | Missing | Unchanged | Migrated | Refused | ParseError | VersionError | ApplyError | Panicked
    | Cut // an operation failed or the process died

  /** A step on a nil map: an assignment to one of its entries panics. */
  function OnNull(step: Migration): Outcome {
    if step.failsOnNull then ApplyError else Panicked
  }

  class Disk {
    var live: Option<Content>
    var staged: Option<Content>
    var backups: map<nat, Content>

    var power: nat
    var partial: bool
    // Versions whose backup write was cut half way.
    ghost var torn: set<nat>

    constructor (live: Option<Content>)
      ensures this.live == live && staged == None && backups == map[] && torn == {}
    {
      this.live, staged, backups, torn := live, None, map[], {};
      power, partial := 0, false;
    }

    method WriteStaged(doc: Doc) returns (done: bool)
      modifies this`staged, this`power
      ensures done <==> old(power) > 0
      ensures power == if done then old(power) - 1 else 0
      ensures staged == if done then Some(Whole(doc)) else if partial then Some(Garbage) else old(staged)
    {
      done := power > 0;
      if done {
        staged, power := Some(Whole(doc)), power - 1;
      } else if partial {
        staged := Some(Garbage);
      }
    }

    /** Renames the staged file over the live one. */
    method CommitStaged() returns (done: bool)
      requires staged.Some?
      modifies this`live, this`staged, this`power
      ensures done <==> old(power) > 0
      ensures power == if done then old(power) - 1 else 0
      ensures if done then live == old(staged) && staged == None else live == old(live) && staged == old(staged)
    {
      done := power > 0;
      if done {
        live, staged, power := staged, None, power - 1;
      }
    }

    method DiscardStaged() returns (done: bool)
      modifies this`staged, this`power
      ensures done <==> old(power) > 0
      ensures power == if done then old(power) - 1 else 0
      ensures staged == if done then None else old(staged)
    {
      done := power > 0;
      if done {
        staged, power := None, power - 1;
      }
    }

    /** Copies the live file to the backup of version `v` unless that backup exists. */
    method BackupOnce(v: nat) returns (done: bool)
      requires live.Some?
      modifies this`backups, this`power, this`torn
      ensures done <==> v in old(backups) || old(power) > 0
      ensures power == if v in old(backups) || old(power) == 0 then old(power) else old(power) - 1
      ensures v in old(backups) ==> backups == old(backups) && torn == old(torn)
      ensures v !in old(backups) && done ==> backups == old(backups)[v := live.value] && torn == old(torn)
      ensures v !in old(backups) && !done && partial ==>
                backups == old(backups)[v := Garbage] && torn == old(torn) + {v}
      ensures v !in old(backups) && !done && !partial ==> backups == old(backups) && torn == old(torn)
    {
      if v in backups {
        return true;
      }
      done := power > 0;
      if done {
        backups, power := backups[v := live.value], power - 1;
      } else if partial {
        backups, torn := backups[v := Garbage], torn + {v};
      }
    }

    ghost predicate Safe(steps: seq<Migration>, origin: Doc)
      reads this
    {
      live.Some? && live.value.Whole? && SafeState(steps, origin, live.value.doc, staged, backups, torn)
    }
  }

  /** Every state that interrupted migrations of `origin` can leave behind. */
  ghost predicate SafeState(
    steps: seq<Migration>, origin: Doc, live: Doc, staged: Option<Content>, backups: map<nat, Content>, torn: set<nat>)
  {
    && ReadVersion(origin).Some? && ReadVersion(live).Some?
    && var v0, v := ReadVersion(origin).value, ReadVersion(live).value;
    && v0 <= v <= |steps|
    && DocAt(steps, origin, v0, v) == Some(live)
    && (staged.Some? && !staged.value.Garbage? ==>
          v < |steps| && v in backups && staged.value.Whole? && Stepped(steps[v], live) == Some(staged.value.doc))
    && BackupsOk(steps, origin, v0, v, backups, torn)
  }

  /** One backup per committed step; each is the document of its version unless its write was cut. */
  ghost predicate BackupsOk(
    steps: seq<Migration>, origin: Doc, v0: nat, v: nat, backups: map<nat, Content>, torn: set<nat>)
    requires v0 <= v <= |steps|
  {
    && (forall n | v0 <= n < v :: n in backups)
    && torn <= backups.Keys
    && forall n | n in backups ::
         && v0 <= n <= v
         && if n in torn then backups[n] == Garbage
            else DocAt(steps, origin, v0, n).Some? && backups[n] == Whole(DocAt(steps, origin, v0, n).value)
  }

  lemma {:induction false} DocAtLeavesOthers(steps: seq<Migration>, doc: Doc, from: nat, k: nat, owned: set<string>)
    requires from <= k <= |steps| && OthersLeftAlone(steps, owned) && DocAt(steps, doc, from, k).Some?
    ensures SameOutside(doc, DocAt(steps, doc, from, k).value, owned)
    decreases k
  {
    if k > from {
      DocAtLeavesOthers(steps, doc, from, k - 1, owned);
      var before := DocAt(steps, doc, from, k - 1).value;
      SteppedFollows(steps[k - 1], before);
      assert SameOutside(before, steps[k - 1].apply(before).value, owned);
    }
  }

  /** Whatever was cut: on the live file, and in every backup written whole, each key that no step owns is as it was
    * in the original. */
  lemma CutsLeaveOthers(
    steps: seq<Migration>, origin: Doc, live: Doc, staged: Option<Content>, backups: map<nat, Content>, torn: set<nat>,
    owned: set<string>)
    requires SafeState(steps, origin, live, staged, backups, torn) && OthersLeftAlone(steps, owned)
    ensures SameOutside(origin, live, owned)
    ensures forall n | n in backups && n !in torn :: backups[n].Whole? && SameOutside(origin, backups[n].doc, owned)
  {
    var v0 := ReadVersion(origin).value;
    DocAtLeavesOthers(steps, origin, v0, ReadVersion(live).value, owned);
    forall n | n in backups && n !in torn
      ensures backups[n].Whole? && SameOutside(origin, backups[n].doc, owned)
    {
      DocAtLeavesOthers(steps, origin, v0, n, owned);
    }
  }

  /** A backup of the live document, or the torn start of one, keeps the disk safe. */
  lemma BackupKeepsSafe(
    steps: seq<Migration>, origin: Doc, live: Doc, staged: Option<Content>, backups: map<nat, Content>, torn: set<nat>)
    requires SafeState(steps, origin, live, staged, backups, torn) && ReadVersion(live).value !in backups
    ensures var v := ReadVersion(live).value;
            && SafeState(steps, origin, live, staged, backups[v := Whole(live)], torn)
            && SafeState(steps, origin, live, staged, backups[v := Garbage], torn + {v})
  {
  }

  lemma CommitKeepsSafe(
    steps: seq<Migration>, origin: Doc, live: Doc, staged: Content, backups: map<nat, Content>, torn: set<nat>)
    requires Contiguous(steps) && SafeState(steps, origin, live, Some(staged), backups, torn) && !staged.Garbage?
    ensures SafeState(steps, origin, staged.doc, None, backups, torn)
  {
    SteppedVersion(steps[ReadVersion(live).value], live);
  }

  /** Backups are only ever added. */
  ghost predicate Extends(before: map<nat, Content>, after: map<nat, Content>) {
    forall n | n in before :: n in after && after[n] == before[n]
  }

  /** Finishes or discards a commit an earlier run left half done. */
  method RecoverStaged(disk: Disk, dryRun: bool, ghost steps: seq<Migration>, ghost origin: Doc)
    returns (done: bool)
    requires disk.live.Some?
    modifies disk`live, disk`staged, disk`power
    ensures dryRun ==> done && unchanged(disk)
    ensures !dryRun && done ==>
              disk.staged == None && disk.live == Recovered(old(disk.live), old(disk.staged))
    // A leftover that parses is committed, any other thrown away.
    ensures !dryRun && done ==>
              disk.live == if old(disk.staged) in {None, Some(Garbage)} then old(disk.live) else old(disk.staged)
    ensures !done ==> disk.live == old(disk.live) && disk.staged == old(disk.staged) && old(disk.power) == 0
    ensures disk.power >= old(disk.power) - 1
    ensures old(disk.Safe(steps, origin)) && Contiguous(steps) ==> disk.Safe(steps, origin)
  {
    done := true;
    if disk.staged.Some? && !dryRun {
      if disk.staged.value.Garbage? {
        done := disk.DiscardStaged();
      } else {
        if disk.Safe(steps, origin) && Contiguous(steps) {
          CommitKeepsSafe(steps, origin, disk.live.value.doc, disk.staged.value, disk.backups, disk.torn);
        }
        done := disk.CommitStaged();
      }
    }
  }

  /** One iteration of the step loop: back up, apply, stage, commit. `r` is Migrated when the step is
    * committed. */
  method CommitStep(disk: Disk, steps: seq<Migration>, cur: nat, doc: Doc, ghost origin: Doc)
    returns (r: Outcome, next: Doc)
    requires Contiguous(steps) && cur < |steps|
    requires disk.staged == None && disk.live in {Some(Whole(doc)), Some(JsonNull)} && ReadVersion(doc) == Some(cur)
    modifies disk`live, disk`staged, disk`power, disk`backups, disk`torn
    ensures r in {Migrated, ApplyError, Panicked, Cut}
    ensures r == Migrated ==>
              && Stepped(steps[cur], doc) == Some(next) && ReadVersion(next) == Some(cur + 1)
              && disk.live == Some(Whole(next)) && disk.staged == None
    ensures r != Migrated ==> disk.live == old(disk.live)
    ensures r in {ApplyError, Panicked} ==> disk.staged == None
    ensures r == ApplyError && disk.live.value.Whole? ==> Stepped(steps[cur], doc) == None
    ensures r == Panicked ==> disk.live == Some(JsonNull)
    ensures old(disk.live) == Some(JsonNull) ==> r in {OnNull(steps[cur]), Cut}
    ensures Extends(old(disk.backups), disk.backups)
    ensures disk.power >= old(disk.power) - 3
    ensures old(disk.power) >= 3 ==> r != Cut
    ensures old(disk.Safe(steps, origin)) ==> disk.Safe(steps, origin)
  {
    next := doc;
    var step := steps[cur];
    ghost var safe := disk.Safe(steps, origin);
    if safe && cur !in disk.backups {
      BackupKeepsSafe(steps, origin, doc, disk.staged, disk.backups, disk.torn);
    }
    var ok := disk.BackupOnce(cur);
    assert safe ==> disk.Safe(steps, origin);
    if !ok {
      return Cut, next;
    }
    if disk.live.value.JsonNull? {
      return OnNull(step), next;
    }
    var stepped := Stepped(step, doc);
    if stepped.None? {
      return ApplyError, next;
    }
    SteppedVersion(step, doc);
    next := stepped.value;
    ok := StageAndCommit(disk, steps, cur, doc, next, origin);
    r := if ok then Migrated else Cut;
  }

  /** The staged write of the next document and its rename over the live file. */
  method StageAndCommit(disk: Disk, steps: seq<Migration>, cur: nat, doc: Doc, next: Doc, ghost origin: Doc)
    returns (done: bool)
    requires Contiguous(steps) && cur < |steps| && cur in disk.backups
    requires disk.staged == None && disk.live == Some(Whole(doc)) && ReadVersion(doc) == Some(cur)
    requires Stepped(steps[cur], doc) == Some(next)
    modifies disk`live, disk`staged, disk`power
    ensures done ==> disk.live == Some(Whole(next)) && disk.staged == None
    ensures !done ==> disk.live == old(disk.live)
    ensures disk.power >= old(disk.power) - 2 && (old(disk.power) >= 2 ==> done)
    ensures old(disk.Safe(steps, origin)) ==> disk.Safe(steps, origin)
  {
    ghost var safe := disk.Safe(steps, origin);
    done := disk.WriteStaged(next);
    assert safe ==> disk.Safe(steps, origin);
    if !done {
      return;
    }
    if safe {
      CommitKeepsSafe(steps, origin, doc, disk.staged.value, disk.backups, disk.torn);
    }
    done := disk.CommitStaged();
  }

  /** The step loop from version `version` on. */
  method RunSteps(disk: Disk, steps: seq<Migration>, version: nat, start: Doc, ghost origin: Doc)
    returns (r: Outcome)
    requires Contiguous(steps) && version < |steps| && disk.staged == None
    requires disk.live in {Some(Whole(start)), Some(JsonNull)} && ReadVersion(start) == Some(version)
    modifies disk`live, disk`staged, disk`power, disk`backups, disk`torn
    ensures r in {Migrated, ApplyError, Panicked, Cut}
    ensures r == Panicked ==> disk.live == Some(JsonNull) && old(disk.live) == Some(JsonNull) && disk.staged == None
    ensures old(disk.live) == Some(JsonNull) ==>
              r in {OnNull(steps[version]), Cut} && disk.live == old(disk.live) && (r != Cut ==> disk.staged == None)
    ensures r in {Migrated, ApplyError} && old(disk.live) != Some(JsonNull) ==>
              && disk.staged == None
              && var clean := CleanRun(steps, start, version);
              && disk.live == Some(Whole(clean.doc)) && clean.complete == (r == Migrated)
    ensures Extends(old(disk.backups), disk.backups)
    ensures old(disk.power) >= 3 * |steps| ==> r != Cut
    ensures old(disk.Safe(steps, origin)) ==> disk.Safe(steps, origin)
  {
    var cur, doc := version, start;
    ghost var safe := disk.Safe(steps, origin);
    for i := 0 to |steps|
      invariant cur == Max(version, i)
      invariant Extends(old(disk.backups), disk.backups)
      invariant disk.staged == None && ReadVersion(doc) == Some(cur)
      invariant disk.live == (if cur == version then old(disk.live) else Some(Whole(doc)))
      invariant cur == version ==> doc == start
      invariant cur != version ==> old(disk.live) != Some(JsonNull)
      invariant safe ==> disk.Safe(steps, origin)
      invariant CleanRun(steps, doc, cur) == CleanRun(steps, start, version)
      invariant disk.power >= old(disk.power) - 3 * i
    {
      if steps[i].version <= cur {
        continue;
      }
      ghost var before := doc;
      r, doc := CommitStep(disk, steps, cur, doc, origin);
      if r != Migrated {
        return;
      }
      CleanRunStep(steps, before, cur, doc);
      cur := steps[i].version;
    }
    r := Migrated;
  }

  /** Brings the file to the registry's newest version.
    * Whatever `origin` the disk started from, a cut leaves it `Safe`; a run that is not cut ends
    * with the crash-free result. */
  method ProcessFile(disk: Disk, steps: seq<Migration>, dryRun: bool, ghost origin: Doc)
    returns (r: Outcome)
    requires Contiguous(steps)
    modifies disk`live, disk`staged, disk`power, disk`backups, disk`torn
    ensures dryRun ==> unchanged(disk)
    ensures Extends(old(disk.backups), disk.backups)
    ensures r == Missing <==> old(disk.live) == None
    ensures old(disk.Safe(steps, origin)) ==> disk.Safe(steps, origin)
    ensures old(disk.Safe(steps, origin)) && r != Cut && !dryRun ==>
              && disk.staged == None
              && var clean := CleanRun(steps, origin, ReadVersion(origin).value);
              && disk.live == Some(Whole(clean.doc))
              && (r in {Unchanged, Migrated} <==> clean.complete)
              && (r == ApplyError <==> !clean.complete)
    // Step by step, and with every key that no step owns as it was.
    ensures old(disk.Safe(steps, origin)) && r != Cut && !dryRun ==>
              && disk.live.Some? && disk.live.value.Whole?
              && MigratedBy(steps, origin, ReadVersion(origin).value, disk.live.value.doc, r != ApplyError)
              && forall owned | OthersLeftAlone(steps, owned) :: SameOutside(origin, disk.live.value.doc, owned)
    // A newer file is refused; recovery may still have replaced it.
    ensures r in {Refused, ParseError, VersionError, Unchanged, Panicked} && !dryRun ==>
              disk.live == Recovered(old(disk.live), old(disk.staged)) && disk.staged == None
    ensures r in {Refused, ParseError, VersionError, Unchanged} ==> disk.backups == old(disk.backups)
    ensures r == Refused ==>
              var l := if dryRun then disk.live else Recovered(old(disk.live), old(disk.staged));
              l.Some? && l.value.Whole? && ReadVersion(l.value.doc).Some? && ReadVersion(l.value.doc).value > |steps|
    // Every refusal, and only where there is cause for it.
    ensures old(disk.live).Some? && r != Cut ==>
              var l := (if dryRun then old(disk.live) else Recovered(old(disk.live), old(disk.staged))).value;
              && (r == ParseError <==> l == Garbage)
              && (r == VersionError <==> l.Whole? && ReadVersion(l.doc) == None)
              && (r == Refused <==> l.Whole? && ReadVersion(l.doc).Some? && ReadVersion(l.doc).value > |steps|)
              && (r == Unchanged <==>
                    if l.Whole? then ReadVersion(l.doc) == Some(|steps|) else l == JsonNull && steps == [])
    // A run that is not cut panics exactly on a literal null that the first step does not refuse.
    ensures !dryRun && r != Cut ==>
              (r == Panicked <==>
                 && steps != [] && !steps[0].failsOnNull
                 && Recovered(old(disk.live), old(disk.staged)) == Some(JsonNull))
    ensures old(disk.power) >= 1 + 3 * |steps| ==> r != Cut
  {
    if disk.live == None {
      return Missing;
    }
    var ok := RecoverStaged(disk, dryRun, steps, origin);
    if !ok {
      return Cut;
    }
    if disk.live.value.Garbage? {
      return ParseError;
    }
    var doc: Doc := if disk.live.value.Whole? then disk.live.value.doc else map[];
    var found := ReadVersion(doc);
    if found.None? {
      return VersionError;
    }
    var version := found.value;
    if old(disk.Safe(steps, origin)) && !dryRun {
      CleanRunResumes(steps, origin, ReadVersion(origin).value, version);
      CleanRunMigrates(steps, origin, ReadVersion(origin).value);
    }
    var maxV := MaxKnownVersion(steps);
    if version > maxV {
      return Refused;
    }
    if version == maxV {
      return Unchanged;
    }
    if dryRun {
      return Migrated; // every step would run; nothing is written
    }
    r := RunSteps(disk, steps, version, doc, origin);
  }

  /** Any number of runs cut off anywhere, then one that is not: the result is the crash-free one. */
  method MigrateUnderCuts(disk: Disk, steps: seq<Migration>, cuts: seq<(nat, bool)>, ghost origin: Doc)
    returns (r: Outcome)
    requires Contiguous(steps) && disk.Safe(steps, origin)
    modifies disk
    ensures disk.Safe(steps, origin) && disk.staged == None
    ensures var clean := CleanRun(steps, origin, ReadVersion(origin).value);
            && disk.live == Some(Whole(clean.doc))
            && (r in {Unchanged, Migrated} <==> clean.complete)
            && (r == ApplyError <==> !clean.complete)
    ensures disk.live.Some? && disk.live.value.Whole?
    ensures MigratedBy(steps, origin, ReadVersion(origin).value, disk.live.value.doc, r != ApplyError)
    ensures forall owned | OthersLeftAlone(steps, owned) :: SameOutside(origin, disk.live.value.doc, owned)
  {
    for i := 0 to |cuts|
      invariant disk.Safe(steps, origin)
    {
      disk.power, disk.partial := cuts[i].0, cuts[i].1;
      r := ProcessFile(disk, steps, false, origin);
    }
    disk.power := 1 + 3 * |steps|;
    r := ProcessFile(disk, steps, false, origin);
  }

  /** A file no run has touched yet is a valid starting point. */
  method Start(steps: seq<Migration>, origin: Doc) returns (disk: Disk)
    requires ReadVersion(origin).Some? && ReadVersion(origin).value <= |steps|
    ensures fresh(disk) && disk.Safe(steps, origin) && disk.live == Some(Whole(origin)) && disk.backups == map[]
  {
    disk := new Disk(Some(Whole(origin)));
  }

  /** The one step every file ships with. */
  const STAMP := Migration(1, (doc: Doc) => Some(doc[VersionKey := Number(1.0)]), false)

  /** It adds the version to a file without one and changes nothing else. */
  lemma ShippedStepOnlyStamps(origin: Doc, end: Doc, complete: bool)
    requires MigratedBy([STAMP], origin, 0, end, complete)
    ensures complete && end == origin[VersionKey := Number(1.0)]
  {
    var docs :| Documents([STAMP], docs, origin, 0, end, complete);
    assert |docs| == 2 && Follows(STAMP, docs[0], docs[1]);
    forall key | key in end || key in origin[VersionKey := Number(1.0)]
      ensures key in end && key in origin[VersionKey := Number(1.0)]
      ensures end[key] == origin[VersionKey := Number(1.0)][key]
    {
    }
  }

  /** A backup whose write was cut half way is never rewritten: the migration completes and the
    * pre-migration original is gone. */
  method TornBackupIsKept(step: Migration, origin: Doc, next: Doc) returns (disk: Disk)
    requires step.version == 1 && VersionKey !in origin && Stepped(step, origin) == Some(next)
    ensures disk.live == Some(Whole(next)) && 0 in disk.backups && disk.backups[0] == Garbage
  {
    var steps := [step];
    disk := Start(steps, origin);
    disk.power, disk.partial := 0, true;
    var done := disk.BackupOnce(0); // the run dies in its first write
    disk.power := 4;
    var r := ProcessFile(disk, steps, false, origin);
    assert CleanRun(steps, next, 1) == Clean(next, true);
  }
}
