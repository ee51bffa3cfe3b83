/** Schema migrations: one transaction a file, in file-name order, each recorded as it commits. */
module Migrate {
  import opened Wrappers
  import opened Sorting

  datatype DirEntry = DirEntry(name: string, isDir: bool)

  const UP_SUFFIX := ".up.sql"

  predicate HasSuffix(s: string, suffix: string) {
    |suffix| <= |s| && s[|s| - |suffix|..] == suffix
  }

  predicate IsUpMigration(e: DirEntry) {
    !e.isDir && HasSuffix(e.name, UP_SUFFIX)
  }

  predicate EndsInUpSql(name: string) {
    |name| >= 7 && name[|name| - 7..] == ".up.sql"
  }

  function UpNames(entries: seq<DirEntry>): seq<string> {
    if entries == [] then []
    else UpNames(entries[..|entries| - 1]) + if IsUpMigration(entries[|entries| - 1]) then [entries[|entries| - 1].name] else []
  }

  /** A directory holds each name once. */
  ghost predicate IsDirectory(entries: seq<DirEntry>) {
    forall i, j | 0 <= i < j < |entries| :: entries[i].name != entries[j].name
  }

  function MigrationNames(entries: seq<DirEntry>): seq<string> {
    SortStrings(UpNames(entries))
  }

  method UpMigrationNames(entries: seq<DirEntry>) returns (names: seq<string>)
    ensures names == MigrationNames(entries)
  {
    names := [];
    for i := 0 to |entries|
      invariant names == UpNames(entries[..i])
    {
      assert entries[..i + 1][..i] == entries[..i];
      if entries[i].isDir || !HasSuffix(entries[i].name, UP_SUFFIX) {
        continue;
      }
      names := names + [entries[i].name];
    }
    assert entries[..|entries|] == entries;
    names := SortStrings(names);
  }

  lemma {:induction false} UpNamesAre(entries: seq<DirEntry>)
    requires IsDirectory(entries)
    ensures NoDuplicates(UpNames(entries))
    ensures forall name :: name in UpNames(entries) <==> exists e :: e in entries && IsUpMigration(e) && e.name == name
  {
    if entries != [] {
      var front, last := entries[..|entries| - 1], entries[|entries| - 1];
      assert entries == front + [last];
      assert IsDirectory(front);
      UpNamesAre(front);
      assert forall e | e in front :: e.name != last.name;
      assert last.name !in UpNames(front);
      assert forall e | e in front :: e in entries;
    }
  }

  /** The names of a directory: each up-migration once, in ascending order. */
  lemma MigrationNamesAre(entries: seq<DirEntry>)
    requires IsDirectory(entries)
    ensures Ascending(MigrationNames(entries)) && NoDuplicates(MigrationNames(entries))
    ensures forall name :: name in MigrationNames(entries) <==> exists e :: e in entries && e.name == name && !e.isDir && EndsInUpSql(name)
  {
    UpNamesAre(entries);
    SortSorts(UpNames(entries));
    SortKeepsDistinct(UpNames(entries));
  }

  // ----- Applying -----

  /** What befalls one file's transaction. A crash rolls back whatever was not committed. */
  datatype Fate = Commits | BodyFails | CrashBeforeRecord | RecordFails | CrashBeforeCommit | CrashAfterCommit

  /** Names not yet committed, in the order the loop meets them. */
  function Missing(names: seq<string>, committed: seq<string>): seq<string> {
    if names == [] then []
    else (if names[0] in committed then [] else [names[0]]) + Missing(names[1..], committed)
  }

  /** How many of n files commit before the call ends. */
  function Progress(fates: nat -> Fate, n: nat, from: nat): nat
    decreases n
  {
    if n == 0 then 0
    else
      match fates(from)
      case Commits => 1 + Progress(fates, n - 1, from + 1)
      case CrashAfterCommit => 1
      case _ => 0
  }

  predicate AllCommit(fates: nat -> Fate, n: nat, from: nat)
    decreases n
  {
    n == 0 || (fates(from).Commits? && AllCommit(fates, n - 1, from + 1))
  }

  lemma {:induction false} ProgressIsBounded(fates: nat -> Fate, n: nat, from: nat)
    ensures Progress(fates, n, from) <= n && (AllCommit(fates, n, from) ==> Progress(fates, n, from) == n)
    decreases n
  {
    if n > 0 {
      ProgressIsBounded(fates, n - 1, from + 1);
    }
  }

  /** One call: the committed bodies afterwards. `starts` is false when it fails before its first file. */
  datatype Call = Call(starts: bool, fates: nat -> Fate)

  function Committed(names: seq<string>, committed: seq<string>, call: Call): seq<string> {
    var missing := Missing(names, committed);
    ProgressIsBounded(call.fates, |missing|, 0);
    if call.starts then committed + missing[..Progress(call.fates, |missing|, 0)] else committed
  }

  predicate Completes(names: seq<string>, committed: seq<string>, call: Call) {
    call.starts && AllCommit(call.fates, |Missing(names, committed)|, 0)
  }

  /** A database: the migration bodies whose effects it holds, and the rows of cryden_schema_migrations. */
  class Database {
    var bodies: seq<string>
    var recorded: seq<string>

    ghost predicate Valid()
      reads this
    {
      recorded == bodies
    }

    constructor ()
      ensures Valid() && bodies == []
    {
      bodies, recorded := [], [];
    }

    /** applyMigration: the body, its record, the commit; anything short of the commit is rolled back. */
    method ApplyMigration(name: string, fate: Fate) returns (ok: bool)
      requires Valid() && name !in recorded
      modifies this
      ensures Valid()
      ensures ok <==> fate.Commits?
      ensures bodies == if fate.Commits? || fate.CrashAfterCommit? then old(bodies) + [name] else old(bodies)
    {
      var bodiesBefore, recordedBefore := bodies, recorded;
      if fate.BodyFails? {
        return false;
      }
      bodies := bodies + [name];
      if fate.CrashBeforeRecord? || fate.RecordFails? {
        bodies, recorded := bodiesBefore, recordedBefore;
        return false;
      }
      recorded := recorded + [name];
      if fate.CrashBeforeCommit? {
        bodies, recorded := bodiesBefore, recordedBefore;
        return false;
      }
      return fate.Commits?;
    }

    method Migrate(entries: seq<DirEntry>, call: Call) returns (ok: bool)
      requires Valid() && IsDirectory(entries)
      modifies this
      ensures Valid()
      ensures bodies == Committed(MigrationNames(entries), old(bodies), call)
      ensures ok <==> Completes(MigrationNames(entries), old(bodies), call)
    {
      if !call.starts {
        return false;
      }
      var applied := recorded;
      var names := UpMigrationNames(entries);
      MigrationNamesAre(entries);
      RemainingAtStart(applied, names, call.fates);
      var done := 0;
      for i := 0 to |names|
        invariant Valid() && Untouched(names, i, applied, bodies)
        invariant Remaining(applied, names, i, call.fates, done, bodies)
      {
        if names[i] in applied {
          AppliedIsSkipped(applied, names, i, call.fates, done, bodies);
          continue;
        }
        ghost var before := bodies;
        var r := ApplyMigration(names[i], call.fates(done));
        StepOfMissing(applied, names, i, call.fates, done, before, bodies);
        if !r {
          return false;
        }
        done := done + 1;
      }
      RemainingAtEnd(applied, names, call.fates, done, bodies);
      return true;
    }
  }

  ghost predicate Untouched(names: seq<string>, i: nat, applied: seq<string>, bodies: seq<string>) {
    forall k | i <= k < |names| && names[k] !in applied :: names[k] !in bodies
  }

  /** The loop has applied `done` files, and the rest of its fate lies with the files from position i on. */
  ghost predicate Remaining(applied: seq<string>, names: seq<string>, i: nat, fates: nat -> Fate, done: nat, bodies: seq<string>)
    requires i <= |names|
  {
    var all, rest := Missing(names, applied), Missing(names[i..], applied);
    var left := Progress(fates, |rest|, done);
    && left <= |rest|
    && Progress(fates, |all|, 0) <= |all|
    && bodies + rest[..left] == applied + all[..Progress(fates, |all|, 0)]
    && (AllCommit(fates, |all|, 0) <==> AllCommit(fates, |rest|, done))
  }

  lemma RemainingAtStart(applied: seq<string>, names: seq<string>, fates: nat -> Fate)
    ensures Remaining(applied, names, 0, fates, 0, applied)
  {
    assert names[0..] == names;
    ProgressIsBounded(fates, |Missing(names, applied)|, 0);
  }

  lemma AppliedIsSkipped(applied: seq<string>, names: seq<string>, i: nat, fates: nat -> Fate, done: nat, bodies: seq<string>)
    requires i < |names| && names[i] in applied && Remaining(applied, names, i, fates, done, bodies)
    ensures Remaining(applied, names, i + 1, fates, done, bodies)
  {
    assert names[i..][1..] == names[i + 1..];
    assert Missing(names[i..], applied) == Missing(names[i + 1..], applied);
  }

  lemma RemainingAtEnd(applied: seq<string>, names: seq<string>, fates: nat -> Fate, done: nat, bodies: seq<string>)
    requires Remaining(applied, names, |names|, fates, done, bodies)
    ensures var all := Missing(names, applied);
      bodies == applied + all[..Progress(fates, |all|, 0)] && AllCommit(fates, |all|, 0)
  {
    assert names[|names|..] == [];
    assert bodies + [] == bodies;
  }

  /** The file at hand leads what is missing from its position on. */
  lemma MissingFrom(applied: seq<string>, names: seq<string>, i: nat)
    requires i < |names| && names[i] !in applied
    ensures Missing(names[i..], applied) == [names[i]] + Missing(names[i + 1..], applied)
  {
    assert names[i..][1..] == names[i + 1..];
  }

  lemma StepOfMissing(applied: seq<string>, names: seq<string>, i: nat, fates: nat -> Fate, done: nat, before: seq<string>, after: seq<string>)
    requires i < |names| && names[i] !in applied && Remaining(applied, names, i, fates, done, before)
    requires after == if fates(done).Commits? || fates(done).CrashAfterCommit? then before + [names[i]] else before
    ensures fates(done).Commits? ==> Remaining(applied, names, i + 1, fates, done + 1, after)
    ensures !fates(done).Commits? ==>
      var all := Missing(names, applied);
      after == applied + all[..Progress(fates, |all|, 0)] && !AllCommit(fates, |all|, 0)
  {
    var rest := Missing(names[i..], applied);
    var below := Missing(names[i + 1..], applied);
    MissingFrom(applied, names, i);
    ProgressIsBounded(fates, |below|, done + 1);
    hide Missing;
    var n := Progress(fates, |below|, done + 1);
    if fates(done).Commits? {
      assert Progress(fates, |rest|, done) == 1 + n;
      assert before + rest[..1 + n] == after + below[..n];
    } else {
      assert before + rest[..Progress(fates, |rest|, done)] == after;
    }
  }

  // ----- Whole histories -----

  lemma {:induction false} MissingAfterPrefix(names: seq<string>, done: seq<string>)
    requires forall i | 0 <= i < |names| :: names[i] !in done
    ensures Missing(names, done) == names
  {
    if names != [] {
      assert forall i | 0 <= i < |names[1..]| :: names[1..][i] == names[i + 1];
      MissingAfterPrefix(names[1..], done);
      assert names == [names[0]] + names[1..];
    }
  }

  lemma {:induction false} MissingDropsDone(front: seq<string>, back: seq<string>, done: seq<string>)
    requires forall i | 0 <= i < |front| :: front[i] in done
    ensures Missing(front + back, done) == Missing(back, done)
  {
    if front == [] {
      assert front + back == back;
    } else {
      assert (front + back)[1..] == front[1..] + back;
      MissingDropsDone(front[1..], back, done);
    }
  }

  /** When the committed bodies are a prefix of the names, what is missing is exactly the rest. */
  lemma MissingIsTheRest(names: seq<string>, k: nat)
    requires NoDuplicates(names) && k <= |names|
    ensures Missing(names, names[..k]) == names[k..]
  {
    var front, back := names[..k], names[k..];
    assert names == front + back;
    MissingDropsDone(front, back, front);
    LaterNamesAreNew(names, k);
    MissingAfterPrefix(back, front);
  }

  lemma LaterNamesAreNew(names: seq<string>, k: nat)
    requires NoDuplicates(names) && k <= |names|
    ensures forall i | 0 <= i < |names[k..]| :: names[k..][i] !in names[..k]
  {
    forall i, j | 0 <= i < |names| - k && 0 <= j < k ensures names[k..][i] != names[..k][j] {
      assert names[j] != names[k + i];
    }
  }

  /** A completed call leaves the bodies in file-name order exactly when they were a prefix of that order before. */
  lemma CompletedCallIsInOrder(names: seq<string>, committed: seq<string>, call: Call)
    requires NoDuplicates(names) && Completes(names, committed, call)
    ensures Committed(names, committed, call) == names <==> committed <= names
  {
    var missing := Missing(names, committed);
    ProgressIsBounded(call.fates, |missing|, 0);
    assert missing[..|missing|] == missing;
    if committed <= names {
      assert names[..|committed|] == committed;
      MissingIsTheRest(names, |committed|);
    }
  }

  /** One call, however it ends, moves from one prefix of the names to a longer or equal one. */
  lemma CallKeepsPrefix(names: seq<string>, k: nat, call: Call)
    requires NoDuplicates(names) && k <= |names|
    ensures var k' := |Committed(names, names[..k], call)|;
      k <= k' <= |names| && Committed(names, names[..k], call) == names[..k']
      && (Completes(names, names[..k], call) ==> k' == |names|)
  {
    MissingIsTheRest(names, k);
    var n := Progress(call.fates, |names| - k, 0);
    ProgressIsBounded(call.fates, |names| - k, 0);
    assert names[..k] + names[k..][..n] == names[..k + n];
    assert names[..k] + [] == names[..k];
  }

  /** One call of some release, which ships a directory of its own. */
  datatype Release = Release(entries: seq<DirEntry>, call: Call)
  {
    function Names(): seq<string> {
      MigrationNames(entries)
    }
  }

  /** The committed bodies after the calls of a history, oldest first. */
  function After(start: seq<string>, history: seq<Release>): seq<string> {
    if history == [] then start
    else
      var last := history[|history| - 1];
      Committed(last.Names(), After(start, history[..|history| - 1]), last.call)
  }

  /** Later releases ship the files of earlier ones, and more only behind them. */
  ghost predicate Growing(start: seq<string>, history: seq<Release>) {
    && (forall i | 0 <= i < |history| :: IsDirectory(history[i].entries) && start <= history[i].Names())
    && (forall i, j | 0 <= i < j < |history| :: history[i].Names() <= history[j].Names())
  }

  /** Some call of the history completed for these names. */
  ghost predicate CompletedFor(start: seq<string>, history: seq<Release>, names: seq<string>) {
    exists i :: CompletedAt(start, history, names, i)
  }

  ghost predicate CompletedAt(start: seq<string>, history: seq<Release>, names: seq<string>, i: int) {
    0 <= i < |history| && history[i].Names() == names && Completes(names, After(start, history[..i]), history[i].call)
  }

  /** One more call takes a prefix of its names to a longer or equal one, and to all of them if it completes. */
  lemma CallExtends(names: seq<string>, committed: seq<string>, call: Call)
    requires NoDuplicates(names) && committed <= names
    ensures committed <= Committed(names, committed, call) <= names
    ensures Completes(names, committed, call) || committed == names ==> Committed(names, committed, call) == names
  {
    var k := |committed|;
    assert names[..k] == committed;
    CallKeepsPrefix(names, k, call);
    var k' := |Committed(names, committed, call)|;
    assert names[..k] <= names[..k'];
    assert names[..|names|] == names;
  }

  lemma FrontGrows(start: seq<string>, history: seq<Release>)
    requires Growing(start, history) && history != []
    ensures Growing(start, history[..|history| - 1])
    ensures start <= history[|history| - 1].Names()
    ensures |history| > 1 ==> history[|history| - 2].Names() <= history[|history| - 1].Names()
  {
  }

  /** The call that completed was the last one, or an earlier one of a release with the same names. */
  lemma CompletedBefore(start: seq<string>, history: seq<Release>)
    requires Growing(start, history) && history != [] && CompletedFor(start, history, history[|history| - 1].Names())
    ensures var (front, last) := (history[..|history| - 1], history[|history| - 1]);
      || Completes(last.Names(), After(start, front), last.call)
      || (front != [] && front[|front| - 1].Names() == last.Names() && CompletedFor(start, front, last.Names()))
  {
    hide MigrationNames, Completes, Committed, After, IsDirectory;
    var front, names := history[..|history| - 1], history[|history| - 1].Names();
    var i :| CompletedAt(start, history, names, i);
    if i < |front| {
      assert front[..i] == history[..i];
      assert names <= front[|front| - 1].Names() <= names;
      assert CompletedAt(start, front, names, i);
    }
  }

  /**
   Every history of calls, cut off anywhere, over releases that only add files at the end: the committed
   bodies never shrink, are a prefix of the last release's names, and are all of them once a call of it completes.
   */
  lemma {:induction false} EveryHistoryIsAPrefix(start: seq<string>, history: seq<Release>)
    requires Growing(start, history)
    ensures start <= After(start, history)
    ensures history != [] ==>
      var names := history[|history| - 1].Names();
      && After(start, history[..|history| - 1]) <= After(start, history) <= names
      && (CompletedFor(start, history, names) ==> After(start, history) == names)
  {
    hide MigrationNames, Completes, Committed;
    if history != [] {
      var front, last := history[..|history| - 1], history[|history| - 1];
      var names, before := last.Names(), After(start, front);
      FrontGrows(start, history);
      EveryHistoryIsAPrefix(start, front);
      MigrationNamesAre(last.entries);
      CallExtends(names, before, last.call);
      if CompletedFor(start, history, names) {
        CompletedBefore(start, history);
      }
    }
  }

  /** On a fresh database: no body twice, and never one out of file-name order. */
  lemma FreshDatabase(history: seq<Release>)
    requires Growing([], history) && history != []
    ensures var names, bodies := history[|history| - 1].Names(), After([], history);
      && bodies <= names && NoDuplicates(bodies) && Ascending(bodies)
      && (CompletedFor([], history, names) ==> bodies == names)
  {
    EveryHistoryIsAPrefix([], history);
    MigrationNamesAre(history[|history| - 1].entries);
  }

  lemma {:induction false} ProgressIs(fates: nat -> Fate, n: nat, from: nat, m: nat)
    requires from <= m <= from + n && forall i: nat | from <= i < m :: fates(i).Commits?
    requires m < from + n ==> !fates(m).Commits?
    ensures Progress(fates, n, from) == m - from + if m < from + n && fates(m).CrashAfterCommit? then 1 else 0
    ensures AllCommit(fates, n, from) <==> m == from + n
    decreases n
  {
    if from < m {
      ProgressIs(fates, n - 1, from + 1, m);
    }
  }

  /**
   How far one call gets: past each file that commits, and past the first that does not only when it crashed after
   its commit. It completes exactly when every file commits.
   */
  lemma CallCommits(names: seq<string>, k: nat, call: Call, m: nat)
    requires NoDuplicates(names) && k + m <= |names| && call.starts
    requires (forall i: nat | i < m :: call.fates(i).Commits?) && (k + m < |names| ==> !call.fates(m).Commits?)
    ensures var crashed := k + m < |names| && call.fates(m).CrashAfterCommit?;
      Committed(names, names[..k], call) == names[..k + m + if crashed then 1 else 0]
    ensures Completes(names, names[..k], call) <==> k + m == |names|
  {
    MissingIsTheRest(names, k);
    ProgressIs(call.fates, |names| - k, 0, m);
    var n := Progress(call.fates, |names| - k, 0);
    assert names[..k] + names[k..][..n] == names[..k + n];
  }

  /** After a completed call, further calls commit nothing and succeed whenever they start. */
  lemma FurtherCallsCommitNothing(names: seq<string>, call: Call)
    requires NoDuplicates(names)
    ensures Committed(names, names, call) == names && (call.starts ==> Completes(names, names, call))
  {
    assert names[..|names|] == names;
    MissingIsTheRest(names, |names|);
  }
}
