/** backend/migrations/migration.go: the bookkeeping of schema migrations.
    The `migrations` table holds one record per migration name with an
    `applied` flag; records are never removed, so the table is a sequence
    in primary-key order (record `i` has id `i + 1`). What a migrator's
    `Up` and `Down` do to the schema is not modelled: only whether each
    succeeds, and the log of calls made. */
module Migrations {
  import opened Wrappers

  datatype MigrationRecord = MigrationRecord(id: nat, name: string, applied: bool)

  /** A migrator: its name and the outcomes of its `Up` and `Down`. */
  datatype Migrator = Migrator(name: string, upSucceeds: bool, downSucceeds: bool)

  /** The table's invariant: ids follow the sequence, names are unique
      (the `unique` index on `name`). */
  predicate RecordsValid(records: seq<MigrationRecord>)
  {
    && (forall i :: 0 <= i < |records| ==> records[i].id == i + 1)
    && (forall i, j :: 0 <= i < j < |records| ==> records[i].name != records[j].name)
  }

  /** The lookup `Where("name = ?", name).First(&migration)`. */
  function IndexOfName(records: seq<MigrationRecord>, name: string): (i: Option<nat>)
    ensures i.Some? ==> i.value < |records| && records[i.value].name == name
    ensures i.Some? ==> forall j :: 0 <= j < i.value ==> records[j].name != name
    ensures i.None? <==> forall j :: 0 <= j < |records| ==> records[j].name != name
  {
    if records == [] then None
    else if records[0].name == name then Some(0)
    else
      match IndexOfName(records[1..], name)
      case None => None
      case Some(k) => Some(k + 1)
  }

  /** Whether the table holds an applied record for `name`. */
  predicate IsApplied(records: seq<MigrationRecord>, name: string)
  {
    IndexOfName(records, name).Some? && records[IndexOfName(records, name).value].applied
  }

  // --------------------------------------------------------- a whole run

  /** The state a run works on: the table, the names whose `Up` was called
      (in call order), and the migration that failed, if one did. */
  datatype RunState = RunState(records: seq<MigrationRecord>, upCalls: seq<string>, failed: Option<string>)

  /** One iteration of the loop in `RunMigrations`: skip an applied
      migration; otherwise call `Up`, and on success insert an applied
      record or flip the existing one inside the same transaction. A
      failed `Up` rolls that step back: only the call remains. */
  function Step(st: RunState, m: Migrator): RunState
  {
    match IndexOfName(st.records, m.name)
    case Some(i) =>
      if st.records[i].applied then st
      else if !m.upSucceeds then st.(upCalls := st.upCalls + [m.name], failed := Some(m.name))
      else st.(records := st.records[i := st.records[i].(applied := true)], upCalls := st.upCalls + [m.name])
    case None =>
      if !m.upSucceeds then st.(upCalls := st.upCalls + [m.name], failed := Some(m.name))
      else st.(records := st.records + [MigrationRecord(|st.records| + 1, m.name, true)],
               upCalls := st.upCalls + [m.name])
  }

  /** The loop, in list order, stopping at the first failure. */
  function RunFrom(st: RunState, migs: seq<Migrator>): RunState
    decreases |migs|
  {
    if migs == [] || st.failed.Some? then st
    else RunFrom(Step(st, migs[0]), migs[1..])
  }

  // -------------------------------------------------------------- lemmas

  /** A migration with an applied record is skipped: its `Up` is not
      called and nothing changes. */
  lemma SkipIfApplied(st: RunState, m: Migrator)
    requires IsApplied(st.records, m.name)
    ensures Step(st, m) == st
  {
  }

  /** After a successful step the migration has exactly one record and it
      is applied; every other record is as it was, and names stay unique. */
  lemma StepInsertsOrFlips(st: RunState, m: Migrator)
    requires RecordsValid(st.records)
    requires Step(st, m).failed.None? && st.failed.None?
    ensures RecordsValid(Step(st, m).records)
    ensures IsApplied(Step(st, m).records, m.name)
    ensures |Step(st, m).records| >= |st.records|
    ensures forall i :: 0 <= i < |st.records| && st.records[i].name != m.name ==>
              Step(st, m).records[i] == st.records[i]
  {
    var after := Step(st, m).records;
    if IndexOfName(st.records, m.name).None? && !IsApplied(st.records, m.name) {
      assert after == st.records + [MigrationRecord(|st.records| + 1, m.name, true)];
      assert after[|st.records|].name == m.name;
      assert IndexOfName(after, m.name) == Some(|st.records|);
    }
  }

  /** A table that keeps every record's name and applied flag, possibly
      growing, keeps every applied migration applied. */
  lemma GrowthKeepsApplied(before: seq<MigrationRecord>, after: seq<MigrationRecord>, name: string)
    requires |before| <= |after|
    requires forall i :: 0 <= i < |before| ==> after[i].name == before[i].name
    requires forall i :: 0 <= i < |before| && before[i].applied ==> after[i].applied
    requires IsApplied(before, name)
    ensures IsApplied(after, name)
  {
    var k := IndexOfName(before, name).value;
    assert after[k].name == name;
    assert forall j :: 0 <= j < k ==> after[j].name != name;
    assert IndexOfName(after, name) == Some(k);
  }

  /** A step never removes an applied record, and keeps the table valid. */
  lemma StepKeepsApplied(st: RunState, m: Migrator, name: string)
    requires RecordsValid(st.records)
    ensures RecordsValid(Step(st, m).records)
    ensures IsApplied(st.records, name) ==> IsApplied(Step(st, m).records, name)
  {
    var before := st.records;
    var after := Step(st, m).records;
    var found := IndexOfName(before, m.name);
    if found.None? && m.upSucceeds {
      assert after == before + [MigrationRecord(|before| + 1, m.name, true)];
    } else if found.Some? && !before[found.value].applied && m.upSucceeds {
      assert after == before[found.value := before[found.value].(applied := true)];
    } else {
      assert after == before;
    }
    if IsApplied(before, name) {
      GrowthKeepsApplied(before, after, name);
    }
  }

  lemma {:induction false} RunKeepsApplied(st: RunState, migs: seq<Migrator>, name: string)
    requires RecordsValid(st.records)
    ensures RecordsValid(RunFrom(st, migs).records)
    ensures IsApplied(st.records, name) ==> IsApplied(RunFrom(st, migs).records, name)
    decreases |migs|
  {
    if migs != [] && st.failed.None? {
      StepKeepsApplied(st, migs[0], name);
      RunKeepsApplied(Step(st, migs[0]), migs[1..], name);
    }
  }

  /** A run that does not fail leaves every listed migration applied. */
  lemma {:induction false} SuccessfulRunAppliesAll(st: RunState, migs: seq<Migrator>)
    requires RecordsValid(st.records) && st.failed.None?
    requires RunFrom(st, migs).failed.None?
    ensures forall m :: m in migs ==> IsApplied(RunFrom(st, migs).records, m.name)
    decreases |migs|
  {
    if migs != [] {
      var next := Step(st, migs[0]);
      if IsApplied(st.records, migs[0].name) {
        SkipIfApplied(st, migs[0]);
      } else {
        StepInsertsOrFlips(st, migs[0]);
      }
      StepKeepsApplied(st, migs[0], migs[0].name);
      SuccessfulRunAppliesAll(next, migs[1..]);
      RunKeepsApplied(next, migs[1..], migs[0].name);
      forall m | m in migs ensures IsApplied(RunFrom(st, migs).records, m.name) {
        if m != migs[0] {
          assert m in migs[1..];
        }
      }
    }
  }

  /** A run over migrations that are all applied calls no `Up` and changes
      nothing. */
  lemma {:induction false} RunOverAppliedChangesNothing(st: RunState, migs: seq<Migrator>)
    requires forall m :: m in migs ==> IsApplied(st.records, m.name)
    ensures RunFrom(st, migs) == st
    decreases |migs|
  {
    if migs != [] && st.failed.None? {
      SkipIfApplied(st, migs[0]);
      assert forall m :: m in migs[1..] ==> m in migs;
      RunOverAppliedChangesNothing(st, migs[1..]);
    }
  }

  /** Running again after a successful run calls no `Up` and changes no
      record. */
  lemma SecondRunChangesNothing(st: RunState, migs: seq<Migrator>)
    requires RecordsValid(st.records) && st.failed.None?
    requires RunFrom(st, migs).failed.None?
    ensures RunFrom(RunFrom(st, migs), migs) == RunFrom(st, migs)
  {
    SuccessfulRunAppliesAll(st, migs);
    RunOverAppliedChangesNothing(RunFrom(st, migs), migs);
  }

  /** A run over `pre + rest` is the run over `pre` followed, if it did not
      fail, by the run over `rest`. */
  lemma {:induction false} RunFromAppend(st: RunState, pre: seq<Migrator>, rest: seq<Migrator>)
    ensures RunFrom(st, pre + rest) == RunFrom(RunFrom(st, pre), rest)
    decreases |pre|
  {
    if pre != [] && st.failed.None? {
      assert (pre + rest)[0] == pre[0];
      assert (pre + rest)[1..] == pre[1..] + rest;
      RunFromAppend(Step(st, pre[0]), pre[1..], rest);
    } else if pre == [] {
      assert pre + rest == rest;
    } else {
      assert RunFrom(st, pre + rest) == st;
    }
  }

  /** The first failing `Up` ends the run: the migrations before it keep
      what they did, the failing one gets no applied record, and the ones
      after it are not attempted. */
  lemma RunStopsAtFirstFailure(st: RunState, pre: seq<Migrator>, m: Migrator, post: seq<Migrator>)
    requires RunFrom(st, pre).failed.None?
    requires !IsApplied(RunFrom(st, pre).records, m.name) && !m.upSucceeds
    ensures var mid := RunFrom(st, pre);
            RunFrom(st, pre + [m] + post) == mid.(upCalls := mid.upCalls + [m.name], failed := Some(m.name))
  {
    RunFromAppend(st, pre, [m] + post);
    assert pre + [m] + post == pre + ([m] + post);
    var mid := RunFrom(st, pre);
    assert ([m] + post)[0] == m && ([m] + post)[1..] == post;
  }

  // ------------------------------------------------------------ rollback

  /** `Where("applied = ?", true).Order("id DESC").First`: the applied
      record with the largest id. */
  function LastApplied(records: seq<MigrationRecord>): (i: Option<nat>)
    ensures i.Some? ==> i.value < |records| && records[i.value].applied
    ensures i.Some? ==> forall j :: i.value < j < |records| ==> !records[j].applied
    ensures i.None? <==> forall j :: 0 <= j < |records| ==> !records[j].applied
    decreases |records|
  {
    if records == [] then None
    else if records[|records| - 1].applied then Some(|records| - 1)
    else LastApplied(records[..|records| - 1])
  }

  datatype MigrationError =
    | SetupFailed              // the tracking table could not be created
    | UpFailed(name: string)
    | NothingToRollBack
    | NoMigrator(name: string) // no migrator carries the record's name
    | DownFailed(name: string)

  /** `MigrationService`: the tracking table, the migrators in list order,
      and the logs of `Up` and `Down` calls. */
  class MigrationService {
    var records: seq<MigrationRecord>
    const migrations: seq<Migrator>
    var upCalls: seq<string>
    var downCalls: seq<string>

    ghost predicate Valid()
      reads this
    {
      RecordsValid(records)
    }

    constructor (table: seq<MigrationRecord>, migrators: seq<Migrator>)
      requires RecordsValid(table)
      ensures Valid()
      ensures records == table && migrations == migrators && upCalls == [] && downCalls == []
    {
      records := table;
      migrations := migrators;
      upCalls := [];
      downCalls := [];
    }

    /** `RunMigrations`: when the tracking table is ready (`setupOk`), the
        loop over the migrators, as `RunFrom` describes it. */
    method RunMigrations(setupOk: bool) returns (err: Option<MigrationError>)
      requires Valid()
      modifies this
      ensures Valid()
      ensures downCalls == old(downCalls)
      ensures !setupOk ==> err == Some(SetupFailed) && records == old(records) && upCalls == old(upCalls)
      ensures setupOk ==>
                var final := RunFrom(RunState(old(records), old(upCalls), None), migrations);
                && records == final.records && upCalls == final.upCalls
                && err == (if final.failed.Some? then Some(UpFailed(final.failed.value)) else None)
    {
      if !setupOk {
        return Some(SetupFailed);
      }
      ghost var start := RunState(records, upCalls, None);
      var i := 0;
      while i < |migrations|
        invariant 0 <= i <= |migrations|
        invariant RecordsValid(records) && downCalls == old(downCalls)
        invariant RunFrom(RunState(records, upCalls, None), migrations[i..]) == RunFrom(start, migrations)
      {
        ghost var before := RunState(records, upCalls, None);
        StepKeepsApplied(before, migrations[i], "");
        assert migrations[i..][1..] == migrations[i + 1..];
        var failed := ApplyOne(migrations[i]);
        if failed {
          return Some(UpFailed(migrations[i].name));
        }
        i := i + 1;
      }
      return None;
    }

    /** One pass of the loop body: skip, or call `Up` and record it. */
    method ApplyOne(m: Migrator) returns (failed: bool)
      modifies this
      ensures downCalls == old(downCalls)
      ensures RunState(records, upCalls, if failed then Some(m.name) else None)
              == Step(RunState(old(records), old(upCalls), None), m)
    {
      var found := IndexOfName(records, m.name);
      if found.Some? && records[found.value].applied {
        return false;
      }
      upCalls := upCalls + [m.name];
      if !m.upSucceeds {
        return true;
      }
      if found.None? {
        records := records + [MigrationRecord(|records| + 1, m.name, true)];
      } else {
        records := records[found.value := records[found.value].(applied := true)];
      }
      return false;
    }

    /** `RollbackMigration`: finds the applied record with the largest id
        and the migrator of that name, calls its `Down`, and on success
        clears that record's flag and nothing else. */
    method RollbackMigration() returns (err: Option<MigrationError>)
      requires Valid()
      modifies this
      ensures Valid()
      ensures upCalls == old(upCalls)
      ensures LastApplied(old(records)).None? ==>
                err == Some(NothingToRollBack) && records == old(records) && downCalls == old(downCalls)
      ensures LastApplied(old(records)).Some? ==>
                var k := LastApplied(old(records)).value;
                var name := old(records)[k].name;
                if forall j :: 0 <= j < |migrations| ==> migrations[j].name != name then
                  err == Some(NoMigrator(name)) && records == old(records) && downCalls == old(downCalls)
                else
                  var m := migrations[FirstMigratorNamed(migrations, name)];
                  && downCalls == old(downCalls) + [name]
                  && (m.downSucceeds ==> err.None? && records == old(records)[k := old(records)[k].(applied := false)])
                  && (!m.downSucceeds ==> err == Some(DownFailed(name)) && records == old(records))
    {
      var last := LastApplied(records);
      if last.None? {
        return Some(NothingToRollBack);
      }
      var k := last.value;
      var name := records[k].name;
      var found: Option<nat> := None;
      var i := 0;
      while i < |migrations|
        invariant 0 <= i <= |migrations|
        invariant forall j :: 0 <= j < i ==> migrations[j].name != name
      {
        if migrations[i].name == name {
          found := Some(i);
          break;
        }
        i := i + 1;
      }
      if found.None? {
        return Some(NoMigrator(name));
      }
      var m := migrations[found.value];
      assert found.value == FirstMigratorNamed(migrations, name);
      downCalls := downCalls + [name];
      if !m.downSucceeds {
        return Some(DownFailed(name));
      }
      records := records[k := records[k].(applied := false)];
      return None;
    }
  }

  /** The position of the first migrator named `name`. */
  function FirstMigratorNamed(migs: seq<Migrator>, name: string): (i: nat)
    requires exists j :: 0 <= j < |migs| && migs[j].name == name
    ensures i < |migs| && migs[i].name == name
    ensures forall j :: 0 <= j < i ==> migs[j].name != name
  {
    if migs[0].name == name then 0
    else
      assert exists j :: 0 <= j < |migs[1..]| && migs[1..][j].name == name by {
        var j :| 0 <= j < |migs| && migs[j].name == name;
        assert migs[1..][j - 1].name == name;
      }
      1 + FirstMigratorNamed(migs[1..], name)
  }

  /** Rolling back clears the flag of the most recently recorded applied
      migration, so the next rollback moves on to the one before it. */
  lemma RollbackTargetsNewest(records: seq<MigrationRecord>)
    requires LastApplied(records).Some?
    ensures var k := LastApplied(records).value;
            var after := records[k := records[k].(applied := false)];
            LastApplied(after).None? || LastApplied(after).value < k
  {
    var k := LastApplied(records).value;
    var after := records[k := records[k].(applied := false)];
    if LastApplied(after).Some? {
      assert LastApplied(after).value != k;
    }
  }

  // -------------------------------------------------------- runner list

  /** The migrators `GetMigrations` lists, in order. The admin-seeding
      migration `006_seed_admin_user` is not among them. */
  const RunnerOrder: seq<string> := [
    "001_create_users_table",
    "002_create_projects_table",
    "003_create_defects_table",
    "004_create_comments_table",
    "005_add_indices"]

  lemma RunnerOrderDistinct()
    ensures forall i, j :: 0 <= i < j < |RunnerOrder| ==> RunnerOrder[i] != RunnerOrder[j]
    ensures "006_seed_admin_user" !in RunnerOrder
  {
    assert forall i :: 0 <= i < |RunnerOrder| ==> RunnerOrder[i][2] == "12345"[i];
  }

  /** The names of a migrator list, in order. */
  function Names(migs: seq<Migrator>): (ns: seq<string>)
    ensures |ns| == |migs|
  {
    if migs == [] then [] else [migs[0].name] + Names(migs[1..])
  }

  lemma {:induction false} NamesAt(migs: seq<Migrator>, i: nat)
    requires i < |migs|
    ensures Names(migs)[i] == migs[i].name
    decreases i
  {
    if i > 0 {
      NamesAt(migs[1..], i - 1);
    }
  }

  /** The applied records a run appends for `migs` after `n` records. */
  function AppendedRecords(migs: seq<Migrator>, n: nat): (rs: seq<MigrationRecord>)
    ensures |rs| == |migs|
  {
    if migs == [] then [] else [MigrationRecord(n + 1, migs[0].name, true)] + AppendedRecords(migs[1..], n + 1)
  }
  lemma {:induction false} AppendedRecordsAt(migs: seq<Migrator>, n: nat, i: nat)
    requires i < |migs|
    ensures AppendedRecords(migs, n)[i] == MigrationRecord(n + i + 1, migs[i].name, true)
    decreases i
  {
    if i > 0 {
      AppendedRecordsAt(migs[1..], n + 1, i - 1);
    }
  }


  /** The run state after a fresh migrator's successful `Up`. */
  function FreshStep(st: RunState, m: Migrator): RunState
  {
    RunState(st.records + [MigrationRecord(|st.records| + 1, m.name, true)], st.upCalls + [m.name], None)
  }

  /** The step of a fresh migrator whose `Up` succeeds appends its record
      and its call. */
  lemma {:induction false} FreshStepIsStep(st: RunState, m: Migrator)
    requires st.failed.None? && m.upSucceeds && IndexOfName(st.records, m.name).None?
    ensures Step(st, m) == FreshStep(st, m)
  {
  }

  /** Appending a record under another name leaves a name unrecorded. */
  lemma {:induction false} StaysUnrecorded(records: seq<MigrationRecord>, added: MigrationRecord, name: string)
    requires IndexOfName(records, name).None? && added.name != name
    ensures IndexOfName(records + [added], name).None?
  {
    var after := records + [added];
    forall j | 0 <= j < |after| ensures after[j].name != name {
      if j < |records| {
        assert after[j] == records[j];
      }
    }
  }

  /** Migrators whose `Up`s all succeed, with distinct names none of
      which the table records yet. */
  predicate FreshRun(records: seq<MigrationRecord>, migs: seq<Migrator>)
  {
    && (forall i :: 0 <= i < |migs| ==> migs[i].upSucceeds && IndexOfName(records, migs[i].name).None?)
    && (forall i, j :: 0 <= i < j < |migs| ==> migs[i].name != migs[j].name)
  }

  /** After the first migrator's fresh step, the remaining migrators are
      still fresh. */
  lemma {:induction false} RestStaysFresh(st: RunState, migs: seq<Migrator>)
    requires migs != [] && FreshRun(st.records, migs)
    ensures FreshRun(FreshStep(st, migs[0]).records, migs[1..])
  {
    var next := FreshStep(st, migs[0]);
    var rest := migs[1..];
    forall i | 0 <= i < |rest|
      ensures rest[i].upSucceeds && IndexOfName(next.records, rest[i].name).None?
    {
      assert rest[i] == migs[i + 1];
      StaysUnrecorded(st.records, next.records[|st.records|], rest[i].name);
    }
    forall i, j | 0 <= i < j < |rest| ensures rest[i].name != rest[j].name {
      assert rest[i] == migs[i + 1] && rest[j] == migs[j + 1];
    }
  }

  /** Migrators with distinct names, none recorded yet, whose `Up`s all
      succeed: the run calls each `Up` once, in list order, and appends one
      applied record per migrator in that order. */
  lemma {:induction false} FreshRunAppendsInOrder(st: RunState, migs: seq<Migrator>)
    requires st.failed.None? && FreshRun(st.records, migs)
    ensures RunFrom(st, migs).records == st.records + AppendedRecords(migs, |st.records|)
    ensures RunFrom(st, migs).upCalls == st.upCalls + Names(migs)
    ensures RunFrom(st, migs).failed.None?
    decreases |migs|
  {
    if migs != [] {
      var added := MigrationRecord(|st.records| + 1, migs[0].name, true);
      var next := FreshStep(st, migs[0]);
      var rest := migs[1..];
      assert migs[0].upSucceeds && IndexOfName(st.records, migs[0].name).None?;
      FreshStepIsStep(st, migs[0]);
      assert RunFrom(st, migs) == RunFrom(next, rest);
      RestStaysFresh(st, migs);
      FreshRunAppendsInOrder(next, rest);
      var later := AppendedRecords(rest, |next.records|);
      assert AppendedRecords(migs, |st.records|) == [added] + later;
      assert st.records + ([added] + later) == next.records + later;
      var laterNames := Names(rest);
      assert Names(migs) == [migs[0].name] + laterNames;
      assert st.upCalls + ([migs[0].name] + laterNames) == next.upCalls + laterNames;
    }
  }

  /** On an empty table, a run over the runner's list whose `Up`s all
      succeed calls each `Up` once in list order and records the five
      migrations as applied, with ids 1 to 5. */
  lemma {:induction false} FirstRunOfRunnerList(migs: seq<Migrator>)
    requires Names(migs) == RunnerOrder
    requires forall i :: 0 <= i < |migs| ==> migs[i].upSucceeds
    ensures var after := RunFrom(RunState([], [], None), migs);
            && after.failed.None? && after.upCalls == RunnerOrder && |after.records| == 5
            && forall i :: 0 <= i < 5 ==> after.records[i] == MigrationRecord(i + 1, RunnerOrder[i], true)
  {
    RunnerNamesDistinct(migs);
    assert FreshRun([], migs);
    FreshRunAppendsInOrder(RunState([], [], None), migs);
    var records := AppendedRecords(migs, 0);
    assert RunFrom(RunState([], [], None), migs).records == records;
    forall i | 0 <= i < 5 ensures records[i] == MigrationRecord(i + 1, RunnerOrder[i], true) {
      NamesAt(migs, i);
      AppendedRecordsAt(migs, 0, i);
    }
  }

  /** Migrators named after the runner's list have distinct names. */
  lemma {:induction false} RunnerNamesDistinct(migs: seq<Migrator>)
    requires Names(migs) == RunnerOrder
    ensures forall i, j :: 0 <= i < j < |migs| ==> migs[i].name != migs[j].name
  {
    RunnerOrderDistinct();
    forall i, j | 0 <= i < j < |migs| ensures migs[i].name != migs[j].name {
      NamesAt(migs, i);
      NamesAt(migs, j);
    }
  }
}
