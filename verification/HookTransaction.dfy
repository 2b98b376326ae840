/** Reconciliation of hook files: all targets or none (`runtime/codex_integration.py`), and
    the single settings file of Claude (`runtime/claude_integration.py`).

    A file is known by its normalised path.  `Format` reads and writes its text; a save
    replaces the file atomically or fails and leaves it. */
module HookTransaction {
  import opened Enumeration
  import opened Schema
  import opened HookPlanning

  type Path = string
  type Bytes = string
  type Files = map<Path, Bytes>

  datatype Format = Format(parse: Bytes -> Option<Settings>, render: Settings -> Bytes, blank: Settings)

  /** Which saves and which restores fail. */
  datatype Faults = Faults(save: Path -> bool, restore: Path -> bool)

  datatype Mutation = Mutation(path: Path, original: Option<Bytes>, desired: Settings, changed: bool)

  datatype Outcome = Reconciled(changed: nat, targets: nat) | NotPlanned | RolledBack | RollbackFailed

  function Content(files: Files, path: Path): Option<Bytes> {
    if path in files then Some(files[path]) else None
  }

  /** `_load`; a missing file reads as no hooks. */
  function Load(fmt: Format, files: Files, path: Path): Option<Settings> {
    if path in files then fmt.parse(files[path]) else Some(fmt.blank)
  }

  /** `None` when the file cannot be read or its plan is refused. */
  function MutationOf(fmt: Format, p: Planner, files: Files, path: Path, enabled: bool): Option<Mutation> {
    var original := Load(fmt, files, path);
    if original.None? then None
    else
      var plan := PlanOf(p, original.value, enabled);
      if plan.Refused? then None
      else Some(Mutation(path, Content(files, path), plan.desired, plan.desired != original.value))
  }

  ghost predicate Plannable(fmt: Format, p: Planner, files: Files, targets: set<Path>, enabled: bool) {
    forall t :: t in targets ==> MutationOf(fmt, p, files, t, enabled).Some?
  }

  /** What a target holds once its plan is written. */
  function Planned(fmt: Format, p: Planner, files: Files, path: Path, enabled: bool): Option<Bytes>
    requires MutationOf(fmt, p, files, path, enabled).Some?
  {
    var m := MutationOf(fmt, p, files, path, enabled).value;
    if m.changed then Some(fmt.render(m.desired)) else Content(files, path)
  }

  predicate Distinct(events: seq<Event>) {
    forall i, j :: 0 <= i < j < |events| ==> events[i] != events[j]
  }

  class FileSystem {
    var files: Files

    constructor (files: Files)
      ensures this.files == files
    {
      this.files := files;
    }

    method Save(path: Path, text: Bytes, faults: Faults) returns (ok: bool)
      modifies this
      ensures ok == !faults.save(path)
      ensures files == if ok then old(files)[path := text] else old(files)
    {
      ok := !faults.save(path);
      if ok { files := files[path := text]; }
    }

    /** `_restore`. */
    method Restore(path: Path, original: Option<Bytes>, faults: Faults) returns (ok: bool)
      modifies this
      ensures ok == !faults.restore(path)
      ensures ok ==> Content(files, path) == original
      ensures forall q :: !ok || q != path ==> Content(files, q) == Content(old(files), q)
    {
      ok := !faults.restore(path);
      if ok {
        if original.None? { files := files - {path}; } else { files := files[path := original.value]; }
      }
    }
  }

  // ---------------------------------------------------------------- planning

  method PlanFile(fs: FileSystem, fmt: Format, p: Planner, path: Path, enabled: bool) returns (m: Option<Mutation>)
    requires Distinct(p.events)
    ensures m == MutationOf(fmt, p, fs.files, path, enabled)
  {
    var original := Load(fmt, fs.files, path);
    if original.None? { return None; }
    var plan := PlanHooks(p, original.value, enabled);
    if plan.Refused? { return None; }
    m := Some(Mutation(path, Content(fs.files, path), plan.desired, plan.desired != original.value));
  }

  ghost predicate PlansOf(fmt: Format, p: Planner, files: Files, rows: seq<Path>, enabled: bool, ms: seq<Mutation>) {
    |ms| == |rows| && forall i :: 0 <= i < |ms| ==> MutationOf(fmt, p, files, rows[i], enabled) == Some(ms[i])
  }

  method PlanAll(
    fs: FileSystem, fmt: Format, p: Planner, rows: seq<Path>, enabled: bool)
    returns (plans: Option<seq<Mutation>>)
    requires Distinct(p.events)
    ensures plans.None? <==> exists i :: 0 <= i < |rows| && MutationOf(fmt, p, fs.files, rows[i], enabled).None?
    ensures plans.Some? ==> PlansOf(fmt, p, fs.files, rows, enabled, plans.value)
  {
    var ms: seq<Mutation> := [];
    for i := 0 to |rows|
      invariant PlansOf(fmt, p, fs.files, rows[..i], enabled, ms)
    {
      var m := PlanFile(fs, fmt, p, rows[i], enabled);
      if m.None? { return None; }
      ms := ms + [m.value];
    }
    assert rows[..|rows|] == rows;
    forall i | 0 <= i < |rows| ensures MutationOf(fmt, p, fs.files, rows[i], enabled).Some? {
      assert MutationOf(fmt, p, fs.files, rows[i], enabled) == Some(ms[i]);
    }
    plans := Some(ms);
  }

  // ---------------------------------------------------------------- writing

  /** After the first `n` mutations: each changed target has its planned text. */
  ghost predicate WrittenUpTo(fmt: Format, before: Files, files: Files, ms: seq<Mutation>, n: nat)
    requires n <= |ms|
  {
    && (forall i :: 0 <= i < n && ms[i].changed ==> Content(files, ms[i].path) == Some(fmt.render(ms[i].desired)))
    && (forall q :: (forall i :: 0 <= i < n && ms[i].changed ==> ms[i].path != q) ==>
       Content(files, q) == Content(before, q))
  }

  predicate DistinctPaths(ms: seq<Mutation>) {
    forall i, j :: 0 <= i < j < |ms| ==> ms[i].path != ms[j].path
  }

  /** Writes the changed targets in order, up to the first save that fails. */
  method WriteAll(fs: FileSystem, fmt: Format, ms: seq<Mutation>, faults: Faults) returns (ok: bool, done: nat)
    requires DistinctPaths(ms)
    modifies fs
    ensures done <= |ms| && WrittenUpTo(fmt, old(fs.files), fs.files, ms, done)
    ensures ok <==> forall i :: 0 <= i < |ms| && ms[i].changed ==> !faults.save(ms[i].path)
    ensures ok ==> done == |ms|
  {
    done := 0;
    while done < |ms|
      invariant done <= |ms| && WrittenUpTo(fmt, old(fs.files), fs.files, ms, done)
      invariant forall i :: 0 <= i < done && ms[i].changed ==> !faults.save(ms[i].path)
    {
      if ms[done].changed {
        ghost var was := fs.files;
        var saved := fs.Save(ms[done].path, fmt.render(ms[done].desired), faults);
        if !saved { return false, done; }
        WriteOne(fmt, old(fs.files), was, fs.files, ms, done);
      }
      done := done + 1;
    }
    ok := true;
  }

  lemma WriteOne(fmt: Format, before: Files, files: Files, after: Files, ms: seq<Mutation>, n: nat)
    requires n < |ms| && DistinctPaths(ms) && ms[n].changed && WrittenUpTo(fmt, before, files, ms, n)
    requires after == files[ms[n].path := fmt.render(ms[n].desired)]
    ensures WrittenUpTo(fmt, before, after, ms, n + 1)
  {
    forall q | forall i :: 0 <= i < n + 1 && ms[i].changed ==> ms[i].path != q
      ensures Content(after, q) == Content(before, q) {
      assert ms[n].path != q;
    }
  }

  /** Mutation `i` still stands while the rollback, going down, has reached `k`. */
  predicate Stands(ms: seq<Mutation>, done: nat, k: nat, faults: Faults, i: nat)
    requires done <= |ms|
  {
    i < done && ms[i].changed && (i < k || faults.restore(ms[i].path))
  }

  /** What a path holds when the rollback of the first `done` mutations has reached `k`. */
  ghost predicate RestoredTo(
    fmt: Format, before: Files, files: Files, ms: seq<Mutation>, done: nat, k: nat, faults: Faults)
    requires done <= |ms|
  {
    && (forall i: nat :: Stands(ms, done, k, faults, i) ==>
       Content(files, ms[i].path) == Some(fmt.render(ms[i].desired)))
    && (forall q :: (forall i: nat :: Stands(ms, done, k, faults, i) ==> ms[i].path != q) ==>
       Content(files, q) == Content(before, q))
  }

  lemma RestoreStep(
    fmt: Format, before: Files, files: Files, after: Files, ms: seq<Mutation>, done: nat, k: nat, faults: Faults)
    requires k < done <= |ms| && DistinctPaths(ms) && ms[k].original == Content(before, ms[k].path)
    requires RestoredTo(fmt, before, files, ms, done, k + 1, faults)
    requires !ms[k].changed ==> after == files
    requires ms[k].changed && !faults.restore(ms[k].path) ==> Content(after, ms[k].path) == ms[k].original
    requires ms[k].changed ==> forall q :: faults.restore(ms[k].path) || q != ms[k].path ==>
      Content(after, q) == Content(files, q)
    ensures RestoredTo(fmt, before, after, ms, done, k, faults)
  {
    forall i: nat | Stands(ms, done, k, faults, i)
      ensures Content(after, ms[i].path) == Some(fmt.render(ms[i].desired)) {
      assert Stands(ms, done, k + 1, faults, i);
    }
    forall q | forall i: nat :: Stands(ms, done, k, faults, i) ==> ms[i].path != q
      ensures Content(after, q) == Content(before, q) {
      if q != ms[k].path || !ms[k].changed {
        forall i: nat | Stands(ms, done, k + 1, faults, i) ensures ms[i].path != q {
          assert i == k || Stands(ms, done, k, faults, i);
        }
      } else {
        assert !Stands(ms, done, k, faults, k);
      }
    }
  }

  lemma WrittenStands(fmt: Format, before: Files, files: Files, ms: seq<Mutation>, done: nat, faults: Faults)
    requires done <= |ms| && WrittenUpTo(fmt, before, files, ms, done)
    ensures RestoredTo(fmt, before, files, ms, done, done, faults)
  {
    forall q | forall i: nat :: Stands(ms, done, done, faults, i) ==> ms[i].path != q
      ensures Content(files, q) == Content(before, q) {
      forall i | 0 <= i < done && ms[i].changed ensures ms[i].path != q { assert Stands(ms, done, done, faults, i); }
    }
  }

  /** Restores the written targets in reverse, going on past restores that fail. */
  method RollBack(
    fs: FileSystem, fmt: Format, ms: seq<Mutation>, done: nat, faults: Faults, ghost before: Files)
    returns (clean: bool)
    requires done <= |ms| && DistinctPaths(ms) && WrittenUpTo(fmt, before, fs.files, ms, done)
    requires forall i :: 0 <= i < |ms| ==> ms[i].original == Content(before, ms[i].path)
    modifies fs
    ensures RestoredTo(fmt, before, fs.files, ms, done, 0, faults)
    ensures clean <==> forall i :: 0 <= i < done && ms[i].changed ==> !faults.restore(ms[i].path)
  {
    clean := true;
    var k: nat := done;
    WrittenStands(fmt, before, fs.files, ms, done, faults);
    while k > 0
      invariant k <= done && RestoredTo(fmt, before, fs.files, ms, done, k, faults)
      invariant clean <==> forall i :: k <= i < done && ms[i].changed ==> !faults.restore(ms[i].path)
    {
      k := k - 1;
      ghost var was := fs.files;
      if ms[k].changed {
        var restored := fs.Restore(ms[k].path, ms[k].original, faults);
        clean := clean && restored;
      }
      RestoreStep(fmt, before, was, fs.files, ms, done, k, faults);
    }
  }

  // ---------------------------------------------------------------- the transaction

  /** Some target keeps its planned text because neither a later save nor its restore worked. */
  ghost predicate Partial(
    fmt: Format, p: Planner, before: Files, after: Files, targets: set<Path>, enabled: bool, faults: Faults)
    requires Plannable(fmt, p, before, targets, enabled)
  {
    && (forall q :: q !in targets ==> Content(after, q) == Content(before, q))
    && (forall t :: t in targets ==>
          Content(after, t) == Content(before, t) || (faults.restore(t)
            && Content(after, t) == Planned(fmt, p, before, t, enabled)))
  }

  /** Every target holds its planned content, and nothing else changed. */
  ghost predicate Whole(fmt: Format, p: Planner, before: Files, after: Files, targets: set<Path>, enabled: bool)
    requires Plannable(fmt, p, before, targets, enabled)
  {
    && (forall t :: t in targets ==> Content(after, t) == Planned(fmt, p, before, t, enabled))
    && (forall q :: q !in targets ==> Content(after, q) == Content(before, q))
  }

  ghost function ChangedTargets(fmt: Format, p: Planner, files: Files, targets: set<Path>, enabled: bool): set<Path>
    requires Plannable(fmt, p, files, targets, enabled)
  {
    set t | t in targets && MutationOf(fmt, p, files, t, enabled).value.changed
  }

  /** `reconcile_codex_hook_targets`. */
  method ReconcileTargets(
    fs: FileSystem, fmt: Format, p: Planner, paths: seq<Path>, normalize: Path -> Path, rank: Path -> nat,
    enabled: bool, faults: Faults)
    returns (o: Outcome)
    requires Distinct(p.events) && forall a, b :: rank(a) == rank(b) ==> a == b
    modifies fs
    ensures var targets := set path | path in paths :: normalize(path);
      && (o == NotPlanned <==> !Plannable(fmt, p, old(fs.files), targets, enabled))
      && (o == NotPlanned ==> fs.files == old(fs.files))
      && (o.Reconciled? <==>
            (Plannable(fmt, p, old(fs.files), targets, enabled) && forall t ::
              t in ChangedTargets(fmt, p, old(fs.files), targets, enabled) ==> !faults.save(t)))
      && (o.Reconciled? ==> Whole(fmt, p, old(fs.files), fs.files, targets, enabled))
      && (o.Reconciled? ==>
         o.targets == |targets| && o.changed == |ChangedTargets(fmt, p, old(fs.files), targets, enabled)|)
      && (o == RolledBack ==> forall q :: Content(fs.files, q) == Content(old(fs.files), q))
      && (o == RollbackFailed ==> exists t :: t in targets && faults.restore(t))
      && (o == RollbackFailed ==> Partial(fmt, p, old(fs.files), fs.files, targets, enabled, faults))
  {
    ghost var before := fs.files;
    var targets := set path | path in paths :: normalize(path);
    var rows := Ordered(targets, rank);
    var plans := PlanAll(fs, fmt, p, rows, enabled);
    RowsPlan(fmt, p, before, targets, rows, enabled);
    if plans.None? { return NotPlanned; }
    var ms := plans.value;
    MutationPaths(fmt, p, before, rows, enabled, ms);
    forall i, j | 0 <= i < j < |rows| ensures rows[i] != rows[j] { assert rank(rows[i]) < rank(rows[j]); }
    var ok, done := WriteAll(fs, fmt, ms, faults);
    ChangedAreTargets(fmt, p, before, targets, rows, enabled, ms);
    if ok {
      assert done == |ms|;
      WrittenIsPlanned(fmt, p, before, fs.files, targets, rows, enabled, ms);
      RowsAreTargets(targets, rows);
      var changed := CountChanged(ms);
      return Reconciled(changed, |ms|);
    }
    var clean := RollBack(fs, fmt, ms, done, faults, before);
    RestoredIsPartial(fmt, p, before, fs.files, targets, rows, enabled, ms, done, faults);
    if clean { return RolledBack; }
    var i :| 0 <= i < done && ms[i].changed && faults.restore(ms[i].path);
    assert rows[i] in targets && faults.restore(rows[i]);
    o := RollbackFailed;
  }

  method CountChanged(ms: seq<Mutation>) returns (changed: nat)
    requires DistinctPaths(ms)
    ensures changed == |set i | 0 <= i < |ms| && ms[i].changed :: ms[i].path|
  {
    changed := 0;
    ghost var found: set<Path> := {};
    for i := 0 to |ms|
      invariant changed == |found| && found == set j | 0 <= j < i && ms[j].changed :: ms[j].path
    {
      if ms[i].changed { changed, found := changed + 1, found + {ms[i].path}; }
    }
  }

  lemma RowsPlan(fmt: Format, p: Planner, files: Files, targets: set<Path>, rows: seq<Path>, enabled: bool)
    requires forall t :: t in rows <==> t in targets
    ensures Plannable(fmt, p, files, targets, enabled) <==>
            !exists i :: 0 <= i < |rows| && MutationOf(fmt, p, files, rows[i], enabled).None?
  {
    if Plannable(fmt, p, files, targets, enabled) {
      forall i | 0 <= i < |rows| ensures MutationOf(fmt, p, files, rows[i], enabled).Some? {
        assert rows[i] in targets;
      }
    }
  }

  lemma MutationPaths(fmt: Format, p: Planner, files: Files, rows: seq<Path>, enabled: bool, ms: seq<Mutation>)
    requires PlansOf(fmt, p, files, rows, enabled, ms)
    ensures forall i :: 0 <= i < |ms| ==> ms[i].path == rows[i] && ms[i].original == Content(files, rows[i])
  {
    forall i | 0 <= i < |ms| ensures ms[i].path == rows[i] && ms[i].original == Content(files, rows[i]) {
      assert MutationOf(fmt, p, files, rows[i], enabled) == Some(ms[i]);
    }
  }

  lemma ChangedAreTargets(
    fmt: Format, p: Planner, files: Files, targets: set<Path>, rows: seq<Path>, enabled: bool, ms: seq<Mutation>)
    requires PlansOf(fmt, p, files, rows, enabled, ms) && Plannable(fmt, p, files, targets, enabled)
    requires (forall t :: t in rows <==> t in targets) && forall i :: 0 <= i < |ms| ==> ms[i].path == rows[i]
    ensures (set i | 0 <= i < |ms| && ms[i].changed :: ms[i].path) == ChangedTargets(fmt, p, files, targets, enabled)
    ensures forall i :: 0 <= i < |ms| && ms[i].changed ==> ms[i].path in ChangedTargets(fmt, p, files, targets, enabled)
    ensures forall t :: t in ChangedTargets(fmt, p, files, targets, enabled) ==>
      exists i :: 0 <= i < |ms| && ms[i].changed && ms[i].path == t
  {
    forall i | 0 <= i < |ms| && ms[i].changed ensures ms[i].path in ChangedTargets(fmt, p, files, targets, enabled) {
      assert MutationOf(fmt, p, files, rows[i], enabled) == Some(ms[i]) && rows[i] in targets;
    }
    forall t | t in ChangedTargets(fmt, p, files, targets, enabled)
      ensures exists i :: 0 <= i < |ms| && ms[i].changed && ms[i].path == t {
      var i :| 0 <= i < |rows| && rows[i] == t;
      assert MutationOf(fmt, p, files, rows[i], enabled) == Some(ms[i]);
    }
  }

  lemma RowsAreTargets(targets: set<Path>, rows: seq<Path>)
    requires (forall t :: t in rows <==> t in targets) && forall i, j :: 0 <= i < j < |rows| ==> rows[i] != rows[j]
    ensures |rows| == |targets|
    decreases |rows|
  {
    if rows == [] {
      assert targets == {};
    } else {
      var n := |rows| - 1;
      assert rows == rows[..n] + [rows[n]];
      assert rows[n] !in rows[..n];
      RowsAreTargets(targets - {rows[n]}, rows[..n]);
    }
  }

  lemma WrittenIsPlanned(
    fmt: Format, p: Planner, before: Files, after: Files, targets: set<Path>, rows: seq<Path>, enabled: bool,
    ms: seq<Mutation>)
    requires PlansOf(fmt, p, before, rows, enabled, ms) && Plannable(fmt, p, before, targets, enabled)
    requires (forall t :: t in rows <==> t in targets) && DistinctPaths(ms)
    requires WrittenUpTo(fmt, before, after, ms, |ms|)
    ensures Whole(fmt, p, before, after, targets, enabled)
  {
    MutationPaths(fmt, p, before, rows, enabled, ms);
    forall t | t in targets ensures Content(after, t) == Planned(fmt, p, before, t, enabled) {
      var i :| 0 <= i < |rows| && rows[i] == t;
      assert MutationOf(fmt, p, before, rows[i], enabled) == Some(ms[i]);
      if !ms[i].changed {
        forall j | 0 <= j < |ms| && ms[j].changed ensures ms[j].path != t {}
      }
    }
    forall q | q !in targets ensures Content(after, q) == Content(before, q) {
      forall j | 0 <= j < |ms| ensures ms[j].path != q { assert rows[j] in targets; }
    }
  }

  lemma RestoredIsPartial(
    fmt: Format, p: Planner, before: Files, after: Files, targets: set<Path>, rows: seq<Path>, enabled: bool,
    ms: seq<Mutation>,
    done: nat, faults: Faults)
    requires PlansOf(fmt, p, before, rows, enabled, ms) && Plannable(fmt, p, before, targets, enabled)
    requires (forall t :: t in rows <==> t in targets) && DistinctPaths(ms)
    requires done <= |ms| && RestoredTo(fmt, before, after, ms, done, 0, faults)
    ensures Partial(fmt, p, before, after, targets, enabled, faults)
    ensures (forall i :: 0 <= i < done && ms[i].changed ==> !faults.restore(ms[i].path)) ==>
      forall q :: Content(after, q) == Content(before, q)
  {
    MutationPaths(fmt, p, before, rows, enabled, ms);
    forall q | Content(after, q) != Content(before, q)
      ensures q in targets && faults.restore(q) && Content(after, q) == Planned(fmt, p, before, q, enabled)
    {
      var i: nat :| Stands(ms, done, 0, faults, i) && ms[i].path == q;
      assert MutationOf(fmt, p, before, rows[i], enabled) == Some(ms[i]) && rows[i] in targets;
    }
  }

  /** The settings of a target: blank without a file, else what its file reads as. */
  predicate Holds(fmt: Format, files: Files, path: Path, s: Settings) {
    if path in files then fmt.parse(files[path]) == Some(s) else s == fmt.blank
  }

  /** A target can be planned if and only if it holds settings whose plan is not refused.  Its
      planned content is those settings as planned, written anew only if they differ. */
  lemma TargetIsPlannedIff(fmt: Format, p: Planner, files: Files, path: Path, enabled: bool)
    ensures MutationOf(fmt, p, files, path, enabled).Some? <==>
            exists s :: Holds(fmt, files, path, s) && PlanOf(p, s, enabled).Planned?
    ensures MutationOf(fmt, p, files, path, enabled).Some? ==>
      forall s :: Holds(fmt, files, path, s) ==>
        var desired := PlanOf(p, s, enabled).desired;
        && (MutationOf(fmt, p, files, path, enabled).value.changed <==> desired != s)
        && (desired != s ==> Planned(fmt, p, files, path, enabled) == Some(fmt.render(desired)))
        && (desired == s ==>
              Planned(fmt, p, files, path, enabled) == if path in files then Some(files[path]) else None)
  {
    var loaded := Load(fmt, files, path);
    if loaded.Some? { assert Holds(fmt, files, path, loaded.value); }
  }

  // ---------------------------------------------------------------- repeated reconciliation

  /** What is written is read back. */
  ghost predicate RoundTrips(fmt: Format) {
    forall s :: fmt.parse(fmt.render(s)) == Some(s)
  }

  lemma TargetAfter(fmt: Format, p: Planner, before: Files, after: Files, t: Path, first: bool, second: bool)
    requires MutationOf(fmt, p, before, t, first).Some? && Content(after, t) == Planned(fmt, p, before, t, first)
    requires RoundTrips(fmt) && Recognizes(p)
    ensures Load(fmt, after, t) == Some(MutationOf(fmt, p, before, t, first).value.desired)
    ensures PlanOf(p, MutationOf(fmt, p, before, t, first).value.desired, second)
      == PlanOf(p, Load(fmt, before, t).value, second)
  {
    var m := MutationOf(fmt, p, before, t, first).value;
    PlannedStaysPlannable(p, Load(fmt, before, t).value, first, second);
    if m.changed {
      assert after[t] == fmt.render(m.desired);
    } else {
      assert (t in after <==> t in before) && (t in after ==> after[t] == before[t]);
    }
  }

  /** Reconciling the same way again finds nothing to write. */
  lemma ReconcilingAgainIsQuiet(fmt: Format, p: Planner, before: Files, after: Files, targets: set<Path>, enabled: bool)
    requires Plannable(fmt, p, before, targets, enabled) && Whole(fmt, p, before, after, targets, enabled)
    requires RoundTrips(fmt) && Recognizes(p)
    ensures Plannable(fmt, p, after, targets, enabled) && ChangedTargets(fmt, p, after, targets, enabled) == {}
  {
    forall t | t in targets ensures MutationOf(fmt, p, after, t, enabled).Some?
      && !MutationOf(fmt, p, after, t, enabled).value.changed {
      TargetAfter(fmt, p, before, after, t, enabled, enabled);
    }
  }

  /** Removing after installing leaves every target with the settings that removing at once
      would have given. */
  lemma RemovingAfterInstalling(fmt: Format, p: Planner, before: Files, installed: Files, targets: set<Path>, t: Path)
    requires Plannable(fmt, p, before, targets, true) && Whole(fmt, p, before, installed, targets, true) && t in targets
    requires RoundTrips(fmt) && Recognizes(p)
    ensures MutationOf(fmt, p, installed, t, false).Some? && MutationOf(fmt, p, before, t, false).Some?
    ensures MutationOf(fmt, p, installed, t, false).value.desired == MutationOf(fmt, p, before, t, false).value.desired
  {
    TargetAfter(fmt, p, before, installed, t, true, false);
    assert PlanOf(p, Load(fmt, before, t).value, true).Planned? ==>
      PlanOf(p, Load(fmt, before, t).value, false).Planned?;
  }

  // ---------------------------------------------------------------- one settings file

  /** `reconcile_claude_hooks`; `None` when the settings are refused or the save fails. */
  method ReconcileSettings(
    fs: FileSystem, fmt: Format, p: Planner, path: Path, enabled: bool, faults: Faults)
    returns (changed: Option<bool>)
    requires Distinct(p.events)
    modifies fs
    ensures var m := MutationOf(fmt, p, old(fs.files), path, enabled);
      && (changed.None? <==> m.None? || (m.value.changed && faults.save(path)))
      && (changed.None? ==> fs.files == old(fs.files))
      && (changed.Some? ==> changed.value == m.value.changed && Whole(fmt, p, old(fs.files), fs.files, {path}, enabled))
  {
    var m := PlanFile(fs, fmt, p, path, enabled);
    if m.None? { return None; }
    if !m.value.changed { return Some(false); }
    var saved := fs.Save(path, fmt.render(m.value.desired), faults);
    changed := if saved then Some(true) else None;
  }
}
