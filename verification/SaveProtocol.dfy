/** Many instances committing to one revisioned row (persistence.ts, loadFromPostgres, saveToPostgres,
    reloadIfStale), as steps cut at every await. */
module SaveProtocol {
  import opened Common
  import opened JsonModel
  import opened RecordMerge
  import opened SnapshotMerge
  import opened MergeAlgebra

  const MAX_ATTEMPTS := 4

  datatype Row = Row(value: Snapshot, revision: nat)

  // What a save keeps between the answer to its SELECT and its UPDATE: the row read, the merge computed
  // at once, the baseline it was computed with, and what a reload had brought in by then.
  datatype Pending = Pending(row: Option<Row>, base: Option<Snapshot>, merged: Snapshot, reloaded: Option<Snapshot>, locked: bool)

  // A save in progress. current is the copy it set out to store, origin what that copy was edited from,
  // began the baseline when it set out, and reloaded what the last reload since then brought in.
  datatype Saving = Saving(current: Snapshot, attempt: nat, origin: Option<Snapshot>, began: Option<Snapshot>,
                           reloaded: Option<Snapshot>, pending: Option<Pending>)

  // source is the stored value this instance's copy was last set to and has been edited from since; fetched
  // has the rows its loads were answered with and have not installed yet.
  datatype Instance = Instance(baseline: Option<Snapshot>, memory: Option<Snapshot>, source: Option<Snapshot>,
                               known: Option<nat>, saving: Option<Saving>, fetched: seq<Row>)

  // One row ever stored: who wrote it, and what the writer merged with what.
  datatype Commit = Commit(writer: nat, base: Option<Snapshot>, origin: Option<Snapshot>, began: Option<Snapshot>,
                           reloaded: Option<Snapshot>, current: Snapshot, value: Snapshot)

  // lock is the instance whose transaction holds the row lock.
  datatype World = World(row: Option<Row>, lock: Option<nat>, instances: seq<Instance>, history: seq<Commit>)

  datatype Step =
    | Fetch(i: nat)
    | Load(i: nat, n: nat)
    | Seed(i: nat, initial: Snapshot)
    | Edit(i: nat, edited: Snapshot)
    | Begin(i: nat)
    | Read(i: nat, lock: bool)
    | Write(i: nat, acknowledged: bool)
    | Fail(i: nat)
    | Restart(i: nat)

  const COLD := Instance(None, None, None, None, None, [])

  function Put(w: World, i: nat, inst: Instance): World
    requires i < |w.instances|
  {
    w.(instances := w.instances[i := inst])
  }

  // Whatever ends a save or its transaction lets the row go.
  function Released(w: World, i: nat): World {
    w.(lock := if w.lock == Some(i) then None else w.lock)
  }

  // What a save computes from the row it read.
  function Candidate(h: Host, base: Option<Snapshot>, current: Snapshot, read: Option<Row>): Snapshot {
    match read
    case None => current
    case Some(r) => MergedSnapshot(h, base, current, r.value)
  }

  function PendingOf(h: Host, inst: Instance, s: Saving, row: Option<Row>, locked: bool): Pending {
    Pending(row, inst.baseline, Candidate(h, inst.baseline, s.current, row), s.reloaded, locked)
  }

  // The row takes the merged value. An acknowledged writer moves its baseline with it, and the database
  // object it saved; that object is its copy only if no reload replaced it meanwhile.
  function Stored(w: World, i: nat, s: Saving, p: Pending, acknowledged: bool): World
    requires i < |w.instances|
  {
    var inst := w.instances[i];
    var revision := if w.row.Some? then w.row.value.revision + 1 else 1;
    var after :=
      if !acknowledged then inst.(saving := None)
      else if s.reloaded == None then Instance(Some(p.merged), Some(p.merged), Some(p.merged), Some(revision), None, inst.fetched)
      else Instance(Some(p.merged), inst.memory, inst.source, Some(revision), None, inst.fetched);
    World(Some(Row(p.merged, revision)), Released(w, i).lock, w.instances[i := after],
          w.history + [Commit(i, p.base, s.origin, s.began, p.reloaded, s.current, p.merged)])
  }

  // The compare-and-swap succeeds only while the row still has the revision that was read.
  predicate Unmoved(read: Option<Row>, row: Option<Row>) {
    match read
    case None => row == None
    case Some(r) => row.Some? && row.value.revision == r.revision
  }

  // Under the row lock the UPDATE asks nothing; an INSERT always asks for the row to be absent.
  predicate Admitted(p: Pending, row: Option<Row>) {
    Unmoved(p.row, row) || (p.locked && p.row.Some?)
  }

  function Next(h: Host, w: World, step: Step): (r: World)
    ensures |r.instances| == |w.instances|
  {
    if step.i >= |w.instances| then w
    else
      var inst := w.instances[step.i];
      match step
      case Fetch(i) =>
        if w.row == None then w else Put(w, i, inst.(fetched := inst.fetched + [w.row.value]))
      case Load(i, n) =>
        if n >= |inst.fetched| then w
        else
          var v := Some(inst.fetched[n].value);
          Put(w, i, Instance(v, v, v, Some(inst.fetched[n].revision),
                             if inst.saving.Some? then Some(inst.saving.value.(reloaded := v)) else None,
                             inst.fetched[..n] + inst.fetched[n + 1..]))
      case Seed(i, initial) =>
        if w.row == None && inst.memory == None then Put(w, i, inst.(memory := Some(initial))) else w
      case Edit(i, edited) =>
        if inst.saving == None && inst.memory.Some? then Put(w, i, inst.(memory := Some(edited))) else w
      case Begin(i) =>
        if inst.saving == None && inst.memory.Some?
        then Put(w, i, inst.(saving := Some(Saving(inst.memory.value, 0, inst.source, inst.baseline, None, None)))) else w
      case Read(i, lock) =>
        if inst.saving == None || inst.saving.value.pending.Some? || (lock && w.lock.Some?) then w
        else
          var p := PendingOf(h, inst, inst.saving.value, w.row, lock);
          Put(if lock && w.row.Some? then w.(lock := Some(i)) else w, i, inst.(saving := Some(inst.saving.value.(pending := Some(p)))))
      case Write(i, acknowledged) =>
        if inst.saving == None || inst.saving.value.pending == None || (w.lock.Some? && w.lock != Some(i)) then w
        else
          var s, p := inst.saving.value, inst.saving.value.pending.value;
          if Admitted(p, w.row) then Stored(w, i, s, p, acknowledged)
          else if p.locked || s.attempt + 1 == MAX_ATTEMPTS then Put(w, i, inst.(saving := None))
          else Put(w, i, inst.(saving := Some(s.(attempt := s.attempt + 1, pending := None))))
      case Fail(i) =>
        Put(Released(w, i), i, inst.(saving := None))
      case Restart(i) =>
        Put(Released(w, i), i, COLD)
  }

  function Run(h: Host, w: World, steps: seq<Step>): (r: World)
    ensures |r.instances| == |w.instances|
    decreases |steps|
  {
    if steps == [] then w else Run(h, Next(h, w, steps[0]), steps[1..])
  }

  function Start(n: nat): World {
    World(None, None, seq(n, i => COLD), [])
  }

  // The row an instance could have seen after r commits.
  function RowAt(history: seq<Commit>, r: nat): Option<Row>
    requires r <= |history|
  {
    if r == 0 then None else Some(Row(history[r - 1].value, r))
  }

  ghost predicate SeenRow(history: seq<Commit>, read: Option<Row>) {
    exists r: nat :: r <= |history| && read == RowAt(history, r)
  }

  // A baseline is always a value the row once had.
  ghost predicate SeenBase(history: seq<Commit>, base: Option<Snapshot>) {
    base == None || exists r: nat :: r < |history| && base == Some(history[r].value)
  }

  // The baseline a save works with: the one it began with, or what the last reload put in its place.
  function Rebased(began: Option<Snapshot>, reloaded: Option<Snapshot>): Option<Snapshot> {
    if reloaded.Some? then reloaded else began
  }

  // Every commit merged its writer's diff onto exactly the row before it.
  ghost predicate Linear(h: Host, history: seq<Commit>) {
    forall r: nat :: r < |history| ==>
      && history[r].value == Candidate(h, history[r].base, history[r].current, RowAt(history, r))
      && SeenBase(history[..r], history[r].base)
      && history[r].base == Rebased(history[r].began, history[r].reloaded)
  }

  ghost predicate PendingOk(h: Host, history: seq<Commit>, s: Saving, p: Pending) {
    && SeenRow(history, p.row)
    && SeenBase(history, p.base)
    && p.base == Rebased(s.began, p.reloaded)
    && (s.reloaded == None ==> p.reloaded == None)
    && p.merged == Candidate(h, p.base, s.current, p.row)
  }

  ghost predicate InstanceOk(h: Host, history: seq<Commit>, inst: Instance) {
    && SeenBase(history, inst.baseline)
    && (forall n :: 0 <= n < |inst.fetched| ==> SeenRow(history, Some(inst.fetched[n])))
    && (inst.saving.Some? ==>
          && inst.saving.value.attempt < MAX_ATTEMPTS
          && inst.baseline == Rebased(inst.saving.value.began, inst.saving.value.reloaded)
          && (inst.saving.value.reloaded == None ==> inst.memory == Some(inst.saving.value.current) && inst.source == inst.saving.value.origin)
          && (inst.saving.value.pending.Some? ==> PendingOk(h, history, inst.saving.value, inst.saving.value.pending.value)))
  }

  // Holds the row in a transaction.
  predicate Locks(inst: Instance) {
    && inst.saving.Some? && inst.saving.value.pending.Some?
    && inst.saving.value.pending.value.locked && inst.saving.value.pending.value.row.Some?
  }

  // Whoever has read the row under a lock holds the lock, and the row is as it was read.
  ghost predicate LockOk(w: World) {
    forall i :: 0 <= i < |w.instances| && Locks(w.instances[i]) ==>
      w.lock == Some(i) && w.instances[i].saving.value.pending.value.row == w.row
  }

  ghost predicate Inv(h: Host, w: World) {
    && w.row == RowAt(w.history, |w.history|)
    && Linear(h, w.history)
    && LockOk(w)
    && forall i :: 0 <= i < |w.instances| ==> InstanceOk(h, w.history, w.instances[i])
  }

  lemma SeenGrows(h: Host, history: seq<Commit>, c: Commit, inst: Instance)
    requires InstanceOk(h, history, inst)
    ensures InstanceOk(h, history + [c], inst)
  {
    BaseGrows(history, c, inst.baseline);
    forall n | 0 <= n < |inst.fetched| ensures SeenRow(history + [c], Some(inst.fetched[n])) {
      RowGrows(history, c, Some(inst.fetched[n]));
    }
    if inst.saving.Some? && inst.saving.value.pending.Some? {
      BaseGrows(history, c, inst.saving.value.pending.value.base);
      RowGrows(history, c, inst.saving.value.pending.value.row);
    }
  }

  lemma RowGrows(history: seq<Commit>, c: Commit, row: Option<Row>)
    requires SeenRow(history, row)
    ensures SeenRow(history + [c], row)
  {
    var r: nat :| r <= |history| && row == RowAt(history, r);
    assert RowAt(history + [c], r) == RowAt(history, r);
  }

  lemma RowIsBase(history: seq<Commit>, row: Row)
    requires SeenRow(history, Some(row))
    ensures SeenBase(history, Some(row.value))
  {
    var r: nat :| r <= |history| && Some(row) == RowAt(history, r);
    assert row.value == history[r - 1].value;
  }

  lemma BaseGrows(history: seq<Commit>, c: Commit, base: Option<Snapshot>)
    requires SeenBase(history, base)
    ensures SeenBase(history + [c], base)
  {
    if base.Some? {
      var r: nat :| r < |history| && base == Some(history[r].value);
      assert (history + [c])[r] == history[r];
    }
  }

  lemma LinearGrows(h: Host, history: seq<Commit>, c: Commit)
    requires Linear(h, history)
    requires c.value == Candidate(h, c.base, c.current, RowAt(history, |history|))
    requires SeenBase(history, c.base) && c.base == Rebased(c.began, c.reloaded)
    ensures Linear(h, history + [c])
  {
    var longer := history + [c];
    forall r: nat | r < |longer|
      ensures longer[r].value == Candidate(h, longer[r].base, longer[r].current, RowAt(longer, r))
      ensures SeenBase(longer[..r], longer[r].base)
    {
      assert RowAt(longer, r) == RowAt(history, r);
      assert longer[..r] == history[..r];
      if r == |history| {
        assert history[..r] == history;
      }
    }
  }

  // A row that still has the revision that was read is the row that was read.
  lemma SameRevisionSameRow(history: seq<Commit>, read: Option<Row>)
    requires SeenRow(history, read) && Unmoved(read, RowAt(history, |history|))
    ensures read == RowAt(history, |history|)
  {
  }

  // A write that is let through finds the row it merged with, by revision or by lock.
  lemma AdmittedRow(h: Host, w: World, i: nat)
    requires Inv(h, w) && i < |w.instances| && w.instances[i].saving.Some? && w.instances[i].saving.value.pending.Some?
    requires Admitted(w.instances[i].saving.value.pending.value, w.row)
    ensures w.instances[i].saving.value.pending.value.row == w.row
  {
    assert InstanceOk(h, w.history, w.instances[i]);
    var p := w.instances[i].saving.value.pending.value;
    if Unmoved(p.row, w.row) {
      SameRevisionSameRow(w.history, p.row);
    }
  }

  // The instance whose save just went through.
  lemma StoredInstanceOk(h: Host, w: World, i: nat, acknowledged: bool, c: Commit)
    requires i < |w.instances| && w.instances[i].saving.Some? && w.instances[i].saving.value.pending.Some?
    requires InstanceOk(h, w.history + [c], w.instances[i]) && c.value == w.instances[i].saving.value.pending.value.merged
    ensures InstanceOk(h, w.history + [c], Stored(w, i, w.instances[i].saving.value, w.instances[i].saving.value.pending.value, acknowledged).instances[i])
  {
    assert (w.history + [c])[|w.history|] == c;
  }

  // Nobody holds the row after a save went through.
  lemma StoredUnlocks(w: World, i: nat, acknowledged: bool)
    requires LockOk(w) && (w.lock == None || w.lock == Some(i))
    requires i < |w.instances| && w.instances[i].saving.Some? && w.instances[i].saving.value.pending.Some?
    ensures LockOk(Stored(w, i, w.instances[i].saving.value, w.instances[i].saving.value.pending.value, acknowledged))
  {
    var after := Stored(w, i, w.instances[i].saving.value, w.instances[i].saving.value.pending.value, acknowledged);
    forall k | 0 <= k < |after.instances| ensures !Locks(after.instances[k]) {
      assert k != i ==> after.instances[k] == w.instances[k];
    }
  }

  lemma StoredKeepsInv(h: Host, w: World, i: nat, acknowledged: bool)
    requires Inv(h, w) && i < |w.instances| && w.instances[i].saving.Some? && w.instances[i].saving.value.pending.Some?
    requires Admitted(w.instances[i].saving.value.pending.value, w.row) && (w.lock == None || w.lock == Some(i))
    ensures Inv(h, Stored(w, i, w.instances[i].saving.value, w.instances[i].saving.value.pending.value, acknowledged))
  {
    var s := w.instances[i].saving.value;
    var p := s.pending.value;
    var c := Commit(i, p.base, s.origin, s.began, p.reloaded, s.current, p.merged);
    AdmittedRow(h, w, i);
    StoredIsLinear(h, w, i, c);
    StoredUnlocks(w, i, acknowledged);
    StoredIsRow(w, i, acknowledged, c);
    forall k | 0 <= k < |w.instances| ensures InstanceOk(h, w.history + [c], Stored(w, i, s, p, acknowledged).instances[k]) {
      StoredInstance(h, w, i, acknowledged, c, k);
    }
  }

  lemma StoredIsRow(w: World, i: nat, acknowledged: bool, c: Commit)
    requires w.row == RowAt(w.history, |w.history|)
    requires i < |w.instances| && w.instances[i].saving.Some? && w.instances[i].saving.value.pending.Some?
    requires var s, p := w.instances[i].saving.value, w.instances[i].saving.value.pending.value;
             c == Commit(i, p.base, s.origin, s.began, p.reloaded, s.current, p.merged)
    ensures var after := Stored(w, i, w.instances[i].saving.value, w.instances[i].saving.value.pending.value, acknowledged);
            after.history == w.history + [c] && |after.instances| == |w.instances| && after.row == RowAt(w.history + [c], |w.history| + 1)
  {
  }

  lemma StoredInstance(h: Host, w: World, i: nat, acknowledged: bool, c: Commit, k: nat)
    requires i < |w.instances| && w.instances[i].saving.Some? && w.instances[i].saving.value.pending.Some?
    requires k < |w.instances| && InstanceOk(h, w.history, w.instances[k]) && c.value == w.instances[i].saving.value.pending.value.merged
    ensures InstanceOk(h, w.history + [c], Stored(w, i, w.instances[i].saving.value, w.instances[i].saving.value.pending.value, acknowledged).instances[k])
  {
    SeenGrows(h, w.history, c, w.instances[k]);
    if k == i {
      StoredInstanceOk(h, w, i, acknowledged, c);
    }
  }

  lemma StoredIsLinear(h: Host, w: World, i: nat, c: Commit)
    requires Linear(h, w.history) && w.row == RowAt(w.history, |w.history|)
    requires i < |w.instances| && w.instances[i].saving.Some? && w.instances[i].saving.value.pending.Some?
    requires InstanceOk(h, w.history, w.instances[i]) && w.instances[i].saving.value.pending.value.row == w.row
    requires var s, p := w.instances[i].saving.value, w.instances[i].saving.value.pending.value;
             c == Commit(i, p.base, s.origin, s.began, p.reloaded, s.current, p.merged)
    ensures Linear(h, w.history + [c])
  {
    LinearGrows(h, w.history, c);
  }

  // A step either stores a merge or changes nothing but the instance that takes it and its lock.
  lemma NextIs(h: Host, w: World, step: Step)
    ensures var after := Next(h, w, step);
      if after.history != w.history then
        && step.Write? && step.i < |w.instances| && w.instances[step.i].saving.Some? && w.instances[step.i].saving.value.pending.Some?
        && (w.lock == None || w.lock == Some(step.i))
        && Admitted(w.instances[step.i].saving.value.pending.value, w.row)
        && after == Stored(w, step.i, w.instances[step.i].saving.value, w.instances[step.i].saving.value.pending.value, step.acknowledged)
      else
        && after.row == w.row
        && (after.lock == w.lock || after.lock == Some(step.i) || w.lock == Some(step.i))
        && forall k :: 0 <= k < |w.instances| && k != step.i ==> after.instances[k] == w.instances[k]
  {
  }

  lemma NextKeepsInv(h: Host, w: World, step: Step)
    requires Inv(h, w)
    ensures Inv(h, Next(h, w, step))
  {
    var after := Next(h, w, step);
    NextIs(h, w, step);
    if after.history != w.history {
      StoredKeepsInv(h, w, step.i, step.acknowledged);
    } else if step.i < |w.instances| {
      LockStays(h, w, step);
      forall k | 0 <= k < |after.instances| ensures InstanceOk(h, after.history, after.instances[k]) {
        if k == step.i {
          OwnStep(h, w, step);
        } else {
          assert after.instances[k] == w.instances[k];
        }
      }
    }
  }

  lemma LockStays(h: Host, w: World, step: Step)
    requires LockOk(w) && step.i < |w.instances| && Next(h, w, step).history == w.history
    ensures LockOk(Next(h, w, step))
  {
    var after := Next(h, w, step);
    forall k | 0 <= k < |after.instances| && Locks(after.instances[k])
      ensures after.lock == Some(k) && after.instances[k].saving.value.pending.value.row == after.row
    {
      assert k != step.i ==> after.instances[k] == w.instances[k];
    }
  }

  // A step that stores nothing leaves the instance that took it in order.
  lemma OwnStep(h: Host, w: World, step: Step)
    requires w.row == RowAt(w.history, |w.history|)
    requires step.i < |w.instances| && InstanceOk(h, w.history, w.instances[step.i])
    requires Next(h, w, step).history == w.history
    ensures InstanceOk(h, w.history, Next(h, w, step).instances[step.i])
  {
    if step.Load? && step.n < |w.instances[step.i].fetched| {
      RowIsBase(w.history, w.instances[step.i].fetched[step.n]);
    }
    assert SeenRow(w.history, w.row);
  }

  // Over every interleaving of every number of instances: the history is linear, each row being the
  // merge of one writer's diff onto the row before it, and every baseline is a row that was stored.
  lemma {:induction false} RunKeepsInv(h: Host, w: World, steps: seq<Step>)
    requires Inv(h, w)
    ensures Inv(h, Run(h, w, steps))
    decreases |steps|
  {
    if steps != [] {
      NextKeepsInv(h, w, steps[0]);
      RunKeepsInv(h, Next(h, w, steps[0]), steps[1..]);
    }
  }

  lemma EveryRunIsLinear(h: Host, n: nat, steps: seq<Step>)
    ensures Inv(h, Run(h, Start(n), steps))
  {
    RunKeepsInv(h, Start(n), steps);
  }

  // ----- what an instance knows of the row it has

  ghost predicate KnownOk(history: seq<Commit>, inst: Instance) {
    inst.known.Some? ==>
      1 <= inst.known.value <= |history| && inst.baseline == Some(history[inst.known.value - 1].value)
  }

  ghost predicate AllKnow(w: World) {
    forall i :: 0 <= i < |w.instances| ==> KnownOk(w.history, w.instances[i])
  }

  lemma KnownGrows(history: seq<Commit>, c: Commit, inst: Instance)
    requires KnownOk(history, inst)
    ensures KnownOk(history + [c], inst)
  {
    if inst.known.Some? {
      assert (history + [c])[inst.known.value - 1] == history[inst.known.value - 1];
    }
  }

  lemma StoredKeepsKnown(w: World, i: nat, s: Saving, p: Pending, acknowledged: bool)
    requires AllKnow(w) && i < |w.instances| && w.row == RowAt(w.history, |w.history|)
    ensures AllKnow(Stored(w, i, s, p, acknowledged))
  {
    var after := Stored(w, i, s, p, acknowledged);
    var c := after.history[|w.history|];
    forall k | 0 <= k < |after.instances| ensures KnownOk(after.history, after.instances[k]) {
      KnownGrows(w.history, c, w.instances[k]);
      assert k != i ==> after.instances[k] == w.instances[k];
    }
  }

  lemma NextKeepsKnown(h: Host, w: World, step: Step)
    requires Inv(h, w) && AllKnow(w)
    ensures AllKnow(Next(h, w, step))
  {
    var after := Next(h, w, step);
    NextIs(h, w, step);
    if after.history != w.history {
      StoredKeepsKnown(w, step.i, w.instances[step.i].saving.value, w.instances[step.i].saving.value.pending.value, step.acknowledged);
    } else if step.i < |w.instances| {
      forall k | 0 <= k < |after.instances| ensures KnownOk(after.history, after.instances[k]) {
        if k == step.i {
          OwnKnown(h, w, step);
        } else {
          assert after.instances[k] == w.instances[k];
        }
      }
    }
  }

  lemma RowIsKnown(history: seq<Commit>, row: Row)
    requires SeenRow(history, Some(row))
    ensures 1 <= row.revision <= |history| && row.value == history[row.revision - 1].value
  {
    var r: nat :| r <= |history| && Some(row) == RowAt(history, r);
  }

  lemma OwnKnown(h: Host, w: World, step: Step)
    requires step.i < |w.instances| && InstanceOk(h, w.history, w.instances[step.i]) && KnownOk(w.history, w.instances[step.i])
    requires Next(h, w, step).history == w.history
    ensures KnownOk(w.history, Next(h, w, step).instances[step.i])
  {
    var inst := w.instances[step.i];
    if step.Load? && step.n < |inst.fetched| {
      RowIsKnown(w.history, inst.fetched[step.n]);
    } else if step.Write? && inst.saving.Some? && inst.saving.value.pending.Some? {
      WriteOrNot(h, w, step);
    }
  }

  // A write that stores nothing leaves baseline and revision.
  lemma WriteOrNot(h: Host, w: World, step: Step)
    requires step.Write? && step.i < |w.instances| && Next(h, w, step).history == w.history
    ensures Next(h, w, step).instances[step.i].known == w.instances[step.i].known
    ensures Next(h, w, step).instances[step.i].baseline == w.instances[step.i].baseline
  {
    NextIs(h, w, step);
    if w.instances[step.i].saving.Some? && w.instances[step.i].saving.value.pending.Some? {
      var s, p := w.instances[step.i].saving.value, w.instances[step.i].saving.value.pending.value;
      assert |Stored(w, step.i, s, p, step.acknowledged).history| == |w.history| + 1;
    }
  }

  lemma {:induction false} RunKeepsKnown(h: Host, w: World, steps: seq<Step>)
    requires Inv(h, w) && AllKnow(w)
    ensures AllKnow(Run(h, w, steps))
    decreases |steps|
  {
    if steps != [] {
      NextKeepsInv(h, w, steps[0]);
      NextKeepsKnown(h, w, steps[0]);
      RunKeepsKnown(h, Next(h, w, steps[0]), steps[1..]);
    }
  }

  // Over every run, comparing revision numbers is enough: an instance that knows the row's revision has the
  // row as its baseline, however its loads and saves overtook each other.
  lemma VersionCheckIsSound(h: Host, n: nat, steps: seq<Step>, i: nat)
    requires i < n
    ensures var w := Run(h, Start(n), steps);
            w.row.Some? && w.instances[i].known == Some(w.row.value.revision) ==> w.instances[i].baseline == Some(w.row.value.value)
  {
    EveryRunIsLinear(h, n, steps);
    RunKeepsKnown(h, Start(n), steps);
    KnownRow(h, Run(h, Start(n), steps), i);
  }

  lemma KnownRow(h: Host, w: World, i: nat)
    requires AllKnow(w) && w.row == RowAt(w.history, |w.history|) && i < |w.instances|
    ensures w.row.Some? && w.instances[i].known == Some(w.row.value.revision) ==> w.instances[i].baseline == Some(w.row.value.value)
  {
    assert KnownOk(w.history, w.instances[i]);
  }

  lemma {:induction false} DurableFrom(h: Host, history: seq<Commit>, first: nat, last: nat, name: string, id: string)
    requires Linear(h, history) && first <= last < |history|
    requires name !in EPHEMERAL_DELETE_MAP_KEYS && Record(history[first].value, name, id).Some?
    ensures Record(history[last].value, name, id).Some?
    decreases last
  {
    if first < last {
      DurableFrom(h, history, first, last - 1, name, id);
      var c := history[last];
      assert RowAt(history, last) == Some(Row(history[last - 1].value, last));
      DurableStays(h, c.base, c.current, history[last - 1].value, name, id);
    }
  }

  lemma DurableInRow(h: Host, w: World, r: nat, name: string, id: string)
    requires Linear(h, w.history) && w.row == RowAt(w.history, |w.history|) && r < |w.history|
    requires name !in EPHEMERAL_DELETE_MAP_KEYS && Record(w.history[r].value, name, id).Some?
    ensures w.row.Some? && Record(w.row.value.value, name, id).Some?
  {
    DurableFrom(h, w.history, r, |w.history| - 1, name, id);
  }

  // Once any commit stored a durable record, every later row of the run still has it.
  lemma NothingDurableIsLost(h: Host, n: nat, steps: seq<Step>, r: nat, name: string, id: string)
    requires r < |Run(h, Start(n), steps).history|
    requires name !in EPHEMERAL_DELETE_MAP_KEYS && Record(Run(h, Start(n), steps).history[r].value, name, id).Some?
    ensures var row := Run(h, Start(n), steps).row;
            row.Some? && Record(row.value.value, name, id).Some?
  {
    EveryRunIsLinear(h, n, steps);
    DurableInRow(h, Run(h, Start(n), steps), r, name, id);
  }

  // After a commit its writer's copy has another object under every id that was in the baseline: only a
  // record that is new keeps its object.
  lemma OnlyNewObjectsAreKept(h: Host, history: seq<Commit>, r: nat, name: string, id: string)
    requires Linear(h, history) && 0 < r < |history| && name !in EPHEMERAL_DELETE_MAP_KEYS
    requires var c, before := history[r], history[r - 1].value;
      && Record(c.current, name, id).Some? && Record(c.current, name, id).value.Obj?
      && (Record(before, name, id).Some? ==> Record(before, name, id).value.Obj?)
    ensures var c, before := history[r], history[r - 1].value;
            KeepsObject(Record(Or(c.base), name, id), Record(c.current, name, id), Record(before, name, id)) <==> Record(Or(c.base), name, id) == None
  {
    var c := history[r];
    if Record(Or(c.base), name, id).Some? {
      assert SeenBase(history[..r], c.base);
      var q: nat :| q < r && c.base == Some(history[..r][q].value);
      DurableFrom(h, history, q, r - 1, name, id);
    }
  }

  // The r-th commit's copy edits the record against the baseline it was merged with, a value that was
  // once stored.
  ghost predicate IsAnEdit(history: seq<Commit>, r: nat, name: string, id: string)
    requires r < |history|
  {
    var c := history[r];
    && Edits(name, Record(Or(c.base), name, id), Record(c.current, name, id))
    && SeenBase(history[..r], c.base)
  }

  lemma ChangeIsAnEdit(h: Host, history: seq<Commit>, r: nat, name: string, id: string)
    requires Linear(h, history) && 0 < r < |history|
    requires Record(history[r].value, name, id) != Record(history[r - 1].value, name, id)
    ensures IsAnEdit(history, r, name, id)
  {
    var c, before := history[r], history[r - 1].value;
    assert RowAt(history, r) == Some(Row(before, r));
    SnapshotAt(h, c.base, c.current, before);
    assert Record(c.value, name, id) == MergedAt(h, c.base, c.current, before, name, id);
  }

  // Every change a commit makes to a record is such an edit.
  lemma EveryChangeIsAnEdit(h: Host, n: nat, steps: seq<Step>, r: nat, name: string, id: string)
    requires 0 < r < |Run(h, Start(n), steps).history|
    requires Record(Run(h, Start(n), steps).history[r].value, name, id) != Record(Run(h, Start(n), steps).history[r - 1].value, name, id)
    ensures IsAnEdit(Run(h, Start(n), steps).history, r, name, id)
  {
    EveryRunIsLinear(h, n, steps);
    ChangeIsAnEdit(h, Run(h, Start(n), steps).history, r, name, id);
  }

  // A commit whose writer keeps the mark and the transcript of the conversation under id.
  ghost predicate KeepsArtifact(c: Commit, id: string) {
    CONVERSATIONS in c.current.collections ==>
      MergeAlgebra.KeepsArtifact(Record(Or(c.base), CONVERSATIONS, id), Record(c.current, CONVERSATIONS, id))
  }

  function TranscriptOf(s: Snapshot, id: string): Option<Json> {
    Lookup(BaseFields(Record(s, CONVERSATIONS, id)), "transcript")
  }

  ghost predicate HoldsArtifact(history: seq<Commit>, r: nat, id: string)
    requires r < |history|
  {
    IsArtifactRecord(Record(history[r].value, CONVERSATIONS, id))
  }

  // The r-th commit's writer held an artifact, and what is stored after commit last is its transcript.
  ghost predicate TakenFrom(history: seq<Commit>, r: nat, last: nat, id: string)
    requires r < |history| && last < |history|
  {
    && IsArtifactRecord(Record(history[r].current, CONVERSATIONS, id))
    && TranscriptOf(history[last].value, id) == TranscriptOf(history[r].current, id)
  }

  ghost predicate SameTranscript(history: seq<Commit>, first: nat, last: nat, id: string)
    requires first < |history| && last < |history|
  {
    TranscriptOf(history[last].value, id) == TranscriptOf(history[first].value, id)
  }

  lemma ArtifactKept(h: Host, history: seq<Commit>, r: nat, id: string)
    requires Linear(h, history) && 0 < r < |history|
    requires HoldsArtifact(history, r - 1, id) && KeepsArtifact(history[r], id)
    ensures HoldsArtifact(history, r, id) && (SameTranscript(history, r - 1, r, id) || TakenFrom(history, r, r, id))
  {
    var c, before := history[r], history[r - 1].value;
    assert RowAt(history, r) == Some(Row(before, r));
    SnapshotAt(h, c.base, c.current, before);
    assert Record(c.value, CONVERSATIONS, id) == MergedAt(h, c.base, c.current, before, CONVERSATIONS, id);
    if CONVERSATIONS in c.current.collections {
      ArtifactStep(h, Record(Or(c.base), CONVERSATIONS, id), Record(c.current, CONVERSATIONS, id), Record(before, CONVERSATIONS, id));
    }
  }

  // What the r-th commit does to an artifact.
  ghost predicate Kept(history: seq<Commit>, r: nat, id: string)
    requires 0 < r < |history|
  {
    HoldsArtifact(history, r - 1, id) ==>
      HoldsArtifact(history, r, id) && (SameTranscript(history, r - 1, r, id) || TakenFrom(history, r, r, id))
  }

  lemma {:induction false} ArtifactChain(history: seq<Commit>, first: nat, last: nat, id: string)
    requires first <= last < |history| && HoldsArtifact(history, first, id)
    requires forall r :: first < r <= last ==> Kept(history, r, id)
    ensures HoldsArtifact(history, last, id)
    ensures SameTranscript(history, first, last, id) || exists r :: first < r <= last && TakenFrom(history, r, last, id)
    decreases last
  {
    if first < last {
      var before := last - 1;
      ArtifactChain(history, first, before, id);
      assert Kept(history, last, id);
      if !TakenFrom(history, last, last, id) && !SameTranscript(history, first, before, id) {
        var r :| first < r <= before && TakenFrom(history, r, before, id);
        assert TakenFrom(history, r, last, id);
      }
    }
  }

  // Over any stretch of history whose writers keep the mark, a complete artifact stays one, and its
  // transcript is the one it had or that of a later writer which itself held an artifact.
  lemma ArtifactSurvives(h: Host, history: seq<Commit>, first: nat, last: nat, id: string)
    requires Linear(h, history) && first <= last < |history|
    requires HoldsArtifact(history, first, id)
    requires forall r :: first < r <= last ==> KeepsArtifact(history[r], id)
    ensures HoldsArtifact(history, last, id)
    ensures SameTranscript(history, first, last, id) || exists r :: first < r <= last && TakenFrom(history, r, last, id)
  {
    forall r | first < r <= last ensures Kept(history, r, id) {
      if HoldsArtifact(history, r - 1, id) {
        ArtifactKept(h, history, r, id);
      }
    }
    ArtifactChain(history, first, last, id);
  }

  // The whole effect of one step on the instance that takes it, as its callers see it: a save that
  // returns leaves baseline and row equal, and the copy too unless a reload replaced it meanwhile; a save
  // that throws leaves baseline and copy as they were, so the same diff is still pending, and stores
  // nothing unless only the acknowledgement was lost.
  lemma SaveOutcome(h: Host, w: World, step: Step)
    requires step.i < |w.instances| && w.instances[step.i].saving.Some?
    requires Next(h, w, step).instances[step.i].saving == None && !step.Restart?
    ensures var was, s := w.instances[step.i], w.instances[step.i].saving.value;
            var w' := Next(h, w, step);
            var now := w'.instances[step.i];
            || (&& s.pending.Some? && w'.row.Some? && w'.row.value.value == s.pending.value.merged
                && now.baseline == Some(w'.row.value.value) && now.known == Some(w'.row.value.revision)
                && now.memory == (if s.reloaded == None then now.baseline else was.memory)
                && |w'.history| == |w.history| + 1)
            || (&& now == was.(saving := None)
                && (step != Write(step.i, false) ==> w'.row == w.row && w'.history == w.history))
  {
  }

  // What a save reads: the row as it is, and at once its copy's diff against its baseline on that row, or the
  // copy itself if there is no row. The row is taken exactly if it is there and a lock is asked for.
  lemma ReadExactly(h: Host, w: World, i: nat, lock: bool)
    requires i < |w.instances| && w.instances[i].saving.Some? && w.instances[i].saving.value.pending == None && (lock ==> w.lock == None)
    ensures var inst, after := w.instances[i], Next(h, w, Read(i, lock));
            var merged := if w.row == None then inst.saving.value.current
                          else MergedSnapshot(h, inst.baseline, inst.saving.value.current, w.row.value.value);
      && after.instances[i].saving.Some? && after.instances[i].saving.value.pending.Some?
      && after.instances[i].saving.value.pending.value.row == w.row && after.instances[i].saving.value.pending.value.merged == merged
      && after.instances[i].saving.value.attempt == inst.saving.value.attempt
      && after.instances[i].baseline == inst.baseline && after.instances[i].memory == inst.memory
      && after.lock == (if lock && w.row.Some? then Some(i) else w.lock) && after.row == w.row
  {
  }

  lemma AdmittedExactly(h: Host, w: World, i: nat)
    requires Inv(h, w) && i < |w.instances| && w.instances[i].saving.Some? && w.instances[i].saving.value.pending.Some?
    ensures Admitted(w.instances[i].saving.value.pending.value, w.row) <==> w.instances[i].saving.value.pending.value.row == w.row
    ensures w.instances[i].saving.value.attempt < 4
  {
    assert InstanceOk(h, w.history, w.instances[i]);
    if Admitted(w.instances[i].saving.value.pending.value, w.row) {
      AdmittedRow(h, w, i);
    }
  }

  lemma WriteSteps(h: Host, w: World, i: nat, acknowledged: bool)
    requires i < |w.instances| && w.instances[i].saving.Some? && w.instances[i].saving.value.pending.Some?
    requires (w.lock == None || w.lock == Some(i)) && w.instances[i].saving.value.attempt < 4
    ensures var s, p, after := w.instances[i].saving.value, w.instances[i].saving.value.pending.value, Next(h, w, Write(i, acknowledged));
      if Admitted(p, w.row)
      then after.row == Some(Row(p.merged, if w.row.Some? then w.row.value.revision + 1 else 1)) && |after.history| == |w.history| + 1 && after.instances[i].saving == None
      else after == Put(w, i, w.instances[i].(saving := if s.attempt < 3 && !p.locked then Some(s.(attempt := s.attempt + 1, pending := None)) else None))
  {
  }

  // What a save writes, in every reachable state: it goes through exactly if the row is the one it read, and
  // then the row takes what it merged under the next revision.
  lemma WriteExactly(h: Host, w: World, i: nat, acknowledged: bool)
    requires Inv(h, w) && i < |w.instances| && w.instances[i].saving.Some? && w.instances[i].saving.value.pending.Some?
    requires (w.lock == None || w.lock == Some(i)) && w.instances[i].saving.value.pending.value.row == w.row
    ensures var after := Next(h, w, Write(i, acknowledged));
      && after.row == Some(Row(w.instances[i].saving.value.pending.value.merged, if w.row.Some? then w.row.value.revision + 1 else 1))
      && |after.history| == |w.history| + 1 && after.instances[i].saving == None
  {
    AdmittedExactly(h, w, i);
    WriteSteps(h, w, i, acknowledged);
  }

  // Otherwise nothing is stored. It tries again, up to four times in all, but gives up at once if it had asked
  // for a lock.
  lemma RefusedExactly(h: Host, w: World, i: nat, acknowledged: bool)
    requires Inv(h, w) && i < |w.instances| && w.instances[i].saving.Some? && w.instances[i].saving.value.pending.Some?
    requires (w.lock == None || w.lock == Some(i)) && w.instances[i].saving.value.pending.value.row != w.row
    ensures var s, p := w.instances[i].saving.value, w.instances[i].saving.value.pending.value;
            var saving := if s.attempt < 3 && !p.locked then Some(s.(attempt := s.attempt + 1, pending := None)) else None;
            Next(h, w, Write(i, acknowledged)) == Put(w, i, w.instances[i].(saving := saving))
  {
    AdmittedExactly(h, w, i);
    WriteSteps(h, w, i, acknowledged);
  }

  // The other steps: only an empty store is seeded, into an instance that has no copy; a copy is edited
  // between saves; a save sets out from the copy as it is; and an instance that restarts knows nothing.
  lemma StepExactly(h: Host, w: World, i: nat, s: Snapshot)
    requires i < |w.instances|
    ensures var inst := w.instances[i];
      && Next(h, w, Seed(i, s)).instances[i] == (if w.row == None && inst.memory == None then inst.(memory := Some(s)) else inst)
      && Next(h, w, Edit(i, s)).instances[i] == (if inst.saving == None && inst.memory.Some? then inst.(memory := Some(s)) else inst)
      && Next(h, w, Begin(i)).instances[i] ==
           (if inst.saving == None && inst.memory.Some?
            then inst.(saving := Some(Saving(inst.memory.value, 0, inst.source, inst.baseline, None, None))) else inst)
      && Next(h, w, Restart(i)).instances[i] == Instance(None, None, None, None, None, [])
      && Next(h, w, Restart(i)).lock == (if w.lock == Some(i) then None else w.lock)
  {
  }

  // A save that reads under the row lock never finds the row moved: it is let through whatever the
  // others do, unless the row did not exist when it read.
  lemma LockedSaveIsLetThrough(h: Host, n: nat, steps: seq<Step>, i: nat)
    requires i < n
    requires var inst := Run(h, Start(n), steps).instances[i]; Locks(inst)
    ensures var w := Run(h, Start(n), steps); IsLetThrough(h, w, i)
  {
    EveryRunIsLinear(h, n, steps);
    LockedIsLetThrough(h, Run(h, Start(n), steps), i);
  }

  // The row is as the save read it, and its write stores what it merged, acknowledged or not.
  ghost predicate IsLetThrough(h: Host, w: World, i: nat) {
    && i < |w.instances| && Locks(w.instances[i])
    && w.instances[i].saving.value.pending.value.row == w.row
    && forall acknowledged :: Next(h, w, Write(i, acknowledged)).row
                              == Some(Row(w.instances[i].saving.value.pending.value.merged, w.row.value.revision + 1))
  }

  lemma LockedIsLetThrough(h: Host, w: World, i: nat)
    requires LockOk(w) && i < |w.instances| && Locks(w.instances[i])
    ensures IsLetThrough(h, w, i)
  {
  }

  // A lost acknowledgement is harmless: retrying the same diff before anyone else commits stores the
  // same value again.
  lemma LostAcknowledgementIsHarmless(h: Host, w: World, i: nat)
    requires Inv(h, w) && i < |w.instances| && w.instances[i].saving.Some? && w.row.Some? && (w.lock == None || w.lock == Some(i))
    requires w.instances[i].saving.value.reloaded == None && w.instances[i].saving.value.pending.Some?
    requires Admitted(w.instances[i].saving.value.pending.value, w.row)
    requires forall id :: CellRemergeSafe(CONVERSATIONS, Record(Or(w.instances[i].baseline), CONVERSATIONS, id),
               Record(w.instances[i].saving.value.current, CONVERSATIONS, id), Record(w.row.value.value, CONVERSATIONS, id))
    ensures var lost := Next(h, w, Write(i, false));
            var again := Run(h, lost, [Begin(i), Read(i, false), Write(i, true)]);
            && lost.row == Some(Row(w.instances[i].saving.value.pending.value.merged, w.row.value.revision + 1))
            && again.row == Some(Row(lost.row.value.value, lost.row.value.revision + 1))
            && again.instances[i].baseline == Some(lost.row.value.value)
            && again.instances[i].memory == Some(lost.row.value.value)
  {
    PendingIsDiff(h, w, i);
    Remerge(h, w.instances[i].baseline, w.instances[i].saving.value.current, w.row.value.value);
    LostLeaves(h, w, i);
    UndisturbedSave(h, Next(h, w, Write(i, false)), i);
  }

  lemma LostLeaves(h: Host, w: World, i: nat)
    requires i < |w.instances| && w.instances[i].saving.Some? && w.row.Some? && (w.lock == None || w.lock == Some(i))
    requires w.instances[i].saving.value.pending.Some? && Admitted(w.instances[i].saving.value.pending.value, w.row)
    ensures var lost := Next(h, w, Write(i, false));
      && lost.row == Some(Row(w.instances[i].saving.value.pending.value.merged, w.row.value.revision + 1))
      && lost.instances[i] == w.instances[i].(saving := None) && lost.lock == None
  {
  }

  // Without a reload, what a save is about to store is its own diff on the row.
  lemma PendingIsDiff(h: Host, w: World, i: nat)
    requires Inv(h, w) && i < |w.instances| && w.instances[i].saving.Some? && w.row.Some?
    requires w.instances[i].saving.value.reloaded == None && w.instances[i].saving.value.pending.Some?
    requires Admitted(w.instances[i].saving.value.pending.value, w.row)
    ensures w.instances[i].memory == Some(w.instances[i].saving.value.current)
    ensures w.instances[i].saving.value.pending.value.merged
            == MergedSnapshot(h, w.instances[i].baseline, w.instances[i].saving.value.current, w.row.value.value)
  {
    assert InstanceOk(h, w.history, w.instances[i]);
    AdmittedRow(h, w, i);
  }

  lemma {:induction false} RunAppend(h: Host, w: World, first: seq<Step>, second: seq<Step>)
    ensures Run(h, w, first + second) == Run(h, Run(h, w, first), second)
    decreases |first|
  {
    if first == [] {
      assert first + second == second;
    } else {
      assert (first + second)[1..] == first[1..] + second;
      RunAppend(h, Next(h, w, first[0]), first[1..], second);
    }
  }

  lemma RunOne(h: Host, w: World, step: Step)
    ensures Run(h, w, [step]) == Next(h, w, step)
  {
    assert [step][1..] == [];
    assert Run(h, w, [step]) == Run(h, Next(h, w, step), []);
  }

  lemma RunTwo(h: Host, w: World, steps: seq<Step>)
    requires |steps| == 2
    ensures Run(h, w, steps) == Next(h, Next(h, w, steps[0]), steps[1])
  {
    var w1, last := Next(h, w, steps[0]), steps[1..];
    assert last[1..] == [];
    assert Run(h, w1, last) == Run(h, Next(h, w1, steps[1]), []);
  }

  lemma RunThree(h: Host, w: World, steps: seq<Step>)
    requires |steps| == 3
    ensures Run(h, w, steps) == Next(h, Next(h, Next(h, w, steps[0]), steps[1]), steps[2])
  {
    RunTwo(h, Next(h, w, steps[0]), steps[1..]);
  }

  // An undisturbed save is one commit.
  lemma UndisturbedSave(h: Host, w: World, i: nat)
    requires i < |w.instances| && w.instances[i].saving == None && w.instances[i].memory.Some? && w.row.Some? && w.lock == None
    ensures var inst := w.instances[i];
            var merged := MergedSnapshot(h, inst.baseline, inst.memory.value, w.row.value.value);
            var again := Run(h, w, [Begin(i), Read(i, false), Write(i, true)]);
            && again.row == Some(Row(merged, w.row.value.revision + 1))
            && again.instances[i].baseline == Some(merged) && again.instances[i].memory == Some(merged)
            && again.history == w.history + [Commit(i, inst.baseline, inst.source, inst.baseline, None, inst.memory.value, merged)]
  {
    RunThree(h, w, [Begin(i), Read(i, false), Write(i, true)]);
  }

  // ----- when a save merges with the baseline its copy was edited from

  // The save of instance i stays in flight.
  predicate Underway(h: Host, w: World, i: nat, steps: seq<Step>)
    decreases |steps|
  {
    && i < |w.instances| && w.instances[i].saving.Some?
    && (steps == [] || Underway(h, Next(h, w, steps[0]), i, steps[1..]))
  }

  // What this step, if it is a reload of instance i, brings in.
  function Installs(inst: Instance, i: nat, step: Step): Option<Snapshot> {
    if step.Load? && step.i == i && step.n < |inst.fetched| then Some(inst.fetched[step.n].value) else None
  }

  // What the last reload of instance i in these steps brought in.
  function LastReload(h: Host, w: World, i: nat, steps: seq<Step>): Option<Snapshot>
    decreases |steps|
  {
    if steps == [] then None
    else
      var later := LastReload(h, Next(h, w, steps[0]), i, steps[1..]);
      if later.Some? then later
      else if i < |w.instances| then Installs(w.instances[i], i, steps[0]) else None
  }

  lemma {:induction false} OnlyReloadsRebase(h: Host, w: World, i: nat, steps: seq<Step>)
    requires Underway(h, w, i, steps)
    ensures var was, now := w.instances[i].saving, Run(h, w, steps).instances[i].saving;
            var last := LastReload(h, w, i, steps);
      && now.Some? && now.value.current == was.value.current && now.value.origin == was.value.origin && now.value.began == was.value.began
      && now.value.reloaded == (if last.Some? then last else was.value.reloaded)
    decreases |steps|
  {
    if steps != [] {
      StepRebases(h, w, i, steps[0]);
      OnlyReloadsRebase(h, Next(h, w, steps[0]), i, steps[1..]);
    }
  }

  lemma StepRebases(h: Host, w: World, i: nat, step: Step)
    requires i < |w.instances| && w.instances[i].saving.Some? && Next(h, w, step).instances[i].saving.Some?
    ensures var was, now := w.instances[i].saving.value, Next(h, w, step).instances[i].saving.value;
      && now.current == was.current && now.origin == was.origin && now.began == was.began
      && now.reloaded == (if Installs(w.instances[i], i, step).Some? then Installs(w.instances[i], i, step) else was.reloaded)
  {
  }

  lemma ReadThenWrite(h: Host, w: World, i: nat, lock: bool)
    requires i < |w.instances| && w.instances[i].saving.Some? && w.instances[i].saving.value.pending == None && w.lock == None
    ensures var inst, s := w.instances[i], w.instances[i].saving.value;
            var merged := Candidate(h, inst.baseline, s.current, w.row);
            var after := Run(h, w, [Read(i, lock), Write(i, true)]);
      && after.row == Some(Row(merged, if w.row.Some? then w.row.value.revision + 1 else 1))
      && after.history == w.history + [Commit(i, inst.baseline, s.origin, s.began, s.reloaded, s.current, merged)]
  {
    RunTwo(h, w, [Read(i, lock), Write(i, true)]);
  }

  // Whatever all instances do between the beginning of a save and the read of the attempt that stores it,
  // that commit merges with the baseline the copy was edited from exactly if the last reload in between
  // brought in that very value, or there was none and the instance was in step when it began.
  lemma OwnDiffExactly(h: Host, w: World, i: nat, steps: seq<Step>, lock: bool)
    requires Inv(h, w) && i < |w.instances| && w.instances[i].saving == None && w.instances[i].memory.Some?
    requires Underway(h, Next(h, w, Begin(i)), i, steps)
    requires var read := Run(h, Next(h, w, Begin(i)), steps);
             read.instances[i].saving.Some? && read.instances[i].saving.value.pending == None && read.lock == None
    ensures var read := Run(h, Next(h, w, Begin(i)), steps);
            var history := Run(h, read, [Read(i, lock), Write(i, true)]).history;
            var last := LastReload(h, Next(h, w, Begin(i)), i, steps);
      && |history| == |read.history| + 1
      && var c := history[|read.history|];
         && c.writer == i && c.current == w.instances[i].memory.value && c.origin == w.instances[i].source
         && (c.base == c.origin <==> if last.Some? then last == w.instances[i].source else InStep(w.instances[i]))
  {
    var begun := Next(h, w, Begin(i));
    var read := Run(h, begun, steps);
    NextKeepsInv(h, w, Begin(i));
    RunKeepsInv(h, begun, steps);
    OnlyReloadsRebase(h, begun, i, steps);
    assert InstanceOk(h, read.history, read.instances[i]);
    ReadThenWrite(h, read, i, lock);
  }

  // An instance is in step while its baseline is what its copy was edited from.
  predicate InStep(inst: Instance) {
    inst.baseline == inst.source
  }

  // It falls out of step exactly when a save of its own is acknowledged after a reload replaced the copy,
  // and stored something else than the reload brought in.
  lemma FallsOutOfStepExactly(h: Host, w: World, step: Step, i: nat)
    requires i < |w.instances| && InStep(w.instances[i])
    ensures !InStep(Next(h, w, step).instances[i]) <==>
      && step == Write(i, true) && Next(h, w, step).history != w.history
      && w.instances[i].saving.value.reloaded.Some?
      && Some(w.instances[i].saving.value.pending.value.merged) != w.instances[i].source
  {
    NextIs(h, w, step);
    if Next(h, w, step).history == w.history {
    } else {
      assert Next(h, w, step).history[|w.history|] in Next(h, w, step).history;
    }
  }

  // The cost of a reload before the read: whoever changed a record meanwhile, the save puts its own older
  // copy of it back.
  lemma ReloadBeforeReadReverts(h: Host, w: World, i: nat, name: string, id: string)
    requires i < |w.instances| && w.instances[i].saving.Some? && w.instances[i].saving.value.pending == None
    requires w.row.Some? && w.lock == None
    requires name in w.instances[i].saving.value.current.collections && name != CONVERSATIONS
    requires Record(w.instances[i].saving.value.current, name, id).Some?
    ensures var row := Run(h, w, [Fetch(i), Load(i, |w.instances[i].fetched|)] + [Read(i, false), Write(i, true)]).row;
            row.Some? && Record(row.value.value, name, id) == Record(w.instances[i].saving.value.current, name, id)
  {
    var loaded := Run(h, w, [Fetch(i), Load(i, |w.instances[i].fetched|)]);
    FetchThenLoad(h, w, i);
    RunAppend(h, w, [Fetch(i), Load(i, |w.instances[i].fetched|)], [Read(i, false), Write(i, true)]);
    ReadThenWrite(h, loaded, i, false);
    UnmovedRow(h, w.row.value.value, w.instances[i].saving.value.current, name, id);
  }

  // A load that nothing comes between.
  lemma FetchThenLoad(h: Host, w: World, i: nat)
    requires i < |w.instances| && w.row.Some?
    ensures var inst, v := w.instances[i], Some(w.row.value.value);
            Run(h, w, [Fetch(i), Load(i, |inst.fetched|)])
            == Put(w, i, Instance(v, v, v, Some(w.row.value.revision),
                                  if inst.saving.Some? then Some(inst.saving.value.(reloaded := v)) else None, inst.fetched))
  {
    var inst := w.instances[i];
    RunTwo(h, w, [Fetch(i), Load(i, |inst.fetched|)]);
    var longer := inst.fetched + [w.row.value];
    assert longer[..|inst.fetched|] + longer[|inst.fetched| + 1..] == inst.fetched;
    assert Next(h, w, Fetch(i)).instances == w.instances[i := inst.(fetched := longer)];
  }

  // A load may be overtaken by a save of its own instance and then takes the copy back to before it: the
  // instance no longer sees what it has just stored, nor knows the revision it stored it under.
  lemma LoadCanGoBack(h: Host, w: World, i: nat)
    requires i < |w.instances| && w.instances[i].saving.Some? && w.instances[i].saving.value.pending.Some?
    requires w.row.Some? && (w.lock == None || w.lock == Some(i)) && Admitted(w.instances[i].saving.value.pending.value, w.row)
    ensures var merged := w.instances[i].saving.value.pending.value.merged;
            var after := Run(h, w, [Fetch(i), Write(i, true), Load(i, |w.instances[i].fetched|)]);
      && after.row == Some(Row(merged, w.row.value.revision + 1))
      && after.instances[i].memory == Some(w.row.value.value) && after.instances[i].known == Some(w.row.value.revision)
  {
    var n := |w.instances[i].fetched|;
    RunThree(h, w, [Fetch(i), Write(i, true), Load(i, n)]);
    var fetched := Next(h, w, Fetch(i));
    assert fetched.instances[i] == w.instances[i].(fetched := w.instances[i].fetched + [w.row.value]);
    var stored := Next(h, fetched, Write(i, true));
    assert stored.instances[i].fetched[n] == w.row.value;
  }

  // The cost of a reload after the read: this save goes through as it should, but leaves the instance out
  // of step, and its next save undoes what this one stored.
  lemma ReloadAfterReadIsUndone(h: Host, w: World, i: nat, name: string, id: string)
    requires i < |w.instances| && w.instances[i].saving.Some? && w.instances[i].saving.value.pending.Some?
    requires w.row.Some? && (w.lock == None || w.lock == Some(i)) && Admitted(w.instances[i].saving.value.pending.value, w.row)
    requires name in w.row.value.value.collections && name != CONVERSATIONS && Record(w.row.value.value, name, id).Some?
    ensures var stored := Run(h, w, [Fetch(i), Load(i, |w.instances[i].fetched|)] + [Write(i, true)]);
            var again := Run(h, stored, [Begin(i), Read(i, false), Write(i, true)]);
      && stored.row.Some? && stored.row.value.value == w.instances[i].saving.value.pending.value.merged
      && again.row.Some? && Record(again.row.value.value, name, id) == Record(w.row.value.value, name, id)
  {
    FetchThenLoad(h, w, i);
    RunAppend(h, w, [Fetch(i), Load(i, |w.instances[i].fetched|)], [Write(i, true)]);
    var loaded := Run(h, w, [Fetch(i), Load(i, |w.instances[i].fetched|)]);
    RunOne(h, loaded, Write(i, true));
    var stored := Next(h, loaded, Write(i, true));
    UndisturbedSave(h, stored, i);
    UnmovedRow(h, stored.row.value.value, w.row.value.value, name, id);
  }

  // A run in which no instance reloads while its own save is in flight.
  predicate NoReloadDuringSave(h: Host, w: World, steps: seq<Step>)
    decreases |steps|
  {
    steps == [] ||
    (&& !(steps[0].Load? && steps[0].i < |w.instances| && w.instances[steps[0].i].saving.Some?)
     && NoReloadDuringSave(h, Next(h, w, steps[0]), steps[1..]))
  }

  predicate OwnSaving(inst: Instance) {
    && InStep(inst)
    && (inst.saving.Some? ==>
          && inst.saving.value.reloaded == None && inst.saving.value.origin == inst.baseline
          && (inst.saving.value.pending.Some? ==> inst.saving.value.pending.value.base == inst.saving.value.origin))
  }

  ghost predicate OwnDiffs(w: World) {
    && (forall i :: 0 <= i < |w.instances| ==> OwnSaving(w.instances[i]))
    && (forall r :: 0 <= r < |w.history| ==> w.history[r].base == w.history[r].origin)
  }

  lemma {:induction false} StaysOwn(h: Host, w: World, steps: seq<Step>)
    requires OwnDiffs(w) && NoReloadDuringSave(h, w, steps)
    ensures OwnDiffs(Run(h, w, steps))
    decreases |steps|
  {
    if steps != [] {
      StaysOwn(h, Next(h, w, steps[0]), steps[1..]);
    }
  }

  // In such a run every commit merges the diff its writer made: the baseline it is merged with is the
  // one its copy was edited from.
  lemma DiffsAreOwnEdits(h: Host, n: nat, steps: seq<Step>)
    requires NoReloadDuringSave(h, Start(n), steps)
    ensures forall c :: c in Run(h, Start(n), steps).history ==> c.base == c.origin
  {
    StaysOwn(h, Start(n), steps);
  }

  // So in such a run nobody writes another instance's old values back: every change a commit makes to a
  // record is an edit its writer made to it.
  lemma EveryChangeIsOwn(h: Host, n: nat, steps: seq<Step>, r: nat, name: string, id: string)
    requires NoReloadDuringSave(h, Start(n), steps)
    requires 0 < r < |Run(h, Start(n), steps).history|
    requires Record(Run(h, Start(n), steps).history[r].value, name, id) != Record(Run(h, Start(n), steps).history[r - 1].value, name, id)
    ensures var c := Run(h, Start(n), steps).history[r];
            Edits(name, Record(Or(c.origin), name, id), Record(c.current, name, id))
  {
    DiffsAreOwnEdits(h, n, steps);
    EveryChangeIsAnEdit(h, n, steps, r, name, id);
    assert Run(h, Start(n), steps).history[r] in Run(h, Start(n), steps).history;
  }

  function LeadRow(status: string): Snapshot {
    Snapshot(map["leads" := Collection(map["lead-1" := Obj(map["status" := Str(status)])], [])], map[])
  }

  // A copy that differs from its baseline in the status of the lead overwrites it.
  lemma MergeOneLead(h: Host, was: string, now: string)
    requires was != now
    ensures MergedSnapshot(h, Some(LeadRow(was)), LeadRow(now), LeadRow(was)) == LeadRow(now)
  {
    var b, c := LeadRow(was), LeadRow(now);
    var r := MergedSnapshot(h, Some(b), c, b);
    SnapshotAt(h, Some(b), c, b);
    assert Record(b, "leads", "lead-1") == Some(Obj(map["status" := Str(was)]));
    assert map["status" := Str(was)]["status"] != map["status" := Str(now)]["status"];
    forall name, id ensures Record(r, name, id) == Record(c, name, id) {
      assert Record(r, name, id) == MergedAt(h, Some(b), c, b, name, id);
      if name == "leads" {
        CellOntoBase(h, name, Record(b, name, id), Record(c, name, id));
      }
    }
    SameSnapshot(r, c);
  }

  lemma RunInFour(h: Host, w: World, a: seq<Step>, b: seq<Step>, c: seq<Step>, d: seq<Step>)
    ensures Run(h, w, a + (b + (c + d))) == Run(h, Run(h, Run(h, Run(h, w, a), b), c), d)
  {
    RunAppend(h, w, a, b + (c + d));
    RunAppend(h, Run(h, w, a), b, c + d);
    RunAppend(h, Run(h, Run(h, w, a), b), c, d);
  }

  // The three stretches of the run below.
  function FirstSave(): seq<Step> {
    [Seed(0, LeadRow("NEW")), Begin(0), Read(0, false)] + ([Write(0, true)] + ([Fetch(1), Load(1, 0)] + [Begin(0)]))
  }

  function EditMeanwhile(): seq<Step> {
    [Edit(1, LeadRow("ASSIGNED")), Begin(1), Read(1, false)]
  }

  function ReloadThenWrite(): seq<Step> {
    [Write(1, true)] + ([Fetch(0), Load(0, 0)] + [Read(0, false)])
  }

  function Fresh(a: Snapshot, revision: nat): Instance {
    Instance(Some(a), Some(a), Some(a), Some(revision), None, [])
  }

  // Two instances hold lead-1 as NEW; the save of the first is in flight and has nothing to say.
  function Stalled(): World {
    var a := LeadRow("NEW");
    World(Some(Row(a, 1)), None, [Fresh(a, 1).(saving := Some(Saving(a, 0, Some(a), Some(a), None, None))), Fresh(a, 1)],
          [Commit(0, None, None, None, None, a, a)])
  }

  // Then the second has read the row to store lead-1 as ASSIGNED.
  function Editing(): World {
    var a, b := LeadRow("NEW"), LeadRow("ASSIGNED");
    var w := Stalled();
    var saving := Saving(b, 0, Some(a), Some(a), None, Some(Pending(Some(Row(a, 1)), Some(a), b, None, false)));
    w.(instances := [w.instances[0], Fresh(a, 1).(memory := Some(b), saving := Some(saving))])
  }

  // Then it stored it, and the first reloaded and read the row, its own save still in flight.
  function Reloaded(): World {
    var a, b := LeadRow("NEW"), LeadRow("ASSIGNED");
    var saving := Saving(a, 0, Some(a), Some(a), Some(b), Some(Pending(Some(Row(b, 2)), Some(b), a, Some(b), false)));
    World(Some(Row(b, 2)), None, [Fresh(b, 2).(saving := Some(saving)), Fresh(b, 2)],
          Stalled().history + [Commit(1, Some(a), Some(a), Some(a), None, b, b)])
  }

  // The first save is about to store its copy.
  function Ready(): World {
    var a := LeadRow("NEW");
    World(None, None, [COLD.(memory := Some(a), saving := Some(Saving(a, 0, None, None, None, Some(Pending(None, None, a, None, false))))), COLD], [])
  }

  lemma ReachReady(h: Host)
    ensures Run(h, Start(2), [Seed(0, LeadRow("NEW")), Begin(0), Read(0, false)]) == Ready()
  {
    var a := LeadRow("NEW");
    RunThree(h, Start(2), [Seed(0, a), Begin(0), Read(0, false)]);
    assert Start(2) == World(None, None, [COLD, COLD], []);
    var seeded := Next(h, Start(2), Seed(0, a));
    assert seeded == World(None, None, [COLD.(memory := Some(a)), COLD], []);
    assert Next(h, Next(h, seeded, Begin(0)), Read(0, false)).instances == Ready().instances;
  }

  // The first save is stored.
  function FirstStored(): World {
    var a := LeadRow("NEW");
    World(Some(Row(a, 1)), None, [Fresh(a, 1), COLD], [Commit(0, None, None, None, None, a, a)])
  }

  lemma ReachStored(h: Host)
    ensures Run(h, Ready(), [Write(0, true)]) == FirstStored()
  {
    RunOne(h, Ready(), Write(0, true));
    assert Next(h, Ready(), Write(0, true)).instances == FirstStored().instances;
  }

  lemma ReachLoaded(h: Host)
    ensures Run(h, Run(h, FirstStored(), [Fetch(1), Load(1, 0)]), [Begin(0)]) == Stalled()
  {
    var w := FirstStored();
    FetchThenLoad(h, w, 1);
    var loaded := Run(h, w, [Fetch(1), Load(1, 0)]);
    assert loaded.instances == [Fresh(LeadRow("NEW"), 1), Fresh(LeadRow("NEW"), 1)];
    RunOne(h, loaded, Begin(0));
    assert Next(h, loaded, Begin(0)).instances == Stalled().instances;
  }

  lemma ReachStalled(h: Host)
    ensures Run(h, Start(2), FirstSave()) == Stalled()
  {
    RunInFour(h, Start(2), [Seed(0, LeadRow("NEW")), Begin(0), Read(0, false)], [Write(0, true)], [Fetch(1), Load(1, 0)], [Begin(0)]);
    ReachReady(h);
    ReachStored(h);
    ReachLoaded(h);
  }

  lemma ReachEditing(h: Host)
    ensures Run(h, Stalled(), EditMeanwhile()) == Editing()
  {
    var a, b := LeadRow("NEW"), LeadRow("ASSIGNED");
    RunThree(h, Stalled(), EditMeanwhile());
    MergeOneLead(h, "NEW", "ASSIGNED");
    var w := Next(h, Stalled(), Edit(1, b));
    assert w.instances == [Stalled().instances[0], Fresh(a, 1).(memory := Some(b))];
    assert Next(h, w, Begin(1)).instances[1].saving == Some(Saving(b, 0, Some(a), Some(a), None, None));
    assert Next(h, Next(h, w, Begin(1)), Read(1, false)).instances == Editing().instances;
  }

  lemma ReachReloaded(h: Host)
    ensures Run(h, Editing(), ReloadThenWrite()) == Reloaded()
  {
    var a, b := LeadRow("NEW"), LeadRow("ASSIGNED");
    RunAppend(h, Editing(), [Write(1, true)], [Fetch(0), Load(0, 0)] + [Read(0, false)]);
    RunOne(h, Editing(), Write(1, true));
    MergeOneLead(h, "ASSIGNED", "NEW");
    var w := Next(h, Editing(), Write(1, true));
    assert w == World(Some(Row(b, 2)), None, [Stalled().instances[0], Fresh(b, 2)], Reloaded().history);
    RunAppend(h, w, [Fetch(0), Load(0, 0)], [Read(0, false)]);
    FetchThenLoad(h, w, 0);
    var loaded := Run(h, w, [Fetch(0), Load(0, 0)]);
    var saving := Saving(a, 0, Some(a), Some(a), Some(b), None);
    assert loaded.instances == [Fresh(b, 2).(saving := Some(saving)), w.instances[1]];
    RunOne(h, loaded, Read(0, false));
    assert Next(h, loaded, Read(0, false)).instances == Reloaded().instances;
  }

  // Without that condition another instance's edit is lost. Instance 0 starts a save of an unedited copy,
  // instance 1 changes a lead, instance 0 reloads while its save is in flight, and the save then takes the
  // old value for its own edit and puts it back.
  lemma ReloadDuringSaveLosesAnEdit(h: Host)
    ensures var w := Run(h, Start(2), FirstSave() + (EditMeanwhile() + (ReloadThenWrite() + [Write(0, true)])));
            && |w.history| == 3
            && w.history[1].writer == 1 && w.history[1].value == LeadRow("ASSIGNED")
            && w.history[2].writer == 0 && w.history[2].origin == Some(w.history[2].current)
            && w.row == Some(Row(LeadRow("NEW"), 3))
  {
    ReachEnd(h);
    ReachLast(h);
  }

  lemma ReachEnd(h: Host)
    ensures Run(h, Start(2), FirstSave() + (EditMeanwhile() + (ReloadThenWrite() + [Write(0, true)]))) == Run(h, Reloaded(), [Write(0, true)])
  {
    RunInFour(h, Start(2), FirstSave(), EditMeanwhile(), ReloadThenWrite(), [Write(0, true)]);
    ReachStalled(h);
    ReachEditing(h);
    ReachReloaded(h);
  }

  lemma ReachLast(h: Host)
    ensures var a, b, w := LeadRow("NEW"), LeadRow("ASSIGNED"), Run(h, Reloaded(), [Write(0, true)]);
            w.row == Some(Row(a, 3)) && w.history == Reloaded().history + [Commit(0, Some(b), Some(a), Some(a), Some(b), a, a)]
  {
    var last := Next(h, Reloaded(), Write(0, true));
    assert [Write(0, true)][1..] == [];
    assert Run(h, Reloaded(), [Write(0, true)]) == Run(h, last, []) == last;
  }
}
