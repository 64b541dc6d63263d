/** One serverless instance's view of the stored row, with the commits of other instances falling into
    the gaps between its own reads and writes (persistence.ts). */
module StoreInstance {
  import opened Common
  import opened JsonModel
  import opened SnapshotMerge
  import opened SaveProtocol

  const VERSION_CHECK_TTL_MS := 1000

  // The row after other instances stored these values, one revision each.
  function AfterOthers(row: Option<Row>, values: seq<Snapshot>): Option<Row> {
    if values == [] then row
    else Some(Row(values[|values| - 1], (if row.Some? then row.value.revision else 0) + |values|))
  }

  // The row an attempt starts from, when others[a] fell between the read and the write of attempt a.
  function BeforeAttempt(row: Option<Row>, others: seq<seq<Snapshot>>, attempt: nat): Option<Row>
    requires attempt <= |others|
  {
    if attempt == 0 then row else AfterOthers(BeforeAttempt(row, others, attempt - 1), others[attempt - 1])
  }

  // The first attempt nobody disturbed.
  function FirstQuiet(others: seq<seq<Snapshot>>): (a: nat)
    ensures a <= |others|
    ensures a < |others| ==> others[a] == []
    ensures forall i :: 0 <= i < a ==> others[i] != []
  {
    if others == [] || others[0] == [] then 0 else 1 + FirstQuiet(others[1..])
  }

  lemma FirstQuietIs(others: seq<seq<Snapshot>>, a: nat)
    requires a <= |others| && (a < |others| ==> others[a] == []) && forall i :: 0 <= i < a ==> others[i] != []
    ensures FirstQuiet(others) == a
  {
  }

  class StoredRow {
    var row: Option<Row>

    constructor ()
      ensures row == None
    {
      row := None;
    }

    // Commits of other instances; each bumps the revision.
    method Interfere(values: seq<Snapshot>)
      modifies this
      ensures row == AfterOthers(old(row), values)
    {
      for k := 0 to |values|
        invariant row == AfterOthers(old(row), values[..k])
      {
        row := Some(Row(values[k], if row.Some? then row.value.revision + 1 else 1));
        assert values[..k + 1][k] == values[k];
      }
      assert values[..|values|] == values;
    }

    // UPDATE ... WHERE revision = read, or INSERT ... ON CONFLICT DO NOTHING when no row was read.
    method CompareAndSwap(read: Option<Row>, value: Snapshot) returns (stored: bool)
      modifies this
      ensures stored == Unmoved(read, old(row))
      ensures row == (if stored then Some(Row(value, if read.Some? then read.value.revision + 1 else 1)) else old(row))
    {
      stored := if read == None then row == None else row.Some? && row.value.revision == read.value.revision;
      if stored {
        row := Some(Row(value, if read.Some? then read.value.revision + 1 else 1));
      }
    }
  }

  class StoreInstance {
    var baseline: Option<Snapshot>
    var memory: Snapshot
    var lastKnownVersion: Option<nat>
    var lastCheckedAt: int

    constructor (seed: Snapshot)
      ensures baseline == None && memory == seed && lastKnownVersion == None && lastCheckedAt == 0
    {
      baseline, memory, lastKnownVersion, lastCheckedAt := None, seed, None, 0;
    }

    method Load(store: StoredRow) returns (found: bool)
      modifies this
      ensures found == store.row.Some?
      ensures found ==> baseline == Some(store.row.value.value) && memory == store.row.value.value
      ensures found ==> lastKnownVersion == Some(store.row.value.revision)
      ensures !found ==> baseline == old(baseline) && memory == old(memory) && lastKnownVersion == old(lastKnownVersion)
      ensures lastCheckedAt == old(lastCheckedAt)
    {
      found := store.row.Some?;
      if found {
        var row := store.row.value;
        lastKnownVersion := Some(row.revision);
        baseline := Some(row.value);
        memory := row.value;
      }
    }

    // reachable: the version query succeeded. An unreachable store never takes the copy away, and an
    // instance that asked and got an answer is never left behind the row.
    method ReloadIfStale(store: StoredRow, now: int, force: bool, reachable: bool) returns (reloaded: bool)
      modifies this
      ensures var asked := force || now - old(lastCheckedAt) >= VERSION_CHECK_TTL_MS;
        && lastCheckedAt == (if asked then now else old(lastCheckedAt))
        && (reloaded <==> asked && reachable && store.row.Some? && old(lastKnownVersion) != Some(store.row.value.revision))
        && (asked && reachable && store.row.Some? ==> lastKnownVersion == Some(store.row.value.revision))
      ensures reloaded ==> baseline == Some(store.row.value.value) && memory == store.row.value.value
      ensures !reloaded ==> baseline == old(baseline) && memory == old(memory) && lastKnownVersion == old(lastKnownVersion)
    {
      if !force && now - lastCheckedAt < VERSION_CHECK_TTL_MS {
        return false;
      }
      lastCheckedAt := now;
      if !reachable || store.row == None {
        return false;
      }
      if lastKnownVersion == Some(store.row.value.revision) {
        return false;
      }
      reloaded := Load(store);
    }

    // The diff lands at the first attempt whose read-to-write gap is quiet, merged onto what the other
    // instances had stored by then; if all four gaps are disturbed the save throws and this instance
    // is exactly as it was.
    method Save(h: Host, store: StoredRow, others: seq<seq<Snapshot>>) returns (saved: bool)
      requires |others| == MAX_ATTEMPTS
      modifies this, store
      ensures var a := FirstQuiet(others);
        && saved == (a < MAX_ATTEMPTS)
        && (saved ==>
              var before := BeforeAttempt(old(store.row), others, a);
              var merged := Candidate(h, old(baseline), old(memory), before);
              && store.row == Some(Row(merged, (if before.Some? then before.value.revision else 0) + 1))
              && baseline == Some(merged) && memory == merged && lastKnownVersion == Some(store.row.value.revision))
        && (!saved ==>
              && store.row == BeforeAttempt(old(store.row), others, MAX_ATTEMPTS)
              && baseline == old(baseline) && memory == old(memory) && lastKnownVersion == old(lastKnownVersion))
    {
      var current := memory;
      for attempt := 0 to MAX_ATTEMPTS
        invariant forall i :: 0 <= i < attempt ==> others[i] != []
        invariant store.row == BeforeAttempt(old(store.row), others, attempt)
        invariant baseline == old(baseline) && memory == old(memory) && lastKnownVersion == old(lastKnownVersion)
      {
        var latest := store.row;
        var merged := current;
        if latest.Some? {
          merged := MergeSerializedSnapshots(h, baseline, current, latest.value.value);
        }
        store.Interfere(others[attempt]);
        var stored := store.CompareAndSwap(latest, merged);
        if stored {
          FirstQuietIs(others, attempt);
          baseline := Some(merged);
          memory := merged;
          lastKnownVersion := Some(store.row.value.revision);
          return true;
        }
        assert others[attempt] != [];
      }
      FirstQuietIs(others, MAX_ATTEMPTS);
      return false;
    }
  }
}
