/** One field of one record over a stretch of commits (persistence.ts, mergeRecord): every field is merged as
    a plain value, except the transcript of a call and its source mark. */
module FieldHistory {
  import opened Common
  import opened JsonModel
  import opened RecordMerge
  import opened SnapshotMerge
  import opened MergeAlgebra
  import opened SaveProtocol

  // A record and one of its fields.
  datatype Place = Place(name: string, id: string, key: string)

  function FieldOf(s: Snapshot, at: Place): Option<Json> {
    Lookup(BaseFields(Record(s, at.name, at.id)), at.key)
  }

  predicate IsDurable(at: Place) {
    IsPlain(at.name, at.key) && at.name !in EPHEMERAL_DELETE_MAP_KEYS
  }

  // A commit merges onto the row before it.
  ghost predicate IsMerge(h: Host, c: Commit, before: Snapshot) {
    c.value == MergedSnapshot(h, c.base, c.current, before)
  }

  lemma LinearIsMerge(h: Host, history: seq<Commit>, r: nat)
    requires Linear(h, history) && 0 < r < |history|
    ensures IsMerge(h, history[r], history[r - 1].value)
  {
    assert RowAt(history, r) == Some(Row(history[r - 1].value, r));
  }

  // ----- keeping a value

  ghost predicate CommitOverwrites(c: Commit, at: Place, was: Json) {
    at.name in c.current.collections && Overwrites(Record(Or(c.base), at.name, at.id), Record(c.current, at.name, at.id), at.key, was)
  }

  lemma MergeOverwritesExactly(h: Host, c: Commit, before: Snapshot, at: Place, was: Json)
    requires IsMerge(h, c, before) && IsDurable(at) && FieldOf(before, at) == Some(was)
    ensures FieldOf(c.value, at) == Some(was) <==> !CommitOverwrites(c, at, was)
  {
    SnapshotAt(h, c.base, c.current, before);
    assert Record(c.value, at.name, at.id) == MergedAt(h, c.base, c.current, before, at.name, at.id);
    OverwritesExactly(h, at.name, Record(Or(c.base), at.name, at.id), Record(c.current, at.name, at.id), Record(before, at.name, at.id), at.key, was);
  }

  // The r-th row has the value there; the r-th commit overwrites it.
  ghost function Has(history: seq<Commit>, at: Place, was: Json): nat -> bool {
    (r: nat) => r < |history| && FieldOf(history[r].value, at) == Some(was)
  }

  ghost function IsOverwritten(history: seq<Commit>, at: Place, was: Json): nat -> bool {
    (r: nat) => r < |history| && CommitOverwrites(history[r], at, was)
  }

  // What holds at first and is kept by a step exactly if the step does not break it.
  lemma {:induction false} HoldsExactly(has: nat -> bool, breaks: nat -> bool, first: nat, last: nat)
    requires first <= last && has(first)
    requires forall r: nat :: first < r <= last && has(r - 1) ==> (has(r) <==> !breaks(r))
    ensures (forall r: nat :: first <= r <= last ==> has(r)) <==> (forall r: nat :: first < r <= last ==> !breaks(r))
    decreases last
  {
    if first < last {
      HoldsExactly(has, breaks, first, last - 1);
      var before: nat := last - 1;
      if forall r: nat :: first < r <= last ==> !breaks(r) {
        assert has(before) && !breaks(last);
      } else if has(before) {
        assert has(last) <==> !breaks(last);
      }
    }
  }

  lemma StepOverwritesExactly(h: Host, history: seq<Commit>, r: nat, at: Place, was: Json)
    requires Linear(h, history) && 0 < r < |history| && IsDurable(at) && Has(history, at, was)(r - 1)
    ensures Has(history, at, was)(r) <==> !IsOverwritten(history, at, was)(r)
  {
    LinearIsMerge(h, history, r);
    MergeOverwritesExactly(h, history[r], history[r - 1].value, at, was);
  }

  // A field keeps its value through a stretch of history if and only if no commit of it overwrites it.
  lemma FieldStaysExactly(h: Host, history: seq<Commit>, first: nat, last: nat, at: Place, was: Json)
    requires Linear(h, history) && first <= last < |history| && IsDurable(at) && Has(history, at, was)(first)
    ensures var has, overwritten := Has(history, at, was), IsOverwritten(history, at, was);
      (forall r: nat :: first <= r <= last ==> has(r)) <==> (forall r: nat :: first < r <= last ==> !overwritten(r))
  {
    var has, overwritten := Has(history, at, was), IsOverwritten(history, at, was);
    forall r: nat | first < r <= last && has(r - 1) ensures has(r) <==> !overwritten(r) {
      StepOverwritesExactly(h, history, r, at, was);
    }
    HoldsExactly(has, overwritten, first, last);
  }

  // ----- counting

  function NumberOf(s: Snapshot, at: Place): Option<int> {
    Number(BaseFields(Record(s, at.name, at.id)), at.key)
  }

  function ValueOf(n: Option<int>): int {
    if n.Some? then n.value else 0
  }

  // A commit that has the counter in its baseline, its copy and the row it finds.
  predicate HasCounter(c: Commit, before: Snapshot, at: Place) {
    && at.name in c.current.collections
    && NumberOf(Or(c.base), at).Some? && NumberOf(c.current, at).Some? && NumberOf(before, at).Some?
  }

  // What the writer of a commit added to a counter, and how far others had moved it since its baseline.
  function Added(c: Commit, at: Place): int {
    ValueOf(NumberOf(c.current, at)) - ValueOf(NumberOf(Or(c.base), at))
  }

  function MovedMeanwhile(c: Commit, before: Snapshot, at: Place): int {
    ValueOf(NumberOf(before, at)) - ValueOf(NumberOf(Or(c.base), at))
  }

  // What a commit takes back of that: all, if it added to the counter itself.
  function TakesBack(c: Commit, before: Snapshot, at: Place): int {
    if Added(c, at) == 0 then 0 else MovedMeanwhile(c, before, at)
  }

  lemma MergeCounts(h: Host, c: Commit, before: Snapshot, at: Place)
    requires IsMerge(h, c, before) && IsPlain(at.name, at.key) && HasCounter(c, before, at)
    ensures NumberOf(c.value, at) == Some(NumberOf(before, at).value + Added(c, at) - TakesBack(c, before, at))
  {
    SnapshotAt(h, c.base, c.current, before);
    assert Record(c.value, at.name, at.id) == MergedAt(h, c.base, c.current, before, at.name, at.id);
    CellCounts(h, at.name, Record(Or(c.base), at.name, at.id), Record(c.current, at.name, at.id), Record(before, at.name, at.id), at.key);
  }

  ghost function Counter(history: seq<Commit>, at: Place): nat -> int {
    (r: nat) => if r < |history| then ValueOf(NumberOf(history[r].value, at)) else 0
  }

  ghost function AddedBy(history: seq<Commit>, at: Place): nat -> int {
    (r: nat) => if r < |history| then Added(history[r], at) else 0
  }

  ghost function TakenBackBy(history: seq<Commit>, at: Place): nat -> int {
    (r: nat) => if 0 < r < |history| then TakesBack(history[r], history[r - 1].value, at) else 0
  }

  // The sum after first up to last.
  function Sum(f: nat -> int, first: nat, last: nat): int
    requires first <= last
    decreases last
  {
    if first == last then 0 else Sum(f, first, last - 1) + f(last)
  }

  lemma {:induction false} Telescopes(v: nat -> int, plus: nat -> int, minus: nat -> int, first: nat, last: nat)
    requires first <= last && forall r: nat :: first < r <= last ==> v(r) == v(r - 1) + plus(r) - minus(r)
    ensures v(last) == v(first) + Sum(plus, first, last) - Sum(minus, first, last)
    decreases last
  {
    if first < last {
      Telescopes(v, plus, minus, first, last - 1);
    }
  }

  lemma StepCounts(h: Host, history: seq<Commit>, r: nat, at: Place)
    requires Linear(h, history) && 0 < r < |history| && IsPlain(at.name, at.key) && HasCounter(history[r], history[r - 1].value, at)
    ensures Counter(history, at)(r) == Counter(history, at)(r - 1) + AddedBy(history, at)(r) - TakenBackBy(history, at)(r)
  {
    LinearIsMerge(h, history, r);
    MergeCounts(h, history[r], history[r - 1].value, at);
  }

  // A counter ends as what all writers added to it, less what each writer that added to it took back of
  // what others had added between its baseline and its commit.
  lemma CounterOverCommits(h: Host, history: seq<Commit>, first: nat, last: nat, at: Place)
    requires Linear(h, history) && first <= last < |history| && IsPlain(at.name, at.key)
    requires forall r: nat :: first < r <= last ==> HasCounter(history[r], history[r - 1].value, at)
    ensures Counter(history, at)(last)
            == Counter(history, at)(first) + Sum(AddedBy(history, at), first, last) - Sum(TakenBackBy(history, at), first, last)
  {
    var v, plus, minus := Counter(history, at), AddedBy(history, at), TakenBackBy(history, at);
    forall r: nat | first < r <= last ensures v(r) == v(r - 1) + plus(r) - minus(r) {
      StepCounts(h, history, r, at);
    }
    Telescopes(v, plus, minus, first, last);
  }

  // So nothing is lost by one commit exactly if its writer added nothing or nobody had moved the counter.
  lemma CommitCountsExactly(h: Host, history: seq<Commit>, r: nat, at: Place)
    requires Linear(h, history) && 0 < r < |history| && IsPlain(at.name, at.key) && HasCounter(history[r], history[r - 1].value, at)
    ensures Counter(history, at)(r) == Counter(history, at)(r - 1) + AddedBy(history, at)(r)
       <==> Added(history[r], at) == 0 || MovedMeanwhile(history[r], history[r - 1].value, at) == 0
  {
    StepCounts(h, history, r, at);
  }
}
