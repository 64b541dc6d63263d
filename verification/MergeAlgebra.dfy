/** What the three-way merge guarantees about writers that raced. */
module MergeAlgebra {
  import opened Common
  import opened JsonModel
  import opened RecordMerge
  import opened SnapshotMerge
  import Transcript

  // ----- one record

  ghost predicate Touches(base: Fields, cur: Fields, key: string) {
    Lookup(base, key) != Lookup(cur, key)
  }

  ghost predicate ChangesTranscript(base: Fields, cur: Fields) {
    "transcript" in cur && Touches(base, cur, "transcript")
  }

  ghost predicate DropsArtifactMark(base: Fields, cur: Fields) {
    IsArtifact(base) && "transcriptSource" !in cur
  }

  ghost predicate RemergeSafe(collection: string, base: Fields, cur: Fields) {
    collection == CONVERSATIONS ==> !(ChangesTranscript(base, cur) && DropsArtifactMark(base, cur))
  }

  // Whether the newest record counts as an artifact is the same before and after a commit, unless the
  // writer brings or drops the mark.
  lemma MarkAfterMerge(h: Host, base: Fields, cur: Fields, latest: Fields)
    requires !IsArtifact(cur) && !DropsArtifactMark(base, cur)
    ensures IsArtifact(MergedFields(h, CONVERSATIONS, base, cur, latest)) == IsArtifact(latest)
  {
    FieldAt(h, CONVERSATIONS, base, cur, latest, "transcriptSource");
  }

  lemma RemergeTranscript(h: Host, base: Fields, cur: Fields, latest: Fields)
    requires RemergeSafe(CONVERSATIONS, base, cur)
    ensures var merged := MergedFields(h, CONVERSATIONS, base, cur, latest);
            MergedField(h, CONVERSATIONS, base, cur, merged, "transcript") == Lookup(merged, "transcript")
  {
    FieldAt(h, CONVERSATIONS, base, cur, latest, "transcript");
    if ChangesTranscript(base, cur) && !IsArtifact(cur) {
      MarkAfterMerge(h, base, cur, latest);
      var b, c, l := ItemsOf(Lookup(base, "transcript")), ItemsOf(Some(cur["transcript"])), ItemsOf(Lookup(latest, "transcript"));
      Transcript.MergeTurnsIdempotent(h, b, c, l);
    }
  }

  lemma RemergeField(h: Host, collection: string, base: Fields, cur: Fields, latest: Fields, key: string)
    requires RemergeSafe(collection, base, cur)
    ensures var merged := MergedFields(h, collection, base, cur, latest);
            MergedField(h, collection, base, cur, merged, key) == Lookup(merged, key)
  {
    if collection == CONVERSATIONS && key == "transcript" {
      RemergeTranscript(h, base, cur, latest);
    } else {
      FieldAt(h, collection, base, cur, latest, key);
    }
  }

  lemma RemergeRecord(h: Host, collection: string, base: Fields, cur: Fields, latest: Fields)
    requires RemergeSafe(collection, base, cur)
    ensures var merged := MergedFields(h, collection, base, cur, latest);
            MergedFields(h, collection, base, cur, merged) == merged
  {
    var merged := MergedFields(h, collection, base, cur, latest);
    FieldsAt(h, collection, base, cur, latest);
    FieldsAt(h, collection, base, cur, merged);
    forall key ensures Lookup(MergedFields(h, collection, base, cur, merged), key) == Lookup(merged, key) {
      RemergeField(h, collection, base, cur, latest, key);
    }
    SameMap(MergedFields(h, collection, base, cur, merged), merged);
  }

  // A writer that drops the mark of a complete artifact but edits the transcript: its first commit
  // removes the mark, so its second commit may renumber the artifact.
  lemma RemergeUnsafe(h: Host, base: Fields, cur: Fields) returns (latest: Fields)
    requires !RemergeSafe(CONVERSATIONS, base, cur)
    ensures var merged := MergedFields(h, CONVERSATIONS, base, cur, latest);
            MergedFields(h, CONVERSATIONS, base, cur, merged) != merged
  {
    var turn := Obj(map["turn" := Num(7)]);
    latest := map["transcriptSource" := ARTIFACT, "transcript" := Arr([turn])];
    var merged := MergedFields(h, CONVERSATIONS, base, cur, latest);
    var again := MergedFields(h, CONVERSATIONS, base, cur, merged);
    FieldsAt(h, CONVERSATIONS, base, cur, latest);
    FieldsAt(h, CONVERSATIONS, base, cur, merged);
    assert Lookup(merged, "transcriptSource") == None;
    assert Lookup(merged, "transcript") == Some(Arr([turn]));
    assert !IsArtifact(merged) && !IsArtifact(cur);
    var b, c := ItemsOf(Lookup(base, "transcript")), ItemsOf(Some(cur["transcript"]));
    assert Lookup(again, "transcript") == Some(Arr(Transcript.MergedTurns(h, b, c, [turn])));
    Transcript.MergeIsOrdered(h, b, c, [turn]);
    var r := Transcript.MergedTurns(h, b, c, [turn]);
    assert |r| >= 1;
    assert r[0] == turn ==> Lookup(turn.fields, "turn") == Some(Num(1));
    assert r != [turn];
  }

  // Committing the same diff twice is harmless for every newest record, exactly when the writer does
  // not both edit a transcript and drop the mark of a complete artifact.
  lemma RemergeExactly(h: Host, collection: string, base: Fields, cur: Fields)
    ensures RemergeSafe(collection, base, cur) <==>
      forall latest: Fields ::
        MergedFields(h, collection, base, cur, MergedFields(h, collection, base, cur, latest)) == MergedFields(h, collection, base, cur, latest)
  {
    if RemergeSafe(collection, base, cur) {
      forall latest: Fields
        ensures MergedFields(h, collection, base, cur, MergedFields(h, collection, base, cur, latest)) == MergedFields(h, collection, base, cur, latest)
      {
        RemergeRecord(h, collection, base, cur, latest);
      }
    } else {
      var latest := RemergeUnsafe(h, base, cur);
    }
  }

  ghost predicate DisjointFields(base: Fields, first: Fields, second: Fields) {
    forall k :: !(Touches(base, first, k) && Touches(base, second, k))
  }

  lemma FieldsCommute(h: Host, collection: string, base: Fields, first: Fields, second: Fields, latest: Fields)
    requires collection != CONVERSATIONS && DisjointFields(base, first, second)
    ensures MergedFields(h, collection, base, second, MergedFields(h, collection, base, first, latest))
         == MergedFields(h, collection, base, first, MergedFields(h, collection, base, second, latest))
  {
    var one, two := MergedFields(h, collection, base, first, latest), MergedFields(h, collection, base, second, latest);
    FieldsAt(h, collection, base, first, latest);
    FieldsAt(h, collection, base, second, latest);
    FieldsAt(h, collection, base, second, one);
    FieldsAt(h, collection, base, first, two);
    forall k ensures MergedField(h, collection, base, second, one, k) == MergedField(h, collection, base, first, two, k) {
      assert Lookup(one, k) == MergedField(h, collection, base, first, latest, k);
      assert Lookup(two, k) == MergedField(h, collection, base, second, latest, k);
      assert !(Touches(base, first, k) && Touches(base, second, k));
    }
    SameMap(MergedFields(h, collection, base, second, one), MergedFields(h, collection, base, first, two));
  }

  // The same when the record has to be created from either writer's copy.
  lemma FieldsCommuteOnCreate(h: Host, collection: string, base: Fields, first: Fields, second: Fields)
    requires collection != CONVERSATIONS && DisjointFields(base, first, second)
    ensures MergedFields(h, collection, base, second, first) == MergedFields(h, collection, base, first, second)
  {
    FieldsAt(h, collection, base, second, first);
    FieldsAt(h, collection, base, first, second);
    forall k ensures MergedField(h, collection, base, second, first, k) == MergedField(h, collection, base, first, second, k) {
      assert !(Touches(base, first, k) && Touches(base, second, k));
    }
    SameMap(MergedFields(h, collection, base, second, first), MergedFields(h, collection, base, first, second));
  }

  lemma FieldsOntoBase(h: Host, collection: string, base: Fields, cur: Fields)
    requires collection != CONVERSATIONS
    ensures MergedFields(h, collection, base, cur, base) == cur
  {
    FieldsAt(h, collection, base, cur, base);
    SameMap(MergedFields(h, collection, base, cur, base), cur);
  }

  // ----- one cell: the record under one id, which may be missing in any of the three copies

  ghost predicate Edits(name: string, base: Option<Json>, cur: Option<Json>) {
    if cur == None then base.Some? && name in EPHEMERAL_DELETE_MAP_KEYS else base != cur
  }

  ghost predicate CellRemergeSafe(name: string, base: Option<Json>, cur: Option<Json>, latest: Option<Json>) {
    name == CONVERSATIONS && base.Some? && cur.Some? && base != cur && cur.value.Obj? ==>
      && latest.Some? && latest.value.Obj?
      && RemergeSafe(name, BaseFields(base), cur.value.fields)
  }

  ghost predicate CellsDisjoint(name: string, base: Option<Json>, first: Option<Json>, second: Option<Json>) {
    || !Edits(name, base, first)
    || !Edits(name, base, second)
    || (&& name != CONVERSATIONS
        && base.Some? && first.Some? && second.Some? && first.value.Obj? && second.value.Obj?
        && DisjointFields(BaseFields(base), first.value.fields, second.value.fields))
  }

  // The writer's edit of a cell is visible in r: every field it set holds the value it set, and every
  // field it removed is gone unless the newest record had changed it.
  ghost predicate Carries(base: Option<Json>, cur: Option<Json>, latest: Option<Json>, r: Option<Json>) {
    match cur
    case None => r == None
    case Some(v) =>
      if base == None || !v.Obj? || r == None || !r.value.Obj? then r == cur
      else
        && (forall k :: k in v.fields && Touches(BaseFields(base), v.fields, k) ==> Lookup(r.value.fields, k) == Some(v.fields[k]))
        && (forall k :: k in BaseFields(base) && k !in v.fields && Lookup(BaseFields(latest), k) == Lookup(BaseFields(base), k) ==>
              Lookup(r.value.fields, k) == None)
  }

  lemma CellRemerge(h: Host, name: string, base: Option<Json>, cur: Option<Json>, latest: Option<Json>)
    requires CellRemergeSafe(name, base, cur, latest)
    ensures var merged := MergedCell(h, name, base, cur, latest);
            MergedCell(h, name, base, cur, merged) == merged
  {
    if base.Some? && cur.Some? && base != cur && cur.value.Obj? {
      var b, c := BaseFields(base), cur.value.fields;
      var l := if latest.Some? && latest.value.Obj? then latest.value.fields else c;
      if latest.Some? && latest.value.Obj? {
        RemergeRecord(h, name, b, c, l);
      } else {
        assert name != CONVERSATIONS;
        FieldsAt(h, name, b, c, c);
        SameMap(MergedFields(h, name, b, c, c), c);
      }
    }
  }

  lemma CellsCommute(h: Host, name: string, base: Option<Json>, first: Option<Json>, second: Option<Json>, latest: Option<Json>)
    requires CellsDisjoint(name, base, first, second)
    ensures MergedCell(h, name, base, second, MergedCell(h, name, base, first, latest))
         == MergedCell(h, name, base, first, MergedCell(h, name, base, second, latest))
  {
    if Edits(name, base, first) && Edits(name, base, second) {
      var b, f, s := BaseFields(base), first.value.fields, second.value.fields;
      if latest.Some? && latest.value.Obj? {
        FieldsCommute(h, name, b, f, s, latest.value.fields);
      } else {
        FieldsCommuteOnCreate(h, name, b, f, s);
      }
    }
  }

  lemma CellCarried(h: Host, name: string, base: Option<Json>, cur: Option<Json>, latest: Option<Json>)
    requires name != CONVERSATIONS && Edits(name, base, cur)
    ensures Carries(base, cur, latest, MergedCell(h, name, base, cur, latest))
  {
    if cur.Some? && base.Some? && cur.value.Obj? && latest.Some? && latest.value.Obj? {
      FieldsAt(h, name, BaseFields(base), cur.value.fields, latest.value.fields);
    }
  }

  lemma CellOntoBase(h: Host, name: string, base: Option<Json>, cur: Option<Json>)
    requires name != CONVERSATIONS
    ensures MergedCell(h, name, base, cur, base)
         == (if cur == None && name !in EPHEMERAL_DELETE_MAP_KEYS then base else cur)
  {
    if base.Some? && cur.Some? && base.value.Obj? && cur.value.Obj? {
      FieldsOntoBase(h, name, base.value.fields, cur.value.fields);
    }
  }

  // A commit changes nothing the writer did not itself change against its baseline, in any collection:
  // where the merged record differs from the newest one the writer edited the record; it then is the
  // writer's copy, or differs only in fields the writer changed, which hold the writer's value (or its
  // removal) except in a transcript that was merged turn by turn.
  lemma OnlyEditsLand(h: Host, name: string, base: Option<Json>, cur: Option<Json>, latest: Option<Json>, key: string)
    ensures var r := MergedCell(h, name, base, cur, latest);
      && (r != latest ==> Edits(name, base, cur))
      && (r != latest && r != cur ==>
            && cur.Some? && latest.Some? && r.Some? && cur.value.Obj? && latest.value.Obj? && r.value.Obj?
            && (Lookup(r.value.fields, key) != Lookup(latest.value.fields, key) ==>
                  && Touches(BaseFields(base), cur.value.fields, key)
                  && (name != CONVERSATIONS || key != "transcript" ==> Lookup(r.value.fields, key) == Lookup(cur.value.fields, key))))
  {
    if base.Some? && cur.Some? && cur.value.Obj? && latest.Some? && latest.value.Obj? {
      FieldsAt(h, name, BaseFields(base), cur.value.fields, latest.value.fields);
    }
  }

  // Whether the object a writer's copy holds under an id is still the one it holds there after its save:
  // merging builds a new object, and so does taking the newest row's.
  predicate KeepsObject(base: Option<Json>, cur: Option<Json>, latest: Option<Json>) {
    && cur.Some?
    && (base == None || (base != cur && (!cur.value.Obj? || latest == None || !latest.value.Obj?)))
  }

  lemma KeptObjectIsStored(h: Host, name: string, base: Option<Json>, cur: Option<Json>, latest: Option<Json>)
    requires KeepsObject(base, cur, latest)
    ensures MergedCell(h, name, base, cur, latest) == cur
  {
  }

  // What it takes to overwrite a field that holds was in the newest record: setting it to something else,
  // or removing it while the newest record has not changed it. A record that is new to the writer is
  // written whole.
  predicate Overwrites(base: Option<Json>, cur: Option<Json>, key: string, was: Json) {
    && cur.Some? && base != cur
    && if base == None || !cur.value.Obj? then Lookup(BaseFields(cur), key) != Some(was)
       else if key in cur.value.fields then cur.value.fields[key] != was && Lookup(BaseFields(base), key) != Some(cur.value.fields[key])
       else Lookup(BaseFields(base), key) == Some(was)
  }

  // Everything but the transcript of a call and its source mark is merged as it is.
  predicate IsPlain(name: string, key: string) {
    !(name == "conversations" && (key == "transcript" || key == "transcriptSource"))
  }

  lemma OverwritesExactly(h: Host, name: string, base: Option<Json>, cur: Option<Json>, latest: Option<Json>, key: string, was: Json)
    requires IsPlain(name, key) && name !in EPHEMERAL_DELETE_MAP_KEYS && Lookup(BaseFields(latest), key) == Some(was)
    ensures Lookup(BaseFields(MergedCell(h, name, base, cur, latest)), key) == Some(was) <==> !Overwrites(base, cur, key, was)
  {
    if base.Some? && cur.Some? && base != cur && cur.value.Obj? && latest.value.Obj? {
      FieldAt(h, name, BaseFields(base), cur.value.fields, latest.value.fields, key);
    }
  }

  function Number(fields: Fields, key: string): Option<int> {
    if key in fields && fields[key].Num? then Some(fields[key].n) else None
  }

  // A counter is merged as a plain value: what the writer added to it arrives, on top of what others added,
  // exactly if the writer added nothing or the others had not moved it.
  lemma CounterAddsUpExactly(h: Host, name: string, base: Fields, cur: Fields, latest: Fields, key: string)
    requires IsPlain(name, key)
    requires Number(base, key).Some? && Number(cur, key).Some? && Number(latest, key).Some?
    ensures var b, c, l := Number(base, key).value, Number(cur, key).value, Number(latest, key).value;
            var m := Number(MergedFields(h, name, base, cur, latest), key);
      && m == Some(if c == b then l else c)
      && (m == Some(l + (c - b)) <==> c == b || l == b)
  {
    FieldAt(h, name, base, cur, latest, key);
  }

  lemma CellCounts(h: Host, name: string, base: Option<Json>, cur: Option<Json>, latest: Option<Json>, key: string)
    requires IsPlain(name, key)
    requires Number(BaseFields(base), key).Some? && Number(BaseFields(cur), key).Some? && Number(BaseFields(latest), key).Some?
    ensures var b, c, l := Number(BaseFields(base), key).value, Number(BaseFields(cur), key).value, Number(BaseFields(latest), key).value;
            Number(BaseFields(MergedCell(h, name, base, cur, latest)), key) == Some(l + (c - b) - (if c == b then 0 else l - b))
  {
    if base != cur {
      CounterAddsUpExactly(h, name, BaseFields(base), BaseFields(cur), BaseFields(latest), key);
    }
  }

  // ----- the whole snapshot

  function MergedAt(h: Host, base: Option<Snapshot>, cur: Snapshot, latest: Snapshot, name: string, id: string): Option<Json> {
    if name in cur.collections
    then MergedCell(h, name, Record(Or(base), name, id), Record(cur, name, id), Record(latest, name, id))
    else Record(latest, name, id)
  }

  lemma SnapshotAt(h: Host, base: Option<Snapshot>, cur: Snapshot, latest: Snapshot)
    ensures var r := MergedSnapshot(h, base, cur, latest);
      && (forall name, id :: Record(r, name, id) == MergedAt(h, base, cur, latest, name, id))
      && (forall name :: Records(r, name).unkeyed == Records(latest, name).unkeyed)
      && (forall name :: name in r.collections <==> name in cur.collections || name in latest.collections)
      && (forall k :: Lookup(r.values, k) == MergedValue(Lookup(Or(base).values, k), Lookup(cur.values, k), Lookup(latest.values, k)))
  {
    var r := MergedSnapshot(h, base, cur, latest);
    ValuesAt(base, cur.values, latest.values);
    CollectionsAt(h, base, cur.collections, latest);
    forall name, id ensures Record(r, name, id) == MergedAt(h, base, cur, latest, name, id) {
      assert Lookup(r.collections, name) == MergedSlot(h, base, cur.collections, latest, name);
      if name in cur.collections {
        KeyedAt(h, name, Records(Or(base), name).keyed, cur.collections[name].keyed, Records(latest, name).keyed);
      }
    }
    forall name
      ensures Records(r, name).unkeyed == Records(latest, name).unkeyed
      ensures name in r.collections <==> name in cur.collections || name in latest.collections
    {
      assert Lookup(r.collections, name) == MergedSlot(h, base, cur.collections, latest, name);
    }
  }

  lemma SameSnapshot(a: Snapshot, b: Snapshot)
    requires forall name :: name in a.collections <==> name in b.collections
    requires forall name, id :: Record(a, name, id) == Record(b, name, id)
    requires forall name :: Records(a, name).unkeyed == Records(b, name).unkeyed
    requires forall k :: Lookup(a.values, k) == Lookup(b.values, k)
    ensures a == b
  {
    forall name ensures Lookup(a.collections, name) == Lookup(b.collections, name) {
      if name in a.collections {
        forall id ensures Lookup(a.collections[name].keyed, id) == Lookup(b.collections[name].keyed, id) {
          assert Record(a, name, id) == Record(b, name, id);
        }
        SameMap(a.collections[name].keyed, b.collections[name].keyed);
        assert Records(a, name).unkeyed == Records(b, name).unkeyed;
      }
    }
    SameMap(a.collections, b.collections);
    SameMap(a.values, b.values);
  }

  // ----- what a commit leaves, told by the three copies alone

  function FieldIn(s: Snapshot, name: string, id: string, key: string): Option<Json> {
    Lookup(BaseFields(Record(s, name, id)), key)
  }

  predicate IsRecord(s: Snapshot, name: string, id: string) {
    Record(s, name, id).Some? && Record(s, name, id).value.Obj?
  }

  predicate IsShortLived(name: string) {
    name == "sessions" || name == "authTokens" || name == "intakeDrafts" || name == "voiceAnnouncements"
  }

  // A record the writer does not have stays, unless the writer deleted it where that is possible; a new one
  // lands whole; an unedited one is the newest; an edited one is merged field by field, or lands whole where
  // there is nothing to merge it with.
  lemma RecordIsMerged(h: Host, base: Option<Snapshot>, cur: Snapshot, latest: Snapshot, name: string, id: string)
    requires name in cur.collections
    ensures var b, c, l, r := Record(Or(base), name, id), Record(cur, name, id), Record(latest, name, id), Record(MergedSnapshot(h, base, cur, latest), name, id);
      && (c == None && b.Some? && IsShortLived(name) ==> r == None)
      && (c == None && !(b.Some? && IsShortLived(name)) ==> r == l)
      && (c.Some? && b == None ==> r == c)
      && (c.Some? && b == c ==> r == l)
      && (c.Some? && b.Some? && b != c && !(IsRecord(cur, name, id) && IsRecord(latest, name, id)) ==> r == c)
      && (c.Some? && b.Some? && b != c && IsRecord(cur, name, id) && IsRecord(latest, name, id) ==> r.Some? && r.value.Obj?)
  {
    SnapshotAt(h, base, cur, latest);
    assert Record(MergedSnapshot(h, base, cur, latest), name, id) == MergedAt(h, base, cur, latest, name, id);
    ShortLivedExactly(name);
  }

  lemma ShortLivedExactly(name: string)
    ensures IsShortLived(name) <==> name in EPHEMERAL_DELETE_MAP_KEYS
  {
  }

  // Of a record that all three copies have: a field the writer left alone is the newest one's; one it set
  // holds its value; one it removed is gone unless the newest record had changed it. In every collection.
  lemma FieldIsMerged(h: Host, base: Option<Snapshot>, cur: Snapshot, latest: Snapshot, name: string, id: string, key: string)
    requires name in cur.collections && IsPlain(name, key)
    requires Record(Or(base), name, id).Some? && IsRecord(cur, name, id) && IsRecord(latest, name, id)
    ensures var b, c, l := FieldIn(Or(base), name, id, key), FieldIn(cur, name, id, key), FieldIn(latest, name, id, key);
            FieldIn(MergedSnapshot(h, base, cur, latest), name, id, key)
            == if c == b then l else if c.Some? then c else if l == b then None else l
  {
    FieldOfMerge(h, base, cur, latest, name, id, key);
  }

  lemma FieldOfMerge(h: Host, base: Option<Snapshot>, cur: Snapshot, latest: Snapshot, name: string, id: string, key: string)
    requires name in cur.collections
    requires Record(Or(base), name, id).Some? && IsRecord(cur, name, id) && IsRecord(latest, name, id)
    ensures FieldIn(MergedSnapshot(h, base, cur, latest), name, id, key)
            == if Record(Or(base), name, id) == Record(cur, name, id) then FieldIn(latest, name, id, key)
               else MergedField(h, name, BaseFields(Record(Or(base), name, id)), Record(cur, name, id).value.fields,
                                Record(latest, name, id).value.fields, key)
  {
    SnapshotAt(h, base, cur, latest);
    assert Record(MergedSnapshot(h, base, cur, latest), name, id) == MergedAt(h, base, cur, latest, name, id);
    FieldAt(h, name, BaseFields(Record(Or(base), name, id)), Record(cur, name, id).value.fields, Record(latest, name, id).value.fields, key);
  }

  // So a value that one writer set is still there after any later commit of a writer that had the record
  // in its baseline and did not touch that field itself.
  lemma SetFieldSurvives(h: Host, base: Option<Snapshot>, first: Snapshot, latest: Snapshot, other: Option<Snapshot>, second: Snapshot,
                         name: string, id: string, key: string)
    requires IsPlain(name, key) && name in first.collections && name in second.collections
    requires Record(Or(base), name, id).Some? && IsRecord(first, name, id) && IsRecord(latest, name, id)
    requires Record(Or(other), name, id).Some? && IsRecord(second, name, id)
    requires FieldIn(first, name, id, key).Some? && FieldIn(first, name, id, key) != FieldIn(Or(base), name, id, key)
    requires FieldIn(second, name, id, key) == FieldIn(Or(other), name, id, key)
    ensures FieldIn(MergedSnapshot(h, other, second, MergedSnapshot(h, base, first, latest)), name, id, key) == FieldIn(first, name, id, key)
  {
    var one := MergedSnapshot(h, base, first, latest);
    FieldIsMerged(h, base, first, latest, name, id, key);
    RecordIsMerged(h, base, first, latest, name, id);
    FieldIsMerged(h, other, second, one, name, id, key);
  }

  predicate HasArtifact(s: Snapshot, id: string) {
    FieldIn(s, "conversations", id, "transcriptSource") == Some(Str("VAPI_ARTIFACT"))
  }

  // The source mark of a call: a writer that sets it brings it, except that no other mark replaces that of
  // a complete artifact.
  lemma MarkIsMerged(h: Host, base: Option<Snapshot>, cur: Snapshot, latest: Snapshot, id: string)
    requires "conversations" in cur.collections
    requires Record(Or(base), "conversations", id).Some? && IsRecord(cur, "conversations", id) && IsRecord(latest, "conversations", id)
    ensures var key := "transcriptSource";
            var b, c, l := FieldIn(Or(base), "conversations", id, key), FieldIn(cur, "conversations", id, key), FieldIn(latest, "conversations", id, key);
            FieldIn(MergedSnapshot(h, base, cur, latest), "conversations", id, key)
            == if c == b then l
               else if c.Some? then (if HasArtifact(latest, id) && !HasArtifact(cur, id) then l else c)
               else if l == b then None else l
  {
    FieldOfMerge(h, base, cur, latest, "conversations", id, "transcriptSource");
  }

  // A writer that makes an artifact of a call leaves it one, with its own transcript if it brought another.
  lemma ArtifactArrives(h: Host, base: Option<Snapshot>, cur: Snapshot, latest: Snapshot, id: string)
    requires "conversations" in cur.collections
    requires Record(Or(base), "conversations", id).Some? && IsRecord(cur, "conversations", id) && IsRecord(latest, "conversations", id)
    requires HasArtifact(cur, id) && !HasArtifact(Or(base), id)
    ensures var merged := MergedSnapshot(h, base, cur, latest);
            var b, c := FieldIn(Or(base), "conversations", id, "transcript"), FieldIn(cur, "conversations", id, "transcript");
      && HasArtifact(merged, id)
      && (c.Some? && c != b ==> FieldIn(merged, "conversations", id, "transcript") == c)
      && (c == b ==> FieldIn(merged, "conversations", id, "transcript") == FieldIn(latest, "conversations", id, "transcript"))
  {
    MarkIsMerged(h, base, cur, latest, id);
    FieldOfMerge(h, base, cur, latest, "conversations", id, "transcript");
  }

  // A live writer leaves the transcript of an artifact alone, and its mark lands on a call that is none.
  lemma LiveWriterYields(h: Host, base: Option<Snapshot>, cur: Snapshot, latest: Snapshot, id: string)
    requires "conversations" in cur.collections
    requires Record(Or(base), "conversations", id).Some? && IsRecord(cur, "conversations", id) && IsRecord(latest, "conversations", id)
    requires !HasArtifact(cur, id)
    ensures var merged := MergedSnapshot(h, base, cur, latest);
            var mark := FieldIn(cur, "conversations", id, "transcriptSource");
      && (HasArtifact(latest, id) && FieldIn(cur, "conversations", id, "transcript").Some? ==>
            FieldIn(merged, "conversations", id, "transcript") == FieldIn(latest, "conversations", id, "transcript"))
      && (!HasArtifact(latest, id) && mark.Some? && mark != FieldIn(Or(base), "conversations", id, "transcriptSource") ==>
            FieldIn(merged, "conversations", id, "transcriptSource") == mark)
  {
    MarkIsMerged(h, base, cur, latest, id);
    FieldOfMerge(h, base, cur, latest, "conversations", id, "transcript");
  }

  // A retried commit of the same diff changes nothing.
  lemma Remerge(h: Host, base: Option<Snapshot>, cur: Snapshot, latest: Snapshot)
    requires forall id :: CellRemergeSafe(CONVERSATIONS, Record(Or(base), CONVERSATIONS, id), Record(cur, CONVERSATIONS, id), Record(latest, CONVERSATIONS, id))
    ensures var merged := MergedSnapshot(h, base, cur, latest);
            MergedSnapshot(h, base, cur, merged) == merged
  {
    var merged := MergedSnapshot(h, base, cur, latest);
    SnapshotAt(h, base, cur, latest);
    SnapshotAt(h, base, cur, merged);
    forall name, id ensures MergedAt(h, base, cur, merged, name, id) == Record(merged, name, id) {
      assert Record(merged, name, id) == MergedAt(h, base, cur, latest, name, id);
      if name in cur.collections {
        CellRemerge(h, name, Record(Or(base), name, id), Record(cur, name, id), Record(latest, name, id));
      }
    }
    SameSnapshot(MergedSnapshot(h, base, cur, merged), merged);
  }

  ghost predicate ValuesDisjoint(base: Snapshot, first: Snapshot, second: Snapshot) {
    forall k ::
      || Lookup(first.values, k) in {None, Lookup(base.values, k)}
      || Lookup(second.values, k) in {None, Lookup(base.values, k)}
  }

  ghost predicate WritersDisjoint(base: Option<Snapshot>, first: Snapshot, second: Snapshot) {
    && ValuesDisjoint(Or(base), first, second)
    && (forall name, id :: name in first.collections && name in second.collections ==>
          CellsDisjoint(name, Record(Or(base), name, id), Record(first, name, id), Record(second, name, id)))
  }

  // Two writers that edited different cells of one baseline reach the same row in either commit order.
  lemma CommitOrderIrrelevant(h: Host, base: Option<Snapshot>, first: Snapshot, second: Snapshot, latest: Snapshot)
    requires WritersDisjoint(base, first, second)
    ensures MergedSnapshot(h, base, second, MergedSnapshot(h, base, first, latest))
         == MergedSnapshot(h, base, first, MergedSnapshot(h, base, second, latest))
  {
    TwiceAt(h, base, first, second, latest);
    TwiceAt(h, base, second, first, latest);
    ValuesCommute(base, first, second, latest);
    forall name, id ensures CellTwice(h, base, first, second, latest, name, id) == CellTwice(h, base, second, first, latest, name, id) {
      CellOrderIrrelevant(h, base, first, second, latest, name, id);
    }
    SameSnapshot(MergedSnapshot(h, base, second, MergedSnapshot(h, base, first, latest)),
                 MergedSnapshot(h, base, first, MergedSnapshot(h, base, second, latest)));
  }

  // What two commits leave under one id and of one plain value.
  function CellTwice(h: Host, base: Option<Snapshot>, first: Snapshot, second: Snapshot, latest: Snapshot, name: string, id: string): Option<Json> {
    var b, l := Record(Or(base), name, id), Record(latest, name, id);
    var one := if name in first.collections then MergedCell(h, name, b, Record(first, name, id), l) else l;
    if name in second.collections then MergedCell(h, name, b, Record(second, name, id), one) else one
  }

  function ValueTwice(base: Option<Snapshot>, first: Snapshot, second: Snapshot, latest: Snapshot, k: string): Option<Json> {
    var b := Lookup(Or(base).values, k);
    MergedValue(b, Lookup(second.values, k), MergedValue(b, Lookup(first.values, k), Lookup(latest.values, k)))
  }

  lemma ValuesCommute(base: Option<Snapshot>, first: Snapshot, second: Snapshot, latest: Snapshot)
    requires ValuesDisjoint(Or(base), first, second)
    ensures forall k :: ValueTwice(base, first, second, latest, k) == ValueTwice(base, second, first, latest, k)
  {
  }

  lemma TwiceAt(h: Host, base: Option<Snapshot>, first: Snapshot, second: Snapshot, latest: Snapshot)
    ensures var r := MergedSnapshot(h, base, second, MergedSnapshot(h, base, first, latest));
      && (forall name, id :: Record(r, name, id) == CellTwice(h, base, first, second, latest, name, id))
      && (forall name :: Records(r, name).unkeyed == Records(latest, name).unkeyed)
      && (forall name :: name in r.collections <==> name in first.collections || name in second.collections || name in latest.collections)
      && (forall k :: Lookup(r.values, k) == ValueTwice(base, first, second, latest, k))
  {
    var one := MergedSnapshot(h, base, first, latest);
    var r := MergedSnapshot(h, base, second, one);
    SnapshotAt(h, base, first, latest);
    SnapshotAt(h, base, second, one);
    forall name, id ensures Record(r, name, id) == CellTwice(h, base, first, second, latest, name, id) {
      assert Record(one, name, id) == MergedAt(h, base, first, latest, name, id);
      assert Record(r, name, id) == MergedAt(h, base, second, one, name, id);
    }
  }

  lemma CellOrderIrrelevant(h: Host, base: Option<Snapshot>, first: Snapshot, second: Snapshot, latest: Snapshot, name: string, id: string)
    requires WritersDisjoint(base, first, second)
    ensures CellTwice(h, base, first, second, latest, name, id) == CellTwice(h, base, second, first, latest, name, id)
  {
    if name in first.collections && name in second.collections {
      CellsCommute(h, name, Record(Or(base), name, id), Record(first, name, id), Record(second, name, id), Record(latest, name, id));
    }
  }

  ghost predicate CarriesValue(base: Option<Json>, cur: Option<Json>, r: Option<Json>) {
    cur.Some? && cur != base ==> r == cur
  }

  // What the other writer leaves of a field this writer removed.
  lemma OtherLeavesRemoved(h: Host, name: string, base: Option<Json>, mine: Option<Json>, other: Option<Json>, latest: Option<Json>, k: string)
    requires name != CONVERSATIONS && CellsDisjoint(name, base, mine, other) && Edits(name, base, mine)
    requires base.Some? && mine.Some? && mine.value.Obj? && k in BaseFields(base) && k !in mine.value.fields
    requires Lookup(BaseFields(latest), k) == Lookup(BaseFields(base), k)
    ensures Lookup(BaseFields(MergedCell(h, name, base, other, latest)), k) == Lookup(BaseFields(base), k)
  {
    if Edits(name, base, other) && latest.Some? && latest.value.Obj? {
      FieldsAt(h, name, BaseFields(base), other.value.fields, latest.value.fields);
      assert Touches(BaseFields(base), mine.value.fields, k);
      assert !Touches(BaseFields(base), other.value.fields, k);
    }
  }

  // ... and that row shows both edits, whether a field was set or removed or a plain value replaced.
  lemma BothEditsPresent(h: Host, base: Option<Snapshot>, first: Snapshot, second: Snapshot, latest: Snapshot, name: string, id: string)
    requires WritersDisjoint(base, first, second) && name != CONVERSATIONS
    ensures var r := Record(MergedSnapshot(h, base, second, MergedSnapshot(h, base, first, latest)), name, id);
            var b, f, s, l := Record(Or(base), name, id), Record(first, name, id), Record(second, name, id), Record(latest, name, id);
      && (name in first.collections && Edits(name, b, f) ==> Carries(b, f, l, r))
      && (name in second.collections && Edits(name, b, s) ==> Carries(b, s, l, r))
  {
    var b, f, s, l := Record(Or(base), name, id), Record(first, name, id), Record(second, name, id), Record(latest, name, id);
    RecordTwice(h, base, first, second, latest, name, id);
    CellOrderIrrelevant(h, base, first, second, latest, name, id);
    assert name in first.collections && name in second.collections ==> CellsDisjoint(name, b, f, s) && CellsDisjoint(name, b, s, f);
    if name in first.collections && Edits(name, b, f) {
      LastCarries(h, name, b, f, s, l, if name in second.collections then MergedCell(h, name, b, s, l) else l, name in second.collections);
    }
    if name in second.collections && Edits(name, b, s) {
      LastCarries(h, name, b, s, f, l, if name in first.collections then MergedCell(h, name, b, f, l) else l, name in first.collections);
    }
  }

  lemma RecordTwice(h: Host, base: Option<Snapshot>, first: Snapshot, second: Snapshot, latest: Snapshot, name: string, id: string)
    ensures Record(MergedSnapshot(h, base, second, MergedSnapshot(h, base, first, latest)), name, id)
            == CellTwice(h, base, first, second, latest, name, id)
  {
    TwiceAt(h, base, first, second, latest);
  }

  // The writer that commits last, onto what the other one left.
  lemma LastCarries(h: Host, name: string, base: Option<Json>, mine: Option<Json>, other: Option<Json>, latest: Option<Json>,
                    between: Option<Json>, writes: bool)
    requires name != CONVERSATIONS && Edits(name, base, mine) && (writes ==> CellsDisjoint(name, base, mine, other))
    requires between == if writes then MergedCell(h, name, base, other, latest) else latest
    ensures Carries(base, mine, latest, MergedCell(h, name, base, mine, between))
  {
    CellCarried(h, name, base, mine, between);
    if writes && base.Some? && mine.Some? && mine.value.Obj? {
      forall k | k in BaseFields(base) && k !in mine.value.fields && Lookup(BaseFields(latest), k) == Lookup(BaseFields(base), k)
        ensures Lookup(BaseFields(between), k) == Lookup(BaseFields(base), k)
      {
        OtherLeavesRemoved(h, name, base, mine, other, latest, k);
      }
    }
  }

  lemma BothValuesPresent(h: Host, base: Option<Snapshot>, first: Snapshot, second: Snapshot, latest: Snapshot, k: string)
    requires WritersDisjoint(base, first, second)
    ensures var r := Lookup(MergedSnapshot(h, base, second, MergedSnapshot(h, base, first, latest)).values, k);
      && CarriesValue(Lookup(Or(base).values, k), Lookup(first.values, k), r)
      && CarriesValue(Lookup(Or(base).values, k), Lookup(second.values, k), r)
  {
    SnapshotAt(h, base, first, latest);
    SnapshotAt(h, base, second, MergedSnapshot(h, base, first, latest));
    assert ValuesDisjoint(Or(base), first, second);
    assert Lookup(first.values, k) in {None, Lookup(Or(base).values, k)} || Lookup(second.values, k) in {None, Lookup(Or(base).values, k)};
  }

  // An unedited copy, however stale, leaves every record and value of the newest row as it is.
  lemma UneditedCopy(h: Host, copy: Snapshot, latest: Snapshot)
    ensures var r := MergedSnapshot(h, Some(copy), copy, latest);
      && (forall name, id :: Record(r, name, id) == Record(latest, name, id))
      && r.values == latest.values
  {
    var r := MergedSnapshot(h, Some(copy), copy, latest);
    SnapshotAt(h, Some(copy), copy, latest);
    forall name, id ensures Record(r, name, id) == Record(latest, name, id) {
      assert Record(r, name, id) == MergedAt(h, Some(copy), copy, latest, name, id);
    }
    SameMap(r.values, latest.values);
  }

  // Onto a row nobody moved, the merge is the writer's copy, except that a durable record the writer
  // no longer holds stays.
  lemma UnmovedRow(h: Host, base: Snapshot, cur: Snapshot, name: string, id: string)
    requires name in cur.collections && name != CONVERSATIONS
    ensures Record(MergedSnapshot(h, Some(base), cur, base), name, id)
         == (if Record(cur, name, id) == None && name !in EPHEMERAL_DELETE_MAP_KEYS then Record(base, name, id) else Record(cur, name, id))
  {
    SnapshotAt(h, Some(base), cur, base);
    assert Record(MergedSnapshot(h, Some(base), cur, base), name, id) == MergedAt(h, Some(base), cur, base, name, id);
    CellOntoBase(h, name, Record(base, name, id), Record(cur, name, id));
  }

  // No commit removes a durable record.
  lemma DurableStays(h: Host, base: Option<Snapshot>, cur: Snapshot, latest: Snapshot, name: string, id: string)
    requires name !in EPHEMERAL_DELETE_MAP_KEYS && Record(latest, name, id).Some?
    ensures Record(MergedSnapshot(h, base, cur, latest), name, id).Some?
  {
    SnapshotAt(h, base, cur, latest);
    assert Record(MergedSnapshot(h, base, cur, latest), name, id) == MergedAt(h, base, cur, latest, name, id);
  }

  // ----- the complete provider artifact of a call

  ghost predicate IsArtifactRecord(j: Option<Json>) {
    j.Some? && j.value.Obj? && IsArtifact(j.value.fields)
  }

  // The writer loaded the conversation and its copy is still a record that has not lost the mark.
  ghost predicate KeepsMark(base: Option<Json>, cur: Option<Json>) {
    || cur == None
    || base == cur
    || IsArtifactRecord(cur)
    || (base.Some? && cur.value.Obj? && !DropsArtifactMark(BaseFields(base), cur.value.fields))
  }

  // A commit leaves a stored artifact an artifact exactly when its writer keeps the mark.
  lemma ArtifactNotDemoted(h: Host, base: Option<Json>, cur: Option<Json>, latest: Option<Json>)
    requires IsArtifactRecord(latest)
    ensures IsArtifactRecord(MergedCell(h, CONVERSATIONS, base, cur, latest)) <==> KeepsMark(base, cur)
  {
    if base.Some? && cur.Some? && cur.value.Obj? {
      FieldAt(h, CONVERSATIONS, BaseFields(base), cur.value.fields, latest.value.fields, "transcriptSource");
    }
  }

  // Only a writer that itself holds an artifact replaces the transcript of one.
  lemma ArtifactTranscriptStays(h: Host, base: Option<Json>, cur: Option<Json>, latest: Option<Json>)
    requires IsArtifactRecord(latest)
    requires base.Some? && cur.Some? && cur.value.Obj? && "transcript" in cur.value.fields
    ensures var r := MergedCell(h, CONVERSATIONS, base, cur, latest);
      && r.Some? && r.value.Obj?
      && (Lookup(r.value.fields, "transcript") != Lookup(latest.value.fields, "transcript") ==>
            && IsArtifactRecord(cur)
            && Lookup(r.value.fields, "transcript") == Lookup(cur.value.fields, "transcript"))
  {
    FieldAt(h, CONVERSATIONS, BaseFields(base), cur.value.fields, latest.value.fields, "transcript");
  }

  ghost predicate KeepsArtifact(base: Option<Json>, cur: Option<Json>) {
    KeepsMark(base, cur) && (cur == None || base == cur || (cur.value.Obj? && "transcript" in cur.value.fields))
  }

  lemma ArtifactStep(h: Host, base: Option<Json>, cur: Option<Json>, latest: Option<Json>)
    requires IsArtifactRecord(latest) && KeepsArtifact(base, cur)
    ensures var r := MergedCell(h, CONVERSATIONS, base, cur, latest);
      && IsArtifactRecord(r)
      && (Lookup(BaseFields(r), "transcript") == Lookup(BaseFields(latest), "transcript")
          || (IsArtifactRecord(cur) && Lookup(BaseFields(r), "transcript") == Lookup(BaseFields(cur), "transcript")))
  {
    ArtifactNotDemoted(h, base, cur, latest);
    if base.Some? && cur.Some? && base != cur {
      ArtifactTranscriptStays(h, base, cur, latest);
    }
  }

  lemma LiveFieldIsMerged(h: Host, base: Fields, cur: Fields, latest: Fields)
    requires !IsArtifact(cur) && !IsArtifact(latest) && ChangesTranscript(base, cur)
    ensures Lookup(MergedFields(h, CONVERSATIONS, base, cur, latest), "transcript")
         == Some(Arr(Transcript.MergedTurns(h, ItemsOf(Lookup(base, "transcript")), ItemsOf(Lookup(cur, "transcript")), ItemsOf(Lookup(latest, "transcript")))))
  {
    FieldAt(h, CONVERSATIONS, base, cur, latest, "transcript");
    assert Lookup(cur, "transcript") == Some(cur["transcript"]);
  }

  lemma LiveTranscriptIsMerged(h: Host, base: Option<Json>, cur: Option<Json>, latest: Option<Json>)
    requires base.Some? && cur.Some? && cur.value.Obj? && latest.Some? && latest.value.Obj?
    requires !IsArtifactRecord(cur) && !IsArtifactRecord(latest)
    requires ChangesTranscript(BaseFields(base), cur.value.fields)
    ensures var r := MergedCell(h, CONVERSATIONS, base, cur, latest);
      && r.Some? && r.value.Obj?
      && ItemsOf(Lookup(r.value.fields, "transcript"))
           == Transcript.MergedTurns(h, TurnsOf(base), TurnsOf(cur), TurnsOf(latest))
  {
    var b, c, l := BaseFields(base), cur.value.fields, latest.value.fields;
    LiveFieldIsMerged(h, b, c, l);
    assert base == cur ==> BaseFields(base) == c;
    assert MergedCell(h, CONVERSATIONS, base, cur, latest) == Some(Obj(MergedFields(h, CONVERSATIONS, b, c, l)));
  }

  function TurnsOf(record: Option<Json>): seq<Json> {
    ItemsOf(Lookup(BaseFields(record), "transcript"))
  }

  // Between two live writers nothing said on the call is lost: the stored transcript keeps every turn
  // it had and gains each turn this writer added, once.
  lemma LiveTranscriptsMerge(h: Host, base: Option<Json>, cur: Option<Json>, latest: Option<Json>)
    requires base.Some? && cur.Some? && cur.value.Obj? && latest.Some? && latest.value.Obj?
    requires !IsArtifactRecord(cur) && !IsArtifactRecord(latest)
    requires ChangesTranscript(BaseFields(base), cur.value.fields)
    ensures multiset(Transcript.Ids(h, TurnsOf(MergedCell(h, CONVERSATIONS, base, cur, latest))))
         == multiset(Transcript.Ids(h, TurnsOf(latest)))
              + multiset(Transcript.IdSet(h, TurnsOf(cur)) - Transcript.IdSet(h, TurnsOf(base)) - Transcript.IdSet(h, TurnsOf(latest)))
  {
    LiveTranscriptIsMerged(h, base, cur, latest);
    Transcript.MergeKeepsTurns(h, TurnsOf(base), TurnsOf(cur), TurnsOf(latest));
  }
}
