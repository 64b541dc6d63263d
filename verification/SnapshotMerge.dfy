/** Three-way merge of one record (persistence.ts, mergeRecord). */
module RecordMerge {
  import opened Common
  import opened JsonModel
  import Transcript

  const CONVERSATIONS := "conversations"
  const ARTIFACT := Str("VAPI_ARTIFACT")

  type Fields = map<string, Json>

  predicate IsArtifact(f: Fields) {
    Lookup(f, "transcriptSource") == Some(ARTIFACT)
  }

  function BaseFields(base: Option<Json>): Fields {
    if base.Some? then FieldsOf(base.value) else map[]
  }

  // What the merged record holds under one key.
  function MergedField(h: Host, collection: string, base: Fields, cur: Fields, latest: Fields, key: string): Option<Json> {
    if key in cur then
      if key in base && base[key] == cur[key] then Lookup(latest, key)
      else if collection == CONVERSATIONS && key == "transcript" then
        if IsArtifact(cur) then Some(cur[key])
        else if IsArtifact(latest) then Lookup(latest, key)
        else Some(Arr(Transcript.MergedTurns(h, ItemsOf(Lookup(base, key)), ItemsOf(Some(cur[key])), ItemsOf(Lookup(latest, key)))))
      else if collection == CONVERSATIONS && key == "transcriptSource" && IsArtifact(latest) && !IsArtifact(cur) then
        Lookup(latest, key)
      else Some(cur[key])
    else if key in base && Lookup(latest, key) == Some(base[key]) then None
    else Lookup(latest, key)
  }

  function MergedFields(h: Host, collection: string, base: Fields, cur: Fields, latest: Fields): Fields {
    map k | k in cur.Keys + latest.Keys && MergedField(h, collection, base, cur, latest, k).Some?
      :: MergedField(h, collection, base, cur, latest, k).value
  }

  lemma FieldAt(h: Host, collection: string, base: Fields, cur: Fields, latest: Fields, key: string)
    ensures Lookup(MergedFields(h, collection, base, cur, latest), key) == MergedField(h, collection, base, cur, latest, key)
  {
  }

  lemma FieldsAt(h: Host, collection: string, base: Fields, cur: Fields, latest: Fields)
    ensures forall k :: Lookup(MergedFields(h, collection, base, cur, latest), k) == MergedField(h, collection, base, cur, latest, k)
  {
  }

  function MergedRecord(h: Host, collection: string, base: Option<Json>, cur: Json, latest: Option<Json>): Json {
    if !cur.Obj? || latest == None || !latest.value.Obj? then cur
    else Obj(MergedFields(h, collection, BaseFields(base), cur.fields, latest.value.fields))
  }

  // One step of the loop over the current record's keys.
  method MergeKey(h: Host, collection: string, base: Fields, cur: Fields, latest: Fields, merged: Fields, key: string) returns (r: Fields)
    requires key in cur && Lookup(merged, key) == Lookup(latest, key)
    ensures Lookup(r, key) == MergedField(h, collection, base, cur, latest, key)
    ensures forall k :: k != key ==> Lookup(r, k) == Lookup(merged, k)
  {
    r := merged;
    if key in base && base[key] == cur[key] {
      return;
    }
    if collection == CONVERSATIONS && key == "transcript" {
      if IsArtifact(cur) {
        r := r[key := cur[key]];
      } else if !IsArtifact(latest) {
        var turns := Transcript.MergeTranscriptTurns(h, ItemsOf(Lookup(base, key)), ItemsOf(Some(cur[key])), ItemsOf(Lookup(latest, key)));
        r := r[key := Arr(turns)];
      }
    } else if collection == CONVERSATIONS && key == "transcriptSource" && IsArtifact(latest) && !IsArtifact(cur) {
    } else {
      r := r[key := cur[key]];
    }
  }

  // This writer's changed keys, written onto a copy of the newest record; spec is the merged record.
  method ApplyChanges(h: Host, collection: string, base: Fields, cur: Fields, latest: Fields, ghost spec: Fields) returns (merged: Fields)
    requires forall k :: Lookup(spec, k) == MergedField(h, collection, base, cur, latest, k)
    ensures forall k :: Lookup(merged, k) == (if k in cur then Lookup(spec, k) else Lookup(latest, k))
  {
    merged := latest;
    var todo := cur.Keys;
    while todo != {}
      invariant todo <= cur.Keys
      invariant forall k :: Lookup(merged, k) == (if k in cur && k !in todo then Lookup(spec, k) else Lookup(latest, k))
      decreases |todo|
    {
      var key :| key in todo;
      merged := MergeKey(h, collection, base, cur, latest, merged, key);
      todo := todo - {key};
    }
  }

  method MergeRecord(h: Host, collection: string, base: Option<Json>, cur: Json, latest: Option<Json>) returns (r: Json)
    ensures r == MergedRecord(h, collection, base, cur, latest)
  {
    if !cur.Obj? || latest == None || !latest.value.Obj? {
      return cur;
    }
    var b, c, l := BaseFields(base), cur.fields, latest.value.fields;
    ghost var spec := MergedFields(h, collection, b, c, l);
    FieldsAt(h, collection, b, c, l);
    var changed := ApplyChanges(h, collection, b, c, l, spec);
    var merged := changed;
    var todo := b.Keys;
    while todo != {}
      invariant todo <= b.Keys
      invariant forall k :: Lookup(merged, k) == (if k in b.Keys - todo && k !in c && Lookup(l, k) == Some(b[k]) then None else Lookup(changed, k))
      decreases |todo|
    {
      var key :| key in todo;
      todo := todo - {key};
      if key !in c && Lookup(l, key) == Some(b[key]) {
        merged := merged - {key};
      }
    }
    SameMap(merged, spec);
    r := Obj(merged);
  }
}

/** Merging a whole snapshot of the store (persistence.ts, mergeSerializedSnapshots). */
module SnapshotMerge {
  import opened Common
  import opened JsonModel
  import opened RecordMerge

  // A Map collection, or an array collection split into records with a string id and the rest.
  datatype Collection = Collection(keyed: map<string, Json>, unkeyed: seq<Json>)

  datatype Snapshot = Snapshot(collections: map<string, Collection>, values: map<string, Json>)

  const EMPTY := Snapshot(map[], map[])
  const NO_RECORDS := Collection(map[], [])
  const EPHEMERAL_DELETE_MAP_KEYS := {"sessions", "authTokens", "intakeDrafts", "voiceAnnouncements"}

  function Records(s: Snapshot, name: string): Collection {
    if name in s.collections then s.collections[name] else NO_RECORDS
  }

  function Record(s: Snapshot, name: string, id: string): Option<Json> {
    Lookup(Records(s, name).keyed, id)
  }

  function Or(base: Option<Snapshot>): Snapshot {
    if base.Some? then base.value else EMPTY
  }

  // What the merged collection holds under one id.
  function MergedCell(h: Host, name: string, base: Option<Json>, cur: Option<Json>, latest: Option<Json>): Option<Json> {
    match cur
    case None => if name in EPHEMERAL_DELETE_MAP_KEYS && base.Some? then None else latest
    case Some(v) =>
      if base == None then cur
      else if base == cur then latest
      else Some(MergedRecord(h, name, base, v, latest))
  }

  function MergedKeyed(h: Host, name: string, base: map<string, Json>, cur: map<string, Json>, latest: map<string, Json>): map<string, Json> {
    map id | id in cur.Keys + latest.Keys && MergedCell(h, name, Lookup(base, id), Lookup(cur, id), Lookup(latest, id)).Some?
      :: MergedCell(h, name, Lookup(base, id), Lookup(cur, id), Lookup(latest, id)).value
  }

  lemma KeyedAt(h: Host, name: string, base: map<string, Json>, cur: map<string, Json>, latest: map<string, Json>)
    ensures forall id :: Lookup(MergedKeyed(h, name, base, cur, latest), id)
                      == MergedCell(h, name, Lookup(base, id), Lookup(cur, id), Lookup(latest, id))
  {
  }

  function MergedCollection(h: Host, name: string, base: Collection, cur: Collection, latest: Collection): Collection {
    Collection(MergedKeyed(h, name, base.keyed, cur.keyed, latest.keyed), latest.unkeyed)
  }

  function MergedSlot(h: Host, base: Option<Snapshot>, cur: map<string, Collection>, latest: Snapshot, name: string): Option<Collection> {
    if name in cur then Some(MergedCollection(h, name, Records(Or(base), name), cur[name], Records(latest, name)))
    else Lookup(latest.collections, name)
  }

  function MergedCollections(h: Host, base: Option<Snapshot>, cur: map<string, Collection>, latest: Snapshot): map<string, Collection> {
    map name | name in cur.Keys + latest.collections.Keys :: MergedSlot(h, base, cur, latest, name).value
  }

  lemma CollectionsAt(h: Host, base: Option<Snapshot>, cur: map<string, Collection>, latest: Snapshot)
    ensures forall name :: Lookup(MergedCollections(h, base, cur, latest), name) == MergedSlot(h, base, cur, latest, name)
  {
  }

  function MergedValue(base: Option<Json>, cur: Option<Json>, latest: Option<Json>): Option<Json> {
    if cur == None || base == cur then latest else cur
  }

  function MergedValues(base: Option<Snapshot>, cur: map<string, Json>, latest: map<string, Json>): map<string, Json> {
    map k | k in cur.Keys + latest.Keys && MergedValue(Lookup(Or(base).values, k), Lookup(cur, k), Lookup(latest, k)).Some?
      :: MergedValue(Lookup(Or(base).values, k), Lookup(cur, k), Lookup(latest, k)).value
  }

  lemma ValuesAt(base: Option<Snapshot>, cur: map<string, Json>, latest: map<string, Json>)
    ensures forall k :: Lookup(MergedValues(base, cur, latest), k) == MergedValue(Lookup(Or(base).values, k), Lookup(cur, k), Lookup(latest, k))
  {
  }

  function MergedSnapshot(h: Host, base: Option<Snapshot>, cur: Snapshot, latest: Snapshot): Snapshot {
    Snapshot(
      MergedCollections(h, base, cur.collections, latest),
      MergedValues(base, cur.values, latest.values))
  }

  // One step of the loop over the current records: the record under id is merged, the others stay.
  method MergeOne(h: Host, name: string, base: map<string, Json>, cur: map<string, Json>, merged: map<string, Json>, id: string)
    returns (r: map<string, Json>)
    requires id in cur
    ensures forall k :: k != id ==> Lookup(r, k) == Lookup(merged, k)
    ensures Lookup(r, id) == MergedCell(h, name, Lookup(base, id), Some(cur[id]), Lookup(merged, id))
  {
    r := merged;
    if id !in base {
      r := r[id := cur[id]];
    } else if base[id] != cur[id] {
      var record := MergeRecord(h, name, Some(base[id]), cur[id], Lookup(r, id));
      r := r[id := record];
    }
  }

  // The loop over the current records; spec is what each of them merges to.
  method MergeEach(h: Host, name: string, base: map<string, Json>, cur: map<string, Json>, latest: map<string, Json>, ghost spec: map<string, Json>)
    returns (r: map<string, Json>)
    requires forall id :: Lookup(spec, id) == MergedCell(h, name, Lookup(base, id), Lookup(cur, id), Lookup(latest, id))
    ensures forall id :: Lookup(r, id) == (if id in cur then Lookup(spec, id) else Lookup(latest, id))
  {
    r := latest;
    var todo := cur.Keys;
    while todo != {}
      invariant todo <= cur.Keys
      invariant forall id :: Lookup(r, id) == (if id in cur && id !in todo then Lookup(spec, id) else Lookup(latest, id))
      decreases |todo|
    {
      var id :| id in todo;
      r := MergeOne(h, name, base, cur, r, id);
      todo := todo - {id};
    }
  }

  method MergeKeyed(h: Host, name: string, base: map<string, Json>, cur: map<string, Json>, latest: map<string, Json>)
    returns (r: map<string, Json>)
    ensures r == MergedKeyed(h, name, base, cur, latest)
  {
    ghost var spec := MergedKeyed(h, name, base, cur, latest);
    KeyedAt(h, name, base, cur, latest);
    r := MergeEach(h, name, base, cur, latest, spec);
    if name in EPHEMERAL_DELETE_MAP_KEYS {
      r := DeleteMissing(base, cur, r);
    }
    SameMap(r, spec);
  }

  method DeleteMissing(base: map<string, Json>, cur: map<string, Json>, merged: map<string, Json>) returns (r: map<string, Json>)
    ensures forall id :: Lookup(r, id) == (if id in base && id !in cur then None else Lookup(merged, id))
  {
    r := merged;
    var todo := base.Keys;
    while todo != {}
      invariant todo <= base.Keys
      invariant forall id :: Lookup(r, id) == (if id in base.Keys - todo && id !in cur then None else Lookup(merged, id))
      decreases |todo|
    {
      var id :| id in todo;
      todo := todo - {id};
      if id !in cur {
        r := r - {id};
      }
    }
  }

  method MergeValues(base: Option<Snapshot>, cur: map<string, Json>, latest: map<string, Json>) returns (values: map<string, Json>)
    ensures forall k :: Lookup(values, k) == MergedValue(Lookup(Or(base).values, k), Lookup(cur, k), Lookup(latest, k))
  {
    values := latest;
    var todo := cur.Keys;
    while todo != {}
      invariant todo <= cur.Keys
      invariant forall k :: k in cur.Keys - todo ==> Lookup(values, k) == MergedValue(Lookup(Or(base).values, k), Lookup(cur, k), Lookup(latest, k))
      invariant forall k :: k !in cur.Keys - todo ==> Lookup(values, k) == Lookup(latest, k)
      decreases |todo|
    {
      var k :| k in todo;
      todo := todo - {k};
      if base == None || Lookup(base.value.values, k) != Some(cur[k]) {
        values := values[k := cur[k]];
      }
    }
  }

  method MergeCollection(h: Host, name: string, base: Collection, cur: Collection, latest: Collection) returns (r: Collection)
    ensures r == MergedCollection(h, name, base, cur, latest)
  {
    var keyed := MergeKeyed(h, name, base.keyed, cur.keyed, latest.keyed);
    r := Collection(keyed, latest.unkeyed);
  }

  // The loop over the current collections; spec is what each of them merges to.
  method MergeCollections(h: Host, base: Option<Snapshot>, cur: map<string, Collection>, latest: Snapshot, ghost spec: map<string, Collection>)
    returns (collections: map<string, Collection>)
    requires forall name :: Lookup(spec, name) == MergedSlot(h, base, cur, latest, name)
    ensures collections == spec
  {
    collections := latest.collections;
    var todo := cur.Keys;
    while todo != {}
      invariant todo <= cur.Keys
      invariant forall name :: Lookup(collections, name) == (if name in cur && name !in todo then Lookup(spec, name) else Lookup(latest.collections, name))
      decreases |todo|
    {
      var name :| name in todo;
      var merged := MergeCollection(h, name, Records(Or(base), name), cur[name], Records(latest, name));
      collections := collections[name := merged];
      todo := todo - {name};
    }
    SameMap(collections, spec);
  }

  method MergeSerializedSnapshots(h: Host, base: Option<Snapshot>, cur: Snapshot, latest: Snapshot) returns (r: Snapshot)
    ensures r == MergedSnapshot(h, base, cur, latest)
  {
    ghost var spec := MergedCollections(h, base, cur.collections, latest);
    CollectionsAt(h, base, cur.collections, latest);
    var collections := MergeCollections(h, base, cur.collections, latest, spec);
    var values := MergeValues(base, cur.values, latest.values);
    ValuesAt(base, cur.values, latest.values);
    SameMap(values, MergedValues(base, cur.values, latest.values));
    r := Snapshot(collections, values);
  }
}
