/** JSON documents, compared by structure, and the two host functions the merge relies on. */
module JsonModel {
  import opened Common

  datatype Json =
    | Null
    | Bool(b: bool)
    | Num(n: int)
    | Str(s: string)
    | Arr(items: seq<Json>)
    | Obj(fields: map<string, Json>)

  // String(value) for values that are not strings, and Date.parse where it is finite.
  datatype Host = Host(show: Json -> string, parseDate: string -> Option<int>)

  function FieldsOf(j: Json): map<string, Json> {
    if j.Obj? then j.fields else map[]
  }

  function ItemsOf(j: Option<Json>): seq<Json> {
    if j.Some? && j.value.Arr? then j.value.items else []
  }
}

/** Merging the live transcript of one call (persistence.ts, mergeTranscriptTurns). */
module Transcript {
  import opened Common
  import opened Sorting
  import opened JsonModel

  function TextOf(h: Host, j: Option<Json>): string {
    match j
    case None => "undefined"
    case Some(Str(s)) => s
    case Some(other) => h.show(other)
  }

  // What makes two turns the same turn.
  function Identity(h: Host, turn: Json): string {
    var f := FieldsOf(turn);
    if "providerEventId" in f && f["providerEventId"].Str? then
      "provider:" + f["providerEventId"].s
    else
      "legacy:" + TextOf(h, Lookup(f, "role")) + ":" + TextOf(h, Lookup(f, "text")) + ":" + TextOf(h, Lookup(f, "at"))
  }

  // The provider's own name for a turn.
  function ProviderId(turn: Json): Option<string> {
    var id := Lookup(FieldsOf(turn), "providerEventId");
    if id.Some? && id.value.Str? then Some(id.value.s) else None
  }

  function WhoSaidWhatWhen(h: Host, turn: Json): string {
    var f := FieldsOf(turn);
    TextOf(h, Lookup(f, "role")) + ":" + TextOf(h, Lookup(f, "text")) + ":" + TextOf(h, Lookup(f, "at"))
  }

  // Turns with a provider's name are the same turn exactly if it is the same name, never the same as one
  // without; those without are the same exactly if role, text and time read the same.
  lemma SameTurnExactly(h: Host, a: Json, b: Json)
    ensures Identity(h, a) == Identity(h, b) <==>
      ProviderId(a) == ProviderId(b) && (ProviderId(a) == None ==> WhoSaidWhatWhen(h, a) == WhoSaidWhatWhen(h, b))
  {
    IdentityIs(h, a);
    IdentityIs(h, b);
    var x, y := Identity(h, a), Identity(h, b);
    if ProviderId(a).Some? != ProviderId(b).Some? {
      assert x[0] != y[0];
    } else if ProviderId(a).Some? {
      assert x[9..] == ProviderId(a).value && y[9..] == ProviderId(b).value;
    } else {
      assert x[7..] == WhoSaidWhatWhen(h, a) && y[7..] == WhoSaidWhatWhen(h, b);
    }
  }

  lemma IdentityIs(h: Host, turn: Json)
    ensures Identity(h, turn) == if ProviderId(turn).Some? then "provider:" + ProviderId(turn).value else "legacy:" + WhoSaidWhatWhen(h, turn)
  {
    var f := FieldsOf(turn);
    var role, text, at := TextOf(h, Lookup(f, "role")), TextOf(h, Lookup(f, "text")), TextOf(h, Lookup(f, "at"));
    assert "legacy:" + role + ":" + text + ":" + at == "legacy:" + (role + ":" + text + ":" + at);
  }

  // Of two lines the same speaker is on record with at the same moment, without provider names, the second
  // is the same turn exactly if it is the same words.
  lemma OtherWordsOtherTurn(h: Host, a: map<string, Json>, b: map<string, Json>, role: string, at: string, said: string, then_: string)
    requires Lookup(a, "role") == Lookup(b, "role") == Some(Str(role)) && Lookup(a, "at") == Lookup(b, "at") == Some(Str(at))
    requires Lookup(a, "text") == Some(Str(said)) && Lookup(b, "text") == Some(Str(then_))
    requires ProviderId(Obj(a)) == None && ProviderId(Obj(b)) == None
    ensures Identity(h, Obj(a)) == Identity(h, Obj(b)) <==> said == then_
  {
    SameTurnExactly(h, Obj(a), Obj(b));
    var x, y := WhoSaidWhatWhen(h, Obj(a)), WhoSaidWhatWhen(h, Obj(b));
    var head, tail := role + ":", ":" + at;
    assert x == head + said + tail && y == head + then_ + tail;
    if x == y {
      assert |said| == |then_|;
      assert said == x[|head|..|head| + |said|] == then_;
    }
  }

  // The instant a turn sorts by; an unreadable instant counts as zero.
  function At(h: Host, turn: Json): int {
    if !turn.Obj? then 0
    else
      var at := Lookup(turn.fields, "at");
      var text := if at == None || at == Some(Null) then "" else TextOf(h, at);
      match h.parseDate(text)
      case None => 0
      case Some(t) => t
  }

  // Read from its time where that is text, from nothing where it has none; and zero if that is unreadable
  // or the turn is no object.
  lemma TimeExactly(h: Host, turn: Json)
    ensures !turn.Obj? ==> At(h, turn) == 0
    ensures turn.Obj? ==>
      var text := match Lookup(turn.fields, "at")
                  case None => ""
                  case Some(at) => if at == Null then "" else if at.Str? then at.s else h.show(at);
      At(h, turn) == if h.parseDate(text).Some? then h.parseDate(text).value else 0
  {
  }

  function ByTime(h: Host): Json -> int {
    t => At(h, t)
  }

  function ByIdentity(h: Host): Json -> string {
    t => Identity(h, t)
  }

  function Numbered(turn: Json, n: int): Json {
    if turn.Obj? then Obj(turn.fields["turn" := Num(n)]) else turn
  }

  // A turn without its number.
  function Bare(turn: Json): Json {
    if turn.Obj? then Obj(turn.fields - {"turn"}) else turn
  }

  function Renumber(turns: seq<Json>): (r: seq<Json>)
    ensures |r| == |turns|
  {
    seq(|turns|, i requires 0 <= i < |turns| => Numbered(turns[i], i + 1))
  }

  function Ids(h: Host, turns: seq<Json>): seq<string> {
    MapSeq(ByIdentity(h), turns)
  }

  function IdSet(h: Host, turns: seq<Json>): set<string> {
    set t | t in turns :: Identity(h, t)
  }

  // The turns of cur that are neither in the baseline nor already present, each identity once.
  function NewTurns(h: Host, baseIds: set<string>, seen: set<string>, cur: seq<Json>): seq<Json>
    decreases |cur|
  {
    if cur == [] then []
    else
      var id := Identity(h, cur[0]);
      if id in baseIds || id in seen then NewTurns(h, baseIds, seen, cur[1..])
      else [cur[0]] + NewTurns(h, baseIds, seen + {id}, cur[1..])
  }

  function MergedTurns(h: Host, base: seq<Json>, cur: seq<Json>, latest: seq<Json>): seq<Json> {
    Renumber(SortBy(latest + NewTurns(h, IdSet(h, base), IdSet(h, latest), cur), ByTime(h)))
  }

  method MergeTranscriptTurns(h: Host, base: seq<Json>, cur: seq<Json>, latest: seq<Json>)
    returns (r: seq<Json>)
    ensures r == MergedTurns(h, base, cur, latest)
  {
    var baseIds := IdSet(h, base);
    var merged := latest;
    var mergedIds := IdSet(h, latest);
    for i := 0 to |cur|
      invariant merged + NewTurns(h, baseIds, mergedIds, cur[i..])
             == latest + NewTurns(h, baseIds, IdSet(h, latest), cur)
    {
      var id := Identity(h, cur[i]);
      assert cur[i..][1..] == cur[i + 1..];
      if id !in baseIds && id !in mergedIds {
        ghost var rest := NewTurns(h, baseIds, mergedIds + {id}, cur[i + 1..]);
        assert merged + ([cur[i]] + rest) == (merged + [cur[i]]) + rest;
        merged := merged + [cur[i]];
        mergedIds := mergedIds + {id};
      }
    }
    assert merged + [] == merged;
    r := Renumber(SortBy(merged, ByTime(h)));
  }

  lemma NumberedKeepsIdentity(h: Host, turn: Json, n: int)
    ensures Identity(h, Numbered(turn, n)) == Identity(h, turn)
    ensures At(h, Numbered(turn, n)) == At(h, turn)
    ensures Bare(Numbered(turn, n)) == Bare(turn)
  {
    if turn.Obj? {
      var f := turn.fields["turn" := Num(n)];
      assert f - {"turn"} == turn.fields - {"turn"};
      assert Lookup(f, "role") == Lookup(turn.fields, "role");
      assert Lookup(f, "text") == Lookup(turn.fields, "text");
      assert Lookup(f, "at") == Lookup(turn.fields, "at");
    }
  }

  lemma RenumberAt(h: Host, turns: seq<Json>, i: nat)
    requires i < |turns|
    ensures Identity(h, Renumber(turns)[i]) == Identity(h, turns[i])
    ensures Bare(Renumber(turns)[i]) == Bare(turns[i])
    ensures At(h, Renumber(turns)[i]) == At(h, turns[i])
  {
    NumberedKeepsIdentity(h, turns[i], i + 1);
  }

  lemma RenumberKeeps(h: Host, turns: seq<Json>)
    ensures Ids(h, Renumber(turns)) == Ids(h, turns)
    ensures MapSeq(Bare, Renumber(turns)) == MapSeq(Bare, turns)
    ensures forall i :: 0 <= i < |turns| ==> At(h, Renumber(turns)[i]) == At(h, turns[i])
  {
    forall i | 0 <= i < |turns|
      ensures Identity(h, Renumber(turns)[i]) == Identity(h, turns[i])
      ensures Bare(Renumber(turns)[i]) == Bare(turns[i])
      ensures At(h, Renumber(turns)[i]) == At(h, turns[i])
    {
      RenumberAt(h, turns, i);
    }
  }

  lemma {:induction false} NewTurnsOnce(h: Host, baseIds: set<string>, seen: set<string>, cur: seq<Json>)
    ensures multiset(Ids(h, NewTurns(h, baseIds, seen, cur))) == multiset(IdSet(h, cur) - baseIds - seen)
    decreases |cur|
  {
    if cur != [] {
      var id := Identity(h, cur[0]);
      assert cur == [cur[0]] + cur[1..];
      assert IdSet(h, cur) == {id} + IdSet(h, cur[1..]);
      if id in baseIds || id in seen {
        NewTurnsOnce(h, baseIds, seen, cur[1..]);
        assert IdSet(h, cur) - baseIds - seen == IdSet(h, cur[1..]) - baseIds - seen;
      } else {
        NewTurnsOnce(h, baseIds, seen + {id}, cur[1..]);
        IdsCons(h, cur[0], NewTurns(h, baseIds, seen + {id}, cur[1..]));
        OneMore(id, IdSet(h, cur[1..]), baseIds, seen);
      }
    }
  }

  lemma IdsCons(h: Host, turn: Json, rest: seq<Json>)
    ensures multiset(Ids(h, [turn] + rest)) == multiset{Identity(h, turn)} + multiset(Ids(h, rest))
  {
    assert ([turn] + rest)[1..] == rest;
    assert Ids(h, [turn] + rest) == [Identity(h, turn)] + Ids(h, rest);
  }

  lemma OneMore(id: string, ids: set<string>, baseIds: set<string>, seen: set<string>)
    requires id !in baseIds && id !in seen
    ensures multiset({id} + ids - baseIds - seen) == multiset{id} + multiset(ids - baseIds - (seen + {id}))
  {
    var others := ids - baseIds - (seen + {id});
    assert {id} + ids - baseIds - seen == {id} + others;
    assert id !in others;
  }

  lemma {:induction false} NewTurnsComeFromCurrent(h: Host, baseIds: set<string>, seen: set<string>, cur: seq<Json>)
    ensures forall t :: t in NewTurns(h, baseIds, seen, cur) ==> t in cur
    decreases |cur|
  {
    if cur != [] {
      NewTurnsComeFromCurrent(h, baseIds, seen, cur[1..]);
      NewTurnsComeFromCurrent(h, baseIds, seen + {Identity(h, cur[0])}, cur[1..]);
    }
  }

  lemma IdSetOfIds(h: Host, turns: seq<Json>)
    ensures forall id :: id in IdSet(h, turns) <==> id in multiset(Ids(h, turns))
  {
    forall id | id in IdSet(h, turns) ensures id in Ids(h, turns) {
      var t :| t in turns && Identity(h, t) == id;
      var i :| 0 <= i < |turns| && turns[i] == t;
      assert Ids(h, turns)[i] == id;
    }
    forall id | id in Ids(h, turns) ensures id in IdSet(h, turns) {
      var i :| 0 <= i < |turns| && Ids(h, turns)[i] == id;
      assert turns[i] in turns;
    }
  }

  // Every latest turn survives and every turn this writer added enters exactly once, by identity;
  // nothing but the numbering of a turn changes.
  lemma MergeKeepsTurns(h: Host, base: seq<Json>, cur: seq<Json>, latest: seq<Json>)
    ensures var added := NewTurns(h, IdSet(h, base), IdSet(h, latest), cur);
            var r := MergedTurns(h, base, cur, latest);
            && multiset(Ids(h, r)) == multiset(Ids(h, latest)) + multiset(IdSet(h, cur) - IdSet(h, base) - IdSet(h, latest))
            && multiset(MapSeq(Bare, r)) == multiset(MapSeq(Bare, latest)) + multiset(MapSeq(Bare, added))
            && forall t :: t in added ==> t in cur
  {
    var added := NewTurns(h, IdSet(h, base), IdSet(h, latest), cur);
    var all := latest + added;
    var key := ByTime(h);
    var id := ByIdentity(h);
    RenumberKeeps(h, SortBy(all, key));
    SortMapped(all, key, id);
    SortMapped(all, key, Bare);
    MapSeqAppend(id, latest, added);
    MapSeqAppend(Bare, latest, added);
    NewTurnsOnce(h, IdSet(h, base), IdSet(h, latest), cur);
    NewTurnsComeFromCurrent(h, IdSet(h, base), IdSet(h, latest), cur);
  }

  // The merged transcript is in time order and its records are numbered from one.
  lemma MergeIsOrdered(h: Host, base: seq<Json>, cur: seq<Json>, latest: seq<Json>)
    ensures var r := MergedTurns(h, base, cur, latest);
            && SortedBy(r, ByTime(h))
            && forall i :: 0 <= i < |r| && r[i].Obj? ==> Lookup(r[i].fields, "turn") == Some(Num(i + 1))
  {
    var all := latest + NewTurns(h, IdSet(h, base), IdSet(h, latest), cur);
    SortSorted(all, ByTime(h));
    RenumberKeeps(h, SortBy(all, ByTime(h)));
  }

  // The earlier turn is the one that was said earlier.
  lemma EarlierComesFirst(h: Host, base: seq<Json>, cur: seq<Json>, latest: seq<Json>, i: nat, j: nat)
    requires i < j < |MergedTurns(h, base, cur, latest)|
    ensures At(h, MergedTurns(h, base, cur, latest)[i]) <= At(h, MergedTurns(h, base, cur, latest)[j])
  {
    var r := MergedTurns(h, base, cur, latest);
    MergeIsOrdered(h, base, cur, latest);
    assert ByTime(h)(r[i]) <= ByTime(h)(r[j]);
  }

  lemma RenumberOfNumbered(turns: seq<Json>)
    requires forall i :: 0 <= i < |turns| && turns[i].Obj? ==> Lookup(turns[i].fields, "turn") == Some(Num(i + 1))
    ensures Renumber(turns) == turns
  {
    forall i | 0 <= i < |turns| ensures Numbered(turns[i], i + 1) == turns[i] {
      if turns[i].Obj? {
        assert turns[i].fields["turn" := Num(i + 1)] == turns[i].fields;
      }
    }
  }

  lemma NothingNewTwice(h: Host, base: seq<Json>, cur: seq<Json>, latest: seq<Json>)
    ensures NewTurns(h, IdSet(h, base), IdSet(h, MergedTurns(h, base, cur, latest)), cur) == []
  {
    var r := MergedTurns(h, base, cur, latest);
    MergeKeepsTurns(h, base, cur, latest);
    IdSetOfIds(h, latest);
    IdSetOfIds(h, r);
    NewTurnsOnce(h, IdSet(h, base), IdSet(h, r), cur);
    assert IdSet(h, cur) - IdSet(h, base) - IdSet(h, r) == {} by {
      forall id | id in IdSet(h, cur) && id !in IdSet(h, base) ensures id in IdSet(h, r) {
        assert id in multiset(Ids(h, r));
      }
    }
    var again := NewTurns(h, IdSet(h, base), IdSet(h, r), cur);
    assert |Ids(h, again)| == |multiset(Ids(h, again))| == 0;
  }

  // Merging the same transcript again, onto the result, changes nothing.
  lemma MergeTurnsIdempotent(h: Host, base: seq<Json>, cur: seq<Json>, latest: seq<Json>)
    ensures var r := MergedTurns(h, base, cur, latest);
            MergedTurns(h, base, cur, r) == r
  {
    var r := MergedTurns(h, base, cur, latest);
    NothingNewTwice(h, base, cur, latest);
    MergeIsOrdered(h, base, cur, latest);
    assert r + [] == r;
    SortOfSorted(r, ByTime(h));
    RenumberOfNumbered(r);
  }
}
