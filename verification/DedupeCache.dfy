/** The duplicate guard for provider events (idempotency.ts): a Map in insertion order, where setting a
    key that is already there keeps its old place, bounded in age and in size. */
module DedupeCache {
  import opened Common

  datatype Entry = Entry(key: string, at: int)

  const WINDOW := 600_000
  const MAX_ENTRIES := 5000

  type Seen = seq<Entry>

  function Place(seen: Seen, key: string): (i: nat)
    ensures i <= |seen|
    ensures i < |seen| ==> seen[i].key == key
    ensures forall j :: 0 <= j < i ==> seen[j].key != key
  {
    if seen == [] || seen[0].key == key then 0 else 1 + Place(seen[1..], key)
  }

  function Stored(seen: Seen, key: string, at: int): Seen {
    var i := Place(seen, key);
    if i < |seen| then seen[i := Entry(key, at)] else seen + [Entry(key, at)]
  }

  predicate Live(e: Entry, now: int) {
    now - e.at <= WINDOW
  }

  function Fresh(seen: Seen, now: int): (r: Seen)
    ensures |r| <= |seen|
  {
    if seen == [] then []
    else (if Live(seen[0], now) then [seen[0]] else []) + Fresh(seen[1..], now)
  }

  lemma Splice(front: Seen, e: Entry, rest: Seen)
    ensures var s := front + ([e] + rest);
            s == front + [e] + rest && s[|front|] == e && s[..|front|] + s[|front| + 1..] == front + rest
  {
  }

  function Capped(seen: Seen): (r: Seen)
    ensures |r| == Min(|seen|, MAX_ENTRIES)
  {
    if |seen| > MAX_ENTRIES then seen[|seen| - MAX_ENTRIES..] else seen
  }

  predicate Hit(seen: Seen, key: string, now: int) {
    var i := Place(seen, key);
    key != "" && i < |seen| && Live(seen[i], now)
  }

  function After(seen: Seen, key: string, now: int): Seen {
    if key == "" || Hit(seen, key, now) then seen else Capped(Fresh(Stored(seen, key, now), now))
  }

  class Cache {
    var seen: Seen

    constructor ()
      ensures seen == []
    {
      seen := [];
    }

    method DropExpired(now: int)
      modifies this
      ensures seen == Fresh(old(seen), now)
    {
      var kept := 0;
      ghost var front, rest := [], seen;
      // front is what stayed of the entries visited, rest what is still to come
      while kept < |seen|
        invariant seen == front + rest && kept == |front|
        invariant front + Fresh(rest, now) == Fresh(old(seen), now)
        decreases |rest|
      {
        ghost var e, tail := rest[0], rest[1..];
        assert rest == [e] + tail;
        Splice(front, e, tail);
        Splice(front, e, Fresh(tail, now));
        if Live(seen[kept], now) {
          kept := kept + 1;
          front := front + [e];
        } else {
          seen := seen[..kept] + seen[kept + 1..];
        }
        rest := tail;
      }
      assert rest == [];
    }

    method Evict(now: int)
      modifies this
      ensures seen == Capped(Fresh(old(seen), now))
    {
      DropExpired(now);
      if |seen| > MAX_ENTRIES {
        var excess := |seen| - MAX_ENTRIES;
        ghost var before := seen;
        for n := 0 to excess
          invariant seen == before[n..]
        {
          seen := seen[1..];
        }
      }
    }

    method AlreadyProcessed(key: string, now: int) returns (duplicate: bool)
      modifies this
      ensures duplicate == Hit(old(seen), key, now)
      ensures seen == After(old(seen), key, now)
    {
      if key == "" {
        return false;
      }
      var i := Place(seen, key);
      if i < |seen| && now - seen[i].at <= WINDOW {
        return true;
      }
      seen := Stored(seen, key, now);
      Evict(now);
      return false;
    }
  }

  // ----- the unbounded history

  // When each key was last answered false, and whether that is at most ten minutes ago.
  type History = map<string, int>

  predicate Known(h: History, key: string, now: int) {
    key != "" && key in h && now - h[key] <= 600_000
  }

  function Recorded(h: History, key: string, now: int): History {
    if key == "" || Known(h, key, now) then h else h[key := now]
  }

  ghost function LiveKeys(h: History, now: int): set<string> {
    set k | k in h && now - h[k] <= 600_000
  }

  // Nothing is in the cache that the history does not have, and no key twice.
  ghost predicate Sound(seen: Seen, h: History) {
    && (forall i :: 0 <= i < |seen| ==> seen[i].key in h && h[seen[i].key] == seen[i].at)
    && (forall i, j :: 0 <= i < j < |seen| ==> seen[i].key != seen[j].key)
    && "" !in h
  }

  // Nothing live in the history is missing from the cache.
  ghost predicate Complete(seen: Seen, h: History, now: int) {
    forall k :: k in LiveKeys(h, now) ==> Place(seen, k) < |seen|
  }

  lemma StoredKeeps(seen: Seen, h: History, key: string, now: int)
    requires Sound(seen, h) && key != ""
    ensures Sound(Stored(seen, key, now), h[key := now])
    ensures Place(Stored(seen, key, now), key) < |Stored(seen, key, now)|
    ensures forall k :: Place(seen, k) < |seen| ==> Place(Stored(seen, key, now), k) < |Stored(seen, key, now)|
  {
    var i, stored := Place(seen, key), Stored(seen, key, now);
    assert i < |stored| && stored[i].key == key;
    forall k | Place(seen, k) < |seen| ensures Place(stored, k) < |stored| {
      assert stored[Place(seen, k)].key == k;
    }
  }

  lemma {:induction false} FreshIs(seen: Seen, now: int)
    ensures forall e :: e in Fresh(seen, now) <==> e in seen && Live(e, now)
  {
    if seen != [] {
      assert seen == [seen[0]] + seen[1..];
      FreshIs(seen[1..], now);
    }
  }

  lemma {:induction false} FreshKeepsSound(seen: Seen, h: History, now: int)
    requires Sound(seen, h)
    ensures Sound(Fresh(seen, now), h)
  {
    if seen != [] {
      assert forall i :: 0 <= i < |seen[1..]| ==> seen[1..][i] == seen[i + 1];
      FreshKeepsSound(seen[1..], h, now);
      FreshIs(seen[1..], now);
      var rest := Fresh(seen[1..], now);
      forall i | 0 <= i < |rest| ensures rest[i].key != seen[0].key {
        assert rest[i] in seen[1..];
      }
    }
  }

  lemma CappedKeepsSound(seen: Seen, h: History)
    requires Sound(seen, h)
    ensures Sound(Capped(seen), h)
  {
    if |seen| > MAX_ENTRIES {
      DropKeepsSound(seen, h, |seen| - MAX_ENTRIES);
    }
  }

  lemma DropKeepsSound(seen: Seen, h: History, n: nat)
    requires Sound(seen, h) && n <= |seen|
    ensures Sound(seen[n..], h)
  {
    var kept := seen[n..];
    forall i | 0 <= i < |kept| ensures kept[i].key in h && h[kept[i].key] == kept[i].at {
      assert kept[i] == seen[n + i];
    }
    forall i, j | 0 <= i < j < |kept| ensures kept[i].key != kept[j].key {
      assert kept[i] == seen[n + i] && kept[j] == seen[n + j];
    }
  }

  lemma {:induction false} DistinctKeys(seen: Seen, keys: set<string>)
    requires forall i, j :: 0 <= i < j < |seen| ==> seen[i].key != seen[j].key
    requires forall i :: 0 <= i < |seen| ==> seen[i].key in keys
    ensures |seen| <= |keys|
  {
    if seen != [] {
      DistinctKeys(seen[..|seen| - 1], keys - {seen[|seen| - 1].key});
    }
  }

  // Whatever the times and however many the keys: a key is called a duplicate only if it was recorded
  // within the window.
  lemma AfterIsSound(seen: Seen, h: History, key: string, now: int)
    requires Sound(seen, h)
    ensures Hit(seen, key, now) ==> Known(h, key, now)
    ensures Sound(After(seen, key, now), if key == "" || Hit(seen, key, now) then h else h[key := now])
  {
    if key != "" && !Hit(seen, key, now) {
      StoredKeeps(seen, h, key, now);
      FreshKeepsSound(Stored(seen, key, now), h[key := now], now);
      CappedKeepsSound(Fresh(Stored(seen, key, now), now), h[key := now]);
    }
  }

  lemma FreshFits(seen: Seen, h: History, now: int)
    requires Sound(seen, h) && |LiveKeys(h, now)| <= MAX_ENTRIES
    ensures |Fresh(seen, now)| <= MAX_ENTRIES
  {
    var kept := Fresh(seen, now);
    FreshKeepsSound(seen, h, now);
    FreshIs(seen, now);
    forall i | 0 <= i < |kept| ensures kept[i].key in LiveKeys(h, now) {
      assert kept[i] in kept;
    }
    DistinctKeys(kept, LiveKeys(h, now));
  }

  lemma FreshKeepsLive(seen: Seen, h: History, now: int)
    requires Sound(seen, h) && Complete(seen, h, now)
    ensures Complete(Fresh(seen, now), h, now)
  {
    FreshIs(seen, now);
    forall k | k in LiveKeys(h, now) ensures Place(Fresh(seen, now), k) < |Fresh(seen, now)| {
      assert seen[Place(seen, k)] in Fresh(seen, now);
    }
  }

  // While the history has at most MAX_ENTRIES live keys, nothing is dropped for size.
  lemma AfterIsComplete(seen: Seen, h: History, key: string, now: int)
    requires Sound(seen, h) && Complete(seen, h, now)
    requires |LiveKeys(Recorded(h, key, now), now)| <= MAX_ENTRIES
    ensures Hit(seen, key, now) <==> Known(h, key, now)
    ensures Sound(After(seen, key, now), Recorded(h, key, now))
    ensures Complete(After(seen, key, now), Recorded(h, key, now), now)
  {
    assert Hit(seen, key, now) <==> Known(h, key, now) by {
      if Known(h, key, now) {
        assert key in LiveKeys(h, now);
      }
    }
    AfterIsSound(seen, h, key, now);
    if key != "" && !Known(h, key, now) {
      var stored, h' := Stored(seen, key, now), h[key := now];
      StoredKeeps(seen, h, key, now);
      assert Complete(stored, h', now) by {
        forall k | k in LiveKeys(h', now) ensures Place(stored, k) < |stored| {
          assert k == key || k in LiveKeys(h, now);
        }
      }
      FreshKeepsLive(stored, h', now);
      FreshFits(stored, h', now);
    }
  }

  lemma {:induction false} EnoughEntries(keys: set<string>, seen: Seen)
    requires forall k :: k in keys ==> Place(seen, k) < |seen|
    ensures |keys| <= |seen|
    decreases |seen|
  {
    if seen == [] {
      assert keys == {};
    } else {
      var rest := keys - {seen[0].key};
      EnoughEntries(rest, seen[1..]);
      assert keys <= rest + {seen[0].key};
    }
  }

  // Recording a key leaves everything live in the cache exactly if no more keys are live than it can hold.
  lemma RecordingIsCompleteExactly(seen: Seen, h: History, key: string, now: int)
    requires Sound(seen, h) && Complete(seen, h, now) && key != "" && !Known(h, key, now)
    ensures Complete(After(seen, key, now), Recorded(h, key, now), now) <==> |LiveKeys(Recorded(h, key, now), now)| <= 5000
  {
    if |LiveKeys(Recorded(h, key, now), now)| <= MAX_ENTRIES {
      AfterIsComplete(seen, h, key, now);
    } else if Complete(After(seen, key, now), Recorded(h, key, now), now) {
      AfterIsSound(seen, h, key, now);
      EnoughEntries(LiveKeys(Recorded(h, key, now), now), After(seen, key, now));
    }
  }

  datatype Call = Call(key: string, now: int)

  predicate InOrder(calls: seq<Call>, clock: int)
    decreases |calls|
  {
    calls == [] || (clock <= calls[0].now && InOrder(calls[1..], calls[0].now))
  }

  // A call that records nothing fits, and so does one after which at most 5000 keys are live.
  ghost predicate Fits(h: History, c: Call) {
    c.key == "" || Known(h, c.key, c.now) || |LiveKeys(h[c.key := c.now], c.now)| <= 5000
  }

  // No more than 5000 distinct keys are recorded within one window.
  ghost predicate Bounded(h: History, calls: seq<Call>)
    decreases |calls|
  {
    calls == [] || (Fits(h, calls[0]) && Bounded(Recorded(h, calls[0].key, calls[0].now), calls[1..]))
  }

  function Answers(seen: Seen, calls: seq<Call>): seq<bool>
    decreases |calls|
  {
    if calls == [] then []
    else [Hit(seen, calls[0].key, calls[0].now)] + Answers(After(seen, calls[0].key, calls[0].now), calls[1..])
  }

  function HistoryAnswers(h: History, calls: seq<Call>): seq<bool>
    decreases |calls|
  {
    if calls == [] then []
    else [Known(h, calls[0].key, calls[0].now)] + HistoryAnswers(Recorded(h, calls[0].key, calls[0].now), calls[1..])
  }

  // One call that fits keeps cache and history together.
  lemma FittingCall(seen: Seen, h: History, c: Call, clock: int)
    requires Sound(seen, h) && Complete(seen, h, clock) && clock <= c.now && Fits(h, c)
    ensures Hit(seen, c.key, c.now) == Known(h, c.key, c.now)
    ensures Sound(After(seen, c.key, c.now), Recorded(h, c.key, c.now))
    ensures Complete(After(seen, c.key, c.now), Recorded(h, c.key, c.now), c.now)
  {
    assert LiveKeys(h, c.now) <= LiveKeys(h, clock);
    assert Known(h, c.key, c.now) ==> c.key in LiveKeys(h, c.now);
    if c.key != "" && !Known(h, c.key, c.now) {
      AfterIsComplete(seen, h, c.key, c.now);
    }
  }

  // The bounded cache answers every run of calls as the unbounded history would.
  lemma {:induction false} RefinesHistory(seen: Seen, h: History, calls: seq<Call>, clock: int)
    requires Sound(seen, h) && Complete(seen, h, clock) && InOrder(calls, clock) && Bounded(h, calls)
    ensures Answers(seen, calls) == HistoryAnswers(h, calls)
    decreases |calls|
  {
    if calls != [] {
      var c := calls[0];
      FittingCall(seen, h, c, clock);
      RefinesHistory(After(seen, c.key, c.now), Recorded(h, c.key, c.now), calls[1..], c.now);
    }
  }

  lemma CacheIsHistory(calls: seq<Call>, start: int)
    requires InOrder(calls, start) && Bounded(map[], calls)
    ensures Answers([], calls) == HistoryAnswers(map[], calls)
  {
    RefinesHistory([], map[], calls, start);
  }

  // Asked about any key at this moment, the two would answer alike.
  ghost predicate Alike(seen: Seen, h: History, now: int) {
    forall k :: Hit(seen, k, now) == Known(h, k, now)
  }

  // ... now and after each of the calls.
  ghost predicate AlikeThroughout(seen: Seen, h: History, calls: seq<Call>, clock: int)
    decreases |calls|
  {
    && Alike(seen, h, clock)
    && (calls == [] ||
        var c := calls[0];
        AlikeThroughout(After(seen, c.key, c.now), Recorded(h, c.key, c.now), calls[1..], c.now))
  }

  lemma AlikeIsComplete(seen: Seen, h: History, now: int)
    requires Sound(seen, h)
    ensures Alike(seen, h, now) <==> Complete(seen, h, now)
  {
    if Alike(seen, h, now) {
      forall k | k in LiveKeys(h, now) ensures Place(seen, k) < |seen| {
        assert Hit(seen, k, now) == Known(h, k, now);
      }
    }
    if Complete(seen, h, now) {
      forall k ensures Hit(seen, k, now) == Known(h, k, now) {
        assert Known(h, k, now) ==> k in LiveKeys(h, now);
      }
    }
  }

  // And exactly so far: over a run from a cache that agrees with the history, the two go on agreeing about
  // every key after every call if and only if every call fits.
  lemma {:induction false} AgreesExactly(seen: Seen, h: History, calls: seq<Call>, clock: int)
    requires Sound(seen, h) && Complete(seen, h, clock) && InOrder(calls, clock)
    ensures AlikeThroughout(seen, h, calls, clock) <==> Bounded(h, calls)
    decreases |calls|
  {
    AlikeIsComplete(seen, h, clock);
    if calls != [] {
      var c := calls[0];
      if Fits(h, c) {
        FittingCall(seen, h, c, clock);
        AgreesExactly(After(seen, c.key, c.now), Recorded(h, c.key, c.now), calls[1..], c.now);
      } else {
        TooMany(seen, h, c, clock);
      }
    }
  }

  lemma TooMany(seen: Seen, h: History, c: Call, clock: int)
    requires Sound(seen, h) && Complete(seen, h, clock) && clock <= c.now && !Fits(h, c)
    ensures !Alike(After(seen, c.key, c.now), Recorded(h, c.key, c.now), c.now)
  {
    assert LiveKeys(h, c.now) <= LiveKeys(h, clock);
    RecordingIsCompleteExactly(seen, h, c.key, c.now);
    AfterIsSound(seen, h, c.key, c.now);
    AlikeIsComplete(After(seen, c.key, c.now), Recorded(h, c.key, c.now), c.now);
  }

  lemma CacheIsHistoryExactly(calls: seq<Call>, start: int)
    requires InOrder(calls, start)
    ensures AlikeThroughout([], map[], calls, start) <==> Bounded(map[], calls)
  {
    AgreesExactly([], map[], calls, start);
  }

  // The size bound holds after every call that records something, for any input.
  lemma NeverTooLarge(seen: Seen, key: string, now: int)
    requires key != "" && !Hit(seen, key, now)
    ensures |After(seen, key, now)| <= 5000
  {
  }

  // Dropping from the front is not dropping the oldest: a full cache whose first key expired and was
  // recorded again a moment ago gives that key up first, so its next duplicate is let through.
  lemma NewestCanBeDropped(others: Seen, first: string, new_: string)
    requires |others| == MAX_ENTRIES - 1 && first != "" && new_ != "" && first != new_
    requires forall i :: 0 <= i < |others| ==> others[i].at == 300_000 && others[i].key != first && others[i].key != new_
    ensures var seen := After([Entry(first, 0)] + others, first, 700_000);
            seen == [Entry(first, 700_000)] + others
            && !Hit(After(seen, new_, 700_001), first, 700_002)
            && forall e :: e in others ==> e in After(seen, new_, 700_001)
  {
    var seen := [Entry(first, 700_000)] + others;
    AllFresh(seen, 700_000);
    assert Stored([Entry(first, 0)] + others, first, 700_000) == seen;
    var i := Place(seen, new_);
    assert i == |seen|;
    AllFresh(seen + [Entry(new_, 700_001)], 700_001);
    assert After(seen, new_, 700_001) == others + [Entry(new_, 700_001)];
  }

  lemma {:induction false} AllFresh(seen: Seen, now: int)
    requires forall i :: 0 <= i < |seen| ==> Live(seen[i], now)
    ensures Fresh(seen, now) == seen
  {
    if seen != [] {
      AllFresh(seen[1..], now);
      assert seen == [seen[0]] + seen[1..];
    }
  }
}
