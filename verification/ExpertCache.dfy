/** The expert cache in queue mode (src/vitriol-expert-cache.cpp).

    A hit only touches a timestamp, so the queue order is the order of loading: the cache called LRU
    evicts first in, first out. */
module ExpertCache {
  import opened Common
  import opened CacheKeys
  import opened Eviction

  const EXPERT_MB := 2048 * 512 * 2 / (1024 * 1024)

  // ---- First in, first out ----

  function LastN(s: seq<string>, n: nat): seq<string> {
    if |s| <= n then s else s[|s| - n..]
  }

  /** The resident keys after one request, oldest first; `loads` is false when `malloc` fails. */
  function Fifo(resident: seq<string>, key: string, limit: nat, loads: bool): seq<string>
    requires limit >= 1
  {
    if key in resident then resident
    else if loads then LastN(resident, limit - 1) + [key]
    else LastN(resident, limit - 1)
  }

  /** Residents, the keys that missed and the keys that were loaded, since the cache was empty. */
  datatype Trace = Trace(resident: seq<string>, misses: seq<string>, loaded: seq<string>)

  function Replay(asks: seq<Ask>, limit: nat): Trace
    requires limit >= 1
  {
    if asks == [] then Trace([], [], [])
    else
      var t, a := Replay(asks[..|asks| - 1], limit), asks[|asks| - 1];
      var key, loads := KeyOf(a.request), a.malloc.Some?;
      var miss := key !in t.resident;
      Trace(Fifo(t.resident, key, limit, loads),
            if miss then t.misses + [key] else t.misses,
            if miss && loads then t.loaded + [key] else t.loaded)
  }

  predicate Distinct(s: seq<string>) {
    forall i, j :: 0 <= i < j < |s| ==> s[i] != s[j]
  }

  lemma StaysDistinct(s: seq<string>, k: string, n: nat)
    requires Distinct(s) && k !in s
    ensures Distinct(LastN(s, n)) && Distinct(LastN(s, n) + [k])
  {
  }

  /** `r` is the last `|r|` of `s`, and all the cache has room for unless a load has failed. */
  ghost predicate Kept(r: seq<string>, s: seq<string>, limit: nat, failed: bool) {
    r == LastN(s, |r|) && |r| <= limit && (!failed ==> r == LastN(s, limit))
  }

  lemma KeptLoads(r: seq<string>, s: seq<string>, k: string, limit: nat, failed: bool)
    requires limit >= 1 && Kept(r, s, limit, failed)
    ensures Kept(LastN(r, limit - 1) + [k], s + [k], limit, failed)
    ensures Kept(LastN(r, limit - 1), s, limit, true)
  {
  }

  predicate SomeFails(asks: seq<Ask>) {
    exists i :: 0 <= i < |asks| && asks[i].malloc.None?
  }

  lemma {:induction false} KeptAfter(asks: seq<Ask>, limit: nat)
    requires limit >= 1
    ensures var t := Replay(asks, limit);
            && Distinct(t.resident) && Kept(t.resident, t.loaded, limit, SomeFails(asks))
            && (!SomeFails(asks) ==> t.loaded == t.misses)
  {
    if asks != [] {
      hide LastN, Distinct, Kept, KeyOf;
      var before, a := asks[..|asks| - 1], asks[|asks| - 1];
      KeptAfter(before, limit);
      var t := Replay(before, limit);
      KeptWeaken(t.resident, t.loaded, limit, SomeFails(before), SomeFails(asks));
      if KeyOf(a.request) !in t.resident {
        KeptLoads(t.resident, t.loaded, KeyOf(a.request), limit, SomeFails(asks));
        StaysDistinct(t.resident, KeyOf(a.request), limit - 1);
      }
    } else {
      NothingKept(limit);
    }
  }

  lemma KeptWeaken(r: seq<string>, s: seq<string>, limit: nat, failed: bool, failed': bool)
    requires Kept(r, s, limit, failed) && (failed ==> failed')
    ensures Kept(r, s, limit, failed')
  {
  }

  lemma NothingKept(limit: nat)
    ensures Kept([], [], limit, false)
  {
  }

  // ---- Map and queue in step ----

  predicate Plain(r: Request) {
    Sane(r) && !IsLong(r)
  }

  /** The queue names every entry of the map once, each filed under its recomputed key. */
  ghost predicate InStep(entries: map<string, Entry>, queue: seq<Entry>) {
    && Distinct(QueueKeys(queue))
    && (forall i :: 0 <= i < |queue| ==> VictimKey(queue[i]) in entries && entries[VictimKey(queue[i])] == queue[i])
    && (forall k :: k in entries ==> k in QueueKeys(queue))
    && (forall i :: 0 <= i < |queue| ==> Stored(queue[i]))
  }

  lemma {:induction false} InStepSize(entries: map<string, Entry>, queue: seq<Entry>)
    requires InStep(entries, queue)
    ensures |entries| == |queue|
  {
    if queue == [] {
      assert entries.Keys == {};
    } else {
      PopInStep(entries, queue);
      var rest := entries - {VictimKey(queue[0])};
      InStepSize(rest, queue[1..]);
      assert entries.Keys == rest.Keys + {VictimKey(queue[0])};
    }
  }

  lemma PopInStep(entries: map<string, Entry>, queue: seq<Entry>)
    requires InStep(entries, queue) && queue != []
    ensures VictimKey(queue[0]) in entries && InStep(entries - {VictimKey(queue[0])}, queue[1..])
  {
    hide VictimKey, Stored, Distinct;
    var k := VictimKey(queue[0]);
    var keys, rest := QueueKeys(queue), QueueKeys(queue[1..]);
    assert rest == keys[1..];
    PopDistinct(keys);
    forall x | x in entries - {k}
      ensures x in rest
    {
      assert x in keys;
      assert keys == [k] + rest;
    }
    forall i | 0 <= i < |rest|
      ensures rest[i] in entries - {k} && (entries - {k})[rest[i]] == queue[1..][i]
    {
      assert queue[1..][i] == queue[i + 1];
    }
  }

  lemma PopDistinct(keys: seq<string>)
    requires Distinct(keys) && keys != []
    ensures Distinct(keys[1..]) && forall i :: 0 <= i < |keys[1..]| ==> keys[1..][i] != keys[0]
  {
  }

  lemma PushInStep(entries: map<string, Entry>, queue: seq<Entry>, e: Entry)
    requires InStep(entries, queue) && VictimKey(e) !in entries && Stored(e)
    ensures InStep(entries[VictimKey(e) := e], queue + [e])
    ensures QueueKeys(queue + [e]) == QueueKeys(queue) + [VictimKey(e)]
  {
    hide VictimKey, Stored;
    var keys := QueueKeys(queue);
    assert QueueKeys(queue + [e]) == keys + [VictimKey(e)];
    assert forall i :: 0 <= i < |keys| ==> keys[i] != VictimKey(e);
  }

  lemma ResidentIffFiled(entries: map<string, Entry>, queue: seq<Entry>, key: string)
    requires InStep(entries, queue)
    ensures key in entries <==> key in QueueKeys(queue)
  {
  }

  /** In step, nothing is stuck. */
  lemma InStepLoose(c: Cache)
    requires InStep(c.entries, c.queue)
    ensures Stuck(c) == {}
  {
    hide LongKey;
    forall k | k in c.entries
      ensures !LongKey(k)
    {
      var keys := QueueKeys(c.queue);
      var i :| 0 <= i < |keys| && keys[i] == k;
      var e := c.queue[i];
      if LongKey(k) {
        LongKeyIsNoVictim(k, e.layer, e.expert, e.kind);
      }
    }
  }

  /** In step, the loop pops at most one entry and leaves the last `limit - 1`. */
  lemma RoomInStep(c: Cache)
    requires Fine(c) && InStep(c.entries, c.queue) && c.limit >= 1
    ensures |Stuck(c)| < c.limit && InStep(Room(c).entries, Room(c).queue)
    ensures QueueKeys(Room(c).queue) == LastN(QueueKeys(c.queue), c.limit - 1)
    ensures |Room(c).entries| == |c.entries| - if |c.queue| == c.limit then 1 else 0
  {
    hide InStep, Fine, VictimKey, Stuck;
    InStepSize(c.entries, c.queue);
    InStepLoose(c);
    FineSize(c);
    if Full(c) {
      PopInStep(c.entries, c.queue);
      var d := EvictOnce(c);
      InStepSize(d.entries, d.queue);
      EvictKeeps(c);
      assert !Full(d) && Room(c) == d;
      KeysOfTail(c.queue);
    }
  }

  lemma FineSize(c: Cache)
    requires Fine(c)
    ensures |c.entries| <= c.limit
  {
  }

  lemma KeysOfTail(queue: seq<Entry>)
    requires queue != []
    ensures QueueKeys(queue[1..]) == QueueKeys(queue)[1..]
  {
  }

  /** A request with a short type name keeps map and queue in step and acts first in, first out. */
  lemma ServedInStep(c: Cache, a: Ask)
    requires Fine(c) && InStep(c.entries, c.queue) && c.limit >= 1 && Plain(a.request)
    ensures Returns(c, a) && InStep(Served(c, a).entries, Served(c, a).queue)
    ensures QueueKeys(Served(c, a).queue) == Fifo(QueueKeys(c.queue), KeyOf(a.request), c.limit, a.malloc.Some?)
  {
    hide InStep, Fine, VictimKey, KeyOf, Stuck, Room, LastN, NewEntry, Stored, Sane, IsLong, LongKey;
    var key := KeyOf(a.request);
    RoomInStep(c);
    ResidentIffFiled(c.entries, c.queue, key);
    if key !in c.entries && a.malloc.Some? {
      RoomLacks(c, key);
      var r, e := Room(c), NewEntry(a.request, a.malloc.value);
      NewEntryKey(a.request, a.malloc.value);
      PushInStep(r.entries, r.queue, e);
    }
  }

  lemma EmptyInStep(limit: nat)
    ensures Fine(Cache(limit, map[], [])) && InStep(map[], [])
  {
  }

  ghost predicate AllPlain(asks: seq<Ask>) {
    forall i :: 0 <= i < |asks| ==> Plain(asks[i].request)
  }

  lemma {:induction false} PlainHistory(asks: seq<Ask>, limit: nat)
    requires AllPlain(asks) && limit >= 1
    ensures After(asks, limit).Some?
    ensures var c := After(asks, limit).value;
            InStep(c.entries, c.queue) && QueueKeys(c.queue) == Replay(asks, limit).resident
  {
    hide InStep, Fine, KeyOf, Served, Ends, Fifo, Stuck, Sane, IsLong;
    if asks == [] {
      EmptyInStep(limit);
    } else {
      var init, a := asks[..|asks| - 1], asks[|asks| - 1];
      PlainHistory(init, limit);
      var c := After(init, limit).value;
      ServedInStep(c, a);
      EndsUnlessStuck(c);
    }
  }

  /** Main result: every history of requests with short type names returns; resident are then the last
      keys that were loaded, queued each once and in that order, never more than `limit`; with no
      failed load they are exactly the last `limit` keys that missed. */
  lemma ResidentAreLastMisses(asks: seq<Ask>, limit: nat)
    requires AllPlain(asks) && limit >= 1
    ensures After(asks, limit).Some?
    ensures var c, t := After(asks, limit).value, Replay(asks, limit);
            var resident := QueueKeys(c.queue);
            && (forall k :: k in c.entries <==> k in resident) && |c.entries| == |resident|
            && Distinct(resident) && |resident| <= limit && resident == LastN(t.loaded, |resident|)
            && ((forall i :: 0 <= i < |asks| ==> asks[i].malloc.Some?) ==> resident == LastN(t.misses, limit))
  {
    hide LastN, Distinct, Replay, InStep, Fine;
    PlainHistory(asks, limit);
    KeptAfter(asks, limit);
    var c := After(asks, limit).value;
    InStepSize(c.entries, c.queue);
    forall k
      ensures k in c.entries <==> k in QueueKeys(c.queue)
    {
      ResidentIffFiled(c.entries, c.queue, k);
    }
  }

  // ---- The class ----

  class ExpertCache {
    const limit: nat   // `max_cached_experts`
    var entries: map<string, Entry>
    var queue: seq<Entry>
    var vramMb: nat
    var hits: nat
    var misses: nat
    var evictions: nat

    function View(): Cache
      reads this
    {
      Cache(limit, entries, queue)
    }

    ghost predicate Valid()
      reads this
    {
      Fine(View()) && vramMb == EXPERT_MB * |entries|
    }

    constructor (max: nat)
      ensures Valid() && limit == max && View() == Cache(max, map[], []) && hits == misses == evictions == 0
    {
      limit := max;
      entries, queue, vramMb := map[], [], 0;
      hits, misses, evictions := 0, 0, 0;
      new;
      EmptyInStep(max);
    }

    /** Look an expert up, loading it on a miss. `malloc` gives a new buffer or fails. */
    method Get(r: Request, malloc: Option<nat>) returns (buffer: Option<nat>)
      requires Valid() && Sane(r) && Returns(View(), Ask(r, malloc))
      modifies this
      ensures Valid() && View() == Served(old(View()), Ask(r, malloc))
      ensures KeyOf(r) in old(entries) ==>
                && hits == old(hits) + 1 && misses == old(misses) && evictions == old(evictions)
                && buffer == Some(old(entries)[KeyOf(r)].buffer)
                && (Plain(r) ==> old(entries)[KeyOf(r)] == Entry(r.layer, r.expert, r.kind, buffer.value))
      ensures KeyOf(r) !in old(entries) ==>
                && hits == old(hits) && misses == old(misses) + 1 && buffer == malloc
                && evictions == old(evictions) + |old(entries)| - |Room(old(View())).entries|
    {
      hide Fine, Stuck, Room, KeyOf, NewEntry, Served, Sane, IsLong, Load, Plain;
      ghost var before, a := View(), Ask(r, malloc);
      var key := KeyOf(r);
      ServedKeeps(before, a);
      ServedMeans(before, a);
      if key in entries {
        hits := hits + 1;
        FiledIsAsked(before, r);
        return Some(entries[key].buffer);
      }
      misses := misses + 1;
      Evict();
      match malloc
      case None =>
        return None;
      case Some(b) =>
        RoomLacks(before, key);
        Insert(r, b);
        return Some(b);
    }

    /** A new entry in the map and behind the queue. */
    method Insert(r: Request, b: nat)
      requires Valid() && |entries| < limit && Sane(r) && KeyOf(r) !in entries
      modifies this`entries, this`queue, this`vramMb
      ensures Valid() && View() == Load(old(View()), r, b)
    {
      hide Fine, Stuck, KeyOf, NewEntry, Sane, IsLong;
      LoadKeeps(View(), r, b);
      var e := NewEntry(r, b);
      Grow(entries, KeyOf(r), e);
      entries := entries[KeyOf(r) := e];
      vramMb := vramMb + EXPERT_MB;
      queue := queue + [e];
    }

    /** The eviction loop in queue mode. */
    method Evict()
      requires Valid() && |Stuck(View())| < limit
      modifies this`entries, this`queue, this`vramMb, this`evictions
      ensures Valid() && View() == Room(old(View()))
      ensures evictions == old(evictions) + |old(entries)| - |entries|
    {
      hide Fine, VictimKey, Stuck, Room;
      while |entries| >= limit
        invariant Valid() && |Stuck(View())| < limit && Room(View()) == Room(old(View()))
        invariant evictions == old(evictions) + |old(entries)| - |entries|
        decreases |queue|
      {
        RoomUnfolds(View());
        if queue != [] {
          PopVictim();
        }
      }
      RoomUnfolds(View());
    }

    /** One turn of the loop with something queued. */
    method PopVictim()
      requires queue != [] && vramMb == EXPERT_MB * |entries|
      modifies this`entries, this`queue, this`vramMb, this`evictions
      ensures View() == EvictOnce(old(View())) && vramMb == EXPERT_MB * |entries|
      ensures |queue| < |old(queue)| && evictions == old(evictions) + |old(entries)| - |entries|
    {
      hide VictimKey;
      var victim := queue[0];
      queue := queue[1..];
      var victimKey := VictimKey(victim);
      if victimKey in entries {
        Shrink(entries, victimKey);
        entries := entries - {victimKey};
        evictions := evictions + 1;
        vramMb := vramMb - EXPERT_MB;
      }
    }

    /** The three projections of one expert, request `3 * i` and the next two of the preload. */
    method LoadExpert(layer: int, experts: seq<int>, i: nat, malloc: nat -> Option<nat>, ghost start: Cache)
      returns (ok: bool)
      requires Valid() && Ready(View()) && Int32(layer) && AllInt32(experts) && i < |experts|
      requires Leaves(start, PreloadAsks(layer, experts, malloc), View(), 3 * i)
      modifies this
      ensures Valid() && Ready(View())
      ensures var asks := PreloadAsks(layer, experts, malloc);
              if ok then Leaves(start, asks, View(), 3 * i + 3)
              else Reaches(start, asks, View(), false)
    {
      hide Fine, Ready, Leaves, Reaches, PreloadAsks, Served, KeyOf, Room, Stuck, Sane, IsLong, Int32, AllInt32, Returns;
      ghost var asks := PreloadAsks(layer, experts, malloc);
      for j := 0 to 3
        invariant Valid() && Ready(View()) && Leaves(start, asks, View(), 3 * i + j)
      {
        PreloadAsk(layer, experts, malloc, i, j);
        LeavesOneLess(start, asks, View(), 3 * i + j);
        var buffer := Get(Request(layer, experts[i], Kind(j)), malloc(3 * i + j));
        ok := buffer.Some?;
        if !ok {
          return;
        }
      }
      ok := true;
    }

    /** Preloading a layer is one request for each of the three projections of each expert, up to
        the first that cannot be loaded. */
    method PreloadLayer(layer: int, experts: seq<int>, malloc: nat -> Option<nat>) returns (ok: bool)
      requires Valid() && Ready(View()) && Int32(layer) && AllInt32(experts)
      modifies this
      ensures Valid() && Ready(View())
      ensures experts == [] ==> !ok && View() == old(View())
      ensures experts != [] ==> Reaches(old(View()), PreloadAsks(layer, experts, malloc), View(), ok)
    {
      hide *;
      if experts == [] {
        return false;
      }
      ghost var start, asks := View(), PreloadAsks(layer, experts, malloc);
      PreloadPlain(layer, experts, malloc);
      LeavesAll(start, asks);
      for i := 0 to |experts|
        invariant Valid() && Ready(View()) && Leaves(start, asks, View(), 3 * i)
      {
        ok := LoadExpert(layer, experts, i, malloc, start);
        if !ok {
          return;
        }
      }
      LeavesNone(start, asks, View());
      ok := true;
    }

    method Clear()
      modifies this`entries, this`queue, this`vramMb
      ensures View() == Cache(limit, map[], []) && vramMb == 0 && Valid()
    {
      entries := map[];
      queue := [];
      vramMb := 0;
      EmptyInStep(limit);
    }
  }

  // ---- Facts the methods use ----

  lemma RoomUnfolds(c: Cache)
    requires Fine(c) && |Stuck(c)| < c.limit
    ensures !Full(c) ==> Room(c) == c
    ensures Full(c) ==>
              var d := EvictOnce(c);
              Fine(d) && Stuck(d) == Stuck(c) && d.limit == c.limit && Room(c) == Room(d) && c.queue != []
  {
    hide Fine, Stuck;
    EvictKeeps(c);
    if Full(c) {
      SomeQueued(c);
    }
  }

  /** Short keys tell experts apart, so a hit is a hit on the expert that was asked for. */
  lemma FiledIsAsked(c: Cache, r: Request)
    requires Fine(c) && KeyOf(r) in c.entries
    ensures var e := c.entries[KeyOf(r)]; Plain(r) ==> e == Entry(r.layer, r.expert, r.kind, e.buffer)
  {
    hide LongKey, MakeKey;
    var e := c.entries[KeyOf(r)];
    assert Filed(c, KeyOf(r));
    if Plain(r) {
      if LongKey(KeyOf(r)) {
        LongKeyIsNoVictim(KeyOf(r), r.layer, r.expert, r.kind);
      }
      KeyInjective(e.layer, e.expert, e.kind, r.layer, r.expert, r.kind);
    }
  }

  lemma Grow(m: map<string, Entry>, k: string, e: Entry)
    requires k !in m
    ensures |m[k := e]| == |m| + 1
  {
    assert m[k := e].Keys == m.Keys + {k};
  }

  lemma Shrink(m: map<string, Entry>, k: string)
    requires k in m
    ensures |m - {k}| == |m| - 1
  {
    assert (m - {k}).Keys == m.Keys - {k};
  }

  // ---- Preloading ----

  predicate AllInt32(ns: seq<int>) {
    forall i :: 0 <= i < |ns| ==> Int32(ns[i])
  }

  function Kind(j: nat): string {
    if j == 0 then "gate" else if j == 1 then "up" else "down"
  }

  /** The requests of a preload; `malloc(j)` is what the `j`-th of them would be given. */
  function PreloadAsks(layer: int, experts: seq<int>, malloc: nat -> Option<nat>): (asks: seq<Ask>)
    ensures |asks| == 3 * |experts|
  {
    seq(3 * |experts|, j requires 0 <= j < 3 * |experts| => Ask(Request(layer, experts[j / 3], Kind(j % 3)), malloc(j)))
  }

  lemma PreloadPlain(layer: int, experts: seq<int>, malloc: nat -> Option<nat>)
    requires Int32(layer) && AllInt32(experts)
    ensures AllPlain(PreloadAsks(layer, experts, malloc))
  {
    var asks := PreloadAsks(layer, experts, malloc);
    forall j | 0 <= j < |asks|
      ensures Plain(asks[j].request)
    {
      assert asks[j].request == Request(layer, experts[j / 3], Kind(j % 3)) && Int32(experts[j / 3]);
      ShortKinds(j % 3);
    }
  }

  lemma ShortKinds(j: nat)
    ensures |Kind(j)| < TYPE_BUFFER
  {
  }

  lemma PreloadAsk(layer: int, experts: seq<int>, malloc: nat -> Option<nat>, i: nat, j: nat)
    requires i < |experts| && j < 3 && Int32(layer) && AllInt32(experts)
    ensures PreloadAsks(layer, experts, malloc)[3 * i + j] == Ask(Request(layer, experts[i], Kind(j)), malloc(3 * i + j))
    ensures Sane(Request(layer, experts[i], Kind(j)))
  {
    assert (3 * i + j) / 3 == i && (3 * i + j) % 3 == j;
  }

  /** Any miss will find room. */
  ghost predicate Ready(c: Cache) {
    Fine(c) && |Stuck(c)| < c.limit
  }

  lemma ReadyServed(c: Cache, a: Ask)
    requires Ready(c) && Plain(a.request)
    ensures Returns(c, a) && Ready(Served(c, a)) && Served(c, a).limit == c.limit
  {
    hide Fine, Served, Stuck;
    ServedKeeps(c, a);
    assert Stuck(c) + {} == Stuck(c);
  }

  /** The cache after the requests from `j` on, up to one that cannot be loaded, and whether all could. */
  ghost function Preload(c: Cache, asks: seq<Ask>, j: nat): (Cache, bool)
    requires Ready(c) && AllPlain(asks)
    decreases |asks| - j
  {
    if j >= |asks| then (c, true)
    else
      ReadyServed(c, asks[j]);
      var next := Served(c, asks[j]);
      if KeyOf(asks[j].request) in c.entries || asks[j].malloc.Some? then Preload(next, asks, j + 1) else (next, false)
  }

  ghost predicate Reaches(start: Cache, asks: seq<Ask>, c: Cache, ok: bool) {
    Ready(start) && AllPlain(asks) && Preload(start, asks, 0) == (c, ok)
  }

  /** From `now`, the requests from `j` on lead to where all of them lead from `start`. */
  ghost predicate Leaves(start: Cache, asks: seq<Ask>, now: Cache, j: nat) {
    Ready(start) && Ready(now) && AllPlain(asks) && Preload(start, asks, 0) == Preload(now, asks, j)
  }

  lemma LeavesAll(start: Cache, asks: seq<Ask>)
    requires Ready(start) && AllPlain(asks)
    ensures Leaves(start, asks, start, 0)
  {
  }

  lemma LeavesOneLess(start: Cache, asks: seq<Ask>, now: Cache, j: nat)
    requires j < |asks| && Leaves(start, asks, now, j)
    ensures Fine(now) && Returns(now, asks[j]) && Ready(Served(now, asks[j]))
    ensures var next := Served(now, asks[j]);
            if KeyOf(asks[j].request) in now.entries || asks[j].malloc.Some? then Leaves(start, asks, next, j + 1)
            else Reaches(start, asks, next, false)
  {
    hide Served, Fine, Stuck, KeyOf, Sane, IsLong;
    ReadyServed(now, asks[j]);
  }

  lemma LeavesNone(start: Cache, asks: seq<Ask>, now: Cache)
    requires Leaves(start, asks, now, |asks|)
    ensures Reaches(start, asks, now, true)
  {
  }

  /** Preloading continues a history of requests by its own requests up to some `m`, so what is said
      of all histories holds after it. */
  lemma {:induction false} PreloadIsHistory(before: seq<Ask>, asks: seq<Ask>, limit: nat, j: nat) returns (m: nat)
    requires j <= |asks| && AllPlain(asks) && forall i :: 0 <= i < |before| ==> Sane(before[i].request)
    requires After(before, limit).Some? && Ready(After(before, limit).value)
    ensures j <= m <= |asks|
    ensures forall i :: 0 <= i < |before + asks[j..m]| ==> Sane((before + asks[j..m])[i].request)
    ensures var (c, ok) := Preload(After(before, limit).value, asks, j);
            After(before + asks[j..m], limit) == Some(c) && (ok ==> m == |asks|)
    decreases |asks| - j
  {
    hide Fine, Served, Stuck, KeyOf, Ends, Sane, IsLong, After;
    var c := After(before, limit).value;
    if j == |asks| {
      m := j;
      assert before + asks[j..m] == before;
    } else {
      var a := asks[j];
      ReadyServed(c, a);
      AfterSnoc(before, a, limit);
      if KeyOf(a.request) in c.entries || a.malloc.Some? {
        m := PreloadIsHistory(before + [a], asks, limit, j + 1);
        assert before + [a] + asks[j + 1..m] == before + asks[j..m];
      } else {
        m := j + 1;
        assert asks[j..m] == [a];
      }
    }
  }

  lemma AfterSnoc(before: seq<Ask>, a: Ask, limit: nat)
    requires Sane(a.request) && forall i :: 0 <= i < |before| ==> Sane(before[i].request)
    requires After(before, limit).Some? && Returns(After(before, limit).value, a)
    ensures forall i :: 0 <= i < |before + [a]| ==> Sane((before + [a])[i].request)
    ensures After(before + [a], limit) == Some(Served(After(before, limit).value, a))
  {
    hide Fine, Served, Stuck, KeyOf, Ends, Sane;
    EndsUnlessStuck(After(before, limit).value);
    assert (before + [a])[..|before|] == before;
  }
}
