/** The entries of the expert cache and its eviction loop (src/vitriol-expert-cache.cpp), for any type
    names and any history of requests.

    An entry keeps 15 characters of its type name. The loop finds its victim under the key recomputed
    from what was kept, so an entry with a longer name is never found again. */
module Eviction {
  import opened Common
  import opened CacheKeys

  datatype Request = Request(layer: int, expert: int, kind: string)

  /** A loaded expert; `kind` is cut to the entry's 16-byte field. */
  datatype Entry = Entry(layer: int, expert: int, kind: string, buffer: nat)

  function KeyOf(r: Request): string {
    MakeKey(r.layer, r.expert, r.kind)
  }

  /** The key the eviction loop computes for its victim. */
  function VictimKey(e: Entry): string {
    MakeKey(e.layer, e.expert, e.kind)
  }

  function NewEntry(r: Request, buffer: nat): Entry {
    Entry(r.layer, r.expert, StoredKind(r.kind), buffer)
  }

  // ---- The eviction loop ----

  datatype Cache = Cache(limit: nat, entries: map<string, Entry>, queue: seq<Entry>)

  predicate Full(c: Cache) {
    |c.entries| >= c.limit
  }

  /** One turn of the loop; with an empty queue it does nothing. */
  function EvictOnce(c: Cache): Cache {
    if c.queue == [] then c
    else if VictimKey(c.queue[0]) in c.entries then
      c.(queue := c.queue[1..], entries := c.entries - {VictimKey(c.queue[0])})
    else c.(queue := c.queue[1..])
  }

  function Turns(c: Cache, n: nat): Cache
    decreases n
  {
    if n == 0 then c else Turns(EvictOnce(c), n - 1)
  }

  /** The loop ends: after some number of turns there is room. */
  ghost predicate Ends(c: Cache) {
    exists n: nat :: !Full(Turns(c, n))
  }

  predicate HasVictim(c: Cache) {
    exists i :: 0 <= i < |c.queue| && VictimKey(c.queue[i]) in c.entries
  }

  lemma {:induction false} NoVictimNoChange(c: Cache, n: nat)
    requires !HasVictim(c)
    ensures Turns(c, n).entries == c.entries && Turns(c, n).limit == c.limit
    decreases n
  {
    if n > 0 {
      assert forall i :: 0 <= i < |EvictOnce(c).queue| ==> c.queue != [] && EvictOnce(c).queue[i] == c.queue[i + 1];
      assert c.queue != [] ==> VictimKey(c.queue[0]) !in c.entries;
      NoVictimNoChange(EvictOnce(c), n - 1);
    }
  }

  lemma {:induction false} NoRoomAtZero(c: Cache, n: nat)
    requires c.limit == 0
    ensures Full(Turns(c, n))
    decreases n
  {
    if n > 0 {
      NoRoomAtZero(EvictOnce(c), n - 1);
    }
  }

  lemma RemoveOne(m: map<string, Entry>, k: string)
    requires k in m
    ensures |m - {k}| < |m|
  {
    assert (m - {k}).Keys == m.Keys - {k};
  }

  lemma {:induction false} VictimFound(c: Cache, i: nat) returns (n: nat)
    requires |c.entries| <= c.limit && i < |c.queue| && VictimKey(c.queue[i]) in c.entries
    ensures !Full(Turns(c, n))
    decreases i
  {
    hide VictimKey;
    var next := EvictOnce(c);
    if VictimKey(c.queue[0]) in c.entries {
      n := 1;
      RemoveOne(c.entries, VictimKey(c.queue[0]));
      assert Turns(c, 1) == Turns(next, 0);
    } else {
      var m := VictimFound(next, i - 1);
      n := m + 1;
    }
  }

  /** The eviction loop of a cache within its limit ends exactly when there is room already, or the
      limit is not zero and some queued entry is filed under the key recomputed from it. */
  lemma EvictionEndsExactly(c: Cache)
    requires |c.entries| <= c.limit
    ensures Ends(c) <==> !Full(c) || (c.limit >= 1 && HasVictim(c))
  {
    if !Full(c) {
      assert !Full(Turns(c, 0));
    } else if c.limit == 0 {
      forall n: nat
        ensures Full(Turns(c, n))
      {
        NoRoomAtZero(c, n);
      }
    } else if HasVictim(c) {
      var i :| 0 <= i < |c.queue| && VictimKey(c.queue[i]) in c.entries;
      var n := VictimFound(c, i);
    } else {
      forall n: nat
        ensures Full(Turns(c, n))
      {
        NoVictimNoChange(c, n);
      }
    }
  }

  // ---- What every history of requests keeps ----

  predicate Sane(r: Request) {
    Int32(r.layer) && Int32(r.expert)
  }

  function QueueKeys(queue: seq<Entry>): (r: seq<string>)
    ensures |r| == |queue| && forall i :: 0 <= i < |queue| ==> r[i] == VictimKey(queue[i])
  {
    seq(|queue|, i requires 0 <= i < |queue| => VictimKey(queue[i]))
  }

  predicate Stored(e: Entry) {
    Int32(e.layer) && Int32(e.expert) && |e.kind| < TYPE_BUFFER
  }

  /** Every entry is filed under a long key, or under its own recomputed key and queued. */
  ghost predicate Filed(c: Cache, k: string)
    requires k in c.entries
  {
    Stored(c.entries[k]) && (LongKey(k) || (VictimKey(c.entries[k]) == k && k in QueueKeys(c.queue)))
  }

  ghost predicate Fine(c: Cache) {
    && |c.entries| <= c.limit
    && (forall k :: k in c.entries ==> Filed(c, k))
    && (forall i :: 0 <= i < |c.queue| ==> Stored(c.queue[i]))
  }

  /** The keys that no eviction can remove. */
  ghost function Stuck(c: Cache): set<string> {
    set k | k in c.entries && LongKey(k)
  }

  lemma StuckSize(c: Cache)
    ensures |Stuck(c)| <= |c.entries|
    ensures |Stuck(c)| == |c.entries| ==> Stuck(c) == c.entries.Keys
  {
    assert Stuck(c) <= c.entries.Keys;
    SubsetSize(Stuck(c), c.entries.Keys);
  }

  lemma SubsetSize(a: set<string>, b: set<string>)
    requires a <= b
    ensures |a| <= |b| && (|a| == |b| ==> a == b)
  {
    assert b == a + (b - a);
  }

  /** The loop of a full cache ends exactly when some entry is not stuck. */
  lemma EndsUnlessStuck(c: Cache)
    requires Fine(c)
    ensures Ends(c) <==> |Stuck(c)| < c.limit
  {
    hide Ends, VictimKey, LongKey, Stored;
    EvictionEndsExactly(c);
    StuckSize(c);
    if Full(c) {
      if |Stuck(c)| < c.limit {
        SomeLoose(c);
      } else if HasVictim(c) {
        VictimIsLoose(c);
      }
    }
  }

  lemma SomeLoose(c: Cache)
    requires Fine(c) && |Stuck(c)| < |c.entries|
    ensures HasVictim(c)
  {
    hide VictimKey, LongKey;
    assert (forall k :: k in c.entries ==> LongKey(k)) ==> Stuck(c) == c.entries.Keys;
    var k :| k in c.entries && !LongKey(k);
    assert Filed(c, k);
    var keys := QueueKeys(c.queue);
    var i :| 0 <= i < |keys| && keys[i] == k;
    assert VictimKey(c.queue[i]) in c.entries;
  }

  lemma VictimIsLoose(c: Cache)
    requires Fine(c) && HasVictim(c)
    ensures |Stuck(c)| < |c.entries|
  {
    hide LongKey;
    var i :| 0 <= i < |c.queue| && VictimKey(c.queue[i]) in c.entries;
    var e := c.queue[i];
    if LongKey(VictimKey(e)) {
      LongKeyIsNoVictim(VictimKey(e), e.layer, e.expert, e.kind);
    }
    assert VictimKey(e) !in Stuck(c);
    StuckSize(c);
  }

  lemma NeverStuck(c: Cache, i: nat)
    requires Fine(c) && i < |c.queue|
    ensures !LongKey(VictimKey(c.queue[i]))
  {
    hide LongKey;
    var e := c.queue[i];
    if LongKey(VictimKey(e)) {
      LongKeyIsNoVictim(VictimKey(e), e.layer, e.expert, e.kind);
    }
  }

  /** A turn of the loop removes no stuck entry. */
  lemma EvictKeeps(c: Cache)
    requires Fine(c)
    ensures Fine(EvictOnce(c)) && Stuck(EvictOnce(c)) == Stuck(c)
    ensures |EvictOnce(c).entries| <= |c.entries| <= |EvictOnce(c).entries| + 1
  {
    hide LongKey, VictimKey, Stored;
    if c.queue != [] {
      NeverStuck(c, 0);
      var d, v := EvictOnce(c), VictimKey(c.queue[0]);
      assert QueueKeys(c.queue) == [v] + QueueKeys(d.queue);
      if v in c.entries {
        assert d.entries.Keys == c.entries.Keys - {v};
      }
      forall k | k in d.entries
        ensures Filed(d, k)
      {
        assert Filed(c, k);
      }
    }
  }

  // ---- One request ----

  /** The cache when the loop has ended. */
  ghost function Room(c: Cache): (r: Cache)
    requires Fine(c) && |Stuck(c)| < c.limit
    ensures Fine(r) && !Full(r) && Stuck(r) == Stuck(c) && r.limit == c.limit
    ensures |r.entries| <= |c.entries|
    decreases |c.queue|
  {
    if !Full(c) then c
    else
      EvictKeeps(c);
      SomeQueued(c);
      Room(EvictOnce(c))
  }

  lemma SomeQueued(c: Cache)
    requires Fine(c) && Full(c) && |Stuck(c)| < c.limit
    ensures c.queue != []
  {
    SomeLoose(c);
  }

  /** A request, and what `malloc` would give it. */
  datatype Ask = Ask(request: Request, malloc: Option<nat>)

  /** The loop is not entered, or ends. */
  ghost predicate Returns(c: Cache, a: Ask) {
    KeyOf(a.request) in c.entries || |Stuck(c)| < c.limit
  }

  ghost function Served(c: Cache, a: Ask): Cache
    requires Fine(c) && Returns(c, a)
  {
    var key := KeyOf(a.request);
    if key in c.entries then c
    else
      var r := Room(c);
      if a.malloc.None? then r else Load(r, a.request, a.malloc.value)
  }

  function Load(c: Cache, r: Request, buffer: nat): Cache {
    var e := NewEntry(r, buffer);
    c.(entries := c.entries[KeyOf(r) := e], queue := c.queue + [e])
  }

  predicate IsLong(r: Request) {
    |r.kind| >= TYPE_BUFFER
  }

  lemma NewEntryKey(r: Request, buffer: nat)
    requires Sane(r)
    ensures Stored(NewEntry(r, buffer))
    ensures if IsLong(r) then LongKey(KeyOf(r)) else VictimKey(NewEntry(r, buffer)) == KeyOf(r) && !LongKey(KeyOf(r))
  {
    hide MakeKey;
    if !IsLong(r) {
      assert StoredKind(r.kind) == r.kind;
      if LongKey(KeyOf(r)) {
        LongKeyIsNoVictim(KeyOf(r), r.layer, r.expert, r.kind);
      }
    }
  }

  lemma LoadKeeps(c: Cache, r: Request, buffer: nat)
    requires Fine(c) && !Full(c) && Sane(r) && KeyOf(r) !in c.entries
    ensures Fine(Load(c, r, buffer)) && Load(c, r, buffer).limit == c.limit
    ensures Stuck(Load(c, r, buffer)) == Stuck(c) + if IsLong(r) then {KeyOf(r)} else {}
  {
    hide LongKey, VictimKey, Stored, KeyOf, NewEntry, IsLong, Filed, Stuck, Sane;
    NewEntryKey(r, buffer);
    LoadStuck(c, r, buffer);
    var d := Load(c, r, buffer);
    LoadSize(c, r, buffer);
    forall k | k in d.entries
      ensures Filed(d, k)
    {
      LoadFiles(c, r, buffer, k);
    }
  }

  lemma LoadSize(c: Cache, r: Request, buffer: nat)
    ensures |Load(c, r, buffer).entries| <= |c.entries| + 1
  {
    hide KeyOf, NewEntry;
    assert Load(c, r, buffer).entries.Keys == c.entries.Keys + {KeyOf(r)};
  }

  lemma LoadStuck(c: Cache, r: Request, buffer: nat)
    requires Sane(r) && KeyOf(r) !in c.entries
    ensures Stuck(Load(c, r, buffer)) == Stuck(c) + if IsLong(r) then {KeyOf(r)} else {}
  {
    hide LongKey, VictimKey, KeyOf, NewEntry, IsLong, Sane, Stored;
    NewEntryKey(r, buffer);
    assert Load(c, r, buffer).entries.Keys == c.entries.Keys + {KeyOf(r)};
  }

  lemma LoadFiles(c: Cache, r: Request, buffer: nat, k: string)
    requires Fine(c) && Sane(r) && k in Load(c, r, buffer).entries
    ensures Filed(Load(c, r, buffer), k)
  {
    hide LongKey, VictimKey, Stored, KeyOf, NewEntry, IsLong;
    NewEntryKey(r, buffer);
    var d, e := Load(c, r, buffer), NewEntry(r, buffer);
    assert QueueKeys(d.queue) == QueueKeys(c.queue) + [VictimKey(e)];
    if k != KeyOf(r) {
      assert Filed(c, k);
    }
  }

  lemma RoomLacks(c: Cache, k: string)
    requires Fine(c) && |Stuck(c)| < c.limit && k !in c.entries
    ensures k !in Room(c).entries
    decreases |c.queue|
  {
    if Full(c) {
      EvictKeeps(c);
      SomeQueued(c);
      RoomLacks(EvictOnce(c), k);
    }
  }

  /** A loaded long name takes a slot for good; nothing else changes the stuck slots. */
  lemma ServedKeeps(c: Cache, a: Ask)
    requires Fine(c) && Returns(c, a) && Sane(a.request)
    ensures Fine(Served(c, a)) && Served(c, a).limit == c.limit
    ensures Stuck(Served(c, a)) == Stuck(c) + if IsLong(a.request) && a.malloc.Some? then {KeyOf(a.request)} else {}
  {
    hide *;
    var key := KeyOf(a.request);
    ServedMeans(c, a);
    if key in c.entries {
      if IsLong(a.request) {
        LongIsStuck(c, a.request);
      }
    } else {
      RoomLacks(c, key);
      if a.malloc.Some? {
        LoadKeeps(Room(c), a.request, a.malloc.value);
      }
    }
  }

  /** A request, without the definitions behind it. */
  lemma ServedMeans(c: Cache, a: Ask)
    requires Fine(c) && Returns(c, a)
    ensures var key := KeyOf(a.request);
            Served(c, a) ==
            if key in c.entries then c
            else if a.malloc.None? then Room(c)
            else Load(Room(c), a.request, a.malloc.value)
    ensures KeyOf(a.request) !in c.entries ==> |Stuck(c)| < c.limit && |Room(c).entries| < c.limit
  {
    hide Fine, Stuck, Load, KeyOf;
  }

  lemma LongIsStuck(c: Cache, r: Request)
    requires Sane(r) && IsLong(r) && KeyOf(r) in c.entries
    ensures KeyOf(r) in Stuck(c)
  {
    hide MakeKey;
  }

  // ---- Histories ----

  /** The cache after a history of requests on an empty one; `None` when one of them never returned. */
  ghost function After(asks: seq<Ask>, limit: nat): (r: Option<Cache>)
    requires forall i :: 0 <= i < |asks| ==> Sane(asks[i].request)
    ensures r.Some? ==> Fine(r.value) && r.value.limit == limit
  {
    if asks == [] then Some(Cache(limit, map[], []))
    else
      var a, before := asks[|asks| - 1], After(asks[..|asks| - 1], limit);
      if before.None? || (KeyOf(a.request) !in before.value.entries && !Ends(before.value)) then None
      else
        EndsUnlessStuck(before.value);
        ServedKeeps(before.value, a);
        Some(Served(before.value, a))
  }

  /** The keys under which long type names were loaded. */
  function LongLoaded(asks: seq<Ask>): set<string> {
    set i | 0 <= i < |asks| && IsLong(asks[i].request) && asks[i].malloc.Some? :: KeyOf(asks[i].request)
  }

  lemma {:induction false} StuckAreLongLoaded(asks: seq<Ask>, limit: nat)
    requires forall i :: 0 <= i < |asks| ==> Sane(asks[i].request)
    ensures After(asks, limit).Some? ==> Stuck(After(asks, limit).value) == LongLoaded(asks)
  {
    hide Fine, LongKey, KeyOf, IsLong, Sane, Ends, Served;
    if asks == [] {
      assert LongLoaded(asks) == {};
    } else if After(asks, limit).Some? {
      var a, init := asks[|asks| - 1], asks[..|asks| - 1];
      StuckAreLongLoaded(init, limit);
      EndsUnlessStuck(After(init, limit).value);
      ServedKeeps(After(init, limit).value, a);
      LongLoadedSnoc(init, a);
      assert asks == init + [a];
    }
  }

  lemma LongLoadedSnoc(asks: seq<Ask>, a: Ask)
    ensures LongLoaded(asks + [a]) == LongLoaded(asks) + if IsLong(a.request) && a.malloc.Some? then {KeyOf(a.request)} else {}
  {
    hide KeyOf, IsLong;
    var all := asks + [a];
    assert all[|asks|] == a && forall i :: 0 <= i < |asks| ==> all[i] == asks[i];
    forall k | k in LongLoaded(asks)
      ensures k in LongLoaded(all)
    {
      var i :| 0 <= i < |asks| && IsLong(asks[i].request) && asks[i].malloc.Some? && KeyOf(asks[i].request) == k;
      assert all[i] == asks[i];
    }
  }

  /** Main result on the loop: after any history that returned, a request never returns exactly when it
      misses and the long type names loaded so far fill the cache. */
  lemma NeverReturnsExactly(asks: seq<Ask>, a: Ask, limit: nat)
    requires Sane(a.request) && forall i :: 0 <= i < |asks| ==> Sane(asks[i].request)
    requires After(asks, limit).Some?
    ensures forall i :: 0 <= i < |asks + [a]| ==> Sane((asks + [a])[i].request)
    ensures After(asks + [a], limit).None? <==>
            KeyOf(a.request) !in After(asks, limit).value.entries && |LongLoaded(asks)| >= limit
  {
    hide Fine, LongKey, KeyOf, Sane, Ends, Served, LongLoaded;
    StuckAreLongLoaded(asks, limit);
    EndsUnlessStuck(After(asks, limit).value);
    assert (asks + [a])[..|asks|] == asks;
  }

  // ---- A history that fills the cache for good ----

  /** Expert 0 of the first `n` layers, under one type name. */
  function EachLayer(n: nat, kind: string): (asks: seq<Ask>)
    ensures |asks| == n && forall i :: 0 <= i < n ==> asks[i] == Ask(Request(i, 0, kind), Some(i))
  {
    seq(n, i requires 0 <= i => Ask(Request(i, 0, kind), Some(i)))
  }

  lemma {:induction false} LongNamesFill(n: nat, kind: string, limit: nat)
    requires n <= limit < 0x8000_0000 && |kind| >= TYPE_BUFFER
    ensures (forall i :: 0 <= i < n ==> Sane(EachLayer(n, kind)[i].request))
    ensures After(EachLayer(n, kind), limit).Some? && |LongLoaded(EachLayer(n, kind))| == n
  {
    hide MakeKey, KeyOf, LongLoaded, After;
    if n == 0 {
      NoHistory(kind, limit);
    } else {
      var init, a := EachLayer(n - 1, kind), Ask(Request(n - 1, 0, kind), Some(n - 1));
      LongNamesFill(n - 1, kind, limit);
      assert EachLayer(n, kind) == init + [a];
      NeverReturnsExactly(init, a, limit);
      LongLoadedSnoc(init, a);
      NewLayer(n - 1, kind);
    }
  }

  lemma NoHistory(kind: string, limit: nat)
    ensures After(EachLayer(0, kind), limit).Some? && LongLoaded(EachLayer(0, kind)) == {}
  {
    assert EachLayer(0, kind) == [];
  }

  lemma NewLayer(n: nat, kind: string)
    requires n < 0x8000_0000 && |kind| >= TYPE_BUFFER
    ensures KeyOf(Request(n, 0, kind)) !in LongLoaded(EachLayer(n, kind))
  {
    hide MakeKey;
    var asks := EachLayer(n, kind);
    forall i | 0 <= i < n
      ensures KeyOf(asks[i].request) != KeyOf(Request(n, 0, kind))
    {
      if KeyOf(asks[i].request) == KeyOf(Request(n, 0, kind)) {
        LongKeyInjective(i, 0, kind, n, 0, kind);
      }
    }
  }

  /** One long type name asked for in as many layers as the cache has room for: from then on exactly these
      requests return, and every request with a short name runs forever. */
  lemma LongNamesBlock(kind: string, limit: nat, a: Ask)
    requires limit < 0x8000_0000 && |kind| >= TYPE_BUFFER && Sane(a.request)
    ensures var asks := EachLayer(limit, kind);
            && (forall i :: 0 <= i < |asks + [a]| ==> Sane((asks + [a])[i].request))
            && (After(asks + [a], limit).None? <==> KeyOf(a.request) !in LongLoaded(asks))
            && (!IsLong(a.request) ==> After(asks + [a], limit).None?)
  {
    hide MakeKey, Fine, LongKey, LongLoaded;
    var asks := EachLayer(limit, kind);
    LongNamesFill(limit, kind, limit);
    NeverReturnsExactly(asks, a, limit);
    StuckAreLongLoaded(asks, limit);
    var c := After(asks, limit).value;
    StuckSize(c);
    WithinLimit(c);
    assert Stuck(c) == c.entries.Keys;
    if !IsLong(a.request) {
      NewEntryKey(a.request, 0);
    }
  }

  lemma WithinLimit(c: Cache)
    requires Fine(c)
    ensures |c.entries| <= c.limit && |c.entries.Keys| == |c.entries|
  {
  }
}
