/** The bounded token-to-key affinity cache: a lazily expiring map that must behave like a plain map
    of the last record of every token, except for the entries an overflow prune evicts. */
module TokenAffinity {
  import opened Wrappers
  import Sorting

  const MAX_ENTRIES := 10_000

  datatype Affinity = Affinity(keyId: string, expiresAt: int)

  /** The entries that have not expired at `now`. */
  function Live(m: map<string, Affinity>, now: int): map<string, Affinity> {
    map t | t in m && m[t].expiresAt > now :: m[t]
  }

  /** What one prune may do: drop the expired entries and, only if more than the cap remain, keep
      exactly half a cap of them, none of which expires before an evicted one. */
  ghost predicate PruneStep(m: map<string, Affinity>, m': map<string, Affinity>, now: int) {
    var live := Live(m, now);
    if |live| <= MAX_ENTRIES then
      m' == live
    else
      && |m'| == MAX_ENTRIES / 2
      && m'.Keys <= live.Keys
      && (forall t :: t in m' ==> m'[t] == live[t])
      && (forall gone, kept :: gone in live.Keys - m'.Keys && kept in m' ==> live[gone].expiresAt <= m'[kept].expiresAt)
  }

  /** The clean-up that precedes a write. */
  ghost predicate MakeRoomStep(m: map<string, Affinity>, m': map<string, Affinity>, now: int) {
    if |m| >= MAX_ENTRIES then PruneStep(m, m', now) else m' == m
  }

  /** What one record may do. */
  ghost predicate RecordStep(m: map<string, Affinity>, m': map<string, Affinity>,
                             token: string, keyId: string, now: int, ttl: int) {
    exists p :: MakeRoomStep(m, p, now) && m' == p[token := Affinity(keyId, now + ttl)]
  }

  /** The stored map holds the last record of every token, except for evicted and expired ones. */
  ghost predicate Refines(stored: map<string, Affinity>, recorded: map<string, Affinity>, evicted: set<string>,
                          clock: int) {
    && (forall t :: t in stored ==> t in recorded && stored[t] == recorded[t] && t !in evicted)
    && (forall t :: t in recorded && t !in stored ==> t in evicted || recorded[t].expiresAt <= clock)
  }

  lemma RecordRefines(stored: map<string, Affinity>, recorded: map<string, Affinity>, evicted: set<string>, clock: int,
                      token: string, entry: Affinity)
    requires Refines(stored, recorded, evicted, clock)
    ensures Refines(stored[token := entry], recorded[token := entry], evicted - {token}, clock)
  {
  }

  lemma LaterRefines(stored: map<string, Affinity>, recorded: map<string, Affinity>, evicted: set<string>, clock: int,
                     later: int)
    requires Refines(stored, recorded, evicted, clock) && clock <= later
    ensures Refines(stored, recorded, evicted, later)
  {
  }

  class TokenAffinityState {
    const ttlSecs: int
    var mappings: map<string, Affinity>
    /** The simple map being refined: the last record of every token, never cleaned. */
    ghost var recorded: map<string, Affinity>
    /** The tokens whose last record fell to an overflow prune. */
    ghost var evicted: set<string>
    ghost var clock: int

    ghost predicate Valid()
      reads this
    {
      Refines(mappings, recorded, evicted, clock) && |mappings| <= MAX_ENTRIES + 1
    }

    constructor (ttl: int, ghost now: int)
      ensures Valid() && ttlSecs == ttl && clock == now
      ensures mappings == map[] && recorded == map[] && evicted == {}
    {
      ttlSecs, mappings := ttl, map[];
      recorded, evicted, clock := map[], {}, now;
    }

    /** Over every run with a non-decreasing clock the answer is the most recently recorded key exactly
        when that record is unexpired and was not evicted. */
    method GetCandidate(token: string, now: int) returns (r: Option<string>)
      requires Valid() && clock <= now
      modifies this
      ensures Valid() && clock == now
      ensures recorded == old(recorded) && evicted == old(evicted)
      ensures r.Some? <==> token in recorded && token !in evicted && recorded[token].expiresAt > now
      ensures r.Some? ==> r.value == recorded[token].keyId
      ensures mappings == if r.Some? then old(mappings) else old(mappings) - {token}
    {
      clock := now;
      if token in mappings {
        var entry := mappings[token];
        if entry.expiresAt > now {
          return Some(entry.keyId);
        }
        mappings := mappings - {token};
      }
      r := None;
    }

    /** The map exceeds its documented hard cap, by one entry, in exactly one situation: a token that has
        no live entry is recorded while precisely a cap of entries is live. */
    method RecordMapping(token: string, keyId: string, now: int)
      requires Valid() && clock <= now
      modifies this
      ensures Valid() && clock == now
      ensures recorded == old(recorded)[token := Affinity(keyId, now + ttlSecs)]
      ensures token !in evicted && old(evicted) - {token} <= evicted
      ensures evicted <= old(evicted) + (Live(old(mappings), now).Keys - mappings.Keys)
      ensures |Live(old(mappings), now)| <= MAX_ENTRIES ==> evicted == old(evicted) - {token}
      ensures RecordStep(old(mappings), mappings, token, keyId, now, ttlSecs)
      ensures |mappings| <= 10_001
      ensures |mappings| > MAX_ENTRIES <==>
              |Live(old(mappings), now)| == MAX_ENTRIES && token !in Live(old(mappings), now)
    {
      hide MakeRoomStep, Live, Refines;
      MakeRoom(now);
      var entry := Affinity(keyId, now + ttlSecs);
      RecordRefines(mappings, recorded, evicted, now, token, entry);
      RecordedSize(old(mappings), mappings, token, entry, now);
      mappings := mappings[token := entry];
      recorded := recorded[token := entry];
      evicted := evicted - {token};
    }

    /** The light clean-up before a write. */
    method MakeRoom(now: int)
      requires Valid() && clock <= now
      modifies this`mappings, this`evicted, this`clock
      ensures Valid() && clock == now
      ensures MakeRoomStep(old(mappings), mappings, now)
      ensures old(evicted) <= evicted <= old(evicted) + (Live(old(mappings), now).Keys - mappings.Keys)
      ensures |Live(old(mappings), now)| <= MAX_ENTRIES ==> evicted == old(evicted)
    {
      RoomIsMade(mappings, now);
      LaterRefines(mappings, recorded, evicted, clock, now);
      hide Live, Refines;
      clock := now;
      if |mappings| >= MAX_ENTRIES {
        Prune(now);
      }
    }

    method Prune(now: int)
      requires Valid() && clock <= now
      modifies this`mappings, this`evicted, this`clock
      ensures Valid() && clock == now
      ensures PruneStep(old(mappings), mappings, now)
      ensures evicted == old(evicted) + (Live(old(mappings), now).Keys - mappings.Keys)
      ensures |mappings| <= MAX_ENTRIES
    {
      ghost var before := mappings;
      LiveIsSmaller(before, now);
      clock := now;
      mappings := map t | t in mappings && mappings[t].expiresAt > now :: mappings[t];
      ghost var live := mappings;
      if |mappings| <= MAX_ENTRIES {
        return;
      }

      mappings := EvictEarliest(mappings);
      evicted := evicted + (live.Keys - mappings.Keys);
    }
  }

  /** The overflow eviction: sort by expiry, remove from the front until half a cap is left. */
  method EvictEarliest(live: map<string, Affinity>) returns (kept: map<string, Affinity>)
    requires |live| > MAX_ENTRIES
    ensures |kept| == 5_000
    ensures kept.Keys <= live.Keys
    ensures forall t :: t in kept ==> kept[t] == live[t]
    ensures forall gone, t :: gone in live.Keys - kept.Keys && t in kept ==> live[gone].expiresAt <= kept[t].expiresAt
  {
    var entries := ByExpiry(live);
    var targetLen := MAX_ENTRIES / 2;
    var toRemove := |live| - (if targetLen > 1 then targetLen else 1);
    kept := live;
    for i := 0 to toRemove
      invariant kept.Keys <= live.Keys && |kept| == |live| - i
      invariant forall j :: 0 <= j < |entries| ==> (entries[j] in kept <==> i <= j)
      invariant forall t :: t in kept ==> kept[t] == live[t]
    {
      RemoveSize(kept, entries[i]);
      kept := kept - {entries[i]};
    }
    forall gone, t | gone in live.Keys - kept.Keys && t in kept
      ensures live[gone].expiresAt <= kept[t].expiresAt
    {
      assert gone in entries && t in entries;
      var i :| 0 <= i < |entries| && entries[i] == gone;
      var j :| 0 <= j < |entries| && entries[j] == t;
      assert i < j;
    }
  }

  /** The entries of a map, soonest to expire first; ties in the arbitrary order of the hash map. */
  method ByExpiry(live: map<string, Affinity>) returns (entries: seq<string>)
    ensures Sorting.Distinct(entries) && |entries| == |live|
    ensures forall t :: t in entries <==> t in live
    ensures forall i, j :: 0 <= i < j < |entries| ==> live[entries[i]].expiresAt <= live[entries[j]].expiresAt
  {
    var tokens := Sorting.InAnyOrder(live.Keys);
    var sooner := (a: string, b: string) => Expiry(live, a) <= Expiry(live, b);
    entries := Sorting.SortBy(sooner, tokens);
    Sorting.SortByKeeps(sooner, tokens);
    forall i, j | 0 <= i < j < |entries| ensures live[entries[i]].expiresAt <= live[entries[j]].expiresAt {
      assert sooner(entries[i], entries[j]);
      assert entries[i] in entries && entries[j] in entries;
    }
  }

  function Expiry(m: map<string, Affinity>, t: string): int {
    if t in m then m[t].expiresAt else 0
  }

  /** Below the cap nothing is evicted: at most the cap is live. */
  lemma RoomIsMade(m: map<string, Affinity>, now: int)
    ensures |m| < MAX_ENTRIES ==> |Live(m, now)| < MAX_ENTRIES
  {
    LiveIsSmaller(m, now);
  }

  lemma RecordedSize(m: map<string, Affinity>, p: map<string, Affinity>, token: string, entry: Affinity, now: int)
    requires MakeRoomStep(m, p, now) && |m| <= MAX_ENTRIES + 1
    ensures |p[token := entry]| <= MAX_ENTRIES + 1
    ensures |p[token := entry]| > MAX_ENTRIES <==> |Live(m, now)| == MAX_ENTRIES && token !in Live(m, now)
  {
    LiveIsSmaller(m, now);
    InsertSize(p, token, entry);
  }

  lemma LiveIsSmaller(m: map<string, Affinity>, now: int)
    ensures |Live(m, now)| <= |m|
    ensures |Live(m, now)| == |m| ==> Live(m, now) == m
  {
    var live := Live(m, now);
    assert live.Keys <= m.Keys;
    SubsetSize(live.Keys, m.Keys);
  }

  lemma InsertSize<K, V>(m: map<K, V>, k: K, v: V)
    ensures |m[k := v]| == if k in m then |m| else |m| + 1
  {
    assert m[k := v].Keys == m.Keys + {k};
  }

  lemma RemoveSize<K, V>(m: map<K, V>, k: K)
    requires k in m
    ensures |m - {k}| == |m| - 1
  {
    assert (m - {k}).Keys == m.Keys - {k};
  }

  lemma {:induction false} SubsetSize<T>(a: set<T>, b: set<T>)
    requires a <= b
    ensures |a| <= |b|
    ensures |a| == |b| ==> a == b
  {
    if x :| x in a {
      SubsetSize(a - {x}, b - {x});
      assert a == a - {x} + {x} && b == b - {x} + {x};
    }
  }

  // ---- The documented hard cap is not met -------------------------------------------------------

  /** The first `n` tokens of an endless supply of distinct names. */
  function Name(n: nat): (s: string)
    ensures |s| == n
  {
    seq(n, _ => 'a')
  }

  function Filled(n: nat, keyId: string, expiresAt: int): (m: map<string, Affinity>)
    ensures forall t :: t in m <==> |t| < n && t == Name(|t|)
    ensures forall t :: t in m ==> m[t] == Affinity(keyId, expiresAt)
    ensures |m| == n
  {
    if n == 0 then map[]
    else
      var m := Filled(n - 1, keyId, expiresAt);
      assert Name(n - 1) !in m;
      assert m[Name(n - 1) := Affinity(keyId, expiresAt)].Keys == m.Keys + {Name(n - 1)};
      m[Name(n - 1) := Affinity(keyId, expiresAt)]
  }

  /** Recording one token more than the cap, all at one instant, drives the empty cache past its cap. */
  lemma HardCapIsExceeded(keyId: string, now: int, ttl: int) returns (run: seq<map<string, Affinity>>)
    requires ttl > 0
    ensures |run| == 10_002 && run[0] == map[]
    ensures forall i :: 0 <= i <= 10_000 ==> RecordStep(run[i], run[i + 1], Name(i), keyId, now, ttl)
    ensures |run[10_001]| == 10_001 > MAX_ENTRIES
  {
    run := seq(MAX_ENTRIES + 2, i requires 0 <= i => Filled(i, keyId, now + ttl));
    forall i | 0 <= i <= MAX_ENTRIES
      ensures RecordStep(run[i], run[i + 1], Name(i), keyId, now, ttl)
    {
      var m := run[i];
      assert Live(m, now) == m;
      assert |m| == i;
      assert run[i + 1] == m[Name(i) := Affinity(keyId, now + ttl)];
      assert MakeRoomStep(m, m, now);
    }
  }
}
