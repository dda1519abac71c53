/**
 The shared cache of metric buffers (web/src/utils/metricsCache.ts): which buffer a chart gets back, and what is
 evicted to keep the cache bounded.
 */
module MetricsCache {
  import opened Wrappers

  import opened RingBuffer

  const TTL: int := 60 * 60 * 1000
  const MAX_SCOPES: nat := 64

  /** When a buffer was last written to; an empty one comes before all others. */
  predicate NotNewer(a: Option<int>, b: Option<int>) {
    a.None? || (b.Some? && a.value <= b.value)
  }

  predicate Expired(last: Option<int>, now: int) {
    last.Some? && now - last.value > TTL
  }

  predicate NoTwice(order: seq<string>) {
    forall i, j | 0 <= i < j < |order| :: order[i] != order[j]
  }

  /** A key taken out of an insertion order. */
  function Removed(order: seq<string>, key: string): (r: seq<string>)
    ensures forall k :: k in r <==> k in order && k != key
  {
    if order == [] then []
    else
      var rest := Removed(order[1..], key);
      assert forall k :: k in order <==> k == order[0] || k in order[1..];
      if order[0] == key then rest else [order[0]] + rest
  }

  lemma {:induction false} RemovedOnce(order: seq<string>, key: string)
    requires NoTwice(order)
    ensures NoTwice(Removed(order, key))
  {
    if order != [] {
      RemovedOnce(order[1..], key);
      var rest := Removed(order[1..], key);
      forall i | 0 <= i < |rest| ensures rest[i] != order[0] {
        assert rest[i] in order[1..];
      }
    }
  }

  /** What was removed was not protected, and no newer than anything unprotected that was kept. */
  ghost predicate Fair(all: set<string>, kept: set<string>, protect: set<string>, rank: map<string, Option<int>>)
    requires all <= rank.Keys
  {
    && kept <= all
    && (forall v | v in all && v !in kept :: v !in protect && NoNewer(v, kept, protect, rank))
  }

  ghost predicate NoNewer(v: string, kept: set<string>, protect: set<string>, rank: map<string, Option<int>>)
    requires v in rank && kept <= rank.Keys
  {
    forall k | k in kept && k !in protect :: NotNewer(rank[v], rank[k])
  }

  lemma FairStep(all: set<string>, kept: set<string>, protect: set<string>, rank: map<string, Option<int>>,
      victim: string)
    requires all <= rank.Keys && Fair(all, kept, protect, rank)
    requires victim in kept && victim !in protect && NoNewer(victim, kept, protect, rank)
    ensures Fair(all, kept - {victim}, protect, rank)
  {
    forall v | v in all && v !in kept - {victim} ensures v !in protect && NoNewer(v, kept - {victim}, protect, rank) {
      assert v == victim || NoNewer(v, kept, protect, rank);
    }
  }

  class Cache {
    var order: seq<string>           // the keys, in the order a Map iterates them
    var entries: map<string, Buffer>

    /** The Map is a Map, and no two scopes share a buffer. */
    ghost predicate Valid()
      reads this
    {
      && NoTwice(order)
      && (forall k :: k in order <==> k in entries)
      && (forall j, k | j in entries && k in entries && j != k :: entries[j] != entries[k])
    }

    constructor ()
      ensures Valid() && entries == map[]
    {
      order, entries := [], map[];
    }

    function Last(key: string): Option<int>
      requires key in entries
      reads this, entries[key]
    {
      entries[key].LastTimestamp()
    }

    method Delete(key: string)
      requires Valid()
      modifies this
      ensures Valid() && entries == old(entries) - {key} && order == Removed(old(order), key)
    {
      RemovedOnce(order, key);
      order, entries := Removed(order, key), entries - {key};
    }

    /** Map.set: a key already there keeps its place. */
    method Set(key: string, buffer: Buffer)
      requires Valid() && forall k | k in entries && k != key :: entries[k] != buffer
      modifies this
      ensures Valid() && entries == old(entries)[key := buffer]
      ensures order == if key in old(entries) then old(order) else old(order) + [key]
    {
      if key !in entries {
        order := order + [key];
      }
      entries := entries[key := buffer];
    }

    /** The cached buffer, or an empty one in its place if there is none or it is stale. */
    method Bind(now: int, key: string) returns (buffer: Buffer)
      requires Valid()
      modifies this
      ensures Valid() && entries == old(entries)[key := buffer]
      ensures if key in old(entries) && !Expired(old(entries[key]).LastTimestamp(), now)
              then buffer == old(entries[key])
              else fresh(buffer) && buffer.Valid() && buffer.LastTimestamp() == None
    {
      if key in entries {
        var existing := entries[key];
        var last := existing.LastTimestamp();
        if last.None? || now - last.value <= TTL {
          Delete(key);
          Set(key, existing);
          return existing;
        }
      }
      buffer := new Buffer();
      Set(key, buffer);
    }

    /** Drops every entry whose newest sample is past the TTL. */
    method DropExpired(now: int)
      requires Valid()
      modifies this
      ensures Valid() && Within(old(entries))
      ensures forall k | k in old(entries) :: k in entries <==> !Expired(old(entries[k]).LastTimestamp(), now)
    {
      var keys := order;
      ghost var dead := set k | k in entries && Expired(Last(k), now);
      ghost var all := entries;
      for i := 0 to |keys|
        invariant Valid() && Within(all) && all.Keys - dead <= entries.Keys
        invariant forall j | 0 <= j < i :: keys[j] in entries ==> keys[j] !in dead
        invariant forall j | i <= j < |keys| :: keys[j] in entries
      {
        var last := entries[keys[i]].LastTimestamp();
        if last.Some? && now - last.value > TTL {
          Delete(keys[i]);
        }
      }
    }

    /** Nothing unprotected was written to longer ago. */
    ghost predicate IsVictim(key: string, protect: set<string>)
      reads this, set k | k in entries :: entries[k]
    {
      key in entries && key !in protect && forall k | k in entries && k !in protect :: NotNewer(Last(key), Last(k))
    }

    /** The unprotected entry with the oldest newest sample, the first empty one if there is one. */
    method Victim(protect: set<string>) returns (victim: Option<string>)
      requires Valid()
      ensures victim.None? ==> forall k | k in entries :: k in protect
      ensures victim.Some? ==> IsVictim(victim.value, protect)
    {
      victim := None;
      var victimLast: Option<int> := None;
      for i := 0 to |order|
        invariant victim.None? ==> forall j | 0 <= j < i :: order[j] in protect
        invariant victim.Some? ==> victim.value in entries && victim.value !in protect
        invariant victim.Some? ==> victimLast.Some? && victimLast == Last(victim.value)
        invariant victim.Some? ==> forall j | 0 <= j < i && order[j] !in protect :: NotNewer(victimLast, Last(order[j]))
      {
        var key := order[i];
        if key in protect {
          continue;
        }
        var last := entries[key].LastTimestamp();
        if last.None? {
          return Some(key);
        }
        if victim.None? || last.value < victimLast.value {
          victimLast := last;
          victim := Some(key);
        }
      }
    }

    /**
     Evicts until the cache fits, or only protected entries are left; no more than that, and never an entry newer than
     an unprotected one that stays.
     */
    method Trim(protect: set<string>)
      requires Valid()
      modifies this
      ensures Valid()
      ensures Within(old(entries))
      ensures forall k | k in old(entries) && k !in entries :: k !in protect
      ensures forall v, k | v in old(entries) && v !in entries && k in entries && k !in protect ::
                NotNewer(old(entries[v]).LastTimestamp(), entries[k].LastTimestamp())
      ensures |entries| <= MAX_SCOPES || forall k | k in entries :: k in protect
      ensures entries == old(entries) || |entries| >= MAX_SCOPES
    {
      ghost var rank := map k | k in entries :: Last(k);
      TrimRanked(protect, rank);
      forall v, k | v in old(entries) && v !in entries && k in entries && k !in protect
        ensures NotNewer(old(entries[v]).LastTimestamp(), entries[k].LastTimestamp()) {
        assert NoNewer(v, entries.Keys, protect, rank);
      }
    }

    method TrimRanked(protect: set<string>, ghost rank: map<string, Option<int>>)
      requires Valid() && rank.Keys == entries.Keys && forall k | k in entries :: Last(k) == rank[k]
      modifies this
      ensures Valid() && Within(old(entries)) && Fair(rank.Keys, entries.Keys, protect, rank)
      ensures |entries| <= MAX_SCOPES || forall k | k in entries :: k in protect
      ensures entries == old(entries) || |entries| >= MAX_SCOPES
    {
      ghost var all := entries;
      while |entries| > MAX_SCOPES
        invariant Valid() && Within(all)
        invariant Fair(rank.Keys, entries.Keys, protect, rank)
        invariant entries == all || |entries| >= MAX_SCOPES
        decreases |entries|
      {
        var found := EvictOne(protect, rank);
        if !found {
          break;
        }
      }
    }

    method EvictOne(protect: set<string>, ghost rank: map<string, Option<int>>) returns (found: bool)
      requires Valid() && entries.Keys <= rank.Keys && forall k | k in entries :: Last(k) == rank[k]
      requires Fair(rank.Keys, entries.Keys, protect, rank)
      modifies this
      ensures Valid() && Within(old(entries)) && Fair(rank.Keys, entries.Keys, protect, rank)
      ensures !found ==> entries == old(entries) && forall k | k in entries :: k in protect
      ensures found ==> |entries| == |old(entries)| - 1
    {
      var victim := Victim(protect);
      if victim.None? {
        return false;
      }
      assert NoNewer(victim.value, entries.Keys, protect, rank);
      FairStep(rank.Keys, entries.Keys, protect, rank, victim.value);
      OneLess(entries, victim.value);
      Delete(victim.value);
      return true;
    }

    /** Nothing was added or exchanged. */
    ghost predicate Within(all: map<string, Buffer>)
      reads this
    {
      forall k | k in entries :: k in all && entries[k] == all[k]
    }

    method Evict(now: int, protect: set<string>)
      requires Valid()
      modifies this
      ensures Valid()
      ensures Within(old(entries))
      ensures forall k | k in entries :: !Expired(entries[k].LastTimestamp(), now)
      ensures forall k | k in old(entries) && k !in entries ::
                k !in protect || Expired(old(entries[k]).LastTimestamp(), now)
      ensures forall v, k | v in old(entries) && v !in entries && k in entries && k !in protect ::
                || Expired(old(entries[v]).LastTimestamp(), now)
                || NotNewer(old(entries[v]).LastTimestamp(), entries[k].LastTimestamp())
      ensures |entries| <= MAX_SCOPES || forall k | k in entries :: k in protect
    {
      DropExpired(now);
      Trim(protect);
    }

    /**
     getMetricsBuffers: a chart gets the very buffers it had, unless they are missing or stale, and what it gets is
     what the cache holds from then on.
     */
    method GetMetricsBuffers(now: int, keys: seq<string>) returns (buffers: seq<Buffer>)
      requires Valid()
      modifies this
      ensures Valid() && |buffers| == |keys|
      ensures forall i | 0 <= i < |keys| :: keys[i] in entries && entries[keys[i]] == buffers[i]
      ensures forall i | 0 <= i < |keys| :: Got(keys[i], now, buffers[i])
      ensures forall k | k in entries && k !in keys :: k in old(entries) && entries[k] == old(entries)[k]
      ensures forall k | k in entries :: !Expired(entries[k].LastTimestamp(), now)
      ensures |entries| <= MAX_SCOPES || |entries| <= |set k | k in keys|
      ensures forall v, k | v in old(entries) && v !in entries && k in entries && k !in keys ::
                || Expired(old(entries[v]).LastTimestamp(), now)
                || NotNewer(old(entries[v]).LastTimestamp(), entries[k].LastTimestamp())
    {
      buffers := BindAll(now, keys);
      var protect := set k | k in keys;
      Evict(now, protect);
      if |entries| > MAX_SCOPES {
        assert entries.Keys <= protect;
        SubsetSmaller(entries.Keys, protect);
      }
    }

    method BindAll(now: int, keys: seq<string>) returns (buffers: seq<Buffer>)
      requires Valid()
      modifies this
      ensures Valid() && |buffers| == |keys|
      ensures forall i | 0 <= i < |keys| :: keys[i] in entries && entries[keys[i]] == buffers[i]
      ensures forall i | 0 <= i < |keys| :: Got(keys[i], now, buffers[i])
      ensures forall k | k in entries && k !in keys :: k in old(entries) && entries[k] == old(entries)[k]
      ensures forall k | k in old(entries) :: k in entries
    {
      buffers := [];
      for i := 0 to |keys|
        modifies this
        invariant Valid() && |buffers| == i
        invariant forall j | 0 <= j < i :: keys[j] in entries && entries[keys[j]] == buffers[j]
        invariant forall j | 0 <= j < i :: Got(keys[j], now, buffers[j])
        invariant forall k | k in entries && k !in keys[..i] :: k in old(entries) && entries[k] == old(entries)[k]
        invariant forall k | k in old(entries) :: k in entries
      {
        var buffer := Bind(now, keys[i]);
        buffers := buffers + [buffer];
      }
      assert keys[..|keys|] == keys;
    }

    /** The buffer the cache held for the key, if it held one that was not stale; else a new, empty one. */
    twostate predicate Got(key: string, now: int, new buffer: Buffer)
      reads buffer
    {
      if key in old(entries) && !Expired(old(entries[key].LastTimestamp()), now) then buffer == old(entries[key])
      else fresh(buffer) && buffer.LastTimestamp() == None
    }

    /** clearMetricsCacheContext: the buffers of one cluster go, the others stay. */
    method ClearContext(context: string)
      requires Valid()
      modifies this
      ensures Valid() && Within(old(entries))
      ensures forall k | k in old(entries) :: k in entries <==> !(context + ":" <= k)
    {
      var prefix := context + ":";
      var keys := order;
      ghost var gone := set k | k in entries && prefix <= k;
      ghost var all := entries;
      for i := 0 to |keys|
        invariant Valid() && Within(all) && all.Keys - gone <= entries.Keys
        invariant forall j | 0 <= j < i :: keys[j] in entries ==> keys[j] !in gone
        invariant forall j | i <= j < |keys| :: keys[j] in entries
      {
        if prefix <= keys[i] {
          Delete(keys[i]);
        }
      }
    }
  }

  lemma OneLess(m: map<string, Buffer>, key: string)
    requires key in m
    ensures |m - {key}| == |m| - 1
  {
    assert (m - {key}).Keys == m.Keys - {key};
  }

  lemma {:induction false} SubsetSmaller(a: set<string>, b: set<string>)
    requires a <= b
    ensures |a| <= |b|
  {
    if a != {} {
      var x :| x in a;
      SubsetSmaller(a - {x}, b - {x});
    }
  }
}
