/**
 The cache of command mappings behind a public journal: a bounded map from
 sessions to mappings, forgetting the least recently requested.
 */
module JournalCache {
  import opened Base

  type Key = nat    // a tenant, a session and its runtime
  type Reader = nat // a runtime journal to read through
  type Index = nat  // a command mapping

  const DefaultCapacity := 1024

  datatype Request = Request(key: Key, reader: Reader)

  datatype Cached = Cached(index: Index, reader: Reader, used: nat)

  // ------------------------------------------------------------------------
  // The most recently requested keys
  // ------------------------------------------------------------------------

  ghost function Requested(rs: seq<Request>): set<Key> { set r | r in rs :: r.key }

  /** One more than the position of a key's last request; zero for none. */
  function LastUse(rs: seq<Request>, k: Key): nat {
    if rs == [] then 0 else if Last(rs).key == k then |rs| else LastUse(rs[..|rs| - 1], k)
  }

  /** The keys are the `capacity` most recently requested distinct ones, or all of them when there are fewer. */
  ghost predicate MostRecent(keys: set<Key>, rs: seq<Request>, capacity: nat) {
    && keys <= Requested(rs)
    && |keys| == (if |Requested(rs)| < capacity then |Requested(rs)| else capacity)
    && forall x, y :: x in keys && y in Requested(rs) && y !in keys ==> LastUse(rs, y) < LastUse(rs, x)
  }

  lemma {:induction false} LastUseIs(rs: seq<Request>, k: Key)
    ensures LastUse(rs, k) <= |rs|
    ensures k in Requested(rs) <==> 0 < LastUse(rs, k)
    ensures 0 < LastUse(rs, k) ==> rs[LastUse(rs, k) - 1].key == k
    ensures forall i :: LastUse(rs, k) <= i < |rs| ==> rs[i].key != k
  {
    if rs != [] {
      var front := rs[..|rs| - 1];
      LastUseIs(front, k);
      assert rs == front + [Last(rs)];
      assert forall i :: 0 <= i < |front| ==> rs[i] == front[i];
      if k in Requested(rs) && Last(rs).key != k {
        var r :| r in rs && r.key == k;
        assert r in front;
      }
    }
  }

  lemma LastUseNext(rs: seq<Request>, r: Request, k: Key)
    ensures LastUse(rs + [r], k) == if k == r.key then |rs| + 1 else LastUse(rs, k)
    ensures Requested(rs + [r]) == Requested(rs) + {r.key}
    ensures LastUse(rs, k) <= |rs|
  {
    assert (rs + [r])[..|rs|] == rs;
    LastUseIs(rs, k);
    forall x ensures x in Requested(rs + [r]) <==> x in Requested(rs) + {r.key} {
      if x in Requested(rs) {
        var q :| q in rs && q.key == x;
        assert q in rs + [r];
      }
      if x == r.key { assert r in rs + [r]; }
    }
  }

  /** There is only one such set, so it does not matter in which order an eviction scans. */
  lemma MostRecentIsUnique(a: set<Key>, b: set<Key>, rs: seq<Request>, capacity: nat)
    requires MostRecent(a, rs, capacity) && MostRecent(b, rs, capacity)
    ensures a == b
  {
    if a <= b {
      SubsetSame(a, b);
    } else if b <= a {
      SubsetSame(b, a);
    } else {
      var x :| x in a && x !in b;
      var y :| y in b && y !in a;
    }
  }

  lemma SubsetSmaller(a: set<Key>, b: set<Key>, x: Key)
    requires a <= b && x in b && x !in a
    ensures |a| < |b|
  {
    var rest := b - {x};
    assert a <= rest;
    CardinalityMonotone(a, rest);
  }

  lemma {:induction false} CardinalityMonotone(a: set<Key>, b: set<Key>)
    requires a <= b
    ensures |a| <= |b|
    decreases |a|
  {
    if x :| x in a {
      CardinalityMonotone(a - {x}, b - {x});
    }
  }

  lemma SubsetSame(a: set<Key>, b: set<Key>)
    requires a <= b && |a| == |b|
    ensures a == b
  {
    if x :| x in b && x !in a { SubsetSmaller(a, b, x); }
  }

  // ------------------------------------------------------------------------
  // What one request does to the most recent keys
  // ------------------------------------------------------------------------

  lemma HitKeeps(keys: set<Key>, rs: seq<Request>, r: Request, capacity: nat)
    requires MostRecent(keys, rs, capacity) && r.key in keys
    ensures MostRecent(keys, rs + [r], capacity)
  {
    LastUseNext(rs, r, r.key);
    assert Requested(rs + [r]) == Requested(rs);
    forall x, y | x in keys && y in Requested(rs) && y !in keys ensures LastUse(rs + [r], y) < LastUse(rs + [r], x) {
      LastUseNext(rs, r, x);
      LastUseNext(rs, r, y);
    }
  }

  lemma MissWithRoom(keys: set<Key>, rs: seq<Request>, r: Request, capacity: nat)
    requires MostRecent(keys, rs, capacity) && r.key !in keys && |keys| < capacity
    ensures MostRecent(keys + {r.key}, rs + [r], capacity)
  {
    SubsetSame(keys, Requested(rs));
    LastUseNext(rs, r, r.key);
  }

  lemma MissWhenFull(keys: set<Key>, rs: seq<Request>, r: Request, capacity: nat, oldest: Key)
    requires MostRecent(keys, rs, capacity) && r.key !in keys && |keys| == capacity && oldest in keys
    requires forall k :: k in keys && k != oldest ==> LastUse(rs, oldest) < LastUse(rs, k)
    ensures MostRecent(keys - {oldest} + {r.key}, rs + [r], capacity)
  {
    var next := keys - {oldest} + {r.key};
    LastUseNext(rs, r, r.key);
    CardinalityMonotone(next, Requested(rs + [r]));
    forall x, y | x in next && y in Requested(rs + [r]) && y !in next
        ensures LastUse(rs + [r], y) < LastUse(rs + [r], x) {
      LastUseNext(rs, r, x);
      LastUseNext(rs, r, y);
    }
  }

  /** A kept mapping is stamped with its last request, and reads through the reader that request brought. */
  ghost predicate Stamped(rs: seq<Request>, k: Key, c: Cached) {
    0 < c.used == LastUse(rs, k) <= |rs| && c.reader == rs[c.used - 1].reader
  }

  lemma UsesDiffer(rs: seq<Request>, a: Key, c: Cached, b: Key, d: Cached)
    requires Stamped(rs, a, c) && Stamped(rs, b, d) && a != b
    ensures c.used != d.used
  {
    LastUseIs(rs, a);
    LastUseIs(rs, b);
  }

  lemma StampsNext(rs: seq<Request>, was: map<Key, Cached>, now: map<Key, Cached>, r: Request)
    requires forall k :: k in was ==> Stamped(rs, k, was[k])
    requires forall k :: k in now && k != r.key ==> k in was && now[k] == was[k]
    requires r.key in now && now[r.key].used == |rs| + 1 && now[r.key].reader == r.reader
    ensures forall k :: k in now ==> Stamped(rs + [r], k, now[k])
  {
    forall k | k in now ensures Stamped(rs + [r], k, now[k]) { LastUseNext(rs, r, k); }
  }

  // ------------------------------------------------------------------------
  // The cache
  // ------------------------------------------------------------------------

  /** What a resolver is handed: the mapping, and the reader it reads through. */
  datatype Journal = Journal(index: Index, reader: Reader)

  class PublicJournals {
    const capacity: nat
    var clock: nat
    var indexes: map<Key, Cached>

    ghost var requests: seq<Request>

    constructor (capacity: int)
      ensures Valid() && indexes == map[] && requests == []
      ensures this.capacity == if capacity <= 0 then 1024 else capacity
    {
      this.capacity := if capacity <= 0 then DefaultCapacity else capacity;
      clock, indexes, requests := 0, map[], [];
      assert Requested([]) == {};
    }

    ghost predicate Kept()
      reads this`indexes, this`requests
    {
      && MostRecent(indexes.Keys, requests, capacity)
      && forall k :: k in indexes ==> Stamped(requests, k, indexes[k])
    }

    ghost predicate Valid()
      reads this
    {
      0 < capacity && clock == |requests| && Kept()
    }

    /** The least recently used key, whatever order the scan takes. */
    method Oldest() returns (oldest: Key)
      requires Kept() && |indexes| > 0
      ensures oldest in indexes
      ensures forall k :: k in indexes && k != oldest ==> indexes[oldest].used < indexes[k].used
    {
      oldest :| oldest in indexes;
      var left := indexes.Keys - {oldest};
      while left != {}
        invariant oldest in indexes && oldest !in left && left <= indexes.Keys
        invariant forall k :: k in indexes && k !in left && k != oldest ==> indexes[oldest].used < indexes[k].used
        decreases |left|
      {
        var candidate :| candidate in left;
        left := left - {candidate};
        UsesDiffer(requests, candidate, indexes[candidate], oldest, indexes[oldest]);
        if indexes[candidate].used < indexes[oldest].used { oldest := candidate; }
      }
    }

    /**
     Answers a journal that shares the kept mapping for its session, if there is one; a refused binding changes
     nothing.
     */
    method ReaderFor(bound: bool, key: Key, reader: Reader, mapping: Index) returns (r: Option<Journal>)
      requires Valid()
      modifies this
      ensures Valid()
      ensures r.None? <==> !bound
      ensures !bound ==> requests == old(requests) && indexes == old(indexes)
      ensures bound ==> requests == old(requests) + [Request(key, reader)] && key in indexes
      ensures bound ==> r.value.reader == reader == indexes[key].reader && r.value.index == indexes[key].index
      ensures bound ==> indexes[key].index == if key in old(indexes) then old(indexes)[key].index else mapping
      // Every other mapping still kept is untouched.
      ensures forall k :: k in indexes && k != key ==> k in old(indexes) && indexes[k] == old(indexes)[k]
    {
      if !bound { return None; }
      clock := clock + 1;
      if key in indexes {
        Touch(key, reader);
      } else {
        Insert(key, reader, mapping);
      }
      r := Some(Journal(indexes[key].index, indexes[key].reader));
    }

    /** The mapping is kept; the reader is not. */
    method Touch(key: Key, reader: Reader)
      requires Kept() && key in indexes && clock == |requests| + 1
      modifies this`indexes, this`requests
      ensures Kept() && requests == old(requests) + [Request(key, reader)]
      ensures indexes == old(indexes)[key := Cached(old(indexes)[key].index, reader, clock)]
    {
      HitKeeps(indexes.Keys, requests, Request(key, reader), capacity);
      ghost var was := indexes;
      indexes := indexes[key := indexes[key].(used := clock, reader := reader)];
      assert indexes.Keys == was.Keys;
      StampsNext(requests, was, indexes, Request(key, reader));
      requests := requests + [Request(key, reader)];
    }

    method Insert(key: Key, reader: Reader, mapping: Index)
      requires Kept() && key !in indexes && clock == |requests| + 1 && 0 < capacity
      modifies this`indexes, this`requests
      ensures Kept() && requests == old(requests) + [Request(key, reader)]
      ensures key in indexes && indexes[key] == Cached(mapping, reader, clock)
      ensures forall k :: k in indexes && k != key ==> k in old(indexes) && indexes[k] == old(indexes)[k]
    {
      ghost var was, request := indexes, Request(key, reader);
      MakeRoom(request);
      ghost var kept := indexes;
      indexes := indexes[key := Cached(mapping, reader, clock)];
      assert indexes.Keys == kept.Keys + {key};
      StampsNext(requests, was, indexes, request);
      requests := requests + [request];
    }

    /** Forgets the least recently used key when there is no room for one more. */
    method MakeRoom(ghost request: Request)
      requires Kept() && request.key !in indexes && 0 < capacity
      modifies this`indexes
      ensures MostRecent(indexes.Keys + {request.key}, requests + [request], capacity)
      ensures forall k :: k in indexes ==> k in old(indexes) && indexes[k] == old(indexes)[k]
    {
      if |indexes| < capacity {
        MissWithRoom(indexes.Keys, requests, request, capacity);
      } else {
        var oldest := Oldest();
        MissWhenFull(indexes.Keys, requests, request, capacity, oldest);
        ghost var keys := indexes.Keys;
        indexes := indexes - {oldest};
        assert indexes.Keys == keys - {oldest};
      }
    }
  }
}
