/** Size-keyed checkout and return of Buffers, and a cache of cl_mem handles keyed by
    plane geometry and export mode. Each locked method is one atomic step. */
module Pools {
  import opened Wrappers
  import opened Buffers
  import opened ClDriver
  import opened Planes

  /** The cache key (width, height, stride, is_dma). */
  datatype CacheKey = CacheKey(width: nat, height: nat, stride: nat, isDma: bool)

  function KeyOf(p: Plane, isDma: bool): CacheKey {
    CacheKey(p.width, p.height, p.stride, isDma)
  }

  /** A flag read through operator[]: a Buffer with no entry reads as free. */
  predicate InUse(flags: map<Buffer, bool>, b: Buffer) {
    b in flags && flags[b]
  }

  /** The index the checkout scan stops at: the first Buffer of the bucket not in use. */
  function FirstFree(bucket: seq<Buffer>, flags: map<Buffer, bool>): (r: Option<nat>)
    ensures r.Some? ==> r.value < |bucket| && !InUse(flags, bucket[r.value])
    ensures r.Some? ==> forall k | 0 <= k < r.value :: InUse(flags, bucket[k])
    ensures r.None? <==> forall k | 0 <= k < |bucket| :: InUse(flags, bucket[k])
  {
    if |bucket| == 0 then None
    else if !InUse(flags, bucket[0]) then Some(0)
    else match FirstFree(bucket[1..], flags)
      case None => None
      case Some(j) => Some(j + 1)
  }

  /** A free Buffer with only busy Buffers before it is the one the scan picks. */
  lemma FirstFreeIsFirst(bucket: seq<Buffer>, flags: map<Buffer, bool>, i: nat)
    requires i < |bucket| && !InUse(flags, bucket[i])
    requires forall k | 0 <= k < i :: InUse(flags, bucket[k])
    ensures FirstFree(bucket, flags) == Some(i)
  {
  }

  ghost predicate Distinct(s: seq<Buffer>) {
    forall i, j | 0 <= i < j < |s| :: s[i] != s[j]
  }

  /** Checking out the first free Buffer of a bucket of distinct Buffers and returning it
      leaves it the first free one. */
  lemma {:induction false} ReturnedIsFirstFree(bucket: seq<Buffer>, flags: map<Buffer, bool>, i: nat, v: bool)
    requires Distinct(bucket) && FirstFree(bucket, flags) == Some(i)
    ensures FirstFree(bucket, flags[bucket[i] := v][bucket[i] := false]) == Some(i)
  {
    var after := flags[bucket[i] := v][bucket[i] := false];
    forall k | 0 <= k < i ensures InUse(after, bucket[k]) {
      assert bucket[k] != bucket[i];
    }
    FirstFreeIsFirst(bucket, after, i);
  }

  /** When no Buffer of a bucket is free, a Buffer appended to it and then returned is
      the first free one. */
  lemma {:induction false} AppendedIsFirstFree(bucket: seq<Buffer>, flags: map<Buffer, bool>, b: Buffer, v: bool)
    requires FirstFree(bucket, flags).None? && b !in bucket
    ensures FirstFree(bucket + [b], flags[b := v][b := false]) == Some(|bucket|)
  {
    var after := flags[b := v][b := false];
    forall k | 0 <= k < |bucket| ensures InUse(after, (bucket + [b])[k]) {
      assert (bucket + [b])[k] == bucket[k] != b;
    }
    FirstFreeIsFirst(bucket + [b], after, |bucket|);
  }

  /** Every Buffer of bucket `size` is a distinct heap Buffer of exactly that size, with
      data and a flag. */
  ghost predicate BucketOk(size: nat, bucket: seq<Buffer>, flags: map<Buffer, bool>) {
    && Distinct(bucket)
    && forall i | 0 <= i < |bucket| ::
         && bucket[i].size == size && bucket[i].kind == Normal && bucket[i].hasData
         && bucket[i] in flags
  }

  /** The bucket operator[] gives for `size` in the table `buckets`. */
  function BucketIn(buckets: map<nat, seq<Buffer>>, size: nat): seq<Buffer> {
    if size in buckets then buckets[size] else []
  }

  /** The two tables get_buffer reads and writes. */
  datatype PoolState = PoolState(buckets: map<nat, seq<Buffer>>, flags: map<Buffer, bool>)

  /** get_buffer(NORMAL, size) took the pool from `s0` to `s1` and handed out `b`: the
      first free Buffer of the bucket, flagged in use with the bucket unchanged; or, with
      none free, a Buffer unknown to the pool, of that size and kind Normal, appended to
      the bucket and flagged in use. `BufferPool.GetBuffer` ensures it of every NORMAL call. */
  ghost predicate NormalCheckout(size: nat, s0: PoolState, b: Buffer, s1: PoolState) {
    var bucket := BucketIn(s0.buckets, size);
    match FirstFree(bucket, s0.flags)
    case Some(i) =>
      b == bucket[i] && s1 == PoolState(s0.buckets, s0.flags[b := true])
    case None =>
      && b !in s0.flags && b.size == size && b.kind == Normal
      && s1 == PoolState(s0.buckets[size := bucket + [b]], s0.flags[b := true])
  }

  /** The first |bs| calls of a run of get_buffer(NORMAL, sizes[i]) calls handed out
      bs[i], passing through the pool states `states` in order. */
  ghost predicate Checkouts(sizes: seq<nat>, states: seq<PoolState>, bs: seq<Buffer>) {
    && |bs| <= |sizes| && |states| == |bs| + 1
    && forall i | 0 <= i < |bs| :: NormalCheckout(sizes[i], states[i], bs[i], states[i + 1])
  }

  /** Every bucket of `b0` is still there in `b1`, as a prefix of its new contents. */
  ghost predicate Grew(b0: map<nat, seq<Buffer>>, b1: map<nat, seq<Buffer>>) {
    forall s | s in b0 :: s in b1 && b0[s] <= b1[s]
  }

  /** One more checkout extends a run. */
  lemma CheckoutsStep(sizes: seq<nat>, states: seq<PoolState>, bs: seq<Buffer>, b: Buffer, s1: PoolState)
    requires Checkouts(sizes, states, bs) && |bs| < |sizes|
    requires NormalCheckout(sizes[|bs|], states[|bs|], b, s1)
    ensures Checkouts(sizes, states + [s1], bs + [b])
  {
    var states', bs' := states + [s1], bs + [b];
    forall i | 0 <= i < |bs'| ensures NormalCheckout(sizes[i], states'[i], bs'[i], states'[i + 1]) {
      if i < |bs| {
        assert states'[i] == states[i] && bs'[i] == bs[i] && states'[i + 1] == states[i + 1];
      }
    }
  }

  /** A run of checkouts only appends to buckets, and leaves every Buffer it handed out
      in the bucket of the size it was asked for. */
  lemma {:induction false} CheckoutsGrow(sizes: seq<nat>, states: seq<PoolState>, bs: seq<Buffer>)
    requires Checkouts(sizes, states, bs)
    ensures Grew(states[0].buckets, states[|bs|].buckets)
    ensures forall i | 0 <= i < |bs| :: bs[i] in BucketIn(states[|bs|].buckets, sizes[i])
  {
    var n := |bs|;
    if n > 0 {
      var states0, bs0 := states[..n], bs[..n - 1];
      assert Checkouts(sizes, states0, bs0) by {
        forall i | 0 <= i < |bs0| ensures NormalCheckout(sizes[i], states0[i], bs0[i], states0[i + 1]) {
          assert NormalCheckout(sizes[i], states[i], bs[i], states[i + 1]);
        }
      }
      CheckoutsGrow(sizes, states0, bs0);
      var mid, last := states[n - 1].buckets, states[n].buckets;
      assert NormalCheckout(sizes[n - 1], states[n - 1], bs[n - 1], states[n]);
      assert Grew(mid, last) && bs[n - 1] in BucketIn(last, sizes[n - 1]);
      forall i | 0 <= i < n ensures bs[i] in BucketIn(last, sizes[i]) {
        if i < n - 1 {
          assert bs0[i] in BucketIn(mid, sizes[i]);
          PrefixKeepsMember(BucketIn(mid, sizes[i]), BucketIn(last, sizes[i]), bs[i]);
        }
      }
    }
  }

  lemma PrefixKeepsMember(a: seq<Buffer>, c: seq<Buffer>, x: Buffer)
    requires a <= c && x in a
    ensures x in c
  {
    var k :| 0 <= k < |a| && a[k] == x;
    assert c[k] == x;
  }

  /** Every bucket is well formed under `flags`. */
  ghost predicate Shaped(buckets: map<nat, seq<Buffer>>, flags: map<Buffer, bool>) {
    forall s | s in buckets :: BucketOk(s, buckets[s], flags)
  }

  /** Writing a flag keeps every bucket well formed. */
  lemma ShapedAfterFlag(buckets: map<nat, seq<Buffer>>, flags: map<Buffer, bool>, b: Buffer, v: bool)
    requires Shaped(buckets, flags)
    ensures Shaped(buckets, flags[b := v])
  {
  }

  /** Giving a missing size an empty bucket keeps every bucket well formed. */
  lemma ShapedAfterTouch(buckets: map<nat, seq<Buffer>>, flags: map<Buffer, bool>, size: nat)
    requires Shaped(buckets, flags)
    ensures Shaped(buckets[size := (if size in buckets then buckets[size] else [])], flags)
  {
  }

  /** Appending a flagged Buffer of the bucket's size that no bucket holds yet keeps every
      bucket well formed. */
  lemma ShapedAfterAppend(buckets: map<nat, seq<Buffer>>, flags: map<Buffer, bool>, size: nat, b: Buffer)
    requires Shaped(buckets, flags) && b !in flags
    requires b.size == size && b.kind == Normal && b.hasData
    ensures Shaped(buckets[size := (if size in buckets then buckets[size] else []) + [b]], flags[b := true])
  {
  }

  /** Every cached handle is null or was issued by the driver context `issued` describes. */
  ghost predicate HandlesIssued(cache: map<CacheKey, ClMem>, issued: set<ClMem>) {
    forall k | k in cache :: cache[k].NullMem? || cache[k] in issued
  }

  /** A per-key counter that reads 0 where it has no entry. */
  ghost function Count(m: map<CacheKey, nat>, k: CacheKey): nat {
    if k in m then m[k] else 0
  }

  class BufferPool {
    /** buffer_sizes, the sizes declared at construction. */
    const sizes: seq<nat>
    /** buffer_pools: the bucket of each size, in insertion order. */
    var buckets: map<nat, seq<Buffer>>
    /** buffer_in_use. */
    var inUse: map<Buffer, bool>
    /** cl_mem_cache. */
    var cache: map<CacheKey, ClMem>
    /** to_cl_mem calls made on a cache miss, per key. */
    ghost var exports: map<CacheKey, nat>
    /** Cache entries erased by return_cl_mem, per key. */
    ghost var evictions: map<CacheKey, nat>

    /** Every declared size has a bucket, every bucket is well formed, and to_cl_mem was
        called for a key exactly once for each time the key entered the cache. */
    ghost predicate Valid()
      reads this
    {
      && (forall i | 0 <= i < |sizes| :: sizes[i] in buckets)
      && Shaped(buckets, inUse)
      && (forall k :: Count(exports, k) == Count(evictions, k) + (if k in cache then 1 else 0))
    }

    /** The bucket operator[] would give for `size`. */
    function Bucket(size: nat): seq<Buffer>
      reads this
    {
      BucketIn(buckets, size)
    }

    /** One empty bucket per declared size; no Buffer, flag or handle yet. */
    constructor (sizes: seq<nat>)
      ensures Valid() && this.sizes == sizes
      ensures buckets == map s | s in sizes :: []
      ensures inUse == map[] && cache == map[]
    {
      this.sizes := sizes;
      buckets := map[];
      inUse := map[];
      cache := map[];
      exports := map[];
      evictions := map[];
      new;
      AllocateBuffers();
    }

    /** allocate_buffers: (re)sets the bucket of every declared size to empty. */
    method AllocateBuffers()
      modifies this`buckets
      ensures buckets == old(buckets) + map s | s in sizes :: []
    {
      for i := 0 to |sizes|
        invariant buckets == old(buckets) + map s | s in sizes[..i] :: []
      {
        assert sizes[..i + 1] == sizes[..i] + [sizes[i]];
        buckets := buckets[sizes[i] := []];
      }
      assert sizes[..|sizes|] == sizes;
    }

    /** get_buffer: the first free Buffer of bucket `size`, flagged in use; otherwise a new
        Buffer of `kind` appended to the bucket and flagged in use. The requested kind is
        ignored on reuse; a miss of kind DmaBuf throws, since no descriptor is passed. */
    method GetBuffer(kind: Kind, size: nat) returns (r: Result<Buffer, BufferError>)
      requires Valid()
      modifies this`buckets, this`inUse
      ensures Valid()
      ensures match FirstFree(old(Bucket(size)), old(inUse))
        case Some(i) =>
          && r == Ok(old(Bucket(size))[i])
          && buckets == old(buckets)
          && inUse == old(inUse)[r.value := true]
        case None =>
          if kind == Normal then
            && r.Ok? && fresh(r.value) && r.value.Valid() && r.value.alive
            && r.value.kind == Normal && r.value.size == size && r.value.fd == NoFd
            && buckets == old(buckets)[size := old(Bucket(size)) + [r.value]]
            && inUse == old(inUse)[r.value := true]
          else
            && r == Err(InvalidArgument)
            && buckets == old(buckets)[size := old(Bucket(size))]
            && inUse == old(inUse)
      ensures kind == Normal ==> r.Ok?
      ensures kind == Normal ==>
        NormalCheckout(size, PoolState(old(buckets), old(inUse)), r.value, PoolState(buckets, inUse))
      ensures r.Ok? ==>
        && r.value.size == size && r.value in Bucket(size) && InUse(inUse, r.value)
        && (fresh(r.value) || (r.value in old(Bucket(size)) && !InUse(old(inUse), r.value)))
    {
      var pool := Bucket(size);
      for i := 0 to |pool|
        invariant forall k | 0 <= k < i :: InUse(inUse, pool[k])
      {
        if !InUse(inUse, pool[i]) {
          FirstFreeIsFirst(pool, inUse, i);
          ShapedAfterFlag(buckets, inUse, pool[i], true);
          inUse := inUse[pool[i] := true];
          return Ok(pool[i]);
        }
      }
      var made := New(kind, size, NoFd, false);
      if made.Err? {
        // operator[] has already inserted the (empty) bucket when the constructor throws
        ShapedAfterTouch(buckets, inUse, size);
        buckets := buckets[size := pool];
        return Err(made.error);
      }
      var b := made.value;
      ShapedAfterAppend(old(buckets), inUse, size, b);
      buckets := buckets[size := pool + [b]];
      inUse := inUse[b := true];
      r := Ok(b);
    }

    /** return_buffer: only clears the flag; nothing is removed or destroyed. */
    method ReturnBuffer(b: Buffer)
      requires Valid()
      modifies this`inUse
      ensures Valid()
      ensures inUse == old(inUse)[b := false]
    {
      ShapedAfterFlag(buckets, inUse, b, false);
      inUse := inUse[b := false];
    }

    /** get_cl_mem_from_plane: a hit returns the cached handle without calling the driver;
        a miss calls to_cl_mem once and caches what it returns, even a null handle. */
    method GetClMemFromPlane(p: Plane, ctx: Context, isDma: bool, accepted: bool) returns (m: ClMem)
      requires Valid() && ctx.Valid()
      modifies this`cache, this`exports, ctx
      ensures Valid() && ctx.Valid()
      ensures ctx.issued == old(ctx.issued) + (if KeyOf(p, isDma) !in old(cache) && m.Handle? then {m} else {})
      ensures HandlesIssued(old(cache), old(ctx.issued)) ==> HandlesIssued(cache, ctx.issued)
      ensures HandlesIssued(old(cache), old(ctx.issued)) && KeyOf(p, isDma) !in old(cache) && m.Handle? ==>
        forall k | k in old(cache) :: old(cache)[k] != m
      ensures KeyOf(p, isDma) in old(cache) ==>
        && m == old(cache)[KeyOf(p, isDma)]
        && cache == old(cache) && exports == old(exports)
        && ctx.requests == old(ctx.requests) && ctx.nextId == old(ctx.nextId)
      ensures KeyOf(p, isDma) !in old(cache) ==>
        && cache == old(cache)[KeyOf(p, isDma) := m]
        && exports == old(exports)[KeyOf(p, isDma) := Count(old(exports), KeyOf(p, isDma)) + 1]
        && match ExportRequest(p, isDma)
          case None =>
            m == NullMem && ctx.requests == old(ctx.requests) && ctx.nextId == old(ctx.nextId)
          case Some(req) =>
            && m == (if accepted then Handle(old(ctx.nextId)) else NullMem)
            && ctx.requests == old(ctx.requests) + [req]
            && ctx.nextId == old(ctx.nextId) + (if accepted then 1 else 0)
      ensures ctx.released == old(ctx.released)
    {
      var key := KeyOf(p, isDma);
      if key in cache {
        return cache[key];
      }
      m := ToClMem(p, ctx, isDma, accepted);
      exports := exports[key := Count(exports, key) + 1];
      cache := cache[key := m];
    }

    /** return_cl_mem: erases the entry of the plane's geometry with is_dma = false, and
        releases the handle. An entry made with is_dma = true is never erased here. */
    method ReturnClMem(p: Plane, m: ClMem, ctx: Context)
      requires Valid() && ctx.Valid()
      modifies this`cache, this`evictions, ctx
      ensures Valid() && ctx.Valid()
      ensures HandlesIssued(old(cache), old(ctx.issued)) ==> HandlesIssued(cache, ctx.issued)
      ensures cache == old(cache) - {KeyOf(p, false)}
      ensures KeyOf(p, true) in old(cache) ==> KeyOf(p, true) in cache
      ensures ctx.released == old(ctx.released) + [m]
      ensures ctx.requests == old(ctx.requests) && ctx.nextId == old(ctx.nextId)
      ensures ctx.issued == old(ctx.issued)
    {
      var key := KeyOf(p, false);
      if key in cache {
        evictions := evictions[key := Count(evictions, key) + 1];
      }
      cache := cache - {key};
      ctx.Release(m);
    }
  }

  /** Checkout, return, checkout of the same size with no other holder in between hands
      back the same Buffer, whether the first checkout reused a Buffer or made one. */
  method ReuseAfterReturn(pool: BufferPool, size: nat) returns (first: Buffer, second: Buffer)
    requires pool.Valid()
    modifies pool`buckets, pool`inUse
    ensures pool.Valid()
    ensures first == second && InUse(pool.inUse, first) && first.size == size
  {
    ghost var bucket0, flags0 := pool.Bucket(size), pool.inUse;
    var r1 := pool.GetBuffer(Normal, size);
    first := r1.value;
    pool.ReturnBuffer(first);
    match FirstFree(bucket0, flags0) {
      case Some(i) =>
        ReturnedIsFirstFree(bucket0, flags0, i, true);
      case None =>
        AppendedIsFirstFree(bucket0, flags0, first, true);
    }
    var r2 := pool.GetBuffer(Normal, size);
    second := r2.value;
  }

  /** Two lookups with the same geometry and export mode return the same handle, and
      the driver is asked at most once. */
  method LookupTwice(pool: BufferPool, ctx: Context, p: Plane, q: Plane, isDma: bool,
                     accepted1: bool, accepted2: bool) returns (m1: ClMem, m2: ClMem)
    requires pool.Valid() && ctx.Valid() && p.Geom() == q.Geom()
    modifies pool`cache, pool`exports, ctx
    ensures pool.Valid() && ctx.Valid()
    ensures m1 == m2 && KeyOf(p, isDma) in pool.cache && pool.cache[KeyOf(p, isDma)] == m1
    ensures |ctx.requests| <= |old(ctx.requests)| + 1
    ensures Count(pool.exports, KeyOf(p, isDma)) == Count(old(pool.exports), KeyOf(p, isDma))
                                                    + (if KeyOf(p, isDma) in old(pool.cache) then 0 else 1)
  {
    m1 := pool.GetClMemFromPlane(p, ctx, isDma, accepted1);
    assert KeyOf(q, isDma) == KeyOf(p, isDma);
    m2 := pool.GetClMemFromPlane(q, ctx, isDma, accepted2);
  }

  /** A zero-copy handle survives its own return: return_cl_mem erases the is_dma = false
      entry, so the next zero-copy lookup of the same plane hands back the handle that
      was just released, without asking the driver again. */
  method ReturnedDmaHandleStays(pool: BufferPool, ctx: Context, p: Plane, accepted1: bool,
                                accepted2: bool) returns (m1: ClMem, m2: ClMem)
    requires pool.Valid() && ctx.Valid()
    modifies pool`cache, pool`exports, pool`evictions, ctx
    ensures pool.Valid() && ctx.Valid()
    ensures m1 == m2 && m1 in ctx.released
    ensures |ctx.requests| ==
      |old(ctx.requests)| + (if KeyOf(p, true) !in old(pool.cache) && ExportRequest(p, true).Some? then 1 else 0)
  {
    m1 := pool.GetClMemFromPlane(p, ctx, true, accepted1);
    pool.ReturnClMem(p, m1, ctx);
    m2 := pool.GetClMemFromPlane(p, ctx, true, accepted2);
  }
}
