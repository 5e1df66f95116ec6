/** A pixel format and a size turned into an ordered list of planes, over Buffers taken
    from a pool or supplied by the caller. */
module Images {
  import opened Wrappers
  import opened Buffers
  import opened Planes
  import opened Pools

  datatype Format = RGB | RGBA | YUV420 | YUV422 | NV21 | NV12

  function PlaneCount(f: Format): nat {
    match f
    case RGB | RGBA => 1
    case NV21 | NV12 => 2
    case YUV420 | YUV422 => 3
  }

  /** The geometry of each plane, in plane order: the packed plane with 3 bytes per
      pixel (RGBA too), or the full-size luma plane followed by chroma planes of half
      the width and half the height with a stride of half the width. */
  function Layout(f: Format, w: nat, h: nat): (ls: seq<Geometry>)
    ensures |ls| == PlaneCount(f)
    ensures f.RGB? || f.RGBA? ==> ls[0] == Geometry(w, h, w * 3)
    ensures !(f.RGB? || f.RGBA?) ==> ls[0] == Geometry(w, h, w)
    ensures forall i | 1 <= i < |ls| :: ls[i] == Geometry(w / 2, h / 2, w / 2)
  {
    match f
    case RGB | RGBA => [Geometry(w, h, w * 3)]
    case NV21 | NV12 => [Geometry(w, h, w), Geometry(w / 2, h / 2, w / 2)]
    case YUV420 | YUV422 =>
      [Geometry(w, h, w), Geometry(w / 2, h / 2, w / 2), Geometry(w / 2, h / 2, w / 2)]
  }

  /** The size asked of the pool for each plane, in plane order. */
  function PoolSizes(f: Format, w: nat, h: nat): (ss: seq<nat>)
    ensures |ss| == PlaneCount(f)
  {
    match f
    case RGB | RGBA => [w * h * 3]
    case NV21 | NV12 => [w * h, w * h / 2]
    case YUV420 | YUV422 => [w * h, w * h / 4, w * h / 4]
  }

  /** The bytes a cl_mem handle for a plane of this geometry covers. */
  function Bytes(g: Geometry): nat {
    g.stride * g.height
  }

  lemma MulLe(a: nat, b: nat, c: nat, d: nat)
    requires a <= b && c <= d
    ensures a * c <= b * d
  {
    assert a * c <= b * c;
    assert b * c <= b * d;
  }

  /** A half-width, half-height plane covers at most a quarter of the full area. */
  lemma QuarterBound(w: nat, h: nat)
    ensures (w / 2) * (h / 2) <= w * h / 4
  {
    var a, b := w / 2, h / 2;
    MulLe(2 * a, w, 2 * b, h);
    assert (2 * a) * (2 * b) == 4 * (a * b);
  }

  /** Every plane fits the Buffer requested for it: stride times height is at most the
      pool size of that plane, with the truncating divisions of the size table. */
  lemma {:induction false} LayoutFits(f: Format, w: nat, h: nat)
    ensures forall i | 0 <= i < PlaneCount(f) :: Bytes(Layout(f, w, h)[i]) <= PoolSizes(f, w, h)[i]
  {
    QuarterBound(w, h);
    assert (w * 3) * h == w * h * 3;
    assert w * h / 4 <= w * h / 2;
  }

  /** With even dimensions the table is exact: every plane covers its whole Buffer,
      except the interleaved chroma plane of NV12 and NV21, which covers half of it. */
  lemma {:induction false} EvenLayoutExact(f: Format, w: nat, h: nat)
    requires w % 2 == 0 && h % 2 == 0
    ensures forall i | 0 <= i < PlaneCount(f) ::
      Bytes(Layout(f, w, h)[i]) * (if (f.NV12? || f.NV21?) && i == 1 then 2 else 1)
        == PoolSizes(f, w, h)[i]
  {
    var a, b := w / 2, h / 2;
    assert w * h == 4 * (a * b) by {
      assert w == 2 * a && h == 2 * b;
    }
    assert (w * 3) * h == w * h * 3;
  }

  /** The planes of format `f` over `buffers`: plane i has the i-th geometry of the
      table and wraps buffers[i]. */
  function PlanesOver(f: Format, w: nat, h: nat, buffers: seq<Buffer>): (ps: seq<Plane>)
    requires PlaneCount(f) <= |buffers|
    ensures |ps| == PlaneCount(f)
    ensures forall i | 0 <= i < |ps| :: ps[i].Geom() == Layout(f, w, h)[i] && ps[i].buffer == buffers[i]
  {
    var ls := Layout(f, w, h);
    seq(|ls|, i requires 0 <= i < |ls| => Plane(ls[i].width, ls[i].height, ls[i].stride, buffers[i]))
  }

  /** The geometry of each plane, in plane order. */
  function Geometries(ps: seq<Plane>): (gs: seq<Geometry>)
    ensures |gs| == |ps| && forall i | 0 <= i < |ps| :: gs[i] == ps[i].Geom()
  {
    seq(|ps|, i requires 0 <= i < |ps| => ps[i].Geom())
  }

  /** The Buffer of each plane, in plane order. */
  function BuffersOf(ps: seq<Plane>): (bs: seq<Buffer>)
    ensures |bs| == |ps| && forall i | 0 <= i < |ps| :: bs[i] == ps[i].buffer
  {
    seq(|ps|, i requires 0 <= i < |ps| => ps[i].buffer)
  }

  /** The Buffers `bs` were handed out by checkouts that began with flags `before` and
      ended with flags `after`: they are distinct, none was in use before, all are in use
      after, no other flag changed and no other flag appeared. */
  ghost predicate CheckedOut(bs: seq<Buffer>, before: map<Buffer, bool>, after: map<Buffer, bool>) {
    && (forall i, j | 0 <= i < j < |bs| :: bs[i] != bs[j])
    && (forall i | 0 <= i < |bs| :: !InUse(before, bs[i]) && InUse(after, bs[i]))
    && (forall b | b in before && b !in bs :: b in after && after[b] == before[b])
    && (forall b | b in after :: b in before || b in bs)
  }

  /** Flagging one more Buffer that was free extends the record. */
  lemma CheckedOutStep(bs: seq<Buffer>, before: map<Buffer, bool>, after: map<Buffer, bool>, b: Buffer)
    requires CheckedOut(bs, before, after) && !InUse(after, b)
    ensures CheckedOut(bs + [b], before, after[b := true])
  {
    assert b !in bs;
  }

  class Image {
    const format: Format
    const width: nat
    const height: nat
    /** buffer_pool; set only by the pool constructor. */
    const pool: BufferPool?
    /** external_buffers; empty for a pool-built Image. */
    const externalBuffers: seq<Buffer>
    var planes: seq<Plane>
    /** The pool states create_planes_from_pool passed through: the state before the
        first get_buffer, then the state after each one. */
    ghost var poolTrace: seq<PoolState>

    /** Plane count and geometry are those of the table for the format and size. */
    ghost predicate Valid()
      reads this
    {
      Geometries(planes) == Layout(format, width, height)
    }

    /** The Image built from the pool: one get_buffer(NORMAL, size) per plane, in plane
        order with the sizes of the table, each taking the first free Buffer of its bucket
        or appending a new one. The Buffers are distinct, none was in use before, all are
        in use now, no other flag changed, and buckets only grew at their ends. */
    constructor FromPool(format: Format, width: nat, height: nat, pool: BufferPool)
      requires pool.Valid()
      modifies pool`buckets, pool`inUse
      ensures Valid() && pool.Valid()
      ensures this.format == format && this.width == width && this.height == height
      ensures this.pool == pool && externalBuffers == []
      ensures Checkouts(PoolSizes(format, width, height), poolTrace, BuffersOf(planes))
      ensures poolTrace[0] == PoolState(old(pool.buckets), old(pool.inUse))
      ensures poolTrace[|planes|] == PoolState(pool.buckets, pool.inUse)
      ensures Grew(old(pool.buckets), pool.buckets)
      ensures forall i | 0 <= i < |planes| ::
        && planes[i].buffer in pool.Bucket(PoolSizes(format, width, height)[i])
        && planes[i].buffer.size == PoolSizes(format, width, height)[i] && planes[i].buffer.kind == Normal
      ensures CheckedOut(BuffersOf(planes), old(pool.inUse), pool.inUse)
    {
      this.format := format;
      this.width := width;
      this.height := height;
      this.pool := pool;
      externalBuffers := [];
      planes := [];
      poolTrace := [];
      new;
      CreatePlanesFromPool();
      CheckoutsGrow(PoolSizes(format, width, height), poolTrace, BuffersOf(planes));
    }

    /** The planes were built from the pool, starting from the bucket table `buckets0`
        and the flags `flags0`: the table's geometry, and one get_buffer(NORMAL, size)
        per plane in plane order with the table's sizes, through the states `poolTrace`
        records, handing out distinct Buffers that were free and are now in use. */
    ghost predicate BuiltFromPool(buckets0: map<nat, seq<Buffer>>, flags0: map<Buffer, bool>)
      reads this, pool
    {
      && Valid() && pool != null && pool.Valid()
      && Checkouts(PoolSizes(format, width, height), poolTrace, BuffersOf(planes))
      && poolTrace[0] == PoolState(buckets0, flags0)
      && poolTrace[|planes|] == PoolState(pool.buckets, pool.inUse)
      && CheckedOut(BuffersOf(planes), flags0, pool.inUse)
    }

    /** create_planes_from_pool: one Normal Buffer per plane, requested in plane order
        with the sizes of the table. Each format family is its own method below. */
    method CreatePlanesFromPool()
      requires pool != null && pool.Valid() && planes == []
      modifies this`planes, this`poolTrace, pool`buckets, pool`inUse
      ensures BuiltFromPool(old(pool.buckets), old(pool.inUse))
    {
      poolTrace := [PoolState(pool.buckets, pool.inUse)];
      if format == RGB || format == RGBA {
        CreatePackedPlane();
      } else if format == NV21 || format == NV12 {
        CreateSemiPlanarPlanes();
      } else {
        CreatePlanarPlanes();
      }
    }

    /** RGB and RGBA: one plane (w, h, 3w) over a Buffer of w*h*3 bytes. */
    method CreatePackedPlane()
      requires format == RGB || format == RGBA
      requires pool != null && pool.Valid() && planes == [] && poolTrace == [PoolState(pool.buckets, pool.inUse)]
      modifies this`planes, this`poolTrace, pool`buckets, pool`inUse
      ensures BuiltFromPool(old(pool.buckets), old(pool.inUse))
    {
      ghost var before, sizes := pool.inUse, PoolSizes(format, width, height);
      assert sizes == [width * height * 3];
      var buffer := PushPoolPlane(Geometry(width, height, width * 3), width * height * 3, before, sizes);
    }

    /** NV21 and NV12: the Y plane, then the interleaved UV plane. */
    method CreateSemiPlanarPlanes()
      requires format == NV21 || format == NV12
      requires pool != null && pool.Valid() && planes == [] && poolTrace == [PoolState(pool.buckets, pool.inUse)]
      modifies this`planes, this`poolTrace, pool`buckets, pool`inUse
      ensures BuiltFromPool(old(pool.buckets), old(pool.inUse))
    {
      ghost var before, sizes := pool.inUse, PoolSizes(format, width, height);
      assert sizes == [width * height, width * height / 2];
      var bufferY := PushPoolPlane(Geometry(width, height, width), width * height, before, sizes);
      var bufferUV := PushPoolPlane(Geometry(width / 2, height / 2, width / 2), width * height / 2, before, sizes);
    }

    /** YUV420 and YUV422: the Y plane, then the U plane, then the V plane. */
    method CreatePlanarPlanes()
      requires format == YUV420 || format == YUV422
      requires pool != null && pool.Valid() && planes == [] && poolTrace == [PoolState(pool.buckets, pool.inUse)]
      modifies this`planes, this`poolTrace, pool`buckets, pool`inUse
      ensures BuiltFromPool(old(pool.buckets), old(pool.inUse))
    {
      ghost var before, sizes := pool.inUse, PoolSizes(format, width, height);
      assert sizes == [width * height, width * height / 4, width * height / 4];
      var bufferY := PushPoolPlane(Geometry(width, height, width), width * height, before, sizes);
      var bufferU := PushPoolPlane(Geometry(width / 2, height / 2, width / 2), width * height / 4, before, sizes);
      var bufferV := PushPoolPlane(Geometry(width / 2, height / 2, width / 2), width * height / 4, before, sizes);
    }

    /** One step of create_planes_from_pool: get_buffer(NORMAL, size), which cannot fail,
        then push_back of a plane of geometry g over the Buffer it hands out. */
    method PushPoolPlane(g: Geometry, size: nat, ghost before: map<Buffer, bool>, ghost sizes: seq<nat>)
      returns (b: Buffer)
      requires pool != null && pool.Valid()
      requires CheckedOut(BuffersOf(planes), before, pool.inUse)
      requires Checkouts(sizes, poolTrace, BuffersOf(planes)) && |planes| < |sizes| && sizes[|planes|] == size
      requires poolTrace[|planes|] == PoolState(pool.buckets, pool.inUse)
      modifies this`planes, this`poolTrace, pool`buckets, pool`inUse
      ensures pool.Valid()
      ensures planes == old(planes) + [Plane(g.width, g.height, g.stride, b)]
      ensures Geometries(planes) == Geometries(old(planes)) + [g]
      ensures poolTrace == old(poolTrace) + [PoolState(pool.buckets, pool.inUse)]
      ensures Checkouts(sizes, poolTrace, BuffersOf(planes))
      ensures CheckedOut(BuffersOf(planes), before, pool.inUse)
    {
      var r := pool.GetBuffer(Normal, size);
      b := r.value;
      ghost var s1 := PoolState(pool.buckets, pool.inUse);
      CheckedOutStep(BuffersOf(planes), before, old(pool.inUse), b);
      CheckoutsStep(sizes, poolTrace, BuffersOf(planes), b, s1);
      planes := planes + [Plane(g.width, g.height, g.stride, b)];
      poolTrace := poolTrace + [s1];
      assert BuffersOf(planes) == BuffersOf(old(planes)) + [b];
      assert Geometries(planes) == Geometries(old(planes)) + [g];
    }

    /** The Image over caller-supplied Buffers: plane i wraps externalBuffers[i], with
        the same geometry as a pool-built Image. The source indexes the vector without
        checking it, so at least one Buffer per plane is demanded of the caller. */
    constructor FromExternal(format: Format, width: nat, height: nat, external: seq<Buffer>)
      requires PlaneCount(format) <= |external|
      ensures Valid()
      ensures this.format == format && this.width == width && this.height == height
      ensures pool == null && externalBuffers == external
      ensures planes == PlanesOver(format, width, height, external)
    {
      this.format := format;
      this.width := width;
      this.height := height;
      pool := null;
      externalBuffers := external;
      planes := [];
      poolTrace := [];
      new;
      CreatePlanesFromExternalBuffers();
    }

    /** create_planes_from_external_buffers. */
    method CreatePlanesFromExternalBuffers()
      requires PlaneCount(format) <= |externalBuffers| && planes == []
      modifies this`planes
      ensures Valid()
      ensures planes == PlanesOver(format, width, height, externalBuffers)
    {
      match format {
        case RGB | RGBA =>
          planes := planes + [Plane(width, height, width * 3, externalBuffers[0])];
        case NV21 | NV12 =>
          planes := planes + [Plane(width, height, width, externalBuffers[0])];
          planes := planes + [Plane(width / 2, height / 2, width / 2, externalBuffers[1])];
        case YUV420 | YUV422 =>
          planes := planes + [Plane(width, height, width, externalBuffers[0])];
          planes := planes + [Plane(width / 2, height / 2, width / 2, externalBuffers[1])];
          planes := planes + [Plane(width / 2, height / 2, width / 2, externalBuffers[2])];
      }
    }

    /** get_planes: the planes in plane order, with the table's count and geometry. */
    function GetPlanes(): (ps: seq<Plane>)
      reads this
      requires Valid()
      ensures |ps| == PlaneCount(format)
      ensures forall i | 0 <= i < |ps| :: ps[i].Geom() == Layout(format, width, height)[i]
    {
      planes
    }
  }
}
