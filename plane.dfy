/** A geometry view (width, height, stride) over a shared Buffer, and the choice of how
    to export it as a cl_mem handle. */
module Planes {
  import opened Wrappers
  import opened Buffers
  import opened ClDriver

  datatype Geometry = Geometry(width: nat, height: nat, stride: nat)

  /** Construction stores the Buffer reference and allocates nothing; the fields are the
      accessors get_width, get_height and get_stride. */
  datatype Plane = Plane(width: nat, height: nat, stride: nat, buffer: Buffer) {

    function Geom(): Geometry {
      Geometry(width, height, stride)
    }

    /** get_data: the wrapped Buffer's data pointer, here whether it is non-null. */
    function Data(): bool {
      buffer.hasData
    }
  }

  /** Construction stores its arguments and makes no Buffer: get_width, get_height and
      get_stride read back what was given, and get_data reads the shared Buffer's data
      pointer unchanged. */
  lemma Accessors(width: nat, height: nat, stride: nat, buffer: Buffer)
    ensures var p := Plane(width, height, stride, buffer);
      && p.width == width && p.height == height && p.stride == stride
      && p.Geom() == Geometry(width, height, stride)
      && p.buffer == buffer && p.Data() == buffer.hasData
  {
  }

  /** The creation call to_cl_mem makes, or None when it returns null without calling
      the driver. The descriptor is imported only for a zero-copy request over a DMA
      Buffer; everything else goes through the host pointer, which must be non-null. */
  function ExportRequest(p: Plane, isDma: bool): (r: Option<MemRequest>)
    ensures r.Some? && r.value.ImportFd? <==> isDma && p.buffer.kind == DmaBuf
    ensures r.Some? && r.value.ImportFd? ==> r.value.fd == p.buffer.fd
    ensures r.Some? && r.value.UseHostPtr? ==> r.value.host == p.buffer && p.Data()
    ensures r.None? <==> !(isDma && p.buffer.kind == DmaBuf) && !p.Data()
    ensures r.Some? ==> r.value.bytes == p.stride * p.height
  {
    if isDma && p.buffer.kind == DmaBuf then
      Some(ImportFd(p.buffer.fd, p.stride * p.height))
    else if !p.Data() then
      None
    else
      Some(UseHostPtr(p.buffer, p.stride * p.height))
  }

  /** Over a heap Buffer the export mode makes no difference: both modes ask for the
      same host-pointer handle. */
  lemma NormalIgnoresExportMode(p: Plane)
    requires p.buffer.kind == Normal && p.Data()
    ensures ExportRequest(p, true) == ExportRequest(p, false)
    ensures ExportRequest(p, true).Some? && ExportRequest(p, true).value.UseHostPtr?
  {
  }

  /** to_cl_mem: at most one creation call, the one ExportRequest names. */
  method ToClMem(p: Plane, ctx: Context, isDma: bool, accepted: bool) returns (m: ClMem)
    requires ctx.Valid()
    modifies ctx
    ensures ctx.Valid()
    ensures m.Handle? ==> m !in old(ctx.issued)
    ensures ctx.issued == old(ctx.issued) + (if m.Handle? then {m} else {})
    ensures match ExportRequest(p, isDma)
      case None =>
        m == NullMem && ctx.requests == old(ctx.requests) && ctx.nextId == old(ctx.nextId)
      case Some(req) =>
        && m == (if accepted then Handle(old(ctx.nextId)) else NullMem)
        && ctx.requests == old(ctx.requests) + [req]
        && ctx.nextId == old(ctx.nextId) + (if accepted then 1 else 0)
    ensures ctx.released == old(ctx.released)
  {
    if isDma && p.buffer.kind == DmaBuf {
      m := ctx.Create(ImportFd(p.buffer.fd, p.stride * p.height), accepted);
    } else {
      if !p.Data() {
        return NullMem;
      }
      m := ctx.Create(UseHostPtr(p.buffer, p.stride * p.height), accepted);
    }
  }
}
