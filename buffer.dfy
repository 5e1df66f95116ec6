/** One memory segment: heap memory, or a mapping of a DMA file descriptor. */
module Buffers {
  import opened Wrappers

  datatype Kind = Normal | DmaBuf

  /** The two exceptions the constructor throws: invalid_argument and runtime_error. */
  datatype BufferError = InvalidArgument | MappingFailure

  /** The default descriptor argument, meaning "no descriptor". */
  const NoFd: int := -1

  /** The exception construction throws, if any; `mapped` is whether mmap would succeed. */
  function ConstructError(kind: Kind, fd: int, mapped: bool): (e: Option<BufferError>)
    ensures e == Some(InvalidArgument) <==> kind == DmaBuf && fd == NoFd
    ensures e == Some(MappingFailure) <==> kind == DmaBuf && fd != NoFd && !mapped
    ensures e == None <==> kind == Normal || (fd != NoFd && mapped)
  {
    match kind
    case Normal => None
    case DmaBuf =>
      if fd == NoFd then Some(InvalidArgument)
      else if mapped then None
      else Some(MappingFailure)
  }

  /** A DMA buffer requested without a descriptor fails whatever mmap would have done,
      because mmap is never reached. */
  lemma DmaWithoutFdFails(mapped: bool)
    ensures ConstructError(DmaBuf, NoFd, mapped) == Some(InvalidArgument)
  {
  }

  class Buffer {
    const kind: Kind
    const size: nat
    const fd: int
    /** Whether the data pointer is non-null. */
    const hasData: bool
    /** False once the destructor has run. */
    var alive: bool
    /** munmap calls made on this Buffer's mapping. */
    ghost var unmaps: nat
    /** Releases of this Buffer's heap allocation. */
    ghost var frees: nat

    /** The mapping is unmapped exactly once, at end of life, and only for a DMA Buffer
        with data; heap memory is released at end of life and never unmapped. */
    ghost predicate Valid()
      reads this
    {
      && unmaps == (if !alive && kind == DmaBuf && hasData then 1 else 0)
      && frees == (if !alive && kind == Normal && hasData then 1 else 0)
    }

    /** The state after a construction that did not throw. */
    constructor (kind: Kind, size: nat, fd: int, hasData: bool)
      ensures Valid() && alive
      ensures this.kind == kind && this.size == size && this.fd == fd && this.hasData == hasData
    {
      this.kind := kind;
      this.size := size;
      this.fd := fd;
      this.hasData := hasData;
      alive := true;
      unmaps := 0;
      frees := 0;
    }

    /** The destructor. */
    method Destroy()
      requires Valid() && alive
      modifies this
      ensures Valid() && !alive
      ensures unmaps == old(unmaps) + (if kind == DmaBuf && hasData then 1 else 0)
      ensures frees == old(frees) + (if kind == Normal && hasData then 1 else 0)
    {
      if kind == DmaBuf && hasData {
        unmaps := unmaps + 1;
      }
      if kind == Normal && hasData {
        frees := frees + 1;
      }
      alive := false;
    }
  }

  /** Construction: allocates `size` bytes for Normal, maps `size` bytes of `fd` for DmaBuf,
      and throws without leaving a Buffer behind otherwise. */
  method New(kind: Kind, size: nat, fd: int, mapped: bool) returns (r: Result<Buffer, BufferError>)
    ensures match ConstructError(kind, fd, mapped)
      case Some(e) => r == Err(e)
      case None =>
        && r.Ok? && fresh(r.value) && r.value.Valid() && r.value.alive
        && r.value.kind == kind && r.value.size == size && r.value.fd == fd && r.value.hasData
  {
    if kind == Normal {
      var b := new Buffer(kind, size, fd, true);
      return Ok(b);
    } else if kind == DmaBuf && fd != NoFd {
      if !mapped {
        return Err(MappingFailure);
      }
      var b := new Buffer(kind, size, fd, true);
      return Ok(b);
    } else {
      return Err(InvalidArgument);
    }
  }
}
