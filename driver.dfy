/** The three OpenCL calls the core makes (clCreateBufferFromFd, clCreateBuffer,
    clReleaseMemObject), reduced to a handle counter and a log of what was asked. */
module ClDriver {
  import opened Buffers

  /** A cl_mem handle: null, or the id of a handle the driver issued. */
  datatype ClMem = NullMem | Handle(id: nat)

  /** What a creation call asks for: import of a DMA descriptor, or a handle over a
      Buffer's host memory; both cover `bytes` bytes. */
  datatype MemRequest =
    | ImportFd(fd: int, bytes: nat)
    | UseHostPtr(host: Buffer, bytes: nat)

  class Context {
    /** The id the next accepted creation gets. */
    var nextId: nat
    /** Every creation call made, in order. */
    ghost var requests: seq<MemRequest>
    /** Every handle passed to clReleaseMemObject, in order. */
    ghost var released: seq<ClMem>
    /** Every handle an accepted creation call has yielded. */
    ghost var issued: set<ClMem>

    /** Every issued handle is non-null and has an id below the next one. */
    ghost predicate Valid()
      reads this
    {
      forall h | h in issued :: h.Handle? && h.id < nextId
    }

    constructor ()
      ensures Valid()
      ensures nextId == 0 && requests == [] && released == [] && issued == {}
    {
      nextId := 0;
      requests := [];
      released := [];
      issued := {};
    }

    /** One creation call; `accepted` is whether the driver creates the handle. An
        accepted call yields a handle no earlier call has yielded. */
    method Create(req: MemRequest, accepted: bool) returns (m: ClMem)
      requires Valid()
      modifies this
      ensures Valid()
      ensures m == (if accepted then Handle(old(nextId)) else NullMem)
      ensures accepted ==> m !in old(issued) && issued == old(issued) + {m}
      ensures !accepted ==> issued == old(issued)
      ensures nextId == old(nextId) + (if accepted then 1 else 0)
      ensures requests == old(requests) + [req] && released == old(released)
    {
      requests := requests + [req];
      if accepted {
        m := Handle(nextId);
        issued := issued + {m};
        nextId := nextId + 1;
      } else {
        m := NullMem;
      }
    }

    method Release(m: ClMem)
      modifies this
      ensures released == old(released) + [m]
      ensures requests == old(requests) && nextId == old(nextId) && issued == old(issued)
    {
      released := released + [m];
    }
  }
}
