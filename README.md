# Host-side image memory: Buffer, BufferPool, Plane, Image

This project models the memory-management layer of an OpenCL image-processing
code base (namespace `bos::mm`, headers `BufferPool.h`, `Plane.h` and `Image.h`)
in Dafny and proves what it promises.

- A **Buffer** is one memory segment, either heap memory (`NORMAL`) or a
  mapping of a DMA file descriptor (`DMABUF`). Construction checks the
  kind/descriptor pair and throws without leaving a Buffer behind. Destruction
  unmaps only a DMA mapping.
- A **BufferPool** keeps two tables:
  - buckets of Buffers keyed by exact size, with an in-use flag per Buffer,
    used for checkout with reuse and for return;
  - a cache of `cl_mem` handles keyed by plane geometry and export mode.
- A **Plane** is a `(width, height, stride)` view over a shared Buffer.
  `to_cl_mem` picks the zero-copy descriptor import or the host-pointer path.
- An **Image** turns a pixel format and a size into an ordered list of planes,
  over Buffers taken from a pool or supplied by the caller.

Modules, one per file:

| file | module | contents |
|---|---|---|
| `wrappers.dfy` | `Wrappers` | `Option`, `Result` |
| `buffer.dfy` | `Buffers` | `Kind`, the constructor's outcome `ConstructError`, class `Buffer`, `New` |
| `driver.dfy` | `ClDriver` | stand-in for the three OpenCL calls: handle ids and a log of requests and releases |
| `plane.dfy` | `Planes` | datatype `Plane`, `ExportRequest`, `ToClMem` |
| `buffer_pool.dfy` | `Pools` | class `BufferPool`, the scan `FirstFree`, scenario methods |
| `image.dfy` | `Images` | `Format`, the per-format table `Layout`/`PoolSizes`, class `Image` |

How the foreign parts are modelled:

- Whether `mmap` succeeds is the parameter `mapped` of `Buffers.New`. The
  data pointer is the flag `hasData`.
- `munmap` and the release of heap memory are ghost counters on the Buffer.
- Whether the driver creates a handle is the parameter `accepted`.
  `ClDriver.Context` hands out fresh ids and logs every creation request and
  every release.
- Each locked pool method is one atomic method.

## Model

| member | source | states |
|---|---|---|
| `Buffers.ConstructError` | BufferPool.h:26-46 | construction throws invalid_argument exactly for DMABUF with descriptor -1, runtime_error exactly for DMABUF with a descriptor whose mapping fails, and succeeds exactly for NORMAL or a mapped descriptor |
| `Buffers.DmaWithoutFdFails` | BufferPool.h:33-45 | a DMABUF request with the default descriptor never reaches mmap and always throws invalid_argument |
| `Buffers.New` | BufferPool.h:26-46 | a throwing construction yields no Buffer; a successful one yields a fresh live Buffer with the requested kind, size and descriptor and a non-null data pointer |
| `Buffers.Buffer.constructor` | BufferPool.h:26-27 | the fields are the constructor arguments, which the getters get_type, get_dma_fd and get_size (BufferPool.h:62-68) read back as constant fields; nothing is unmapped or freed yet |
| `Buffers.Buffer.Destroy` | BufferPool.h:49-56 | destruction unmaps exactly once and only a DMABUF Buffer with data; a NORMAL Buffer is never unmapped (its heap memory is released instead) |
| `ClDriver.Context.Create` | Plane.h:40-52 | one creation call: an accepted call yields a handle outside the set of handles issued so far and adds it to that set, a refused one yields null and issues nothing; the request is logged |
| `ClDriver.Context.Release` | BufferPool.h:184 | clReleaseMemObject: the handle is logged as released; the issued handles, the request log and the next id are unchanged |
| `Planes.Accessors` | Plane.h:17-30 | construction stores its arguments and makes no Buffer; get_width, get_height and get_stride read them back, and get_data is the shared Buffer's data pointer unchanged |
| `Planes.ExportRequest` | Plane.h:33-54 | the descriptor is imported exactly when is_dma is set and the Buffer is DMABUF, with the Buffer's descriptor; otherwise the host pointer is used, and a null pointer yields null with no call; both paths ask for stride times height bytes |
| `Planes.NormalIgnoresExportMode` | Plane.h:35-53 | over a NORMAL Buffer with data, is_dma = true and is_dma = false ask for the same host-pointer handle |
| `Planes.ToClMem` | Plane.h:33-54 | to_cl_mem makes at most one driver call, the one `ExportRequest` names, and returns its handle, or null with no call; a non-null handle is one the context had not issued before |
| `Pools.FirstFree` | BufferPool.h:132-140 | the scan's stopping point is a Buffer not in use with every earlier Buffer in use; there is none exactly when every Buffer of the bucket is in use |
| `Pools.FirstFreeIsFirst` | BufferPool.h:133-139 | a free Buffer preceded only by Buffers in use is the one the scan returns |
| `Pools.ReturnedIsFirstFree` | BufferPool.h:133-139 | in a bucket of distinct Buffers, the first free Buffer, checked out and then returned, is again the first free one |
| `Pools.AppendedIsFirstFree` | BufferPool.h:142-146 | when no Buffer of a bucket is free, the appended Buffer, once returned, is the first free one |
| `Pools.CheckoutsGrow` | BufferPool.h:132-146 | a run of get_buffer(NORMAL, …) calls only appends to buckets (every earlier bucket is a prefix of its later self) and leaves each Buffer it handed out in the bucket of the size it was asked for |
| `Pools.BufferPool.constructor` | BufferPool.h:120-124 | construction gives every declared size an empty bucket, allocates no Buffer, flags nothing and caches nothing |
| `Pools.BufferPool.AllocateBuffers` | BufferPool.h:196-203 | every declared size gets an empty bucket; other buckets are untouched |
| `Pools.BufferPool.GetBuffer` | BufferPool.h:127-147 | the first free Buffer of the bucket is returned and flagged, the bucket is unchanged, and the requested kind is ignored; with none free, a new NORMAL Buffer of that size is appended and flagged with every other flag unchanged; a DMABUF miss throws invalid_argument after default-inserting the bucket; every NORMAL call is one `Pools.NormalCheckout` step, the step a checkout run is built from; the pool invariant is kept |
| `Pools.BufferPool.ReturnBuffer` | BufferPool.h:150-154 | return only clears the Buffer's flag: nothing is removed or destroyed |
| `Pools.BufferPool.GetClMemFromPlane` | BufferPool.h:157-175 | a hit returns the cached handle with no driver call and issues nothing; a miss makes the one call to_cl_mem makes and caches its result, null included, and issues exactly the handle returned if it is non-null; to_cl_mem was called for a key once per time the key entered the cache; when every cached handle was null or issued, that stays so, and a non-null handle made on a miss differs from every handle cached before |
| `Pools.BufferPool.ReturnClMem` | BufferPool.h:178-185 | the entry with is_dma = false is erased, the entry with is_dma = true stays, and the handle is released; no handle is created |
| `Pools.ReuseAfterReturn` | BufferPool.h:127-154 | get, return, get of one size with no holder in between hands back the same Buffer, whether the first get reused or created it |
| `Pools.LookupTwice` | BufferPool.h:157-175 | two lookups with the same geometry and export mode return the same cached handle and ask the driver at most once |
| `Pools.ReturnedDmaHandleStays` | BufferPool.h:157-185 | after a zero-copy lookup and its return, the next zero-copy lookup hands back the handle just released; the only driver call over the three steps is the first lookup's, made exactly when it misses and the export has a request |
| `Images.Layout` | Image.h:45-68 | RGB and RGBA have one plane (w, h, 3w); NV12 and NV21 have the plane (w, h, w) and one (w/2, h/2, w/2); YUV420 and YUV422 have (w, h, w) and two (w/2, h/2, w/2) |
| `Images.PoolSizes` | Image.h:48-66 | one Buffer size per plane, in plane order |
| `Images.LayoutFits` | Image.h:45-68 | every pool-built plane's stride times height is at most the size of the Buffer requested for it, with truncating division |
| `Images.EvenLayoutExact` | Image.h:45-68 | with even dimensions every plane covers its whole Buffer, except the NV12/NV21 chroma plane, which covers exactly half of it |
| `Images.PlanesOver` | Image.h:75-91 | plane i has the table's i-th geometry and wraps the i-th Buffer |
| `Images.Image.FromPool` | Image.h:28-32 | the pool constructor builds the table's planes; plane i's Buffer is what get_buffer(NORMAL, size i) hands out in plane order, starting from the pool as it was: the first Buffer of its bucket free at that point, or a new one appended; buckets only grow at their ends, each plane's Buffer lies in the bucket of its size, the Buffers are distinct, none was in use before and all are in use after, and no other flag changed or appeared |
| `Images.Image.CreatePlanesFromPool` | Image.h:42-69 | the planes are built from the pool as it was (`BuiltFromPool`): the table's geometry, and get_buffer(NORMAL, size) once per plane in plane order (Y, then UV or U then V) with the table's sizes, each call's outcome as get_buffer states it; the Buffers handed out are distinct, were free and are now in use |
| `Images.Image.CreatePackedPlane` | Image.h:45-50 | RGB and RGBA: one checkout of w*h*3 bytes for the plane (w, h, 3w), as `BuiltFromPool` states it |
| `Images.Image.CreateSemiPlanarPlanes` | Image.h:51-58 | NV21 and NV12: a checkout of w*h bytes for the Y plane, then one of w*h/2 bytes for the UV plane, as `BuiltFromPool` states it |
| `Images.Image.CreatePlanarPlanes` | Image.h:59-68 | YUV420 and YUV422: checkouts of w*h, w*h/4 and w*h/4 bytes for the Y, U and V planes, in that order, as `BuiltFromPool` states it |
| `Images.Image.PushPoolPlane` | Image.h:54-55 | one get_buffer(NORMAL, size) and push_back: the plane list grows by exactly that plane, the record of pool states grows by the state get_buffer leaves, and that checkout is the next one of the run |
| `Images.Image.FromExternal` | Image.h:35-39 | the external constructor gives the same plane count and geometry as the pool constructor, and plane i wraps external Buffer i |
| `Images.Image.CreatePlanesFromExternalBuffers` | Image.h:72-92 | the planes are exactly the table's planes over the external Buffers |
| `Images.Image.GetPlanes` | Image.h:95-98 | the planes come back in plane order, with the table's count and geometry |

## Left out

- The `std::mutex` locks are left out. The pool is modelled sequentially, and each locked method is one atomic step.
- The real `mmap`, `munmap`, `clCreateBuffer`, `clCreateBufferFromFd` and `clReleaseMemObject` calls are left out. They are foreign calls; their outcomes are parameters, and their effects are counters and logs.
- The inheriting `Plane` of BufferPool.h:78-114 is left out. It duplicates Plane.h's `Plane`, which `Image` uses.
- The benchmark programs, the OpenCL kernels and their file I/O are not part of this model.
- Heap allocation failure (`std::bad_alloc` from `make_unique`, `make_shared` or `push_back`) is not modelled: allocation always succeeds.
- Buffers.Buffer.Destroy: releases a NORMAL Buffer's heap memory. The source assigns a `unique_ptr` to a raw pointer (BufferPool.h:31), which cannot compile as written and would leak if it did; the intended behaviour is modelled.
- The `cl_mem` cache key is a datatype. The source's tuple key has no hash (BufferPool.h:193), which is a compile error; equality of keys is what the model keeps.
- Pools.BufferPool.ReturnClMem: keeps the source's behaviour of always erasing the key with is_dma = false (BufferPool.h:181). An entry made with is_dma = true is never erased, and `Pools.ReturnedDmaHandleStays` shows its consequence.
- Images.Image.FromExternal: requires at least one external Buffer per plane. The source indexes the vector without a check (Image.h:78, 83-84, 88-90), which is undefined behaviour otherwise.
- The model leaves the `buffer_pool` reference unset (null) in an Image built from external Buffers. In the source that reference is left uninitialised (Image.h:35-38), which cannot compile.
- Image.h:88 dereferences `*external_buffers[0]`. The model wraps `external_buffers[0]` as lines 78 and 83 do.
- BufferPool.h:157 and 178 take the inheriting `Plane` of BufferPool.h:78. The model passes Plane.h's `Plane` instead; the two have the same `to_cl_mem` logic (BufferPool.h:89-110 and Plane.h:33-54).
- The message `to_cl_mem` writes to `std::cerr` when the data pointer is null (Plane.h:48) is not modelled: output is left out; the null handle it returns is.
- Buffers.Buffer.Destroy: the pool's shared ownership of its Buffers (BufferPool.h:143-144, 188), by which a Buffer's destructor never runs while it sits in a bucket, is not modelled: any caller may destroy a Buffer the pool still holds, and `Pools.BufferPool.GetBuffer` does not promise that a reused Buffer is still alive (it does for a newly created one).
- ClDriver.Context.Create: never hands out a handle value twice, even after that handle is released. A real driver may return a released object's pointer value again, so the freshness `Planes.ToClMem` and `Pools.BufferPool.GetClMemFromPlane` state holds only for this model's driver.
- Pools.BufferPool.GetClMemFromPlane: states that a new handle differs from every cached one only when every cached handle is null or was issued by the context passed in. The source does not tie a pool to one OpenCL context, so the model does not demand it.
- `to_cl_mem` is non-const but is called on a `const Plane&` (BufferPool.h:171). The model calls it on the plane value.
- Images.PoolSizes: `size_t` wrap-around of `width * height * 3` and of the other products is not modelled; sizes are unbounded.
- Images.Image.CreatePlanesFromPool: each branch of the if/else chain of Image.h:45-68 is a method of its own (`CreatePackedPlane`, `CreateSemiPlanarPlanes`, `CreatePlanarPlanes`), with the same calls in the same order and with the same arguments.
- Pools.BufferPool.GetBuffer: the bucket's default insertion by `operator[]` is observable only on the throwing path. On every other path the final bucket table is the same whether or not the insertion is written before the scan.
- A Buffer's data is a flag for whether the pointer is non-null. The bytes themselves are not modelled.
