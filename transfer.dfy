/** Buffers backed by device memory and the staged vertex upload: the `Allocator` of
    src/renderer/buffer.rs, `create_buffer`, `copy_buffer` and `new` of
    src/render_backends/vulkan/vertex_buffer.rs, and `copy_vertices_to_device`. */
module Transfer {
  import opened Wrappers
  import opened Vk
  import opened DeviceLog
  import opened GpuDevice
  import opened CommandRecorder
  import opened MemoryTypeSelection

  function Min(a: nat, b: nat): (r: nat)
    ensures r <= a && r <= b && (r == a || r == b)
  {
    if a <= b then a else b
  }

  /** The memory type the search picks, or 0 when it fails (nothing is allocated then). */
  function ChosenType(req: MemoryRequirements, types: MemoryTypes, flags: Flags): nat {
    var t := MemoryTypeIndex(req, types, flags);
    if t.Ok? then t.value else 0
  }

  /** Create the buffer, then search for its memory type. */
  function CreateOps(size: nat, usage: Flags, flags: Flags, req: MemoryRequirements): seq<Op> {
    [CreateBufferOp(size, usage), FindMemoryTypeOp(req.memoryTypeBits, flags)]
  }

  /** Allocate the requirement size of the chosen type, then bind it at offset 0. */
  function BindOps(req: MemoryRequirements, typeIndex: nat, buffer: nat, memory: nat): seq<Op> {
    [AllocateMemoryOp(req.size, typeIndex), BindBufferMemoryOp(buffer, memory, 0)]
  }

  /** The steps of `create_buffer` when the buffer receives handle `buffer` (and its
      memory the next one). */
  function BoundBufferOps(size: nat, usage: Flags, flags: Flags, req: MemoryRequirements, types: MemoryTypes, buffer: nat): seq<Op> {
    CreateOps(size, usage, flags, req) + BindOps(req, ChosenType(req, types, flags), buffer, buffer + 1)
  }

  /** Create a buffer and search for a memory type that `flags` allows for it. */
  method CreateUnbound(device: Device, size: nat, usage: Flags, flags: Flags) returns (r: Result<(nat, nat)>)
    requires device.Valid() && size > 0
    modifies device`buffers, device`nextHandle, device`calls, device`log
    ensures device.Valid()
    ensures var req := device.requirementsOf(old(device.nextHandle));
      r.Ok? ==> r.value == (old(device.nextHandle), ChosenType(req, device.memoryTypes, flags))
                && MemoryTypeIndex(req, device.memoryTypes, flags).Ok?
                && r.value.1 < MAX_MEMORY_TYPES && Allowed(req.memoryTypeBits, r.value.1)
    ensures var req := device.requirementsOf(old(device.nextHandle));
      r.Ok? || device.nextHandle != old(device.nextHandle) ==>
        device.nextHandle == old(device.nextHandle) + 1
        && device.buffers == old(device.buffers)[old(device.nextHandle) := BufferState(size, usage, req, None)]
    ensures r.Err? && device.nextHandle == old(device.nextHandle) ==>
      device.buffers == old(device.buffers)
    ensures r.Err? && device.nextHandle != old(device.nextHandle) ==>
      MemoryTypeIndex(device.requirementsOf(old(device.nextHandle)), device.memoryTypes, flags) == Err(r.error)
    ensures var ops := CreateOps(size, usage, flags, device.requirementsOf(old(device.nextHandle)));
      (r.Ok? ==> RanAll(device.log, old(device.log), ops)) && (r.Err? ==> RanUntilFailure(device.log, old(device.log), ops))
  {
    ghost var log0 := device.log;
    ghost var ops := CreateOps(size, usage, flags, device.requirementsOf(device.nextHandle));
    Start(log0, ops);
    var created := device.CreateBuffer(size, usage);
    Step(device.log, log0, log0, ops, 0, created.Ok?);
    if created.Err? {
      return Err(created.error);
    }
    var buffer := created.value;
    var req := device.GetBufferMemoryRequirements(buffer);
    ghost var mid := device.log;
    var found := device.FindMemoryType(req, flags);
    Step(device.log, mid, log0, ops, 1, found.Ok?);
    if found.Err? {
      return Err(found.error);
    }
    ResultIsAllowedSuperset(req, device.memoryTypes, flags);
    return Ok((buffer, found.value));
  }

  /** Allocate memory of the buffer's requirement size and type `typeIndex`, and bind it
      to the buffer at offset 0. */
  method BindNewMemory(device: Device, buffer: nat, typeIndex: nat) returns (r: Result<nat>)
    requires device.Valid() && buffer in device.buffers && device.buffers[buffer].memory.None?
    requires typeIndex < MAX_MEMORY_TYPES && Allowed(device.buffers[buffer].requirements.memoryTypeBits, typeIndex)
    requires device.buffers[buffer].requirements.size > 0
    modifies device`buffers, device`memories, device`nextHandle, device`calls, device`log
    ensures device.Valid()
    ensures r.Err? ==> device.buffers == old(device.buffers)
    ensures var req := old(device.buffers[buffer].requirements);
      device.nextHandle != old(device.nextHandle) ==>
        device.nextHandle == old(device.nextHandle) + 1
        && device.memories == old(device.memories)[old(device.nextHandle) := MemoryState(req.size, typeIndex, None)]
    ensures device.nextHandle == old(device.nextHandle) ==> r.Err? && device.memories == old(device.memories)
    ensures r.Ok? ==> r.value == old(device.nextHandle)
                      && device.buffers == old(device.buffers)[buffer := old(device.buffers[buffer]).(memory := Some(r.value))]
    ensures var ops := BindOps(old(device.buffers[buffer].requirements), typeIndex, buffer, old(device.nextHandle));
      (r.Ok? ==> RanAll(device.log, old(device.log), ops)) && (r.Err? ==> RanUntilFailure(device.log, old(device.log), ops))
  {
    ghost var log0 := device.log;
    var req := device.GetBufferMemoryRequirements(buffer);
    ghost var ops := BindOps(req, typeIndex, buffer, device.nextHandle);
    Start(log0, ops);
    var newMemory := device.AllocateMemory(req.size, typeIndex);
    Step(device.log, log0, log0, ops, 0, newMemory.Ok?);
    if newMemory.Err? {
      return Err(newMemory.error);
    }
    var memory := newMemory.value;
    ghost var mid := device.log;
    var bound := device.BindBufferMemory(buffer, memory, 0);
    Step(device.log, mid, log0, ops, 1, bound.Pass?);
    if bound.Fail? {
      return Err(bound.error);
    }
    return Ok(memory);
  }

  /** `create_buffer` of src/render_backends/vulkan/vertex_buffer.rs (the body of
      `Allocator::create_buffer` too): a buffer of `size` bytes and the given usage, with
      memory of its requirement size from the type `find_memorytype_index` picks for
      `flags`, bound at offset 0. Returns the buffer and memory handles. */
  method CreateBoundBuffer(device: Device, size: nat, usage: Flags, flags: Flags) returns (r: Result<(nat, nat)>)
    requires device.Valid() && size > 0 && device.ReportsAtLeast(size)
    modifies device`buffers, device`memories, device`nextHandle, device`calls, device`log
    ensures device.Valid()
    ensures var n0, req := old(device.nextHandle), device.requirementsOf(old(device.nextHandle));
      var t := MemoryTypeIndex(req, device.memoryTypes, flags);
      r.Ok? ==>
        t.Ok? && r.value == (n0, n0 + 1) && device.nextHandle == n0 + 2
        && device.buffers == old(device.buffers)[n0 := BufferState(size, usage, req, Some(n0 + 1))]
        && device.memories == old(device.memories)[n0 + 1 := MemoryState(req.size, t.value, None)]
    // a failed creation leaves nothing behind; a later failure leaks the unbound buffer
    // (and the memory, if it was allocated)
    ensures r.Err? && device.nextHandle == old(device.nextHandle) ==>
      device.buffers == old(device.buffers) && device.memories == old(device.memories)
    ensures var n0, req := old(device.nextHandle), device.requirementsOf(old(device.nextHandle));
      r.Err? && device.nextHandle != old(device.nextHandle) ==>
        device.buffers == old(device.buffers)[n0 := BufferState(size, usage, req, None)]
        && (device.memories == old(device.memories)
            || device.memories == old(device.memories)[n0 + 1 := MemoryState(req.size, ChosenType(req, device.memoryTypes, flags), None)])
    ensures var ops := BoundBufferOps(size, usage, flags, device.requirementsOf(old(device.nextHandle)), device.memoryTypes, old(device.nextHandle));
      (r.Ok? ==> RanAll(device.log, old(device.log), ops)) && (r.Err? ==> RanUntilFailure(device.log, old(device.log), ops))
  {
    ghost var log0, n0 := device.log, device.nextHandle;
    ghost var req := device.requirementsOf(n0);
    ghost var first := CreateOps(size, usage, flags, req);
    ghost var second := BindOps(req, ChosenType(req, device.memoryTypes, flags), n0, n0 + 1);
    var found := CreateUnbound(device, size, usage, flags);
    if found.Err? {
      ThenFailed(device.log, log0, log0, [], first, second);
      assert [] + first + second == first + second;
      return Err(found.error);
    }
    var buffer, typeIndex := found.value.0, found.value.1;
    ghost var log1 := device.log;
    var bound := BindNewMemory(device, buffer, typeIndex);
    if bound.Err? {
      ThenFailed(device.log, log1, log0, first, second, []);
      assert first + second + [] == first + second;
      return Err(bound.error);
    }
    Then(device.log, log1, log0, first, second);
    return Ok((buffer, bound.value));
  }

  /** `Buffer` of src/renderer/buffer.rs: the buffer handle, its memory and the size it
      was created with. */
  datatype Buffer = Buffer(buf: nat, memory: nat, size: nat)

  /** `Allocator` of src/renderer/buffer.rs: a growing table of the buffers it made. */
  class Allocator {
    var buffers: seq<Buffer>
    /** Kept for `get_physical_device_memory_properties`; the device's `memoryTypes`
        stand for that query. */
    const physicalDevice: nat

    /** `Allocator::new`: an empty table. */
    constructor (physicalDevice: nat)
      ensures buffers == [] && this.physicalDevice == physicalDevice
    {
      buffers := [];
      this.physicalDevice := physicalDevice;
    }

    /** `Allocator::create_buffer`: on success the new buffer is appended and its index,
        the old length of the table, is returned; earlier entries are untouched. The
        recorded size is the requested one, the allocation the requirement size. Any
        failure happens before the push and leaves the table as it was. */
    method CreateBuffer(device: Device, size: nat, usage: Flags, properties: Flags) returns (r: Result<nat>)
      requires device.Valid() && size > 0 && device.ReportsAtLeast(size)
      modifies this`buffers, device`buffers, device`memories, device`nextHandle, device`calls, device`log
      ensures device.Valid()
      ensures r.Ok? ==> r.value == |old(buffers)|
                        && buffers == old(buffers) + [Buffer(old(device.nextHandle), old(device.nextHandle) + 1, size)]
      ensures r.Err? ==> buffers == old(buffers)
      ensures var n0, req := old(device.nextHandle), device.requirementsOf(old(device.nextHandle));
        r.Ok? ==>
          device.buffers == old(device.buffers)[n0 := BufferState(size, usage, req, Some(n0 + 1))]
          && device.memories == old(device.memories)[n0 + 1 := MemoryState(req.size, ChosenType(req, device.memoryTypes, properties), None)]
      ensures var ops := BoundBufferOps(size, usage, properties, device.requirementsOf(old(device.nextHandle)), device.memoryTypes, old(device.nextHandle));
        (r.Ok? ==> RanAll(device.log, old(device.log), ops)) && (r.Err? ==> RanUntilFailure(device.log, old(device.log), ops))
    {
      var created := CreateBoundBuffer(device, size, usage, properties);
      if created.Err? {
        return Err(created.error);
      }
      buffers := buffers + [Buffer(created.value.0, created.value.1, size)];
      return Ok(|buffers| - 1);
    }
  }

  /** Map `[0, size)`, write through the mapping, unmap. */
  function UploadOps(memory: nat, size: nat, written: nat): seq<Op> {
    [MapMemoryOp(memory, 0, size), WriteMappedOp(memory, written), UnmapMemoryOp(memory)]
  }

  /** The host-side copy into a staging memory: map `[0, size)`, copy `bytes` bytes of
      vertex data in, of which at most `size` land in the mapped range, and unmap. The
      mapping is gone again whether or not the map succeeded. */
  method Upload(device: Device, memory: nat, size: nat, bytes: nat) returns (r: Outcome)
    requires device.Valid() && CanMap(device.memories, device.memoryTypes, memory, 0, size)
    modifies device`memories, device`calls, device`log
    ensures device.Valid()
    ensures device.memories == old(device.memories)
    ensures var ops := UploadOps(memory, size, Min(bytes, size));
      (r.Pass? ==> RanAll(device.log, old(device.log), ops)) && (r.Fail? ==> RanUntilFailure(device.log, old(device.log), ops))
  {
    ghost var log0, memories0 := device.log, device.memories;
    ghost var ops := UploadOps(memory, size, Min(bytes, size));
    Start(log0, ops);
    r := device.MapMemory(memory, 0, size);
    Step(device.log, log0, log0, ops, 0, r.Pass?);
    if r.Fail? {
      return;
    }
    ghost var log1 := device.log;
    device.WriteMapped(memory, Min(bytes, size));
    Step(device.log, log1, log0, ops, 1, true);
    ghost var log2 := device.log;
    device.UnmapMemory(memory);
    Step(device.log, log2, log0, ops, 2, true);
    assert memories0[memory].(mapped := None) == memories0[memory];
  }

  /** The one copy command `copy_buffer` records: a single region from offset 0 to offset 0. */
  function CopyCommands(src: nat, dst: nat, size: nat): seq<Command> {
    [CopyBuffer(src, dst, [BufferCopy(0, 0, size)])]
  }

  /** The steps of `copy_buffer` when the command buffer receives handle `cb`: allocate
      it, `submit` the copy with no semaphores (the fence receives `cb + 1`), free it. */
  function CopyOps(pool: nat, src: nat, dst: nat, size: nat, cb: nat): seq<Op> {
    [AllocateCommandBuffersOp(pool, 1)] + SubmitOps(cb, [], [], [], CopyCommands(src, dst, size), cb + 1)
    + [FreeCommandBuffersOp(pool, [cb])]
  }

  /** `submit` of the copy with no semaphores, then freeing the command buffer, which
      happens only when `submit` succeeded. */
  method SubmitCopy(device: Device, pool: nat, cb: nat, src: nat, dst: nat, size: nat) returns (r: Outcome)
    requires device.Valid() && pool in device.pools
    requires Contains(device.pools[pool], COMMAND_POOL_CREATE_RESET_COMMAND_BUFFER_BIT)
    requires cb in device.commandBuffers && device.commandBuffers[cb].pool == pool
    requires device.commandBuffers[cb].lifecycle != Pending
    requires CanCopy(device.buffers, device.memories, src, dst, [BufferCopy(0, 0, size)])
    modifies device`commandBuffers, device`semaphores, device`fences, device`nextHandle, device`calls, device`log
    ensures device.Valid()
    ensures var ops := SubmitOps(cb, [], [], [], CopyCommands(src, dst, size), old(device.nextHandle)) + [FreeCommandBuffersOp(pool, [cb])];
      (r.Pass? ==> RanAll(device.log, old(device.log), ops)) && (r.Fail? ==> RanUntilFailure(device.log, old(device.log), ops))
    ensures r.Pass? ==> device.commandBuffers == old(device.commandBuffers) - {cb} && device.semaphores == old(device.semaphores)
                        && device.fences == old(device.fences) && device.nextHandle == old(device.nextHandle) + 1
    ensures r.Fail? ==> cb in device.commandBuffers
  {
    ghost var log0, cbs0, semaphores0 := device.log, device.commandBuffers, device.semaphores;
    ghost var submit := SubmitOps(cb, [], [], [], CopyCommands(src, dst, size), device.nextHandle);
    ghost var free := [FreeCommandBuffersOp(pool, [cb])];
    r := Submit(device, cb, [], [], [], CopyCommands(src, dst, size));
    if r.Fail? {
      ThenFailed(device.log, log0, log0, [], submit, free);
      assert [] + submit + free == submit + free;
      return;
    }
    ghost var log1 := device.log;
    device.FreeCommandBuffers(pool, [cb]);
    Start(log1, free);
    Step(device.log, log1, log1, free, 0, true);
    Then(device.log, log1, log0, submit, free);
    SemaphoresAfterNothing(semaphores0);
    assert device.commandBuffers == cbs0 - {cb} by {
      assert device.commandBuffers.Keys == (cbs0 - {cb}).Keys;
    }
  }

  /** `copy_buffer` (src/renderer/buffer.rs, src/render_backends/vulkan/vertex_buffer.rs):
      one primary command buffer records a copy of `size` bytes and is submitted and
      waited for; it is freed only when `submit` succeeded. On success no command buffer,
      fence or semaphore is left changed. */
  method Copy(device: Device, pool: nat, src: nat, dst: nat, size: nat) returns (r: Outcome)
    requires device.Valid() && pool in device.pools
    requires Contains(device.pools[pool], COMMAND_POOL_CREATE_RESET_COMMAND_BUFFER_BIT)
    requires CanCopy(device.buffers, device.memories, src, dst, [BufferCopy(0, 0, size)])
    modifies device`commandBuffers, device`semaphores, device`fences, device`nextHandle, device`calls, device`log
    ensures device.Valid()
    ensures var ops := CopyOps(pool, src, dst, size, old(device.nextHandle));
      (r.Pass? ==> RanAll(device.log, old(device.log), ops)) && (r.Fail? ==> RanUntilFailure(device.log, old(device.log), ops))
    ensures r.Pass? ==> device.commandBuffers == old(device.commandBuffers) && device.semaphores == old(device.semaphores)
                        && device.fences == old(device.fences) && device.nextHandle == old(device.nextHandle) + 2
    // a command buffer allocated before a failed submit is never freed
    ensures r.Fail? && device.nextHandle != old(device.nextHandle) ==> old(device.nextHandle) in device.commandBuffers
  {
    ghost var log0, n0, cbs0 := device.log, device.nextHandle, device.commandBuffers;
    ghost var alloc := [AllocateCommandBuffersOp(pool, 1)];
    ghost var rest := SubmitOps(n0, [], [], [], CopyCommands(src, dst, size), n0 + 1) + [FreeCommandBuffersOp(pool, [n0])];
    assert CopyOps(pool, src, dst, size, n0) == alloc + rest;
    var newBuffers := device.AllocateCommandBuffers(pool, 1);
    Start(log0, alloc);
    Step(device.log, log0, log0, alloc, 0, newBuffers.Ok?);
    if newBuffers.Err? {
      ThenFailed(device.log, log0, log0, [], alloc, rest);
      assert [] + alloc + rest == alloc + rest;
      return Fail(newBuffers.error);
    }
    var cb := newBuffers.value[0];
    assert cb == n0 && device.nextHandle == n0 + 1;
    ghost var log1 := device.log;
    r := SubmitCopy(device, pool, cb, src, dst, size);
    if r.Fail? {
      ThenFailed(device.log, log1, log0, alloc, rest, []);
      assert alloc + rest + [] == alloc + rest;
      return;
    }
    Then(device.log, log1, log0, alloc, rest);
    assert device.commandBuffers == cbs0 by {
      assert n0 !in cbs0;
      assert device.commandBuffers.Keys == cbs0.Keys;
    }
  }

  /** `copy_vertices_to_device` (src/renderer/buffer.rs): the vertex bytes go into the
      mapped staging range `[0, staging.size)`, the memory is unmapped, and then
      `staging.size` bytes are copied on the device into the vertex buffer. */
  method CopyVerticesToDevice(device: Device, pool: nat, staging: Buffer, vertexBuffer: Buffer, vertexBytes: nat)
    returns (r: Outcome)
    requires device.Valid() && pool in device.pools
    requires Contains(device.pools[pool], COMMAND_POOL_CREATE_RESET_COMMAND_BUFFER_BIT)
    requires CanMap(device.memories, device.memoryTypes, staging.memory, 0, staging.size)
    requires CanCopy(device.buffers, device.memories, staging.buf, vertexBuffer.buf, [BufferCopy(0, 0, staging.size)])
    modifies device`memories, device`commandBuffers, device`semaphores, device`fences, device`nextHandle, device`calls, device`log
    ensures device.Valid()
    ensures var ops := UploadOps(staging.memory, staging.size, Min(vertexBytes, staging.size))
                       + CopyOps(pool, staging.buf, vertexBuffer.buf, staging.size, old(device.nextHandle));
      (r.Pass? ==> RanAll(device.log, old(device.log), ops)) && (r.Fail? ==> RanUntilFailure(device.log, old(device.log), ops))
    ensures device.memories == old(device.memories)
    ensures r.Pass? ==> device.commandBuffers == old(device.commandBuffers) && device.semaphores == old(device.semaphores)
                        && device.fences == old(device.fences)
  {
    ghost var log0 := device.log;
    ghost var upload := UploadOps(staging.memory, staging.size, Min(vertexBytes, staging.size));
    ghost var copy := CopyOps(pool, staging.buf, vertexBuffer.buf, staging.size, device.nextHandle);
    r := Upload(device, staging.memory, staging.size, vertexBytes);
    if r.Fail? {
      ThenFailed(device.log, log0, log0, [], upload, copy);
      assert [] + upload + copy == upload + copy;
      return;
    }
    ghost var log1 := device.log;
    r := Copy(device, pool, staging.buf, vertexBuffer.buf, staging.size);
    if r.Fail? {
      ThenFailed(device.log, log1, log0, upload, copy, []);
      assert upload + copy + [] == upload + copy;
      return;
    }
    Then(device.log, log1, log0, upload, copy);
  }

  /** The staging buffer's usage and memory properties in `new`. */
  const STAGING_USAGE: Flags := {BUFFER_USAGE_TRANSFER_SRC_BIT}
  const STAGING_PROPERTIES: Flags := {MEMORY_PROPERTY_HOST_VISIBLE_BIT, MEMORY_PROPERTY_HOST_COHERENT_BIT}
  /** The vertex buffer's usage and memory properties in `new`. */
  const VERTEX_USAGE: Flags := {BUFFER_USAGE_TRANSFER_DST_BIT, BUFFER_USAGE_VERTEX_BUFFER_BIT}
  const VERTEX_PROPERTIES: Flags := {MEMORY_PROPERTY_DEVICE_LOCAL_BIT}

  /** A memory type chosen for `flags` has every one of them. */
  lemma ChosenTypeHas(req: MemoryRequirements, types: MemoryTypes, flags: Flags, bit: Bit)
    requires MemoryTypeIndex(req, types, flags).Ok? && bit in flags
    ensures Contains(TypeFlags(types, MemoryState(req.size, ChosenType(req, types, flags), None)), bit)
  {
    ResultIsAllowedSuperset(req, types, flags);
  }

  /** Create the staging buffer (handle `buffer`), then fill it. */
  function StageOps(size: nat, req: MemoryRequirements, types: MemoryTypes, buffer: nat): seq<Op> {
    BoundBufferOps(size, STAGING_USAGE, STAGING_PROPERTIES, req, types, buffer) + UploadOps(buffer + 1, size, size)
  }

  /** The first half of `new`: a host-visible, host-coherent transfer source of `size`
      bytes, which receives the whole vertex data through a mapping of `[0, size)`. */
  method StageVertices(device: Device, size: nat) returns (r: Result<(nat, nat)>)
    requires device.Valid() && size > 0 && device.ReportsAtLeast(size)
    modifies device`buffers, device`memories, device`nextHandle, device`calls, device`log
    ensures device.Valid()
    ensures var n0, req := old(device.nextHandle), device.requirementsOf(old(device.nextHandle));
      r.Ok? ==>
        r.value == (n0, n0 + 1) && device.nextHandle == n0 + 2
        && device.buffers == old(device.buffers)[n0 := BufferState(size, STAGING_USAGE, req, Some(n0 + 1))]
        && device.memories == old(device.memories)[n0 + 1 := MemoryState(req.size, ChosenType(req, device.memoryTypes, STAGING_PROPERTIES), None)]
    ensures var ops := StageOps(size, device.requirementsOf(old(device.nextHandle)), device.memoryTypes, old(device.nextHandle));
      (r.Ok? == RanAll(device.log, old(device.log), ops)) && (r.Err? == RanUntilFailure(device.log, old(device.log), ops))
  {
    ghost var log0, n0 := device.log, device.nextHandle;
    ghost var req := device.requirementsOf(n0);
    ghost var create := BoundBufferOps(size, STAGING_USAGE, STAGING_PROPERTIES, req, device.memoryTypes, n0);
    ghost var upload := UploadOps(n0 + 1, size, size);
    var created := CreateBoundBuffer(device, size, STAGING_USAGE, STAGING_PROPERTIES);
    if created.Err? {
      ThenFailed(device.log, log0, log0, [], create, upload);
      assert [] + create + upload == create + upload;
      CompletedOrFailed(device.log, log0, create + upload);
      return Err(created.error);
    }
    var (buffer, memory) := created.value;
    ChosenTypeHas(req, device.memoryTypes, STAGING_PROPERTIES, MEMORY_PROPERTY_HOST_VISIBLE_BIT);
    ghost var log1 := device.log;
    var uploaded := Upload(device, memory, size, size);
    assert Min(size, size) == size;
    if uploaded.Fail? {
      ThenFailed(device.log, log1, log0, create, upload, []);
      assert create + upload + [] == create + upload;
      CompletedOrFailed(device.log, log0, create + upload);
      return Err(uploaded.error);
    }
    Then(device.log, log1, log0, create, upload);
    CompletedOrFailed(device.log, log0, create + upload);
    return Ok((buffer, memory));
  }

  /** Create the vertex buffer (handle `buffer`), then copy into it from `staging`. */
  function FillOps(size: nat, req: MemoryRequirements, types: MemoryTypes, pool: nat, staging: nat, buffer: nat): seq<Op> {
    BoundBufferOps(size, VERTEX_USAGE, VERTEX_PROPERTIES, req, types, buffer) + CopyOps(pool, staging, buffer, size, buffer + 2)
  }

  /** The device-local half of `new`: a device-local transfer destination and vertex
      buffer of `size` bytes, into which the staging buffer's first `size` bytes are copied. */
  method FillDeviceLocal(device: Device, pool: nat, staging: nat, size: nat) returns (r: Result<nat>)
    requires device.Valid() && pool in device.pools
    requires Contains(device.pools[pool], COMMAND_POOL_CREATE_RESET_COMMAND_BUFFER_BIT)
    requires size > 0 && device.ReportsAtLeast(size)
    requires Bound(device.buffers, device.memories, staging)
    requires Contains(device.buffers[staging].usage, BUFFER_USAGE_TRANSFER_SRC_BIT) && size <= device.buffers[staging].size
    modifies device`buffers, device`memories, device`commandBuffers, device`semaphores, device`fences
    modifies device`nextHandle, device`calls, device`log
    ensures device.Valid()
    ensures var n0, req := old(device.nextHandle), device.requirementsOf(old(device.nextHandle));
      r.Ok? ==>
        r.value == n0 && device.nextHandle == n0 + 4
        && device.buffers == old(device.buffers)[n0 := BufferState(size, VERTEX_USAGE, req, Some(n0 + 1))]
        && device.memories == old(device.memories)[n0 + 1 := MemoryState(req.size, ChosenType(req, device.memoryTypes, VERTEX_PROPERTIES), None)]
    ensures r.Ok? ==> device.commandBuffers == old(device.commandBuffers) && device.semaphores == old(device.semaphores)
                      && device.fences == old(device.fences)
    ensures r.Ok? ==> MemoryTypeIndex(device.requirementsOf(old(device.nextHandle)), device.memoryTypes, VERTEX_PROPERTIES).Ok?
    ensures var ops := FillOps(size, device.requirementsOf(old(device.nextHandle)), device.memoryTypes, pool, staging, old(device.nextHandle));
      (r.Ok? ==> RanAll(device.log, old(device.log), ops)) && (r.Err? ==> RanUntilFailure(device.log, old(device.log), ops))
  {
    ghost var log0, n0 := device.log, device.nextHandle;
    ghost var req := device.requirementsOf(n0);
    ghost var create := BoundBufferOps(size, VERTEX_USAGE, VERTEX_PROPERTIES, req, device.memoryTypes, n0);
    ghost var copy := CopyOps(pool, staging, n0, size, n0 + 2);
    var created := CreateBoundBuffer(device, size, VERTEX_USAGE, VERTEX_PROPERTIES);
    if created.Err? {
      ThenFailed(device.log, log0, log0, [], create, copy);
      assert [] + create + copy == create + copy;
      return Err(created.error);
    }
    var buffer := created.value.0;
    assert Contains(VERTEX_USAGE, BUFFER_USAGE_TRANSFER_DST_BIT);
    ghost var log1 := device.log;
    var copied := Copy(device, pool, staging, buffer, size);
    if copied.Fail? {
      ThenFailed(device.log, log1, log0, create, copy, []);
      assert create + copy + [] == create + copy;
      return Err(copied.error);
    }
    Then(device.log, log1, log0, create, copy);
    return Ok(buffer);
  }

  /** Destroy a buffer, then free a memory. */
  function ReleaseOps(buffer: nat, memory: nat): seq<Op> {
    [DestroyBufferOp(buffer), FreeMemoryOp(memory)]
  }

  /** `destroy_buffer` and then `free_memory`, which cannot fail: both objects are gone
      and nothing else changes. */
  method Release(device: Device, buffer: nat, memory: nat)
    requires device.Valid() && buffer in device.buffers && !BufferInUse(device.commandBuffers, buffer) && memory in device.memories
    requires forall b :: b in device.buffers && b != buffer && device.buffers[b].memory == Some(memory) ==>
               !BufferInUse(device.commandBuffers, b)
    modifies device`buffers, device`memories, device`log
    ensures device.Valid()
    ensures device.buffers == old(device.buffers) - {buffer} && device.memories == old(device.memories) - {memory}
    ensures RanAll(device.log, old(device.log), ReleaseOps(buffer, memory))
  {
    ghost var log0 := device.log;
    ghost var ops := ReleaseOps(buffer, memory);
    Start(log0, ops);
    device.DestroyBuffer(buffer);
    Step(device.log, log0, log0, ops, 0, true);
    ghost var log1 := device.log;
    device.FreeMemory(memory);
    Step(device.log, log1, log0, ops, 1, true);
  }

  /** No pending command buffer can use a buffer whose handle is at least `bound` when
      every command buffer refers only to handles below it. */
  lemma NotInUseAbove(cbs: CommandBuffers, bound: nat, buffer: nat)
    requires forall c :: c in cbs ==> RefersBelow(cbs[c], bound)
    requires bound <= buffer
    ensures !BufferInUse(cbs, buffer)
  {
    forall c, i | c in cbs && 0 <= i < |cbs[c].commands| && cbs[c].commands[i].CopyBuffer?
      ensures cbs[c].commands[i].src != buffer && cbs[c].commands[i].dst != buffer
    {
      assert RefersBelow(cbs[c], bound);
    }
  }

  /** The steps of `new`, with the staging buffer at handle `n0` and its memory at
      `n0 + 1`, the vertex buffer and its memory at `n0 + 2` and `n0 + 3`, and the copy's
      command buffer and fence at `n0 + 4` and `n0 + 5`. */
  function VertexBufferOps(size: nat, stagingReq: MemoryRequirements, vertexReq: MemoryRequirements,
                           types: MemoryTypes, pool: nat, n0: nat): seq<Op> {
    StageOps(size, stagingReq, types, n0) + FillOps(size, vertexReq, types, pool, n0, n0 + 2) + ReleaseOps(n0, n0 + 1)
  }

  /** Adding an entry under a new key and then removing it again is adding nothing. */
  lemma AddedThenRemoved<V>(m: map<nat, V>, k: nat, v: V, k2: nat, v2: V)
    requires k !in m && k != k2
    ensures m[k := v][k2 := v2] - {k} == m[k2 := v2]
  {
    assert (m[k := v][k2 := v2] - {k}).Keys == m[k2 := v2].Keys;
  }

  /** A buffer added under a handle at or above `bound` is the only one bound to memory
      at or above `bound`, when every earlier buffer is bound below it. */
  lemma OnlyOneBinding(buffers0: Buffers, bound: nat, buffers: Buffers, buffer: nat, memory: nat)
    requires forall h :: h in buffers0 ==> HandleBelow(buffers0[h].memory, bound)
    requires buffer in buffers && buffers == buffers0[buffer := buffers[buffer]] && bound <= memory
    ensures forall b :: b in buffers && b != buffer ==> buffers[b].memory != Some(memory)
  {
    forall b | b in buffers && b != buffer
      ensures buffers[b].memory != Some(memory)
    {
      assert HandleBelow(buffers0[b].memory, bound);
    }
  }

  /** The second half of `new`: fill a new device-local vertex buffer from the staging
      buffer, then destroy the staging buffer and free its memory. `buffers0` and
      `memories0` are the tables before the staging buffer and its memory were added. */
  method FinishVertexBuffer(device: Device, pool: nat, staging: nat, stagingMemory: nat, size: nat,
                            ghost buffers0: Buffers, ghost memories0: Memories) returns (r: Result<nat>)
    requires device.Valid() && pool in device.pools
    requires Contains(device.pools[pool], COMMAND_POOL_CREATE_RESET_COMMAND_BUFFER_BIT)
    requires size > 0 && device.ReportsAtLeast(size)
    requires Bound(device.buffers, device.memories, staging) && device.buffers[staging].memory == Some(stagingMemory)
    requires Contains(device.buffers[staging].usage, BUFFER_USAGE_TRANSFER_SRC_BIT) && size <= device.buffers[staging].size
    requires !BufferInUse(device.commandBuffers, staging)
    requires forall b :: b in device.buffers && b != staging && device.buffers[b].memory == Some(stagingMemory) ==>
               !BufferInUse(device.commandBuffers, b)
    requires staging !in buffers0 && device.buffers == buffers0[staging := device.buffers[staging]]
    requires stagingMemory !in memories0 && device.memories == memories0[stagingMemory := device.memories[stagingMemory]]
    modifies device`buffers, device`memories, device`commandBuffers, device`semaphores, device`fences
    modifies device`nextHandle, device`calls, device`log
    ensures device.Valid()
    ensures r.Ok? ==> r.value == old(device.nextHandle) && device.nextHandle == old(device.nextHandle) + 4
    ensures r.Ok? ==> r.value in device.buffers && device.buffers[r.value] == BufferState(size, VERTEX_USAGE, device.requirementsOf(r.value), Some(r.value + 1))
    ensures var ops := FillOps(size, device.requirementsOf(old(device.nextHandle)), device.memoryTypes, pool, staging, old(device.nextHandle))
                       + ReleaseOps(staging, stagingMemory);
      (r.Ok? == RanAll(device.log, old(device.log), ops)) && (r.Err? == RanUntilFailure(device.log, old(device.log), ops))
  {
    ghost var log0, n0 := device.log, device.nextHandle;
    ghost var fill := FillOps(size, device.requirementsOf(n0), device.memoryTypes, pool, staging, n0);
    ghost var release := ReleaseOps(staging, stagingMemory);
    ghost var staged, stagedMemory := device.buffers[staging], device.memories[stagingMemory];
    var filled := FillDeviceLocal(device, pool, staging, size);
    if filled.Err? {
      ThenFailed(device.log, log0, log0, [], fill, release);
      assert [] + fill + release == fill + release;
      CompletedOrFailed(device.log, log0, fill + release);
      return filled;
    }
    assert staging < n0 && stagingMemory < n0;
    ghost var log1, filledBuffers, filledMemories := device.log, device.buffers, device.memories;
    Release(device, staging, stagingMemory);
    Then(device.log, log1, log0, fill, release);
    CompletedOrFailed(device.log, log0, fill + release);
    return filled;
  }

  /** `new` of src/render_backends/vulkan/vertex_buffer.rs: the `size` bytes of the
      vertices go through a host-visible staging buffer into a new device-local vertex
      buffer of the same size, and the staging buffer and its memory are released.
      The vertex buffer is returned; its memory handle is not. */
  method NewVertexBuffer(device: Device, pool: nat, size: nat) returns (r: Result<nat>)
    requires device.Valid() && pool in device.pools
    requires Contains(device.pools[pool], COMMAND_POOL_CREATE_RESET_COMMAND_BUFFER_BIT)
    requires size > 0 && device.ReportsAtLeast(size)
    modifies device`buffers, device`memories, device`commandBuffers, device`semaphores, device`fences
    modifies device`nextHandle, device`calls, device`log
    ensures device.Valid()
    ensures r.Ok? ==> r.value == old(device.nextHandle) + 2 && device.nextHandle == old(device.nextHandle) + 6
    ensures r.Ok? ==> r.value in device.buffers && device.buffers[r.value] == BufferState(size, VERTEX_USAGE, device.requirementsOf(r.value), Some(r.value + 1))
    ensures var n0 := old(device.nextHandle);
      var ops := VertexBufferOps(size, device.requirementsOf(n0), device.requirementsOf(n0 + 2),
                                 device.memoryTypes, pool, n0);
      (r.Ok? == RanAll(device.log, old(device.log), ops)) && (r.Err? == RanUntilFailure(device.log, old(device.log), ops))
  {
    ghost var log0, n0, buffers0, memories0 := device.log, device.nextHandle, device.buffers, device.memories;
    ghost var ops := VertexBufferOps(size, device.requirementsOf(n0), device.requirementsOf(n0 + 2), device.memoryTypes, pool, n0);
    ghost var stage := StageOps(size, device.requirementsOf(n0), device.memoryTypes, n0);
    ghost var finish := FillOps(size, device.requirementsOf(n0 + 2), device.memoryTypes, pool, n0, n0 + 2) + ReleaseOps(n0, n0 + 1);
    assert ops == stage + finish;
    var staged := StageVertices(device, size);
    if staged.Err? {
      FailedRun(device.log, log0, stage, finish);
      return Err(staged.error);
    }
    var (staging, stagingMemory) := staged.value;
    NotInUseAbove(device.commandBuffers, n0, staging);
    OnlyOneBinding(buffers0, n0, device.buffers, staging, stagingMemory);
    ghost var log1 := device.log;
    r := FinishVertexBuffer(device, pool, staging, stagingMemory, size, buffers0, memories0);
    ComposedRun(device.log, log1, log0, stage, finish, r.Ok?);
  }
}
