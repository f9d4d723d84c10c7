/** An abstract Vulkan logical device. The calls the renderer makes through `ash` become
    methods of `Device`. Each method's `requires` is the valid-usage rule of the Vulkan
    specification that the unsafe call relies on. Its `ensures` gives the new lifecycle
    state of the objects it touches, following the "Command Buffer Lifecycle" section of
    the Command Buffers chapter, the Device Memory chapter and the Synchronization chapter.
    Whether a fallible call fails, and with which error code, is decided by the oracle
    `fault`. The oracle is read at a counter that each fallible call advances. Every call
    is appended to a ghost log, so properties about the order of calls can be stated. */
module GpuDevice {
  import opened Wrappers
  import opened Vk
  import opened DeviceLog
  import MemoryTypeSelection

  datatype Lifecycle = Initial | Recording | Executable | Pending | Invalid

  datatype BufferState = BufferState(size: nat, usage: Flags, requirements: MemoryRequirements, memory: Option<nat>)
  datatype MemoryState = MemoryState(size: nat, typeIndex: nat, mapped: Option<(nat, nat)>)
  datatype ImageState = ImageState(format: Format, extent: Extent2D, usage: Flags,
                                   requirements: MemoryRequirements, memory: Option<nat>)
  /** A command buffer: its pool, lifecycle state, whether it was begun with
      `ONE_TIME_SUBMIT`, what it has recorded, and the fence of its pending submission. */
  datatype CommandBufferState = CommandBufferState(
    pool: nat, lifecycle: Lifecycle, oneTime: bool, commands: seq<Command>, fence: Option<nat>)

  type Buffers = map<nat, BufferState>
  type Memories = map<nat, MemoryState>
  type CommandBuffers = map<nat, CommandBufferState>
  /** Fences and binary semaphores: `true` once signalled (for a semaphore: once a signal
      operation has been submitted that no wait has consumed yet). */
  type Signals = map<nat, bool>

  /** The property flags a memory allocation was made with. */
  function TypeFlags(types: MemoryTypes, m: MemoryState): Flags {
    if m.typeIndex < |types| then types[m.typeIndex].propertyFlags else {}
  }

  // ---- valid-usage rules ----

  /** vkBindBufferMemory and vkBindImageMemory: no memory bound yet, a memory type that the
      requirements allow, an aligned offset, and room for the whole requirement size. */
  predicate CanBind(req: MemoryRequirements, bound: Option<nat>, memories: Memories, memory: nat, offset: nat) {
    bound.None? && memory in memories
    && MemoryTypeSelection.Allowed(req.memoryTypeBits, memories[memory].typeIndex)
    && (req.alignment == 0 || offset % req.alignment == 0)
    && offset + req.size <= memories[memory].size
  }

  /** vkMapMemory: host-visible memory, not already mapped, a non-empty range inside it. */
  predicate CanMap(memories: Memories, types: MemoryTypes, memory: nat, offset: nat, size: nat) {
    memory in memories && memories[memory].mapped.None?
    && Contains(TypeFlags(types, memories[memory]), MEMORY_PROPERTY_HOST_VISIBLE_BIT)
    && 0 < size && offset + size <= memories[memory].size
  }

  /** The buffer is live and bound to live memory. */
  predicate Bound(buffers: Buffers, memories: Memories, buffer: nat) {
    buffer in buffers && buffers[buffer].memory.Some? && buffers[buffer].memory.value in memories
  }

  /** vkCmdCopyBuffer: bound source and destination with the transfer usages, at least one
      region, and every region non-empty and inside both buffers. */
  predicate CanCopy(buffers: Buffers, memories: Memories, src: nat, dst: nat, regions: seq<BufferCopy>) {
    Bound(buffers, memories, src) && Bound(buffers, memories, dst)
    && Contains(buffers[src].usage, BUFFER_USAGE_TRANSFER_SRC_BIT)
    && Contains(buffers[dst].usage, BUFFER_USAGE_TRANSFER_DST_BIT)
    && |regions| > 0
    && forall i :: 0 <= i < |regions| ==>
         0 < regions[i].size
         && regions[i].srcOffset + regions[i].size <= buffers[src].size
         && regions[i].dstOffset + regions[i].size <= buffers[dst].size
  }

  /** Every copy command in `commands` is valid against the current buffers. */
  predicate CanRecord(buffers: Buffers, memories: Memories, commands: seq<Command>) {
    forall i :: 0 <= i < |commands| ==>
      (commands[i].CopyBuffer? ==> CanCopy(buffers, memories, commands[i].src, commands[i].dst, commands[i].regions))
  }

  /** Some pending submission will signal the fence. */
  predicate FenceInUse(cbs: CommandBuffers, fence: nat) {
    exists c :: c in cbs && cbs[c].lifecycle == Pending && cbs[c].fence == Some(fence)
  }

  /** Recording `commands` in order leaves a render pass instance open: the last
      `BeginRenderPass` has no `EndRenderPass` after it. */
  predicate InsideRenderPass(commands: seq<Command>)
    decreases |commands|
  {
    if |commands| == 0 then false
    else match commands[|commands| - 1]
      case BeginRenderPass(_, _, _) => true
      case EndRenderPass => false
      case _ => InsideRenderPass(commands[..|commands| - 1])
  }

  /** Some pending command buffer refers to the buffer. */
  predicate BufferInUse(cbs: CommandBuffers, buffer: nat) {
    exists c, i :: c in cbs && cbs[c].lifecycle == Pending && 0 <= i < |cbs[c].commands|
                   && cbs[c].commands[i].CopyBuffer?
                   && (cbs[c].commands[i].src == buffer || cbs[c].commands[i].dst == buffer)
  }

  /** vkQueueSubmit: each command buffer is executable and listed once, the stage-mask
      array has an entry for each wait semaphore (`waitSemaphoreCount` entries are read), each wait semaphore has a signal to wait on,
      no signal semaphore carries a pending signal, no semaphore is both, and the fence
      is unsignalled and not used by another pending submission. */
  predicate CanSubmit(cbs: CommandBuffers, semaphores: Signals, fences: Signals, info: SubmitInfo, fence: Option<nat>) {
    (forall i :: 0 <= i < |info.commandBuffers| ==>
       info.commandBuffers[i] in cbs && cbs[info.commandBuffers[i]].lifecycle == Executable)
    && (forall i, j :: 0 <= i < j < |info.commandBuffers| ==> info.commandBuffers[i] != info.commandBuffers[j])
    && |info.waitDstStageMask| >= |info.waitSemaphores|
    && (forall i :: 0 <= i < |info.waitSemaphores| ==>
          info.waitSemaphores[i] in semaphores && semaphores[info.waitSemaphores[i]])
    && (forall i :: 0 <= i < |info.signalSemaphores| ==>
          info.signalSemaphores[i] in semaphores && !semaphores[info.signalSemaphores[i]])
    && (forall s :: s in info.waitSemaphores ==> s !in info.signalSemaphores)
    && (fence.Some? ==> fence.value in fences && !fences[fence.value] && !FenceInUse(cbs, fence.value))
  }

  // ---- state transitions ----

  /** A submission's command buffers become pending on its fence. */
  function Submitted(cbs: CommandBuffers, info: SubmitInfo, fence: Option<nat>): CommandBuffers
  {
    map c | c in cbs :: if c in info.commandBuffers then cbs[c].(lifecycle := Pending, fence := fence) else cbs[c]
  }

  /** A submission consumes the signals of the semaphores it waits on and will signal
      the ones it signals. */
  function SemaphoresAfter(semaphores: Signals, waitSemaphores: seq<nat>, signalSemaphores: seq<nat>): Signals
  {
    map s | s in semaphores :: if s in signalSemaphores then true else if s in waitSemaphores then false else semaphores[s]
  }

  /** Execution completed: a one-time-submit buffer becomes invalid, any other executable. */
  function Finished(cb: CommandBufferState): (r: CommandBufferState)
    requires cb.lifecycle == Pending
    ensures r.lifecycle == (if cb.oneTime then Invalid else Executable) && r.fence.None?
    ensures r.pool == cb.pool && r.commands == cb.commands && r.oneTime == cb.oneTime
  {
    cb.(lifecycle := if cb.oneTime then Invalid else Executable, fence := None)
  }

  /** The command buffers once the work guarded by `fences` has completed. */
  function CompletedOn(cbs: CommandBuffers, fences: seq<nat>): CommandBuffers
  {
    map c | c in cbs ::
      if cbs[c].lifecycle == Pending && cbs[c].fence.Some? && cbs[c].fence.value in fences
      then Finished(cbs[c]) else cbs[c]
  }

  /** The command buffers once every pending submission has completed. */
  function AllCompleted(cbs: CommandBuffers): (r: CommandBuffers)
  {
    map c | c in cbs :: if cbs[c].lifecycle == Pending then Finished(cbs[c]) else cbs[c]
  }

  /** The fences once those in `fs` are signalled. */
  function Signalled(fences: Signals, fs: seq<nat>): Signals {
    map f | f in fences :: f in fs || fences[f]
  }

  /** A submission consumes the pending signal of each semaphore it only waits on,
      leaves each semaphore it signals with a pending signal, and leaves the others alone. */
  lemma SemaphoresAfterSignals(semaphores: Signals, waitSemaphores: seq<nat>, signalSemaphores: seq<nat>)
    ensures var r := SemaphoresAfter(semaphores, waitSemaphores, signalSemaphores);
      r.Keys == semaphores.Keys
      && (forall s :: s in signalSemaphores && s in semaphores ==> r[s])
      && (forall s :: s in waitSemaphores && s !in signalSemaphores && s in semaphores ==> !r[s])
      && (forall s :: s in semaphores && s !in waitSemaphores && s !in signalSemaphores ==> r[s] == semaphores[s])
  {
  }

  /** A submission that neither waits on nor signals a semaphore leaves them all alone. */
  lemma SemaphoresAfterNothing(semaphores: Signals)
    ensures SemaphoresAfter(semaphores, [], []) == semaphores
  {
    var r := SemaphoresAfter(semaphores, [], []);
    assert forall s :: s in semaphores ==> r[s] == semaphores[s];
    assert r.Keys == semaphores.Keys;
  }

  /** Submitting one command buffer on a fence that no pending work uses, and then
      waiting for that fence, completes exactly that buffer and leaves the others alone. */
  lemma SubmitThenWait(cbs: CommandBuffers, info: SubmitInfo, cb: nat, fence: nat)
    requires info.commandBuffers == [cb] && cb in cbs && cbs[cb].lifecycle != Pending
    requires !FenceInUse(cbs, fence)
    ensures CompletedOn(Submitted(cbs, info, Some(fence)), [fence]) == cbs[cb := Finished(cbs[cb].(lifecycle := Pending))]
  {
    var after := CompletedOn(Submitted(cbs, info, Some(fence)), [fence]);
    var expected := cbs[cb := Finished(cbs[cb].(lifecycle := Pending))];
    forall c | c in cbs
      ensures after[c] == expected[c]
    {
      if c != cb {
        assert !(cbs[c].lifecycle == Pending && cbs[c].fence == Some(fence));
      }
    }
    assert after.Keys == expected.Keys;
  }

  /** Waiting for one fence signals it and no other. */
  lemma SignalledOne(fences: Signals, fence: nat)
    requires fence in fences
    ensures Signalled(fences, [fence]) == fences[fence := true]
  {
    var r := Signalled(fences, [fence]);
    assert forall f :: f in fences ==> r[f] == fences[fence := true][f];
    assert r.Keys == fences.Keys;
  }

  /** The command buffers after `count` new ones with handles `first`, `first + 1`, ...
      are allocated from `pool` in the initial state. */
  function Allocated(cbs: CommandBuffers, pool: nat, first: nat, count: nat): (r: CommandBuffers)
    ensures forall c :: c in r <==> c in cbs || first <= c < first + count
    ensures forall c :: c in cbs && !(first <= c < first + count) ==> r[c] == cbs[c]
    ensures forall c :: first <= c < first + count ==> r[c] == CommandBufferState(pool, Initial, false, [], None)
  {
    if count == 0 then cbs
    else Allocated(cbs, pool, first, count - 1)[first + count - 1 := CommandBufferState(pool, Initial, false, [], None)]
  }

  /** The i-th element of an allocation is the i-th fresh handle. */
  function Handles(first: nat, count: nat): (r: seq<nat>)
    ensures |r| == count && forall i :: 0 <= i < count ==> r[i] == first + i
  {
    seq(count, i => first + i)
  }

  /** The fence and every buffer that the command buffer refers to have handles below `bound`. */
  predicate RefersBelow(cb: CommandBufferState, bound: nat) {
    (cb.fence.Some? ==> cb.fence.value < bound)
    && forall i :: 0 <= i < |cb.commands| && cb.commands[i].CopyBuffer? ==>
         cb.commands[i].src < bound && cb.commands[i].dst < bound
  }

  /** An optional handle that, when present, is below `bound`. */
  predicate HandleBelow(h: Option<nat>, bound: nat) {
    h.Some? ==> h.value < bound
  }

  class Device {
    var buffers: Buffers
    var memories: Memories
    var images: map<nat, ImageState>
    /** Each image view, mapped to its image. */
    var imageViews: map<nat, nat>
    /** Each command pool, mapped to its creation flags. */
    var pools: map<nat, Flags>
    var commandBuffers: CommandBuffers
    var fences: Signals
    var semaphores: Signals
    /** The swapchain images acquired and not yet presented. */
    var acquired: set<nat>
    /** Every call so far, in order. */
    ghost var log: seq<Call>
    /** The number of fallible calls so far; the oracles are read at this position. */
    var calls: nat
    /** The handle the next created object receives. */
    var nextHandle: nat
    /** The error code (if any) of each fallible call, by position. */
    const fault: map<nat, int>
    /** What `vkGet*MemoryRequirements` reports for an object: `reported` by handle, and
        `otherwise` for every handle `reported` does not list. */
    const reported: map<nat, MemoryRequirements>
    const otherwise: MemoryRequirements
    /** `VkPhysicalDeviceMemoryProperties::memoryTypes` of the physical device. */
    const memoryTypes: MemoryTypes
    /** The number of swapchain images, and the index each acquire returns, by position
        (image 0 where the table has no entry). */
    const imageCount: nat
    const acquireIndices: map<nat, nat>

    /** Every buffer, memory, fence and command-buffer handle, and every handle a buffer or
        command buffer refers to, was handed out already, and acquires return indices of
        existing images. */
    ghost predicate Valid()
      reads this`buffers, this`memories, this`fences, this`commandBuffers, this`nextHandle
    {
      (forall h :: h in buffers ==> h < nextHandle && HandleBelow(buffers[h].memory, nextHandle))
      && (forall h :: h in memories ==> h < nextHandle)
      && (forall h :: h in fences ==> h < nextHandle)
      && (forall h :: h in commandBuffers ==> h < nextHandle && RefersBelow(commandBuffers[h], nextHandle))
      && 0 < imageCount && (forall n :: n in acquireIndices ==> acquireIndices[n] < imageCount)
    }

    function requirementsOf(h: nat): MemoryRequirements {
      if h in reported then reported[h] else otherwise
    }

    function acquireIndex(n: nat): nat {
      if n in acquireIndices then acquireIndices[n] else 0
    }

    /** Every memory-requirements report asks for at least `size` bytes; an implementation
        never reports less than the object it describes needs. */
    ghost predicate ReportsAtLeast(size: nat) {
      otherwise.size >= size && forall h :: h in reported ==> reported[h].size >= size
    }

    constructor (fault: map<nat, int>, reported: map<nat, MemoryRequirements>, otherwise: MemoryRequirements,
                 memoryTypes: MemoryTypes, imageCount: nat, acquireIndices: map<nat, nat>)
      requires 0 < imageCount && forall n :: n in acquireIndices ==> acquireIndices[n] < imageCount
      ensures Valid() && log == [] && calls == 0
      ensures buffers == map[] && memories == map[] && images == map[] && imageViews == map[] && pools == map[]
      ensures commandBuffers == map[] && fences == map[] && semaphores == map[] && acquired == {}
      ensures this.fault == fault && this.reported == reported && this.otherwise == otherwise && this.memoryTypes == memoryTypes
      ensures this.imageCount == imageCount && this.acquireIndices == acquireIndices
    {
      this.fault := fault;
      this.reported := reported;
      this.otherwise := otherwise;
      this.memoryTypes := memoryTypes;
      this.imageCount := imageCount;
      this.acquireIndices := acquireIndices;
      buffers, memories, images, imageViews, pools := map[], map[], map[], map[], map[];
      commandBuffers, fences, semaphores, acquired := map[], map[], map[], {};
      log := [];
      calls := 0;
      nextHandle := 0;
    }

    /** Reads the oracle for one fallible call and advances it. */
    method Attempt() returns (r: Outcome)
      modifies this`calls
      ensures calls == old(calls) + 1
      ensures r.Pass? <==> old(calls) !in fault
      ensures r.Fail? ==> r == Fail(VkError(fault[old(calls)]))
    {
      r := if calls in fault then Fail(VkError(fault[calls])) else Pass;
      calls := calls + 1;
    }

    /** `vkCreateBuffer`: a new unbound buffer of the requested size and usage. */
    method CreateBuffer(size: nat, usage: Flags) returns (r: Result<nat>)
      requires Valid() && size > 0
      modifies this`buffers, this`nextHandle, this`calls, this`log
      ensures Valid() && calls == old(calls) + 1
      ensures r.Ok? <==> old(calls) !in fault
      ensures r.Err? ==> r.error == VkError(fault[old(calls)])
      ensures r.Err? ==> buffers == old(buffers) && nextHandle == old(nextHandle)
      ensures r.Ok? ==> r.value == old(nextHandle) && nextHandle == old(nextHandle) + 1
      ensures r.Ok? ==> buffers == old(buffers)[r.value := BufferState(size, usage, requirementsOf(r.value), None)]
      ensures log == old(log) + [Call(CreateBufferOp(size, usage), r.Ok?)]
    {
      var outcome := Attempt();
      if outcome.Fail? {
        log := log + [Call(CreateBufferOp(size, usage), false)];
        return Err(outcome.error);
      }
      var h := nextHandle;
      nextHandle := nextHandle + 1;
      buffers := buffers[h := BufferState(size, usage, requirementsOf(h), None)];
      log := log + [Call(CreateBufferOp(size, usage), true)];
      return Ok(h);
    }

    /** `vkGetBufferMemoryRequirements`. */
    method GetBufferMemoryRequirements(buffer: nat) returns (req: MemoryRequirements)
      requires buffer in buffers
      ensures req == buffers[buffer].requirements
    {
      req := buffers[buffer].requirements;
    }

    /** `vkCreateImage`: a new unbound 2-D image. */
    method CreateImage(format: Format, extent: Extent2D, usage: Flags) returns (r: Result<nat>)
      requires Valid() && extent.width > 0 && extent.height > 0
      modifies this`images, this`nextHandle, this`calls, this`log
      ensures Valid() && calls == old(calls) + 1
      ensures r.Ok? <==> old(calls) !in fault
      ensures r.Err? ==> r.error == VkError(fault[old(calls)])
      ensures r.Err? ==> images == old(images) && nextHandle == old(nextHandle)
      ensures r.Ok? ==> r.value == old(nextHandle) && nextHandle == old(nextHandle) + 1
      ensures r.Ok? ==> images == old(images)[r.value := ImageState(format, extent, usage, requirementsOf(r.value), None)]
      ensures log == old(log) + [Call(CreateImageOp(format, extent, usage), r.Ok?)]
    {
      var outcome := Attempt();
      if outcome.Fail? {
        log := log + [Call(CreateImageOp(format, extent, usage), false)];
        return Err(outcome.error);
      }
      var h := nextHandle;
      nextHandle := nextHandle + 1;
      images := images[h := ImageState(format, extent, usage, requirementsOf(h), None)];
      log := log + [Call(CreateImageOp(format, extent, usage), true)];
      return Ok(h);
    }

    /** `vkGetImageMemoryRequirements`. */
    method GetImageMemoryRequirements(image: nat) returns (req: MemoryRequirements)
      requires image in images
      ensures req == images[image].requirements
    {
      req := images[image].requirements;
    }

    /** `find_memorytype_index` over this device's memory types, logged as a step because
        its failure ends the sequence it is part of. */
    method FindMemoryType(req: MemoryRequirements, flags: Flags) returns (r: Result<u32>)
      modifies this`log
      ensures r == MemoryTypeSelection.MemoryTypeIndex(req, memoryTypes, flags)
      ensures log == old(log) + [Call(FindMemoryTypeOp(req.memoryTypeBits, flags), r.Ok?)]
    {
      r := MemoryTypeSelection.FindMemoryTypeIndex(req, memoryTypes, flags);
      log := log + [Call(FindMemoryTypeOp(req.memoryTypeBits, flags), r.Ok?)];
    }

    /** `vkAllocateMemory`. */
    method AllocateMemory(size: nat, typeIndex: nat) returns (r: Result<nat>)
      requires Valid() && size > 0 && typeIndex < MAX_MEMORY_TYPES
      modifies this`memories, this`nextHandle, this`calls, this`log
      ensures Valid() && calls == old(calls) + 1
      ensures r.Ok? <==> old(calls) !in fault
      ensures r.Err? ==> r.error == VkError(fault[old(calls)])
      ensures r.Err? ==> memories == old(memories) && nextHandle == old(nextHandle)
      ensures r.Ok? ==> r.value == old(nextHandle) && nextHandle == old(nextHandle) + 1
      ensures r.Ok? ==> memories == old(memories)[r.value := MemoryState(size, typeIndex, None)]
      ensures log == old(log) + [Call(AllocateMemoryOp(size, typeIndex), r.Ok?)]
    {
      var outcome := Attempt();
      if outcome.Fail? {
        log := log + [Call(AllocateMemoryOp(size, typeIndex), false)];
        return Err(outcome.error);
      }
      var h := nextHandle;
      nextHandle := nextHandle + 1;
      memories := memories[h := MemoryState(size, typeIndex, None)];
      log := log + [Call(AllocateMemoryOp(size, typeIndex), true)];
      return Ok(h);
    }

    /** `vkBindBufferMemory`. */
    method BindBufferMemory(buffer: nat, memory: nat, offset: nat) returns (r: Outcome)
      requires Valid() && buffer in buffers && CanBind(buffers[buffer].requirements, buffers[buffer].memory, memories, memory, offset)
      modifies this`buffers, this`calls, this`log
      ensures Valid() && calls == old(calls) + 1
      ensures r.Pass? <==> old(calls) !in fault
      ensures r.Fail? ==> r.error == VkError(fault[old(calls)])
      ensures r.Fail? ==> buffers == old(buffers)
      ensures r.Pass? ==> buffers == old(buffers)[buffer := old(buffers[buffer]).(memory := Some(memory))]
      ensures log == old(log) + [Call(BindBufferMemoryOp(buffer, memory, offset), r.Pass?)]
    {
      r := Attempt();
      if r.Pass? {
        buffers := buffers[buffer := buffers[buffer].(memory := Some(memory))];
      }
      log := log + [Call(BindBufferMemoryOp(buffer, memory, offset), r.Pass?)];
    }

    /** `vkBindImageMemory`. */
    method BindImageMemory(image: nat, memory: nat, offset: nat) returns (r: Outcome)
      requires Valid() && image in images && CanBind(images[image].requirements, images[image].memory, memories, memory, offset)
      modifies this`images, this`calls, this`log
      ensures Valid() && calls == old(calls) + 1
      ensures r.Pass? <==> old(calls) !in fault
      ensures r.Fail? ==> r.error == VkError(fault[old(calls)])
      ensures r.Fail? ==> images == old(images)
      ensures r.Pass? ==> images == old(images)[image := old(images[image]).(memory := Some(memory))]
      ensures log == old(log) + [Call(BindImageMemoryOp(image, memory, offset), r.Pass?)]
    {
      r := Attempt();
      if r.Pass? {
        images := images[image := images[image].(memory := Some(memory))];
      }
      log := log + [Call(BindImageMemoryOp(image, memory, offset), r.Pass?)];
    }

    /** `vkCreateImageView` over an image that has memory bound. */
    method CreateImageView(image: nat, format: Format) returns (r: Result<nat>)
      requires Valid() && image in images && images[image].memory.Some?
      modifies this`imageViews, this`nextHandle, this`calls, this`log
      ensures Valid() && calls == old(calls) + 1
      ensures r.Ok? <==> old(calls) !in fault
      ensures r.Err? ==> r.error == VkError(fault[old(calls)])
      ensures r.Err? ==> imageViews == old(imageViews) && nextHandle == old(nextHandle)
      ensures r.Ok? ==> r.value == old(nextHandle) && nextHandle == old(nextHandle) + 1
      ensures r.Ok? ==> imageViews == old(imageViews)[r.value := image]
      ensures log == old(log) + [Call(CreateImageViewOp(image, format), r.Ok?)]
    {
      var outcome := Attempt();
      if outcome.Fail? {
        log := log + [Call(CreateImageViewOp(image, format), false)];
        return Err(outcome.error);
      }
      var h := nextHandle;
      nextHandle := nextHandle + 1;
      imageViews := imageViews[h := image];
      log := log + [Call(CreateImageViewOp(image, format), true)];
      return Ok(h);
    }

    /** `vkMapMemory`: the range becomes mapped. */
    method MapMemory(memory: nat, offset: nat, size: nat) returns (r: Outcome)
      requires Valid() && CanMap(memories, memoryTypes, memory, offset, size)
      modifies this`memories, this`calls, this`log
      ensures Valid() && calls == old(calls) + 1
      ensures r.Pass? <==> old(calls) !in fault
      ensures r.Fail? ==> r.error == VkError(fault[old(calls)])
      ensures r.Fail? ==> memories == old(memories)
      ensures r.Pass? ==> memories == old(memories)[memory := old(memories[memory]).(mapped := Some((offset, size)))]
      ensures log == old(log) + [Call(MapMemoryOp(memory, offset, size), r.Pass?)]
    {
      r := Attempt();
      if r.Pass? {
        memories := memories[memory := memories[memory].(mapped := Some((offset, size)))];
      }
      log := log + [Call(MapMemoryOp(memory, offset, size), r.Pass?)];
    }

    /** A host write of `size` bytes through the mapping (`Align::copy_from_slice`). */
    method WriteMapped(memory: nat, size: nat)
      requires memory in memories && memories[memory].mapped.Some?
      requires size <= memories[memory].mapped.value.1
      modifies this`log
      ensures log == old(log) + [Call(WriteMappedOp(memory, size), true)]
    {
      log := log + [Call(WriteMappedOp(memory, size), true)];
    }

    /** `vkUnmapMemory`. */
    method UnmapMemory(memory: nat)
      requires Valid() && memory in memories && memories[memory].mapped.Some?
      modifies this`memories, this`log
      ensures Valid()
      ensures memories == old(memories)[memory := old(memories[memory]).(mapped := None)]
      ensures log == old(log) + [Call(UnmapMemoryOp(memory), true)]
    {
      memories := memories[memory := memories[memory].(mapped := None)];
      log := log + [Call(UnmapMemoryOp(memory), true)];
    }

    /** `vkDestroyBuffer`: no pending command buffer may still use it. */
    method DestroyBuffer(buffer: nat)
      requires Valid() && buffer in buffers && !BufferInUse(commandBuffers, buffer)
      modifies this`buffers, this`log
      ensures Valid()
      ensures buffers == old(buffers) - {buffer}
      ensures log == old(log) + [Call(DestroyBufferOp(buffer), true)]
    {
      buffers := buffers - {buffer};
      log := log + [Call(DestroyBufferOp(buffer), true)];
    }

    /** `vkFreeMemory` (an outstanding mapping is released with it): no live buffer that a
        pending command buffer uses may be bound to it. */
    method FreeMemory(memory: nat)
      requires Valid() && memory in memories
      requires forall b :: b in buffers && buffers[b].memory == Some(memory) ==> !BufferInUse(commandBuffers, b)
      modifies this`memories, this`log
      ensures Valid()
      ensures memories == old(memories) - {memory}
      ensures log == old(log) + [Call(FreeMemoryOp(memory), true)]
    {
      memories := memories - {memory};
      log := log + [Call(FreeMemoryOp(memory), true)];
    }

    /** `vkCreateCommandPool`. */
    method CreateCommandPool(flags: Flags, queueFamily: nat) returns (r: Result<nat>)
      requires Valid()
      modifies this`pools, this`nextHandle, this`calls, this`log
      ensures Valid() && calls == old(calls) + 1
      ensures r.Ok? <==> old(calls) !in fault
      ensures r.Err? ==> r.error == VkError(fault[old(calls)])
      ensures r.Err? ==> pools == old(pools) && nextHandle == old(nextHandle)
      ensures r.Ok? ==> r.value == old(nextHandle) && nextHandle == old(nextHandle) + 1
      ensures r.Ok? ==> pools == old(pools)[r.value := flags]
      ensures log == old(log) + [Call(CreateCommandPoolOp(flags, queueFamily), r.Ok?)]
    {
      var outcome := Attempt();
      if outcome.Fail? {
        log := log + [Call(CreateCommandPoolOp(flags, queueFamily), false)];
        return Err(outcome.error);
      }
      var h := nextHandle;
      nextHandle := nextHandle + 1;
      pools := pools[h := flags];
      log := log + [Call(CreateCommandPoolOp(flags, queueFamily), true)];
      return Ok(h);
    }

    /** `vkAllocateCommandBuffers` at the primary level: `count` new buffers in the
        initial state, with consecutive fresh handles. */
    method AllocateCommandBuffers(pool: nat, count: nat) returns (r: Result<seq<nat>>)
      requires Valid() && pool in pools && count > 0
      modifies this`commandBuffers, this`nextHandle, this`calls, this`log
      ensures Valid() && calls == old(calls) + 1
      ensures r.Ok? <==> old(calls) !in fault
      ensures r.Err? ==> r.error == VkError(fault[old(calls)])
      ensures r.Err? ==> commandBuffers == old(commandBuffers) && nextHandle == old(nextHandle)
      ensures r.Ok? ==> r.value == Handles(old(nextHandle), count) && nextHandle == old(nextHandle) + count
      ensures r.Ok? ==> commandBuffers == Allocated(old(commandBuffers), pool, old(nextHandle), count)
      ensures log == old(log) + [Call(AllocateCommandBuffersOp(pool, count), r.Ok?)]
    {
      var outcome := Attempt();
      if outcome.Fail? {
        log := log + [Call(AllocateCommandBuffersOp(pool, count), false)];
        return Err(outcome.error);
      }
      var first := nextHandle;
      nextHandle := nextHandle + count;
      commandBuffers := Allocated(commandBuffers, pool, first, count);
      log := log + [Call(AllocateCommandBuffersOp(pool, count), true)];
      return Ok(Handles(first, count));
    }

    /** `vkFreeCommandBuffers`: none of them may be pending. */
    method FreeCommandBuffers(pool: nat, cbs: seq<nat>)
      requires Valid()
      requires forall c :: c in cbs ==>
        c in commandBuffers && commandBuffers[c].pool == pool && commandBuffers[c].lifecycle != Pending
      modifies this`commandBuffers, this`log
      ensures Valid()
      ensures commandBuffers == map c | c in old(commandBuffers) && c !in cbs :: old(commandBuffers[c])
      ensures log == old(log) + [Call(FreeCommandBuffersOp(pool, cbs), true)]
    {
      commandBuffers := map c | c in commandBuffers && c !in cbs :: commandBuffers[c];
      log := log + [Call(FreeCommandBuffersOp(pool, cbs), true)];
    }

    /** `vkResetCommandBuffer`: allowed only for a buffer from a pool created with
        `RESET_COMMAND_BUFFER_BIT`, and not while it is pending; it returns to initial. */
    method ResetCommandBuffer(cb: nat, flags: Flags) returns (r: Outcome)
      requires Valid() && cb in commandBuffers && commandBuffers[cb].pool in pools
      requires Contains(pools[commandBuffers[cb].pool], COMMAND_POOL_CREATE_RESET_COMMAND_BUFFER_BIT)
      requires commandBuffers[cb].lifecycle != Pending
      modifies this`commandBuffers, this`calls, this`log
      ensures Valid() && calls == old(calls) + 1
      ensures r.Pass? <==> old(calls) !in fault
      ensures r.Fail? ==> r.error == VkError(fault[old(calls)])
      ensures r.Fail? ==> commandBuffers == old(commandBuffers)
      ensures r.Pass? ==> commandBuffers == old(commandBuffers)[cb :=
                            old(commandBuffers[cb]).(lifecycle := Initial, commands := [], oneTime := false)]
      ensures log == old(log) + [Call(ResetCommandBufferOp(cb, flags), r.Pass?)]
    {
      r := Attempt();
      if r.Pass? {
        commandBuffers := commandBuffers[cb := commandBuffers[cb].(lifecycle := Initial, commands := [], oneTime := false)];
      }
      log := log + [Call(ResetCommandBufferOp(cb, flags), r.Pass?)];
    }

    /** `vkBeginCommandBuffer` on a buffer in the initial state: it starts recording. */
    method BeginCommandBuffer(cb: nat, flags: Flags) returns (r: Outcome)
      requires Valid() && cb in commandBuffers && commandBuffers[cb].lifecycle == Initial
      modifies this`commandBuffers, this`calls, this`log
      ensures Valid() && calls == old(calls) + 1
      ensures r.Pass? <==> old(calls) !in fault
      ensures r.Fail? ==> r.error == VkError(fault[old(calls)])
      ensures r.Fail? ==> commandBuffers == old(commandBuffers)
      ensures r.Pass? ==> commandBuffers == old(commandBuffers)[cb := old(commandBuffers[cb]).(lifecycle := Recording,
                            oneTime := Contains(flags, COMMAND_BUFFER_USAGE_ONE_TIME_SUBMIT_BIT))]
      ensures log == old(log) + [Call(BeginCommandBufferOp(cb, flags), r.Pass?)]
    {
      r := Attempt();
      if r.Pass? {
        commandBuffers := commandBuffers[cb := commandBuffers[cb].(lifecycle := Recording,
                            oneTime := Contains(flags, COMMAND_BUFFER_USAGE_ONE_TIME_SUBMIT_BIT))];
      }
      log := log + [Call(BeginCommandBufferOp(cb, flags), r.Pass?)];
    }

    /** The `vkCmd*` calls made while recording (the body of a recording callback). */
    method Record(cb: nat, commands: seq<Command>)
      requires Valid() && cb in commandBuffers && commandBuffers[cb].lifecycle == Recording
      requires CanRecord(buffers, memories, commands)
      modifies this`commandBuffers, this`log
      ensures Valid()
      ensures commandBuffers == old(commandBuffers)[cb :=
                old(commandBuffers[cb]).(commands := old(commandBuffers[cb].commands) + commands)]
      ensures log == old(log) + [Call(RecordOp(cb, commands), true)]
    {
      commandBuffers := commandBuffers[cb := commandBuffers[cb].(commands := commandBuffers[cb].commands + commands)];
      log := log + [Call(RecordOp(cb, commands), true)];
    }

    /** `vkEndCommandBuffer`: no render pass instance may be open; executable on
        success, and a failed end leaves it invalid. */
    method EndCommandBuffer(cb: nat) returns (r: Outcome)
      requires Valid() && cb in commandBuffers && commandBuffers[cb].lifecycle == Recording
      requires !InsideRenderPass(commandBuffers[cb].commands)
      modifies this`commandBuffers, this`calls, this`log
      ensures Valid() && calls == old(calls) + 1
      ensures r.Pass? <==> old(calls) !in fault
      ensures r.Fail? ==> r.error == VkError(fault[old(calls)])
      ensures commandBuffers == old(commandBuffers)[cb :=
                old(commandBuffers[cb]).(lifecycle := if r.Pass? then Executable else Invalid)]
      ensures log == old(log) + [Call(EndCommandBufferOp(cb), r.Pass?)]
    {
      r := Attempt();
      commandBuffers := commandBuffers[cb := commandBuffers[cb].(lifecycle := if r.Pass? then Executable else Invalid)];
      log := log + [Call(EndCommandBufferOp(cb), r.Pass?)];
    }

    /** `vkCreateFence`. */
    method CreateFence(signaled: bool) returns (r: Result<nat>)
      requires Valid()
      modifies this`fences, this`nextHandle, this`calls, this`log
      ensures Valid() && calls == old(calls) + 1
      ensures r.Ok? <==> old(calls) !in fault
      ensures r.Err? ==> r.error == VkError(fault[old(calls)])
      ensures r.Err? ==> fences == old(fences) && nextHandle == old(nextHandle)
      ensures r.Ok? ==> r.value == old(nextHandle) && nextHandle == old(nextHandle) + 1
      ensures r.Ok? ==> fences == old(fences)[r.value := signaled]
      ensures log == old(log) + [Call(CreateFenceOp(signaled), r.Ok?)]
    {
      var outcome := Attempt();
      if outcome.Fail? {
        log := log + [Call(CreateFenceOp(signaled), false)];
        return Err(outcome.error);
      }
      var h := nextHandle;
      nextHandle := nextHandle + 1;
      fences := fences[h := signaled];
      log := log + [Call(CreateFenceOp(signaled), true)];
      return Ok(h);
    }

    /** `vkQueueSubmit` with one `VkSubmitInfo`; a failed submit changes nothing. */
    method QueueSubmit(info: SubmitInfo, fence: Option<nat>) returns (r: Outcome)
      requires Valid() && CanSubmit(commandBuffers, semaphores, fences, info, fence)
      modifies this`commandBuffers, this`semaphores, this`calls, this`log
      ensures Valid() && calls == old(calls) + 1
      ensures r.Pass? <==> old(calls) !in fault
      ensures r.Fail? ==> r.error == VkError(fault[old(calls)])
      ensures r.Fail? ==> commandBuffers == old(commandBuffers) && semaphores == old(semaphores)
      ensures r.Pass? ==> commandBuffers == Submitted(old(commandBuffers), info, fence)
      ensures r.Pass? ==> semaphores == SemaphoresAfter(old(semaphores), info.waitSemaphores, info.signalSemaphores)
      ensures log == old(log) + [Call(QueueSubmitOp(info, fence), r.Pass?)]
    {
      r := Attempt();
      if r.Pass? {
        commandBuffers := Submitted(commandBuffers, info, fence);
        semaphores := SemaphoresAfter(semaphores, info.waitSemaphores, info.signalSemaphores);
      }
      log := log + [Call(QueueSubmitOp(info, fence), r.Pass?)];
    }

    /** `vkWaitForFences` with `wait_all` and no timeout: on success the guarded work has
        completed and the fences are signalled; a failure (device loss) changes nothing
        the model tracks. */
    method WaitForFences(fs: seq<nat>, waitAll: bool, timeout: nat) returns (r: Outcome)
      requires Valid() && (forall f :: f in fs ==> f in fences) && waitAll && timeout == U64_MAX
      modifies this`commandBuffers, this`fences, this`calls, this`log
      ensures Valid() && calls == old(calls) + 1
      ensures r.Pass? <==> old(calls) !in fault
      ensures r.Fail? ==> r.error == VkError(fault[old(calls)])
      ensures r.Fail? ==> commandBuffers == old(commandBuffers) && fences == old(fences)
      ensures r.Pass? ==> commandBuffers == CompletedOn(old(commandBuffers), fs)
      ensures r.Pass? ==> fences == Signalled(old(fences), fs)
      ensures log == old(log) + [Call(WaitForFencesOp(fs, waitAll, timeout), r.Pass?)]
    {
      r := Attempt();
      if r.Pass? {
        commandBuffers := CompletedOn(commandBuffers, fs);
        fences := Signalled(fences, fs);
      }
      log := log + [Call(WaitForFencesOp(fs, waitAll, timeout), r.Pass?)];
    }

    /** `vkDestroyFence`: no pending submission may still refer to it. */
    method DestroyFence(fence: nat)
      requires Valid() && fence in fences && !FenceInUse(commandBuffers, fence)
      modifies this`fences, this`log
      ensures Valid()
      ensures fences == old(fences) - {fence}
      ensures log == old(log) + [Call(DestroyFenceOp(fence), true)]
    {
      fences := fences - {fence};
      log := log + [Call(DestroyFenceOp(fence), true)];
    }

    /** `vkCreateSemaphore`: a binary semaphore with no pending signal. */
    method CreateSemaphore() returns (r: Result<nat>)
      requires Valid()
      modifies this`semaphores, this`nextHandle, this`calls, this`log
      ensures Valid() && calls == old(calls) + 1
      ensures r.Ok? <==> old(calls) !in fault
      ensures r.Err? ==> r.error == VkError(fault[old(calls)])
      ensures r.Err? ==> semaphores == old(semaphores) && nextHandle == old(nextHandle)
      ensures r.Ok? ==> r.value == old(nextHandle) && nextHandle == old(nextHandle) + 1
      ensures r.Ok? ==> semaphores == old(semaphores)[r.value := false]
      ensures log == old(log) + [Call(CreateSemaphoreOp, r.Ok?)]
    {
      var outcome := Attempt();
      if outcome.Fail? {
        log := log + [Call(CreateSemaphoreOp, false)];
        return Err(outcome.error);
      }
      var h := nextHandle;
      nextHandle := nextHandle + 1;
      semaphores := semaphores[h := false];
      log := log + [Call(CreateSemaphoreOp, true)];
      return Ok(h);
    }

    /** `vkQueueWaitIdle`: on success every pending submission has completed. */
    method QueueWaitIdle() returns (r: Outcome)
      requires Valid()
      modifies this`commandBuffers, this`calls, this`log
      ensures Valid() && calls == old(calls) + 1
      ensures r.Pass? <==> old(calls) !in fault
      ensures r.Fail? ==> r.error == VkError(fault[old(calls)])
      ensures r.Fail? ==> commandBuffers == old(commandBuffers)
      ensures r.Pass? ==> commandBuffers == AllCompleted(old(commandBuffers))
      ensures log == old(log) + [Call(QueueWaitIdleOp, r.Pass?)]
    {
      r := Attempt();
      if r.Pass? {
        commandBuffers := AllCompleted(commandBuffers);
      }
      log := log + [Call(QueueWaitIdleOp, r.Pass?)];
    }

    /** `vkAcquireNextImageKHR` with no fence: the semaphore must have no pending signal;
        on success it will be signalled when the returned image is ready. */
    method AcquireNextImage(timeout: nat, semaphore: nat) returns (r: Result<nat>)
      requires Valid() && semaphore in semaphores && !semaphores[semaphore]
      modifies this`semaphores, this`acquired, this`calls, this`log
      ensures Valid() && calls == old(calls) + 1
      ensures r.Ok? <==> old(calls) !in fault
      ensures r.Err? ==> r.error == VkError(fault[old(calls)])
      ensures r.Err? ==> semaphores == old(semaphores) && acquired == old(acquired)
      ensures r.Ok? ==> r.value == acquireIndex(old(calls)) && r.value < imageCount
      ensures r.Ok? ==> semaphores == old(semaphores)[semaphore := true] && acquired == old(acquired) + {r.value}
      ensures log == old(log) + [Call(AcquireNextImageOp(timeout, semaphore), r.Ok?)]
    {
      var index := acquireIndex(calls);
      var outcome := Attempt();
      if outcome.Fail? {
        log := log + [Call(AcquireNextImageOp(timeout, semaphore), false)];
        return Err(outcome.error);
      }
      semaphores := semaphores[semaphore := true];
      acquired := acquired + {index};
      log := log + [Call(AcquireNextImageOp(timeout, semaphore), true)];
      return Ok(index);
    }

    /** `vkQueuePresentKHR` of one acquired image once its wait semaphores are signalled. */
    method QueuePresent(waitSemaphores: seq<nat>, imageIndex: nat) returns (r: Outcome)
      requires Valid() && imageIndex in acquired
      requires forall s :: s in waitSemaphores ==> s in semaphores && semaphores[s]
      modifies this`semaphores, this`acquired, this`calls, this`log
      ensures Valid() && calls == old(calls) + 1
      ensures r.Pass? <==> old(calls) !in fault
      ensures r.Fail? ==> r.error == VkError(fault[old(calls)])
      ensures r.Fail? ==> semaphores == old(semaphores) && acquired == old(acquired)
      ensures r.Pass? ==> semaphores == SemaphoresAfter(old(semaphores), waitSemaphores, [])
      ensures r.Pass? ==> acquired == old(acquired) - {imageIndex}
      ensures log == old(log) + [Call(QueuePresentOp(waitSemaphores, imageIndex), r.Pass?)]
    {
      r := Attempt();
      if r.Pass? {
        semaphores := SemaphoresAfter(semaphores, waitSemaphores, []);
        acquired := acquired - {imageIndex};
      }
      log := log + [Call(QueuePresentOp(waitSemaphores, imageIndex), r.Pass?)];
    }

    /** Reading, compiling and loading the shader at `path` (file I/O, the GLSL compiler
        and `vkCreateShaderModule`), as one fallible step that yields a module handle. */
    method CreateShaderModule(path: string) returns (r: Result<nat>)
      modifies this`nextHandle, this`calls, this`log
      ensures calls == old(calls) + 1
      ensures r.Ok? <==> old(calls) !in fault
      ensures r.Err? ==> r.error == VkError(fault[old(calls)]) && nextHandle == old(nextHandle)
      ensures r.Ok? ==> r.value == old(nextHandle) && nextHandle == old(nextHandle) + 1
      ensures log == old(log) + [Call(CreateShaderModuleOp(path), r.Ok?)]
    {
      var outcome := Attempt();
      log := log + [Call(CreateShaderModuleOp(path), outcome.Pass?)];
      if outcome.Fail? {
        return Err(outcome.error);
      }
      r := Ok(nextHandle);
      nextHandle := nextHandle + 1;
    }

    /** `vkCreatePipelineLayout` with no descriptor-set layouts and no push-constant ranges. */
    method CreatePipelineLayout() returns (r: Result<nat>)
      modifies this`nextHandle, this`calls, this`log
      ensures calls == old(calls) + 1
      ensures r.Ok? <==> old(calls) !in fault
      ensures r.Err? ==> r.error == VkError(fault[old(calls)]) && nextHandle == old(nextHandle)
      ensures r.Ok? ==> r.value == old(nextHandle) && nextHandle == old(nextHandle) + 1
      ensures log == old(log) + [Call(CreatePipelineLayoutOp, r.Ok?)]
    {
      var outcome := Attempt();
      log := log + [Call(CreatePipelineLayoutOp, outcome.Pass?)];
      if outcome.Fail? {
        return Err(outcome.error);
      }
      r := Ok(nextHandle);
      nextHandle := nextHandle + 1;
    }

    /** `vkCreateGraphicsPipelines` without a pipeline cache: one pipeline per create info. */
    method CreateGraphicsPipelines(infos: seq<PipelineInfo>) returns (r: Result<seq<nat>>)
      modifies this`nextHandle, this`calls, this`log
      ensures calls == old(calls) + 1
      ensures r.Ok? <==> old(calls) !in fault
      ensures r.Err? ==> r.error == VkError(fault[old(calls)]) && nextHandle == old(nextHandle)
      ensures r.Ok? ==> r.value == Handles(old(nextHandle), |infos|) && nextHandle == old(nextHandle) + |infos|
      ensures log == old(log) + [Call(CreateGraphicsPipelinesOp(infos), r.Ok?)]
    {
      var outcome := Attempt();
      log := log + [Call(CreateGraphicsPipelinesOp(infos), outcome.Pass?)];
      if outcome.Fail? {
        return Err(outcome.error);
      }
      r := Ok(Handles(nextHandle, |infos|));
      nextHandle := nextHandle + |infos|;
    }
  }
}
