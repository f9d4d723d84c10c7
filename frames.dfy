/** The per-image frame slots of `VulkanRenderer` (src/render_backends/vulkan/mod.rs) and
    `Renderer` (src/renderer/mod.rs): how the slot table is built, and how `begin_frame`
    and `end_frame` use `frame_index`. */
module Frames {
  import opened Wrappers
  import opened Vk
  import opened DeviceLog
  import opened GpuDevice
  import CommandRecorder

  /** `swapchain::Frame`: a present image view, its framebuffer and command buffer, and
      the two semaphores of the slot. */
  datatype Frame = Frame(
    imageView: nat,
    framebuffer: nat,
    commandBuffer: nat,
    acquireImageSemaphore: nat,
    renderFinishedSemaphore: nat)

  /** The device calls of `count` calls of `Frame::new`: two semaphores each. */
  function FrameOps(count: nat): (r: seq<Op>) {
    seq(2 * count, _ => CreateSemaphoreOp)
  }

  lemma FrameOpsAppend(a: nat, b: nat)
    ensures FrameOps(a) + FrameOps(b) == FrameOps(a + b)
  {
    assert forall i :: 0 <= i < 2 * (a + b) ==> (FrameOps(a) + FrameOps(b))[i] == FrameOps(a + b)[i];
  }

  /** The semaphores after `count` new unsignalled ones with handles `first`, `first + 1`, ... */
  function Unsignalled(semaphores: Signals, first: nat, count: nat): Signals
    decreases count
  {
    if count == 0 then semaphores else Unsignalled(semaphores, first, count - 1)[first + count - 1 := false]
  }

  /** Two more semaphores are the next two handles, unsignalled. */
  lemma UnsignalledTwo(semaphores: Signals, first: nat, count: nat)
    ensures Unsignalled(semaphores, first, count + 2) == Unsignalled(semaphores, first, count)[first + count := false][first + count + 1 := false]
  {
  }

  lemma {:induction false} UnsignalledHas(semaphores: Signals, first: nat, count: nat)
    ensures forall s :: s in Unsignalled(semaphores, first, count) <==> s in semaphores || first <= s < first + count
    ensures forall s :: first <= s < first + count ==> !Unsignalled(semaphores, first, count)[s]
    ensures forall s :: s in semaphores && !(first <= s < first + count) ==> Unsignalled(semaphores, first, count)[s] == semaphores[s]
    decreases count
  {
    if count > 0 {
      UnsignalledHas(semaphores, first, count - 1);
    }
  }

  /** `Frame::new`, whose body is not part of this model: it is taken to create the
      slot's two semaphores, in order, and to fail when either creation fails. */
  method NewFrame(device: Device, imageView: nat, framebuffer: nat, commandBuffer: nat) returns (r: Result<Frame>)
    requires device.Valid()
    modifies device`semaphores, device`nextHandle, device`calls, device`log
    ensures device.Valid()
    ensures var n0 := old(device.nextHandle);
      r.Ok? ==>
        r.value == Frame(imageView, framebuffer, commandBuffer, n0, n0 + 1) && device.nextHandle == n0 + 2
        && device.semaphores == old(device.semaphores)[n0 := false][n0 + 1 := false]
    ensures (r.Ok? == RanAll(device.log, old(device.log), FrameOps(1)))
            && (r.Err? == RanUntilFailure(device.log, old(device.log), FrameOps(1)))
  {
    ghost var log0, ops := device.log, FrameOps(1);
    Start(log0, ops);
    var acquire := device.CreateSemaphore();
    Step(device.log, log0, log0, ops, 0, acquire.Ok?);
    if acquire.Err? {
      CompletedOrFailed(device.log, log0, ops);
      return Err(acquire.error);
    }
    ghost var log1 := device.log;
    var renderFinished := device.CreateSemaphore();
    Step(device.log, log1, log0, ops, 1, renderFinished.Ok?);
    CompletedOrFailed(device.log, log0, ops);
    if renderFinished.Err? {
      return Err(renderFinished.error);
    }
    return Ok(Frame(imageView, framebuffer, commandBuffer, acquire.value, renderFinished.value));
  }

  /** The slot-table loop of `VulkanRenderer::new` and `Renderer::new`: slot `i` is made
      from `presentImageViews[i]`, `framebuffers[i]` and `commandBuffers[i]`, one slot per
      present image view; the first failing `Frame::new` ends the loop and the error is
      returned. The indexing panics unless the other two are at least as long. */
  method NewFrames(device: Device, presentImageViews: seq<nat>, framebuffers: seq<nat>, commandBuffers: seq<nat>)
    returns (r: Result<seq<Frame>>)
    requires device.Valid() && |presentImageViews| <= |framebuffers| && |presentImageViews| <= |commandBuffers|
    modifies device`semaphores, device`nextHandle, device`calls, device`log
    ensures device.Valid()
    ensures var n0 := old(device.nextHandle);
      r.Ok? ==>
        |r.value| == |presentImageViews|
        && (forall i :: 0 <= i < |r.value| ==>
              r.value[i] == Frame(presentImageViews[i], framebuffers[i], commandBuffers[i], n0 + 2 * i, n0 + 2 * i + 1))
        && device.nextHandle == n0 + 2 * |presentImageViews|
        && device.semaphores == Unsignalled(old(device.semaphores), n0, 2 * |presentImageViews|)
    ensures (r.Ok? == RanAll(device.log, old(device.log), FrameOps(|presentImageViews|)))
            && (r.Err? == RanUntilFailure(device.log, old(device.log), FrameOps(|presentImageViews|)))
  {
    ghost var log0, n0, semaphores0 := device.log, device.nextHandle, device.semaphores;
    ghost var n := |presentImageViews|;
    var frames: seq<Frame> := [];
    var i := 0;
    Start(log0, FrameOps(0));
    while i < |presentImageViews|
      invariant 0 <= i <= n && |frames| == i && device.Valid()
      invariant forall j :: 0 <= j < i ==>
        frames[j] == Frame(presentImageViews[j], framebuffers[j], commandBuffers[j], n0 + 2 * j, n0 + 2 * j + 1)
      invariant device.nextHandle == n0 + 2 * i && device.semaphores == Unsignalled(semaphores0, n0, 2 * i)
      invariant RanAll(device.log, log0, FrameOps(i))
    {
      ghost var log1 := device.log;
      var frame := NewFrame(device, presentImageViews[i], framebuffers[i], commandBuffers[i]);
      FrameOpsAppend(i, 1);
      if frame.Err? {
        FailedInSecond(device.log, log1, log0, FrameOps(i), FrameOps(1));
        FailedRun(device.log, log0, FrameOps(i + 1), FrameOps(n - i - 1));
        FrameOpsAppend(i + 1, n - i - 1);
        return Err(frame.error);
      }
      Then(device.log, log1, log0, FrameOps(i), FrameOps(1));
      UnsignalledTwo(semaphores0, n0, 2 * i);
      frames := frames + [frame.value];
      i := i + 1;
    }
    CompletedOrFailed(device.log, log0, FrameOps(n));
    return Ok(frames);
  }

  /** Command-buffer allocation and the slot table of `new`: exactly one command buffer
      per present image view is requested (`swapchain_len as u32`); slot `i` gets the
      `i`-th. */
  method NewFrameTable(device: Device, pool: nat, presentImageViews: seq<nat>, framebuffers: seq<nat>)
    returns (r: Result<seq<Frame>>)
    requires device.Valid() && pool in device.pools
    requires 0 < |presentImageViews| <= U32_MAX && |presentImageViews| <= |framebuffers|
    modifies device`commandBuffers, device`semaphores, device`nextHandle, device`calls, device`log
    ensures device.Valid()
    ensures var n0, n := old(device.nextHandle), |presentImageViews|;
      r.Ok? ==>
        |r.value| == n
        && (forall i :: 0 <= i < n ==>
              r.value[i] == Frame(presentImageViews[i], framebuffers[i], n0 + i, n0 + n + 2 * i, n0 + n + 2 * i + 1))
        && (forall i :: 0 <= i < n ==>
              r.value[i].commandBuffer in device.commandBuffers
              && device.commandBuffers[r.value[i].commandBuffer] == CommandBufferState(pool, Initial, false, [], None))
    ensures var ops := [AllocateCommandBuffersOp(pool, |presentImageViews|)] + FrameOps(|presentImageViews|);
      (r.Ok? == RanAll(device.log, old(device.log), ops)) && (r.Err? == RanUntilFailure(device.log, old(device.log), ops))
  {
    ghost var log0 := device.log;
    ghost var allocate := [AllocateCommandBuffersOp(pool, |presentImageViews|)];
    ghost var frames := FrameOps(|presentImageViews|);
    var commandBuffers := CommandRecorder.NewBuffers(device, pool, |presentImageViews|);
    Start(log0, allocate);
    Step(device.log, log0, log0, allocate, 0, commandBuffers.Ok?);
    if commandBuffers.Err? {
      FailedRun(device.log, log0, allocate, frames);
      return Err(commandBuffers.error);
    }
    ghost var log1 := device.log;
    r := NewFrames(device, presentImageViews, framebuffers, commandBuffers.value);
    ComposedRun(device.log, log1, log0, allocate, frames, r.Ok?);
  }

  // ---- recording the table in `new` ----

  /** No two slots share a command buffer. */
  predicate CommandBuffersDistinct(frames: seq<Frame>) {
    forall i, j :: 0 <= i < j < |frames| ==> frames[i].commandBuffer != frames[j].commandBuffer
  }

  /** The command buffer exists, comes from a pool whose buffers can be reset one at a
      time, and is not pending. */
  predicate Resettable(cbs: CommandBuffers, pools: map<nat, Flags>, cb: nat) {
    cb in cbs && cbs[cb].pool in pools
    && Contains(pools[cbs[cb].pool], COMMAND_POOL_CREATE_RESET_COMMAND_BUFFER_BIT)
    && cbs[cb].lifecycle != Pending
  }

  /** The wait-stage array `new` passes to each `submit`, with no semaphores. */
  const BOTTOM_OF_PIPE_MASK: seq<Flags> := [{PIPELINE_STAGE_BOTTOM_OF_PIPE_BIT}]

  /** The set-up recording of `new`: one barrier moving the depth image to its attachment
      layout. */
  function SetupCommands(depthImage: nat): seq<Command> {
    [PipelineBarrier(depthImage)]
  }

  /** The rectangle at the origin that spans the surface. */
  function FullArea(resolution: Extent2D): Rect2D {
    Rect2D(Offset2D(0, 0), resolution)
  }

  /** What `new` records into a slot's command buffer as written: bind the pipeline, begin
      the render pass on the slot's framebuffer over the whole surface, set the viewport
      and the scissor. Nothing ends the render pass. */
  function TableCommandsAsWritten(pipeline: nat, renderPass: nat, framebuffer: nat, resolution: Extent2D): seq<Command> {
    [BindPipeline(pipeline), BeginRenderPass(renderPass, framebuffer, FullArea(resolution)),
     SetViewport(resolution), SetScissor(FullArea(resolution))]
  }

  /** The same recording with the render pass ended before the buffer is. */
  function TableCommands(pipeline: nat, renderPass: nat, framebuffer: nat, resolution: Extent2D): (r: seq<Command>)
    ensures !InsideRenderPass(r) && forall i :: 0 <= i < |r| ==> !r[i].CopyBuffer?
  {
    TableCommandsAsWritten(pipeline, renderPass, framebuffer, resolution) + [EndRenderPass]
  }

  /** As written, a slot's recording leaves its render pass open, so ending the command
      buffer breaks the rule of `vkEndCommandBuffer`, and `submit` cannot be given it on
      any device. */
  lemma TableRecordingLeavesPassOpen(device: Device, cb: nat, pipeline: nat, renderPass: nat,
                                     framebuffer: nat, resolution: Extent2D)
    ensures InsideRenderPass(TableCommandsAsWritten(pipeline, renderPass, framebuffer, resolution))
    ensures !CommandRecorder.SubmitReady(device, cb, BOTTOM_OF_PIPE_MASK, [], [],
                                         TableCommandsAsWritten(pipeline, renderPass, framebuffer, resolution))
  {
    var commands := TableCommandsAsWritten(pipeline, renderPass, framebuffer, resolution);
    assert commands[..3][..2][|commands[..3][..2]| - 1].BeginRenderPass?;
    assert InsideRenderPass(commands[..3][..2]);
    assert commands[..3] == commands[..|commands| - 1];
    assert InsideRenderPass(commands[..3]);
  }

  /** Every slot's command buffer as `submit` leaves it: run once, begun with
      `ONE_TIME_SUBMIT`, and so invalid. */
  predicate TableSpent(frames: seq<Frame>, cbs: CommandBuffers) {
    forall i :: 0 <= i < |frames| ==>
      frames[i].commandBuffer in cbs && cbs[frames[i].commandBuffer].oneTime
      && cbs[frames[i].commandBuffer].lifecycle == Invalid
  }

  /** As written, `end_frame` resubmits a buffer of a spent table: no submission of any
      slot's command buffer is valid then, whatever it waits on and signals. */
  lemma EndFrameResubmitRejected(frames: seq<Frame>, cbs: CommandBuffers, semaphores: Signals, fences: Signals,
                                 index: nat, wait: nat, waitMask: seq<Flags>, fence: Option<nat>)
    requires index < |frames| && TableSpent(frames, cbs)
    ensures !CanSubmit(cbs, semaphores, fences, FrameSubmitInfo(frames, index, wait, waitMask), fence)
  {
    assert FrameSubmitInfo(frames, index, wait, waitMask).commandBuffers[0] == frames[index].commandBuffer;
  }

  /** Every slot's buffer is resettable, and the first `count` slots hold their
      recording, executable and reusable. */
  predicate TableRecorded(frames: seq<Frame>, cbs: CommandBuffers, pools: map<nat, Flags>, count: nat,
                          pipeline: nat, renderPass: nat, resolution: Extent2D)
  {
    (forall j :: 0 <= j < |frames| ==> Resettable(cbs, pools, frames[j].commandBuffer))
    && forall j :: 0 <= j < count && j < |frames| ==>
         var c := cbs[frames[j].commandBuffer];
         c.lifecycle == Executable && !c.oneTime
         && c.commands == TableCommands(pipeline, renderPass, frames[j].framebuffer, resolution)
  }

  /** Recording slot `i` extends the recorded prefix by one slot. */
  lemma TableRecordedStep(frames: seq<Frame>, cbs: CommandBuffers, pools: map<nat, Flags>, i: nat,
                          pipeline: nat, renderPass: nat, resolution: Extent2D)
    requires i < |frames| && CommandBuffersDistinct(frames)
    requires TableRecorded(frames, cbs, pools, i, pipeline, renderPass, resolution)
    ensures var cb := frames[i].commandBuffer;
      TableRecorded(frames, cbs[cb := CommandBufferState(cbs[cb].pool, Executable, false,
                                       TableCommands(pipeline, renderPass, frames[i].framebuffer, resolution), None)],
                    pools, i + 1, pipeline, renderPass, resolution)
  {
    var cb := frames[i].commandBuffer;
    forall j | 0 <= j < |frames| && j != i
      ensures frames[j].commandBuffer != cb
    {
      if j < i {
        assert frames[j].commandBuffer != frames[i].commandBuffer;
      } else {
        assert frames[i].commandBuffer != frames[j].commandBuffer;
      }
    }
  }

  /** A table recorded in full is reusable. */
  lemma TableRecordedReusable(frames: seq<Frame>, cbs: CommandBuffers, pools: map<nat, Flags>,
                              pipeline: nat, renderPass: nat, resolution: Extent2D)
    requires TableRecorded(frames, cbs, pools, |frames|, pipeline, renderPass, resolution)
    ensures BuffersReusable(frames, cbs, false)
    ensures forall i :: 0 <= i < |frames| ==>
      cbs[frames[i].commandBuffer].commands == TableCommands(pipeline, renderPass, frames[i].framebuffer, resolution)
  {
  }

  /** One slot of the corrected loop: `submit`'s protocol with the buffer begun without
      `ONE_TIME_SUBMIT`, so that it is executable again once it has run. */
  method RecordSlot(device: Device, cb: nat, commands: seq<Command>) returns (r: Outcome)
    requires device.Valid() && Resettable(device.commandBuffers, device.pools, cb)
    requires !InsideRenderPass(commands) && forall i :: 0 <= i < |commands| ==> !commands[i].CopyBuffer?
    modifies device`commandBuffers, device`semaphores, device`fences, device`nextHandle, device`calls, device`log
    ensures device.Valid()
    ensures r.Pass? ==> device.semaphores == old(device.semaphores)
    ensures r.Pass? ==> device.commandBuffers == old(device.commandBuffers)[cb :=
                          CommandBufferState(old(device.commandBuffers[cb].pool), Executable, false, commands, None)]
  {
    ghost var semaphores0 := device.semaphores;
    r := CommandRecorder.SubmitWith(device, cb, {}, BOTTOM_OF_PIPE_MASK, [], [], commands);
    if r.Pass? {
      SemaphoresAfterNothing(semaphores0);
    }
  }

  /** The recording loop of `new`, corrected: the set-up barrier is submitted once on
      slot 0's buffer, then every slot's buffer is recorded with its render pass closed
      and without `ONE_TIME_SUBMIT`, submitted with `BOTTOM_OF_PIPE` and no semaphores,
      and waited for. The first failing submit ends the loop. Afterwards every slot's
      buffer is executable, reusable and holds its slot's commands, and no semaphore
      changed. */
  method RecordFrameTable(device: Device, frames: seq<Frame>, pipeline: nat, renderPass: nat,
                          resolution: Extent2D, depthImage: nat) returns (r: Outcome)
    requires device.Valid() && 0 < |frames| && CommandBuffersDistinct(frames)
    requires forall i :: 0 <= i < |frames| ==> Resettable(device.commandBuffers, device.pools, frames[i].commandBuffer)
    modifies device`commandBuffers, device`semaphores, device`fences, device`nextHandle, device`calls, device`log
    ensures device.Valid()
    ensures r.Pass? ==> device.semaphores == old(device.semaphores) && BuffersReusable(frames, device.commandBuffers, false)
    ensures r.Pass? ==> forall i :: 0 <= i < |frames| ==>
      device.commandBuffers[frames[i].commandBuffer].commands == TableCommands(pipeline, renderPass, frames[i].framebuffer, resolution)
  {
    ghost var semaphores0 := device.semaphores;
    r := CommandRecorder.Submit(device, frames[0].commandBuffer, BOTTOM_OF_PIPE_MASK, [], [], SetupCommands(depthImage));
    if r.Fail? {
      return;
    }
    SemaphoresAfterNothing(semaphores0);
    assert TableRecorded(frames, device.commandBuffers, device.pools, 0, pipeline, renderPass, resolution) by {
      forall j | 0 <= j < |frames|
        ensures Resettable(device.commandBuffers, device.pools, frames[j].commandBuffer)
      {
        assert Resettable(old(device.commandBuffers), device.pools, frames[j].commandBuffer);
      }
    }
    var i := 0;
    while i < |frames|
      invariant 0 <= i <= |frames| && device.Valid() && device.semaphores == semaphores0
      invariant TableRecorded(frames, device.commandBuffers, device.pools, i, pipeline, renderPass, resolution)
    {
      var cb := frames[i].commandBuffer;
      ghost var cbs0 := device.commandBuffers;
      r := RecordSlot(device, cb, TableCommands(pipeline, renderPass, frames[i].framebuffer, resolution));
      if r.Fail? {
        return;
      }
      TableRecordedStep(frames, cbs0, device.pools, i, pipeline, renderPass, resolution);
      i := i + 1;
    }
    TableRecordedReusable(frames, device.commandBuffers, device.pools, pipeline, renderPass, resolution);
  }

  // ---- begin_frame and end_frame ----

  /** No two semaphore handles of the table are the same. */
  predicate SemaphoresDistinct(frames: seq<Frame>) {
    forall i, j :: 0 <= i < |frames| && 0 <= j < |frames| ==>
      frames[i].acquireImageSemaphore != frames[j].renderFinishedSemaphore
      && (i != j ==> frames[i].acquireImageSemaphore != frames[j].acquireImageSemaphore
                     && frames[i].renderFinishedSemaphore != frames[j].renderFinishedSemaphore)
  }

  /** Every semaphore of the table exists and carries no pending signal, except the
      acquire semaphore of slot `signalled` (when there is one), which does. */
  predicate SemaphoresAt(frames: seq<Frame>, semaphores: Signals, signalled: Option<nat>) {
    forall i :: 0 <= i < |frames| ==>
      frames[i].acquireImageSemaphore in semaphores && frames[i].renderFinishedSemaphore in semaphores
      && semaphores[frames[i].acquireImageSemaphore] == (signalled == Some(i))
      && !semaphores[frames[i].renderFinishedSemaphore]
  }

  /** Every slot's command buffer exists. */
  predicate BuffersExist(frames: seq<Frame>, cbs: CommandBuffers) {
    forall i :: 0 <= i < |frames| ==> frames[i].commandBuffer in cbs
  }

  /** Every slot's command buffer exists, was not begun for one submission only, and is
      executable or (when `pending` allows it) pending. */
  predicate BuffersReusable(frames: seq<Frame>, cbs: CommandBuffers, pending: bool) {
    forall i :: 0 <= i < |frames| ==>
      frames[i].commandBuffer in cbs && !cbs[frames[i].commandBuffer].oneTime
      && (cbs[frames[i].commandBuffer].lifecycle == Executable
          || (pending && cbs[frames[i].commandBuffer].lifecycle == Pending))
  }

  /** The submission of `end_frame` for slot `index`, waiting on `wait` at the stages
      `waitMask`. */
  function FrameSubmitInfo(frames: seq<Frame>, index: nat, wait: nat, waitMask: seq<Flags>): SubmitInfo
    requires index < |frames|
  {
    SubmitInfo([wait], waitMask, [frames[index].commandBuffer], [frames[index].renderFinishedSemaphore])
  }

  /** The wait-stage array of `end_frame` as written: empty, although one semaphore is
      waited on. */
  const WAIT_MASK_AS_WRITTEN: seq<Flags> := []
  /** One stage mask for the one wait semaphore: colour output waits for the image. */
  const WAIT_MASK: seq<Flags> := [{PIPELINE_STAGE_COLOR_ATTACHMENT_OUTPUT_BIT}]

  /** The submit info `end_frame` builds as written: it waits on the acquire semaphore of
      the slot of the image just acquired, with an empty stage-mask array. */
  function EndFrameInfoAsWritten(frames: seq<Frame>, frameIndex: nat): SubmitInfo
    requires frameIndex < |frames|
  {
    FrameSubmitInfo(frames, frameIndex, frames[frameIndex].acquireImageSemaphore, WAIT_MASK_AS_WRITTEN)
  }

  /** With one wait semaphore and no stage mask the submission breaks the valid-usage
      rule of `vkQueueSubmit` whatever the state. */
  lemma EndFrameMaskRejected(frames: seq<Frame>, frameIndex: nat, cbs: CommandBuffers, semaphores: Signals, fences: Signals)
    requires frameIndex < |frames|
    ensures !CanSubmit(cbs, semaphores, fences, EndFrameInfoAsWritten(frames, frameIndex), None)
  {
  }

  /** Even with one stage mask, waiting on the acquire semaphore of the slot of the new
      image is waiting on a semaphore nothing signals whenever the acquire returned a
      different index than the slot whose semaphore it was given. */
  lemma EndFrameWaitRejected(frames: seq<Frame>, previous: nat, acquiredIndex: nat,
                             cbs: CommandBuffers, semaphores: Signals, fences: Signals)
    requires previous < |frames| && acquiredIndex < |frames| && previous != acquiredIndex
    requires SemaphoresAt(frames, semaphores, Some(previous))
    ensures !CanSubmit(cbs, semaphores, fences,
                       FrameSubmitInfo(frames, acquiredIndex, frames[acquiredIndex].acquireImageSemaphore, WAIT_MASK), None)
  {
    var info := FrameSubmitInfo(frames, acquiredIndex, frames[acquiredIndex].acquireImageSemaphore, WAIT_MASK);
    assert info.waitSemaphores[0] == frames[acquiredIndex].acquireImageSemaphore;
    assert !semaphores[info.waitSemaphores[0]];
  }

  /** Acquiring with the semaphore of slot `slot` leaves exactly that one signalled. */
  lemma AcquireSignalsSlot(frames: seq<Frame>, semaphores: Signals, slot: nat)
    requires slot < |frames| && SemaphoresDistinct(frames) && SemaphoresAt(frames, semaphores, None)
    ensures SemaphoresAt(frames, semaphores[frames[slot].acquireImageSemaphore := true], Some(slot))
  {
  }

  /** Submitting slot `index` waiting on the signalled semaphore of slot `slot`, and
      presenting on its render-finished semaphore, leaves every semaphore of the table
      unsignalled again. */
  lemma EndFrameConsumes(frames: seq<Frame>, semaphores: Signals, slot: nat, index: nat)
    requires slot < |frames| && index < |frames| && SemaphoresDistinct(frames)
    requires SemaphoresAt(frames, semaphores, Some(slot))
    ensures var rendered := frames[index].renderFinishedSemaphore;
      var submitted := SemaphoresAfter(semaphores, [frames[slot].acquireImageSemaphore], [rendered]);
      rendered in submitted && submitted[rendered]
      && SemaphoresAt(frames, SemaphoresAfter(submitted, [rendered], []), None)
  {
    var rendered := frames[index].renderFinishedSemaphore;
    var submitted := SemaphoresAfter(semaphores, [frames[slot].acquireImageSemaphore], [rendered]);
    var presented := SemaphoresAfter(submitted, [rendered], []);
    forall i | 0 <= i < |frames|
      ensures frames[i].acquireImageSemaphore in presented && !presented[frames[i].acquireImageSemaphore]
      ensures frames[i].renderFinishedSemaphore in presented && !presented[frames[i].renderFinishedSemaphore]
    {
      if i != slot {
        assert frames[i].acquireImageSemaphore != frames[slot].acquireImageSemaphore;
      }
      if i != index {
        assert frames[i].renderFinishedSemaphore != rendered;
      }
    }
  }

  /** Waiting for the queue to go idle leaves every reusable buffer of the table executable. */
  lemma IdleBuffersExecutable(frames: seq<Frame>, cbs: CommandBuffers)
    requires BuffersReusable(frames, cbs, true)
    ensures BuffersReusable(frames, AllCompleted(cbs), false)
  {
    forall i | 0 <= i < |frames|
      ensures var c := frames[i].commandBuffer;
        c in AllCompleted(cbs) && !AllCompleted(cbs)[c].oneTime && AllCompleted(cbs)[c].lifecycle == Executable
    {
      var c := frames[i].commandBuffer;
      if cbs[c].lifecycle == Pending {
        assert AllCompleted(cbs)[c] == Finished(cbs[c]);
      }
    }
  }

  /** Submitting an executable buffer of the table makes it pending and leaves the others. */
  lemma SubmittedReusable(frames: seq<Frame>, cbs: CommandBuffers, info: SubmitInfo)
    requires BuffersReusable(frames, cbs, false)
    ensures BuffersReusable(frames, Submitted(cbs, info, None), true)
  {
    forall i | 0 <= i < |frames|
      ensures var c := frames[i].commandBuffer; c in Submitted(cbs, info, None)
    {
    }
  }

  /** The calls of `begin_frame` from slot `slot`. */
  function BeginFrameOps(frames: seq<Frame>, slot: nat): seq<Op>
    requires slot < |frames|
  {
    [QueueWaitIdleOp, AcquireNextImageOp(U64_MAX, frames[slot].acquireImageSemaphore)]
  }

  /** The calls of `end_frame` for image `index`, waiting on `wait`. */
  function EndFrameOps(frames: seq<Frame>, index: nat, wait: nat): seq<Op>
    requires index < |frames|
  {
    [QueueSubmitOp(FrameSubmitInfo(frames, index, wait, WAIT_MASK), None),
     QueuePresentOp([frames[index].renderFinishedSemaphore], index)]
  }

  /** The frame loop state of `VulkanRenderer`: the slot table, one slot per swapchain
      image, and `frame_index`. `acquireSlot` is the slot whose acquire semaphore the last
      `begin_frame` handed to `vkAcquireNextImageKHR`; `end_frame` waits on that one. */
  class Renderer {
    const device: Device
    const frames: seq<Frame>
    var frameIndex: nat
    var acquireSlot: nat

    /** Between frames: every semaphore of the table is unsignalled. */
    ghost predicate Ready()
      reads this, device`semaphores, device`commandBuffers
      reads device`buffers, device`memories, device`fences, device`nextHandle
    {
      device.Valid() && |frames| == device.imageCount && frameIndex < |frames| && acquireSlot < |frames|
      && SemaphoresDistinct(frames)
      && SemaphoresAt(frames, device.semaphores, None)
      && BuffersExist(frames, device.commandBuffers)
    }

    /** Inside a frame: image `frameIndex` is acquired and the acquire semaphore of
        `acquireSlot` is signalled. */
    ghost predicate InFrame()
      reads this, device`semaphores, device`commandBuffers, device`acquired
      reads device`buffers, device`memories, device`fences, device`nextHandle
    {
      device.Valid() && |frames| == device.imageCount && frameIndex < |frames| && acquireSlot < |frames|
      && SemaphoresDistinct(frames)
      && SemaphoresAt(frames, device.semaphores, Some(acquireSlot))
      && BuffersExist(frames, device.commandBuffers)
      && frameIndex in device.acquired
    }

    /** The renderer as `new` leaves it: `frame_index` is 0, and every semaphore of the
        table is unsignalled. The table's command buffers may be in any state: as
        written, `new` leaves them spent (`TableSpent`); `RecordFrameTable` leaves them
        reusable. */
    constructor (device: Device, frames: seq<Frame>)
      requires device.Valid() && |frames| == device.imageCount
      requires SemaphoresDistinct(frames) && SemaphoresAt(frames, device.semaphores, None)
      requires BuffersExist(frames, device.commandBuffers)
      ensures this.device == device && this.frames == frames && frameIndex == 0
      ensures Ready()
    {
      this.device := device;
      this.frames := frames;
      frameIndex := 0;
      acquireSlot := 0;
    }
    /** `begin_frame`: wait for the queue to go idle, then acquire the next image with
        the acquire semaphore of slot `frame_index` and no fence; `frame_index` becomes
        the acquired index. When either call fails the error is returned and
        `frame_index` is unchanged. The wait lets every pending buffer finish, so a
        reusable table is executable again. */
    method BeginFrame() returns (r: Outcome)
      requires Ready()
      modifies this`frameIndex, this`acquireSlot, device`commandBuffers, device`semaphores, device`acquired
      modifies device`calls, device`log
      ensures r.Pass? ==> InFrame() && acquireSlot == old(frameIndex) && frameIndex == device.acquireIndex(old(device.calls) + 1)
      ensures r.Fail? ==> Ready() && frameIndex == old(frameIndex) && acquireSlot == old(acquireSlot)
      ensures r.Pass? <==> old(device.calls) !in device.fault && old(device.calls) + 1 !in device.fault
      ensures old(device.calls) in device.fault ==>
        r == Fail(VkError(device.fault[old(device.calls)]))
        && device.commandBuffers == old(device.commandBuffers) && device.semaphores == old(device.semaphores)
        && device.acquired == old(device.acquired)
      ensures old(device.calls) !in device.fault ==> device.commandBuffers == AllCompleted(old(device.commandBuffers))
      ensures old(device.calls) !in device.fault && old(device.calls) + 1 in device.fault ==>
        r == Fail(VkError(device.fault[old(device.calls) + 1]))
        && device.semaphores == old(device.semaphores) && device.acquired == old(device.acquired)
      ensures r.Pass? ==>
        device.semaphores == old(device.semaphores)[frames[old(frameIndex)].acquireImageSemaphore := true]
        && device.acquired == old(device.acquired) + {frameIndex}
      ensures old(BuffersReusable(frames, device.commandBuffers, true)) ==>
        BuffersReusable(frames, device.commandBuffers, true)
        && (r.Pass? ==> BuffersReusable(frames, device.commandBuffers, false))
      ensures var ops := BeginFrameOps(frames, old(frameIndex));
        (r.Pass? == RanAll(device.log, old(device.log), ops)) && (r.Fail? == RanUntilFailure(device.log, old(device.log), ops))
    {
      ghost var log0 := device.log;
      ghost var ops := BeginFrameOps(frames, frameIndex);
      Start(log0, ops);
      r := device.QueueWaitIdle();
      Step(device.log, log0, log0, ops, 0, r.Pass?);
      if r.Fail? {
        CompletedOrFailed(device.log, log0, ops);
        return;
      }
      if BuffersReusable(frames, old(device.commandBuffers), true) {
        IdleBuffersExecutable(frames, old(device.commandBuffers));
      }
      var frame := frames[frameIndex];
      ghost var log1 := device.log;
      var index := device.AcquireNextImage(U64_MAX, frame.acquireImageSemaphore);
      Step(device.log, log1, log0, ops, 1, index.Ok?);
      CompletedOrFailed(device.log, log0, ops);
      if index.Err? {
        return Fail(index.error);
      }
      AcquireSignalsSlot(frames, old(device.semaphores), frameIndex);
      acquireSlot := frameIndex;
      frameIndex := index.value;
    }

    /** `end_frame`, corrected: submit slot `frame_index`'s command buffer with no fence,
        waiting on the semaphore the acquire signalled at the colour-output stage and
        signalling the slot's render-finished semaphore, then present image
        `frame_index` once that semaphore is signalled. The slot's buffer must be
        executable, as `vkQueueSubmit` requires and a reusable table guarantees.
        Afterwards every semaphore of the table is unsignalled again. */
    method EndFrame() returns (r: Outcome)
      requires InFrame() && device.commandBuffers[frames[frameIndex].commandBuffer].lifecycle == Executable
      modifies device`commandBuffers, device`semaphores, device`acquired, device`calls, device`log
      ensures r.Pass? ==> Ready()
      ensures old(BuffersReusable(frames, device.commandBuffers, false)) ==> BuffersReusable(frames, device.commandBuffers, true)
      ensures r.Pass? <==> old(device.calls) !in device.fault && old(device.calls) + 1 !in device.fault
      ensures old(device.calls) in device.fault ==>
        r == Fail(VkError(device.fault[old(device.calls)]))
        && device.commandBuffers == old(device.commandBuffers) && device.semaphores == old(device.semaphores)
        && device.acquired == old(device.acquired)
      ensures var wait, signal := frames[acquireSlot].acquireImageSemaphore, frames[frameIndex].renderFinishedSemaphore;
        old(device.calls) !in device.fault ==>
        device.commandBuffers == Submitted(old(device.commandBuffers), FrameSubmitInfo(frames, frameIndex, wait, WAIT_MASK), None)
        && (old(device.calls) + 1 in device.fault ==>
              r == Fail(VkError(device.fault[old(device.calls) + 1]))
              && device.semaphores == SemaphoresAfter(old(device.semaphores), [wait], [signal])
              && device.acquired == old(device.acquired))
      ensures var wait, signal := frames[acquireSlot].acquireImageSemaphore, frames[frameIndex].renderFinishedSemaphore;
        r.Pass? ==>
        device.semaphores == SemaphoresAfter(SemaphoresAfter(old(device.semaphores), [wait], [signal]), [signal], [])
        && device.acquired == old(device.acquired) - {frameIndex}
      ensures var ops := EndFrameOps(frames, frameIndex, frames[acquireSlot].acquireImageSemaphore);
        (r.Pass? == RanAll(device.log, old(device.log), ops)) && (r.Fail? == RanUntilFailure(device.log, old(device.log), ops))
    {
      ghost var log0 := device.log;
      ghost var ops := EndFrameOps(frames, frameIndex, frames[acquireSlot].acquireImageSemaphore);
      var frame := frames[frameIndex];
      var info := FrameSubmitInfo(frames, frameIndex, frames[acquireSlot].acquireImageSemaphore, WAIT_MASK);
      assert info.waitSemaphores[0] == frames[acquireSlot].acquireImageSemaphore;
      assert info.signalSemaphores[0] == frame.renderFinishedSemaphore;
      Start(log0, ops);
      r := device.QueueSubmit(info, None);
      Step(device.log, log0, log0, ops, 0, r.Pass?);
      if r.Fail? {
        CompletedOrFailed(device.log, log0, ops);
        return;
      }
      EndFrameConsumes(frames, old(device.semaphores), acquireSlot, frameIndex);
      if BuffersReusable(frames, old(device.commandBuffers), false) {
        SubmittedReusable(frames, old(device.commandBuffers), info);
      }
      ghost var log1 := device.log;
      r := device.QueuePresent([frame.renderFinishedSemaphore], frameIndex);
      Step(device.log, log1, log0, ops, 1, r.Pass?);
      CompletedOrFailed(device.log, log0, ops);
    }
  }
}
