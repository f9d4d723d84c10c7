/** The command-recorder protocol of src/renderer/command.rs and
    src/render_backends/vulkan/command_buffer.rs: one command buffer is driven through
    reset, begin, record, end, submit with a fresh fence, wait and fence destruction;
    plus the pool and buffer allocation helpers next to it. */
module CommandRecorder {
  import opened Wrappers
  import opened Vk
  import opened DeviceLog
  import opened GpuDevice

  /** The one `VkSubmitInfo` that `submit` hands to `vkQueueSubmit`: exactly one command
      buffer and the caller's three slices unchanged. */
  function SubmitInfoFor(cb: nat, waitMask: seq<Flags>, waitSemaphores: seq<nat>, signalSemaphores: seq<nat>): (r: SubmitInfo)
    ensures r.commandBuffers == [cb]
    ensures r.waitSemaphores == waitSemaphores && r.waitDstStageMask == waitMask && r.signalSemaphores == signalSemaphores
  {
    SubmitInfo(waitSemaphores, waitMask, [cb], signalSemaphores)
  }

  /** The usage flags `submit` begins its command buffer with. */
  const ONE_TIME_SUBMIT: Flags := {COMMAND_BUFFER_USAGE_ONE_TIME_SUBMIT_BIT}

  /** Whether a buffer begun with `usage` is for one submission only. */
  predicate OneTime(usage: Flags) {
    Contains(usage, COMMAND_BUFFER_USAGE_ONE_TIME_SUBMIT_BIT)
  }

  /** Reset with `RELEASE_RESOURCES` and begin with `usage`. */
  function BeginOps(cb: nat, usage: Flags): seq<Op> {
    [ResetCommandBufferOp(cb, {COMMAND_BUFFER_RESET_RELEASE_RESOURCES_BIT}),
     BeginCommandBufferOp(cb, usage)]
  }

  /** The callback's commands, then end. */
  function EndOps(cb: nat, commands: seq<Command>): seq<Op> {
    [RecordOp(cb, commands), EndCommandBufferOp(cb)]
  }

  /** The recording half of `submit`. */
  function RecordOps(cb: nat, usage: Flags, commands: seq<Command>): seq<Op> {
    BeginOps(cb, usage) + EndOps(cb, commands)
  }

  /** The submit on `fence` and the wait for it. */
  function WaitOps(info: SubmitInfo, fence: nat): seq<Op> {
    [QueueSubmitOp(info, Some(fence)), WaitForFencesOp([fence], true, U64_MAX)]
  }

  /** The submitting half: an unsignalled fence, the submit on it, the wait, the destruction. */
  function FenceOps(info: SubmitInfo, fence: nat): seq<Op> {
    [CreateFenceOp(false)] + WaitOps(info, fence) + [DestroyFenceOp(fence)]
  }

  /** The steps of the submit protocol with the buffer begun with `usage`, in the order
      they are made; `fence` is the handle the fence receives. The callback is the
      `RecordOp` step. */
  function SubmitOpsWith(cb: nat, usage: Flags, waitMask: seq<Flags>, waitSemaphores: seq<nat>,
                         signalSemaphores: seq<nat>, commands: seq<Command>, fence: nat): seq<Op>
  {
    RecordOps(cb, usage, commands) + FenceOps(SubmitInfoFor(cb, waitMask, waitSemaphores, signalSemaphores), fence)
  }

  /** The steps of `submit`, which begins with `ONE_TIME_SUBMIT`. */
  function SubmitOps(cb: nat, waitMask: seq<Flags>, waitSemaphores: seq<nat>, signalSemaphores: seq<nat>,
                     commands: seq<Command>, fence: nat): seq<Op>
  {
    SubmitOpsWith(cb, ONE_TIME_SUBMIT, waitMask, waitSemaphores, signalSemaphores, commands, fence)
  }

  /** Reset, and begin recording with `usage`. */
  method Begin(device: Device, cb: nat, usage: Flags) returns (r: Outcome)
    requires device.Valid() && cb in device.commandBuffers && device.commandBuffers[cb].pool in device.pools
    requires Contains(device.pools[device.commandBuffers[cb].pool], COMMAND_POOL_CREATE_RESET_COMMAND_BUFFER_BIT)
    requires device.commandBuffers[cb].lifecycle != Pending
    modifies device`commandBuffers, device`calls, device`log
    ensures device.Valid()
    ensures r.Pass? ==> NoFaults(device.fault, old(device.calls), 2) && device.calls == old(device.calls) + 2
    ensures r.Fail? ==> FailedWithin(device.fault, old(device.calls), 2, r.error)
    ensures r.Pass? ==> RanAll(device.log, old(device.log), BeginOps(cb, usage))
    ensures r.Fail? ==> RanUntilFailure(device.log, old(device.log), BeginOps(cb, usage))
    ensures r.Pass? ==> device.commandBuffers == old(device.commandBuffers)[cb :=
                          old(device.commandBuffers[cb]).(lifecycle := Recording, oneTime := OneTime(usage), commands := [])]
    ensures r.Fail? ==> cb in device.commandBuffers && device.commandBuffers[cb].lifecycle != Pending
                        && device.commandBuffers == old(device.commandBuffers)[cb := device.commandBuffers[cb]]
  {
    ghost var log0, calls0, ops := device.log, device.calls, BeginOps(cb, usage);
    Start(log0, ops);
    r := device.ResetCommandBuffer(cb, {COMMAND_BUFFER_RESET_RELEASE_RESOURCES_BIT});
    Step(device.log, log0, log0, ops, 0, r.Pass?);
    if r.Fail? {
      assert FailsFirstAt(device.fault, calls0, 0);
      return;
    }
    ghost var mid := device.log;
    r := device.BeginCommandBuffer(cb, usage);
    Step(device.log, mid, log0, ops, 1, r.Pass?);
    if r.Fail? {
      assert FailsFirstAt(device.fault, calls0, 1);
    }
  }

  /** The callback's commands, then end: executable on success, invalid if end fails. */
  method RecordAndEnd(device: Device, cb: nat, commands: seq<Command>) returns (r: Outcome)
    requires device.Valid() && cb in device.commandBuffers && device.commandBuffers[cb].lifecycle == Recording
    requires CanRecord(device.buffers, device.memories, commands)
    requires !InsideRenderPass(device.commandBuffers[cb].commands + commands)
    modifies device`commandBuffers, device`calls, device`log
    ensures device.Valid() && device.calls == old(device.calls) + 1
    ensures r.Pass? ==> NoFaults(device.fault, old(device.calls), 1)
    ensures r.Fail? ==> FailedWithin(device.fault, old(device.calls), 1, r.error)
    ensures r.Pass? ==> RanAll(device.log, old(device.log), EndOps(cb, commands))
    ensures r.Fail? ==> RanUntilFailure(device.log, old(device.log), EndOps(cb, commands))
    ensures device.commandBuffers == old(device.commandBuffers)[cb := old(device.commandBuffers[cb]).(
              lifecycle := if r.Pass? then Executable else Invalid,
              commands := old(device.commandBuffers[cb].commands) + commands)]
  {
    ghost var log0, ops := device.log, EndOps(cb, commands);
    Start(log0, ops);
    device.Record(cb, commands);
    Step(device.log, log0, log0, ops, 0, true);
    ghost var mid := device.log;
    r := device.EndCommandBuffer(cb);
    Step(device.log, mid, log0, ops, 1, r.Pass?);
    if r.Fail? {
      assert FailsFirstAt(device.fault, old(device.calls), 0);
    }
  }

  /** Reset, begin with `usage`, the callback's commands and end on one command buffer. */
  method RecordOnce(device: Device, cb: nat, usage: Flags, commands: seq<Command>) returns (r: Outcome)
    requires device.Valid() && cb in device.commandBuffers && device.commandBuffers[cb].pool in device.pools
    requires Contains(device.pools[device.commandBuffers[cb].pool], COMMAND_POOL_CREATE_RESET_COMMAND_BUFFER_BIT)
    requires device.commandBuffers[cb].lifecycle != Pending
    requires CanRecord(device.buffers, device.memories, commands) && !InsideRenderPass(commands)
    modifies device`commandBuffers, device`calls, device`log
    ensures device.Valid()
    ensures r.Pass? ==> NoFaults(device.fault, old(device.calls), 3) && device.calls == old(device.calls) + 3
    ensures r.Fail? ==> FailedWithin(device.fault, old(device.calls), 3, r.error)
    ensures r.Pass? ==> RanAll(device.log, old(device.log), RecordOps(cb, usage, commands))
    ensures r.Fail? ==> RanUntilFailure(device.log, old(device.log), RecordOps(cb, usage, commands))
    ensures r.Pass? ==> device.commandBuffers == old(device.commandBuffers)[cb :=
                          old(device.commandBuffers[cb]).(lifecycle := Executable, oneTime := OneTime(usage), commands := commands)]
    ensures r.Fail? ==> cb in device.commandBuffers && device.commandBuffers[cb].lifecycle != Pending
                        && device.commandBuffers == old(device.commandBuffers)[cb := device.commandBuffers[cb]]
  {
    ghost var log0, calls0 := device.log, device.calls;
    r := Begin(device, cb, usage);
    if r.Fail? {
      ThenFailed(device.log, log0, log0, [], BeginOps(cb, usage), EndOps(cb, commands));
      assert [] + BeginOps(cb, usage) + EndOps(cb, commands) == RecordOps(cb, usage, commands);
      FailedAfter(device.fault, calls0, 0, 2, r.error);
      return;
    }
    ghost var log1 := device.log;
    assert device.commandBuffers[cb].commands + commands == commands;
    r := RecordAndEnd(device, cb, commands);
    if r.Fail? {
      ThenFailed(device.log, log1, log0, BeginOps(cb, usage), EndOps(cb, commands), []);
      assert BeginOps(cb, usage) + EndOps(cb, commands) + [] == RecordOps(cb, usage, commands);
      FailedAfter(device.fault, calls0, 2, 1, r.error);
      return;
    }
    Then(device.log, log1, log0, BeginOps(cb, usage), EndOps(cb, commands));
    NoFaultsThen(device.fault, calls0, 2, 1);
  }

  /** What submitting one executable command buffer needs: the rules of `vkQueueSubmit`
      other than the fence, which `SubmitAndWait` creates itself. */
  predicate CanSubmitOne(cbs: CommandBuffers, semaphores: Signals, info: SubmitInfo, cb: nat) {
    info.commandBuffers == [cb] && cb in cbs && cbs[cb].lifecycle == Executable
    && |info.waitDstStageMask| >= |info.waitSemaphores|
    && (forall i :: 0 <= i < |info.waitSemaphores| ==> info.waitSemaphores[i] in semaphores && semaphores[info.waitSemaphores[i]])
    && (forall i :: 0 <= i < |info.signalSemaphores| ==> info.signalSemaphores[i] in semaphores && !semaphores[info.signalSemaphores[i]])
    && (forall s :: s in info.waitSemaphores ==> s !in info.signalSemaphores)
  }

  /** The submit on an unused, unsignalled fence and the wait for it: on success the
      command buffer has run to completion, its semaphores moved on and the fence is
      signalled. */
  method SubmitOn(device: Device, cb: nat, info: SubmitInfo, fence: nat) returns (r: Outcome)
    requires device.Valid() && CanSubmitOne(device.commandBuffers, device.semaphores, info, cb)
    requires fence in device.fences && !device.fences[fence] && !FenceInUse(device.commandBuffers, fence)
    modifies device`commandBuffers, device`semaphores, device`fences, device`calls, device`log
    ensures device.Valid() && fence in device.fences && cb in device.commandBuffers
    ensures r.Pass? ==> NoFaults(device.fault, old(device.calls), 2) && device.calls == old(device.calls) + 2
    ensures r.Fail? ==> FailedWithin(device.fault, old(device.calls), 2, r.error)
    ensures r.Pass? ==> RanAll(device.log, old(device.log), WaitOps(info, fence))
    ensures r.Fail? ==> RanUntilFailure(device.log, old(device.log), WaitOps(info, fence))
    ensures r.Pass? ==> device.commandBuffers == old(device.commandBuffers)[cb := Finished(old(device.commandBuffers[cb]).(lifecycle := Pending))]
    ensures r.Pass? ==> device.semaphores == SemaphoresAfter(old(device.semaphores), info.waitSemaphores, info.signalSemaphores)
    ensures r.Pass? ==> device.fences == old(device.fences)[fence := true]
  {
    ghost var log0, calls0, ops := device.log, device.calls, WaitOps(info, fence);
    ghost var cbs0, fences0 := device.commandBuffers, device.fences;
    Start(log0, ops);
    r := device.QueueSubmit(info, Some(fence));
    Step(device.log, log0, log0, ops, 0, r.Pass?);
    if r.Fail? {
      assert FailsFirstAt(device.fault, calls0, 0);
      return;
    }
    ghost var mid := device.log;
    r := device.WaitForFences([fence], true, U64_MAX);
    Step(device.log, mid, log0, ops, 1, r.Pass?);
    if r.Fail? {
      assert FailsFirstAt(device.fault, calls0, 1);
      return;
    }
    NoFaultsPair(device.fault, calls0);
    SubmitThenWait(cbs0, info, cb, fence);
    SignalledOne(fences0, fence);
  }

  /** A fresh unsignalled fence, the submit on it, the wait for it and its destruction. */
  method SubmitAndWait(device: Device, cb: nat, info: SubmitInfo) returns (r: Outcome)
    requires device.Valid() && CanSubmitOne(device.commandBuffers, device.semaphores, info, cb)
    modifies device`commandBuffers, device`semaphores, device`fences, device`nextHandle, device`calls, device`log
    ensures device.Valid() && cb in device.commandBuffers
    ensures r.Pass? ==> NoFaults(device.fault, old(device.calls), 3) && device.calls == old(device.calls) + 3
    ensures r.Fail? ==> FailedWithin(device.fault, old(device.calls), 3, r.error)
    ensures r.Pass? ==> RanAll(device.log, old(device.log), FenceOps(info, old(device.nextHandle)))
    ensures r.Fail? ==> RanUntilFailure(device.log, old(device.log), FenceOps(info, old(device.nextHandle)))
    ensures r.Pass? ==> device.nextHandle == old(device.nextHandle) + 1
    ensures r.Pass? ==> device.commandBuffers == old(device.commandBuffers)[cb := Finished(old(device.commandBuffers[cb]).(lifecycle := Pending))]
    ensures r.Pass? ==> device.semaphores == SemaphoresAfter(old(device.semaphores), info.waitSemaphores, info.signalSemaphores)
    ensures r.Pass? ==> device.fences == old(device.fences)
    ensures r.Fail? && device.nextHandle != old(device.nextHandle) ==> old(device.nextHandle) in device.fences
    ensures device.nextHandle <= old(device.nextHandle) + 1
  {
    ghost var log0, calls0, fences0 := device.log, device.calls, device.fences;
    ghost var ops := FenceOps(info, device.nextHandle);
    assert device.nextHandle !in fences0;
    var created := device.CreateFence(false);
    if created.Err? {
      Start(log0, ops);
      Step(device.log, log0, log0, ops, 0, false);
      assert FailsFirstAt(device.fault, calls0, 0);
      return Fail(created.error);
    }
    var fence := created.value;
    assert !FenceInUse(device.commandBuffers, fence) by {
      forall c | c in device.commandBuffers
        ensures device.commandBuffers[c].fence != Some(fence)
      {
        assert RefersBelow(device.commandBuffers[c], fence);
      }
    }
    ghost var log1 := device.log;
    assert RanAll(log1, log0, [CreateFenceOp(false)]);
    r := SubmitOn(device, cb, info, fence);
    if r.Fail? {
      ThenFailed(device.log, log1, log0, [CreateFenceOp(false)], WaitOps(info, fence), [DestroyFenceOp(fence)]);
      FailedAfter(device.fault, calls0, 1, 2, r.error);
      return;
    }
    Then(device.log, log1, log0, [CreateFenceOp(false)], WaitOps(info, fence));
    ghost var log2 := device.log;
    device.DestroyFence(fence);
    assert RanAll(device.log, log2, [DestroyFenceOp(fence)]);
    Then(device.log, log2, log0, [CreateFenceOp(false)] + WaitOps(info, fence), [DestroyFenceOp(fence)]);
    NoFaultsThen(device.fault, calls0, 1, 2);
    assert device.fences == fences0;
  }

  /** What `submit` requires of the device: a command buffer from a pool created with
      `RESET_COMMAND_BUFFER_BIT` that is not pending, commands that are valid to record
      and close every render pass they begin,
      a stage mask for each wait semaphore, wait semaphores with a pending signal and signal
      semaphores without one. */
  ghost predicate SubmitReady(device: Device, cb: nat, waitMask: seq<Flags>, waitSemaphores: seq<nat>,
                              signalSemaphores: seq<nat>, commands: seq<Command>)
    reads device
  {
    cb in device.commandBuffers && device.commandBuffers[cb].pool in device.pools
    && Contains(device.pools[device.commandBuffers[cb].pool], COMMAND_POOL_CREATE_RESET_COMMAND_BUFFER_BIT)
    && device.commandBuffers[cb].lifecycle != Pending
    && CanRecord(device.buffers, device.memories, commands) && !InsideRenderPass(commands)
    && |waitMask| >= |waitSemaphores|
    && (forall i :: 0 <= i < |waitSemaphores| ==> waitSemaphores[i] in device.semaphores && device.semaphores[waitSemaphores[i]])
    && (forall i :: 0 <= i < |signalSemaphores| ==> signalSemaphores[i] in device.semaphores && !device.semaphores[signalSemaphores[i]])
    && (forall s :: s in waitSemaphores ==> s !in signalSemaphores)
  }

  /** The submit protocol with the buffer begun with `usage`: reset, begin, the
      callback's commands, end, then a fresh fence, the submit on it, the wait and the
      fence's destruction. */
  method SubmitWith(device: Device, cb: nat, usage: Flags, waitMask: seq<Flags>, waitSemaphores: seq<nat>,
                    signalSemaphores: seq<nat>, commands: seq<Command>) returns (r: Outcome)
    requires device.Valid() && SubmitReady(device, cb, waitMask, waitSemaphores, signalSemaphores, commands)
    modifies device`commandBuffers, device`semaphores, device`fences, device`nextHandle, device`calls, device`log
    ensures device.Valid() && cb in device.commandBuffers
    ensures r.Pass? ==> NoFaults(device.fault, old(device.calls), 6) && device.calls == old(device.calls) + 6
    ensures r.Fail? ==> FailedWithin(device.fault, old(device.calls), 6, r.error)
    ensures r.Pass? ==> RanAll(device.log, old(device.log), SubmitOpsWith(cb, usage, waitMask, waitSemaphores,
                          signalSemaphores, commands, old(device.nextHandle)))
    ensures r.Fail? ==> RanUntilFailure(device.log, old(device.log), SubmitOpsWith(cb, usage, waitMask, waitSemaphores,
                          signalSemaphores, commands, old(device.nextHandle)))
    ensures r.Pass? ==> device.nextHandle == old(device.nextHandle) + 1
    ensures r.Pass? ==> device.commandBuffers == old(device.commandBuffers)[cb := old(device.commandBuffers[cb]).(
                          lifecycle := if OneTime(usage) then Invalid else Executable,
                          oneTime := OneTime(usage), commands := commands, fence := None)]
    ensures r.Pass? ==> device.semaphores == SemaphoresAfter(old(device.semaphores), waitSemaphores, signalSemaphores)
    ensures r.Pass? ==> device.fences == old(device.fences)
    ensures r.Fail? && device.nextHandle != old(device.nextHandle) ==> old(device.nextHandle) in device.fences
    ensures device.nextHandle <= old(device.nextHandle) + 1
  {
    ghost var log0, calls0, fence0 := device.log, device.calls, device.nextHandle;
    var info := SubmitInfoFor(cb, waitMask, waitSemaphores, signalSemaphores);
    ghost var ops := SubmitOpsWith(cb, usage, waitMask, waitSemaphores, signalSemaphores, commands, fence0);
    r := RecordOnce(device, cb, usage, commands);
    if r.Fail? {
      ThenFailed(device.log, log0, log0, [], RecordOps(cb, usage, commands), FenceOps(info, fence0));
      assert [] + RecordOps(cb, usage, commands) + FenceOps(info, fence0) == ops;
      FailedAfter(device.fault, calls0, 0, 3, r.error);
      return;
    }
    ghost var log1 := device.log;
    r := SubmitAndWait(device, cb, info);
    if r.Fail? {
      ThenFailed(device.log, log1, log0, RecordOps(cb, usage, commands), FenceOps(info, fence0), []);
      assert RecordOps(cb, usage, commands) + FenceOps(info, fence0) + [] == ops;
      FailedAfter(device.fault, calls0, 3, 3, r.error);
      return;
    }
    Then(device.log, log1, log0, RecordOps(cb, usage, commands), FenceOps(info, fence0));
    NoFaultsThen(device.fault, calls0, 3, 3);
  }

  /** `submit` from src/renderer/command.rs, which begins with `ONE_TIME_SUBMIT`; the
      callback `f` is the list of commands it records. */
  method Submit(device: Device, cb: nat, waitMask: seq<Flags>, waitSemaphores: seq<nat>,
                signalSemaphores: seq<nat>, commands: seq<Command>) returns (r: Outcome)
    requires device.Valid() && SubmitReady(device, cb, waitMask, waitSemaphores, signalSemaphores, commands)
    modifies device`commandBuffers, device`semaphores, device`fences, device`nextHandle, device`calls, device`log
    ensures device.Valid() && cb in device.commandBuffers
    // success only when none of the six fallible calls fails; otherwise the first failure is reported
    ensures r.Pass? ==> NoFaults(device.fault, old(device.calls), 6) && device.calls == old(device.calls) + 6
    ensures r.Fail? ==> FailedWithin(device.fault, old(device.calls), 6, r.error)
    // every step in order on success; the steps up to the first failure otherwise
    ensures r.Pass? ==> RanAll(device.log, old(device.log), SubmitOps(cb, waitMask, waitSemaphores,
                          signalSemaphores, commands, old(device.nextHandle)))
    ensures r.Fail? ==> RanUntilFailure(device.log, old(device.log), SubmitOps(cb, waitMask, waitSemaphores,
                          signalSemaphores, commands, old(device.nextHandle)))
    // on success the buffer ran to completion once (one-time submit leaves it invalid),
    // the semaphores moved on, the fence is gone and nothing else changed
    ensures r.Pass? ==> device.nextHandle == old(device.nextHandle) + 1
    ensures r.Pass? ==> device.commandBuffers == old(device.commandBuffers)[cb := old(device.commandBuffers[cb]).(
                          lifecycle := Invalid, oneTime := true, commands := commands, fence := None)]
    ensures r.Pass? ==> device.semaphores == SemaphoresAfter(old(device.semaphores), waitSemaphores, signalSemaphores)
    ensures r.Pass? ==> device.fences == old(device.fences)
    // a fence created before a failed submit or wait is never destroyed
    ensures r.Fail? && device.nextHandle != old(device.nextHandle) ==> old(device.nextHandle) in device.fences
    ensures device.nextHandle <= old(device.nextHandle) + 1
  {
    r := SubmitWith(device, cb, ONE_TIME_SUBMIT, waitMask, waitSemaphores, signalSemaphores, commands);
  }

  /** `submit_commands` from src/render_backends/vulkan/command_buffer.rs: the renderer's
      optional device is checked first, then the same sequence as `submit` runs. */
  method SubmitCommands(device: Option<Device>, cb: nat, waitMask: seq<Flags>, waitSemaphores: seq<nat>,
                        signalSemaphores: seq<nat>, commands: seq<Command>) returns (r: Outcome)
    requires device.Some? ==> device.value.Valid()
                              && SubmitReady(device.value, cb, waitMask, waitSemaphores, signalSemaphores, commands)
    modifies if device.Some? then {device.value} else {}
    ensures device.None? ==> r == Fail(Renderer(NoDevice))
    ensures device.Some? ==> var d := device.value;
      d.Valid()
      && (r.Pass? ==> NoFaults(d.fault, old(d.calls), 6) && d.calls == old(d.calls) + 6)
      && (r.Fail? ==> FailedWithin(d.fault, old(d.calls), 6, r.error))
      && (r.Pass? ==> RanAll(d.log, old(d.log), SubmitOps(cb, waitMask, waitSemaphores, signalSemaphores, commands, old(d.nextHandle))))
      && (r.Fail? ==> RanUntilFailure(d.log, old(d.log), SubmitOps(cb, waitMask, waitSemaphores, signalSemaphores, commands, old(d.nextHandle))))
      && (r.Pass? ==> d.commandBuffers == old(d.commandBuffers)[cb := old(d.commandBuffers[cb]).(
                        lifecycle := Invalid, oneTime := true, commands := commands, fence := None)])
      && (r.Pass? ==> d.semaphores == SemaphoresAfter(old(d.semaphores), waitSemaphores, signalSemaphores))
      && (r.Pass? ==> d.fences == old(d.fences))
      && d.buffers == old(d.buffers) && d.memories == old(d.memories) && d.images == old(d.images)
      && d.pools == old(d.pools) && d.acquired == old(d.acquired)
  {
    if device.None? {
      return Fail(Renderer(NoDevice));
    }
    r := Submit(device.value, cb, waitMask, waitSemaphores, signalSemaphores, commands);
  }

  /** `new_pool` (src/renderer/command.rs) and `create_command_pool`
      (src/render_backends/vulkan/command_buffer.rs): a pool whose command buffers can be
      reset one at a time, which `submit` relies on. */
  method NewPool(device: Device, queueFamily: u32) returns (r: Result<nat>)
    requires device.Valid()
    modifies device`pools, device`nextHandle, device`calls, device`log
    ensures device.Valid() && device.calls == old(device.calls) + 1
    ensures r.Ok? <==> old(device.calls) !in device.fault
    ensures r.Err? ==> r.error == VkError(device.fault[old(device.calls)]) && device.pools == old(device.pools)
    ensures r.Ok? ==> device.pools == old(device.pools)[r.value := {COMMAND_POOL_CREATE_RESET_COMMAND_BUFFER_BIT}]
                      && Contains(device.pools[r.value], COMMAND_POOL_CREATE_RESET_COMMAND_BUFFER_BIT)
    ensures device.log == old(device.log) + [Call(CreateCommandPoolOp({COMMAND_POOL_CREATE_RESET_COMMAND_BUFFER_BIT}, queueFamily), r.Ok?)]
  {
    r := device.CreateCommandPool({COMMAND_POOL_CREATE_RESET_COMMAND_BUFFER_BIT}, queueFamily);
  }

  /** `new_buffers` (src/renderer/command.rs): exactly `count` primary command buffers,
      fresh and in the initial state. */
  method NewBuffers(device: Device, pool: nat, count: u32) returns (r: Result<seq<nat>>)
    requires device.Valid() && pool in device.pools && count > 0
    modifies device`commandBuffers, device`nextHandle, device`calls, device`log
    ensures device.Valid() && device.calls == old(device.calls) + 1
    ensures r.Ok? <==> old(device.calls) !in device.fault
    ensures r.Err? ==> r.error == VkError(device.fault[old(device.calls)]) && device.commandBuffers == old(device.commandBuffers)
    ensures r.Ok? ==> |r.value| == count
    ensures r.Ok? ==> r.value == Handles(old(device.nextHandle), count) && device.nextHandle == old(device.nextHandle) + count
    ensures r.Ok? ==> forall i :: 0 <= i < |r.value| ==>
      r.value[i] !in old(device.commandBuffers) && r.value[i] in device.commandBuffers
      && device.commandBuffers[r.value[i]] == CommandBufferState(pool, Initial, false, [], None)
    ensures r.Ok? ==> forall c :: c in old(device.commandBuffers) ==> c in device.commandBuffers && device.commandBuffers[c] == old(device.commandBuffers[c])
    ensures device.log == old(device.log) + [Call(AllocateCommandBuffersOp(pool, count), r.Ok?)]
  {
    r := device.AllocateCommandBuffers(pool, count);
  }

  /** `create_command_buffers` (src/render_backends/vulkan/command_buffer.rs): one command
      buffer per framebuffer. The count is `framebuffers.len() as u32`, which keeps the
      low 32 bits of the length. */
  method CreateCommandBuffers(device: Device, pool: nat, framebuffers: seq<nat>) returns (r: Result<seq<nat>>)
    requires device.Valid() && pool in device.pools && |framebuffers| % (U32_MAX + 1) > 0
    modifies device`commandBuffers, device`nextHandle, device`calls, device`log
    ensures device.Valid() && device.calls == old(device.calls) + 1
    ensures r.Ok? <==> old(device.calls) !in device.fault
    ensures r.Err? ==> r.error == VkError(device.fault[old(device.calls)])
    ensures r.Ok? ==> |r.value| == |framebuffers| % (U32_MAX + 1)
    ensures r.Ok? && |framebuffers| <= U32_MAX ==> |r.value| == |framebuffers|
    ensures r.Ok? ==> forall i :: 0 <= i < |r.value| ==>
      r.value[i] in device.commandBuffers && device.commandBuffers[r.value[i]] == CommandBufferState(pool, Initial, false, [], None)
    ensures device.log == old(device.log) + [Call(AllocateCommandBuffersOp(pool, |framebuffers| % (U32_MAX + 1)), r.Ok?)]
  {
    r := NewBuffers(device, pool, |framebuffers| % (U32_MAX + 1));
  }
}
