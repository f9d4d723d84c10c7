/** The vocabulary of device calls and the ghost log of calls that `Device` keeps, with
    the lemmas that compose the log of a sequence of calls that ran to completion or
    stopped at its first failure. */
module DeviceLog {
  import opened Wrappers
  import opened Vk

  /** A recorded `vkCmd*` command, with the operands the model needs. */
  datatype BufferCopy = BufferCopy(srcOffset: nat, dstOffset: nat, size: nat)
  datatype Command =
    | CopyBuffer(src: nat, dst: nat, regions: seq<BufferCopy>)
    /** A pipeline barrier carrying one layout transition of `image`. */
    | PipelineBarrier(image: nat)
    | BindPipeline(pipeline: nat)
    | BeginRenderPass(renderPass: nat, framebuffer: nat, renderArea: Rect2D)
    | SetViewport(extent: Extent2D)
    | SetScissor(scissor: Rect2D)
    | EndRenderPass

  /** `VkSubmitInfo` with one entry per handle it points to. */
  datatype SubmitInfo = SubmitInfo(
    waitSemaphores: seq<nat>,
    waitDstStageMask: seq<Flags>,
    commandBuffers: seq<nat>,
    signalSemaphores: seq<nat>)

  /** `VkPipelineShaderStageCreateInfo`: the stage, its shader module and entry point. */
  datatype ShaderStage = ShaderStage(stage: Bit, shaderModule: nat, entryName: string)

  /** `VkGraphicsPipelineCreateInfo`, the parts that depend on the renderer's state: the
      shader stages in order, the viewport state's scissors, the pipeline layout, and the
      render pass and subpass the pipeline is used in. */
  datatype PipelineInfo = PipelineInfo(
    stages: seq<ShaderStage>,
    scissors: seq<Rect2D>,
    layout: nat,
    renderPass: nat,
    subpass: nat)

  /** One device call, or a host-side step that can make the sequence fail. */
  datatype Op =
    | CreateBufferOp(size: nat, usage: Flags)
    | FindMemoryTypeOp(memoryTypeBits: u32, flags: Flags)
    | AllocateMemoryOp(size: nat, typeIndex: nat)
    | BindBufferMemoryOp(buffer: nat, memory: nat, offset: nat)
    | CreateImageOp(format: Format, extent: Extent2D, usage: Flags)
    | BindImageMemoryOp(image: nat, memory: nat, offset: nat)
    | CreateImageViewOp(image: nat, format: Format)
    | MapMemoryOp(memory: nat, offset: nat, size: nat)
    | WriteMappedOp(memory: nat, size: nat)
    | UnmapMemoryOp(memory: nat)
    | DestroyBufferOp(buffer: nat)
    | FreeMemoryOp(memory: nat)
    | CreateCommandPoolOp(flags: Flags, queueFamily: nat)
    | AllocateCommandBuffersOp(pool: nat, count: nat)
    | FreeCommandBuffersOp(pool: nat, commandBuffers: seq<nat>)
    | ResetCommandBufferOp(commandBuffer: nat, flags: Flags)
    | BeginCommandBufferOp(commandBuffer: nat, flags: Flags)
    | RecordOp(commandBuffer: nat, commands: seq<Command>)
    | EndCommandBufferOp(commandBuffer: nat)
    | CreateFenceOp(signaled: bool)
    | QueueSubmitOp(info: SubmitInfo, fence: Option<nat>)
    | WaitForFencesOp(fences: seq<nat>, waitAll: bool, timeout: nat)
    | DestroyFenceOp(destroyed: nat)
    | CreateSemaphoreOp
    | QueueWaitIdleOp
    | AcquireNextImageOp(timeout: nat, semaphore: nat)
    | QueuePresentOp(waitSemaphores: seq<nat>, imageIndex: nat)
    | CreateShaderModuleOp(path: string)
    | CreatePipelineLayoutOp
    | CreateGraphicsPipelinesOp(infos: seq<PipelineInfo>)

  datatype Call = Call(op: Op, ok: bool)

  /** After `log0`, the first `k` steps of `ops` were made, in order, and each succeeded;
      nothing else was logged. Stated one step at a time, so that a caller sees only the
      last step unless it asks for more. */
  predicate RanFirst(log: seq<Call>, log0: seq<Call>, ops: seq<Op>, k: nat)
    decreases k
  {
    k <= |ops| && |log| == |log0| + k
    && if k == 0 then log == log0
       else log[|log| - 1] == Call(ops[k - 1], true) && RanFirst(log[..|log| - 1], log0, ops, k - 1)
  }

  /** After `log0`, every step of `ops` was made, in order, and succeeded. */
  predicate RanAll(log: seq<Call>, log0: seq<Call>, ops: seq<Op>) {
    RanFirst(log, log0, ops, |ops|)
  }

  /** After `log0`, the steps of `ops` were made in order until one failed: the earlier
      ones succeeded, that one is the last entry, and no later step was attempted. */
  predicate RanUntilFailure(log: seq<Call>, log0: seq<Call>, ops: seq<Op>) {
    |log0| < |log| <= |log0| + |ops|
    && RanFirst(log[..|log| - 1], log0, ops, |log| - |log0| - 1)
    && log[|log| - 1] == Call(ops[|log| - |log0| - 1], false)
  }

  /** Read entry by entry: the log starts with `log0` and its `i`-th new entry is the
      successful `i`-th step. */
  lemma {:induction false} RanFirstEntries(log: seq<Call>, log0: seq<Call>, ops: seq<Op>, k: nat)
    requires RanFirst(log, log0, ops, k)
    ensures |log| == |log0| + k && log[..|log0|] == log0
    ensures forall i :: 0 <= i < k ==> log[|log0| + i] == Call(ops[i], true)
    decreases k
  {
    if k > 0 {
      var front := log[..|log| - 1];
      RanFirstEntries(front, log0, ops, k - 1);
      assert log[..|log0|] == front[..|log0|];
      forall i | 0 <= i < k
        ensures log[|log0| + i] == Call(ops[i], true)
      {
        if i < k - 1 {
          assert log[|log0| + i] == front[|log0| + i];
        }
      }
    }
  }

  /** Only the first `k` steps matter to `RanFirst`. */
  lemma {:induction false} RanFirstSamePrefix(log: seq<Call>, log0: seq<Call>, ops: seq<Op>, ops2: seq<Op>, k: nat)
    requires RanFirst(log, log0, ops, k) && k <= |ops2| && ops2[..k] == ops[..k]
    ensures RanFirst(log, log0, ops2, k)
    decreases k
  {
    if k > 0 {
      assert ops2[k - 1] == ops2[..k][k - 1] == ops[..k][k - 1] == ops[k - 1];
      assert ops2[..k - 1] == ops2[..k][..k - 1] == ops[..k][..k - 1] == ops[..k - 1];
      RanFirstSamePrefix(log[..|log| - 1], log0, ops, ops2, k - 1);
    }
  }

  /** A completed run of `a` followed by `k` successful steps of `b` is `|a| + k`
      successful steps of `a + b`. */
  lemma {:induction false} ThenFirst(log: seq<Call>, mid: seq<Call>, log0: seq<Call>, a: seq<Op>, b: seq<Op>, k: nat)
    requires RanAll(mid, log0, a) && RanFirst(log, mid, b, k)
    ensures RanFirst(log, log0, a + b, |a| + k)
    decreases k
  {
    if k == 0 {
      assert (a + b)[..|a|] == a[..|a|];
      RanFirstSamePrefix(mid, log0, a, a + b, |a|);
    } else {
      ThenFirst(log[..|log| - 1], mid, log0, a, b, k - 1);
      assert (a + b)[|a| + k - 1] == b[k - 1];
    }
  }

  /** Nothing of `ops` has run yet. */
  lemma Start(log0: seq<Call>, ops: seq<Op>)
    ensures RanFirst(log0, log0, ops, 0)
  {
  }

  /** Step `k` of `ops` was made and logged with its outcome `ok`. */
  lemma Step(log: seq<Call>, mid: seq<Call>, log0: seq<Call>, ops: seq<Op>, k: nat, ok: bool)
    requires RanFirst(mid, log0, ops, k) && k < |ops| && log == mid + [Call(ops[k], ok)]
    ensures ok ==> RanFirst(log, log0, ops, k + 1)
    ensures !ok ==> RanUntilFailure(log, log0, ops)
  {
    assert log[..|log| - 1] == mid;
  }

  /** Runs of `a` and then `b` that both completed are a completed run of `a + b`. */
  lemma Then(log: seq<Call>, mid: seq<Call>, log0: seq<Call>, a: seq<Op>, b: seq<Op>)
    requires RanAll(mid, log0, a) && RanAll(log, mid, b)
    ensures RanAll(log, log0, a + b)
  {
    ThenFirst(log, mid, log0, a, b, |b|);
  }

  /** A completed run of `a` followed by a failed run of `b` is a failed run of
      `a + b + c`: nothing of `c` is attempted. */
  lemma ThenFailed(log: seq<Call>, mid: seq<Call>, log0: seq<Call>, a: seq<Op>, b: seq<Op>, c: seq<Op>)
    requires RanAll(mid, log0, a) && RanUntilFailure(log, mid, b)
    ensures RanUntilFailure(log, log0, a + b + c)
  {
    var k := |log| - |mid| - 1;
    var front := log[..|log| - 1];
    ThenFirst(front, mid, log0, a, b, k);
    assert (a + b + c)[..|a| + k] == (a + b)[..|a| + k];
    RanFirstSamePrefix(front, log0, a + b, a + b + c, |a| + k);
    assert (a + b + c)[|a| + k] == b[k];
  }

  /** A run cannot both complete and stop at a failure: the last entry tells them apart. */
  lemma CompletedOrFailed(log: seq<Call>, log0: seq<Call>, ops: seq<Op>)
    ensures !(RanAll(log, log0, ops) && RanUntilFailure(log, log0, ops))
  {
    if RanAll(log, log0, ops) && |log0| < |log| {
      assert log[|log| - 1].ok;
    }
  }

  /** A failed run of `a` is a failed run of `a + b`: nothing of `b` is attempted. */
  lemma FailedInFirst(log: seq<Call>, log0: seq<Call>, a: seq<Op>, b: seq<Op>)
    requires RanUntilFailure(log, log0, a)
    ensures RanUntilFailure(log, log0, a + b)
  {
    var k := |log| - |log0| - 1;
    assert (a + b)[..k] == a[..k];
    RanFirstSamePrefix(log[..|log| - 1], log0, a, a + b, k);
    assert (a + b)[k] == a[k];
  }

  /** A completed run of `a` followed by a failed run of `b` is a failed run of `a + b`. */
  lemma FailedInSecond(log: seq<Call>, mid: seq<Call>, log0: seq<Call>, a: seq<Op>, b: seq<Op>)
    requires RanAll(mid, log0, a) && RanUntilFailure(log, mid, b)
    ensures RanUntilFailure(log, log0, a + b)
  {
    var k := |log| - |mid| - 1;
    ThenFirst(log[..|log| - 1], mid, log0, a, b, k);
    assert (a + b)[|a| + k] == b[k];
  }

  /** A failed run of `a` is a failed, and not a completed, run of `a + b`. */
  lemma FailedRun(log: seq<Call>, log0: seq<Call>, a: seq<Op>, b: seq<Op>)
    requires RanUntilFailure(log, log0, a)
    ensures !RanAll(log, log0, a + b) && RanUntilFailure(log, log0, a + b)
  {
    FailedInFirst(log, log0, a, b);
    CompletedOrFailed(log, log0, a + b);
  }

  /** A completed run of `a` followed by a run of `b` that completed exactly when `ok` is
      a run of `a + b` that completed exactly when `ok`, and otherwise failed. */
  lemma ComposedRun(log: seq<Call>, mid: seq<Call>, log0: seq<Call>, a: seq<Op>, b: seq<Op>, ok: bool)
    requires RanAll(mid, log0, a)
    requires (ok == RanAll(log, mid, b)) && (!ok == RanUntilFailure(log, mid, b))
    ensures (ok == RanAll(log, log0, a + b)) && (!ok == RanUntilFailure(log, log0, a + b))
  {
    if ok {
      Then(log, mid, log0, a, b);
    } else {
      FailedInSecond(log, mid, log0, a, b);
    }
    CompletedOrFailed(log, log0, a + b);
  }

  /** Among the fallible calls numbered `calls0`, `calls0 + 1`, ..., call `k` is the first that fails. */
  predicate FailsFirstAt(fault: map<nat, int>, calls0: nat, k: nat) {
    calls0 + k in fault && forall j :: calls0 <= j < calls0 + k ==> j !in fault
  }

  /** None of the `n` fallible calls from `calls0` on fails. */
  predicate NoFaults(fault: map<nat, int>, calls0: nat, n: nat) {
    forall j :: calls0 <= j < calls0 + n ==> j !in fault
  }

  /** One of the `n` fallible calls from `calls0` on fails, and `e` is the error of the first that does. */
  ghost predicate FailedWithin(fault: map<nat, int>, calls0: nat, n: nat, e: Error) {
    exists k :: 0 <= k < n && FailsFirstAt(fault, calls0, k) && e == VkError(fault[calls0 + k])
  }

  /** A failure among the calls excludes a run of them without faults. */
  lemma FailedExcludesNoFaults(fault: map<nat, int>, calls0: nat, n: nat, e: Error)
    requires FailedWithin(fault, calls0, n, e)
    ensures !NoFaults(fault, calls0, n)
  {
    var k :| 0 <= k < n && FailsFirstAt(fault, calls0, k) && e == VkError(fault[calls0 + k]);
    assert calls0 + k in fault;
  }

  /** A failure among the first `n` calls is a failure among the first `m >= n`. */
  lemma FailedWithinMore(fault: map<nat, int>, calls0: nat, n: nat, m: nat, e: Error)
    requires FailedWithin(fault, calls0, n, e) && n <= m
    ensures FailedWithin(fault, calls0, m, e)
  {
    var k :| 0 <= k < n && FailsFirstAt(fault, calls0, k) && e == VkError(fault[calls0 + k]);
    assert 0 <= k < m;
  }

  /** Two calls in a row without faults. */
  lemma NoFaultsPair(fault: map<nat, int>, calls0: nat)
    requires calls0 !in fault && calls0 + 1 !in fault
    ensures NoFaults(fault, calls0, 2)
  {
    forall j | calls0 <= j < calls0 + 2
      ensures j !in fault
    {
      assert j == calls0 || j == calls0 + 1;
    }
  }

  /** Runs of `a` and then `b` fallible calls without faults are one run of `a + b`. */
  lemma NoFaultsThen(fault: map<nat, int>, calls0: nat, a: nat, b: nat)
    requires NoFaults(fault, calls0, a) && NoFaults(fault, calls0 + a, b)
    ensures NoFaults(fault, calls0, a + b)
  {
  }

  /** After `a` calls without faults, the first failure among the next `b` is the first
      among all `a + b`. */
  lemma FailedAfter(fault: map<nat, int>, calls0: nat, a: nat, b: nat, e: Error)
    requires NoFaults(fault, calls0, a) && FailedWithin(fault, calls0 + a, b, e)
    ensures FailedWithin(fault, calls0, a + b, e)
  {
    var k :| 0 <= k < b && FailsFirstAt(fault, calls0 + a, k) && e == VkError(fault[calls0 + a + k]);
    assert FailsFirstAt(fault, calls0, a + k);
  }
}
