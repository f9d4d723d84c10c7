/** `create_semaphores` of src/render_backends/vulkan/semaphores.rs: the renderer's two
    frame semaphores, created together. */
module Semaphores {
  import opened Wrappers
  import opened DeviceLog
  import opened GpuDevice

  /** Two semaphore creations. */
  const PairOps: seq<Op> := [CreateSemaphoreOp, CreateSemaphoreOp]

  /** The renderer state `create_semaphores` reads and writes. */
  class VulkanRenderer {
    const device: Option<Device>
    var imageAvailableSemaphore: Option<nat>
    var renderingCompleteSemaphore: Option<nat>

    constructor (device: Option<Device>)
      ensures this.device == device
      ensures imageAvailableSemaphore.None? && renderingCompleteSemaphore.None?
    {
      this.device := device;
      imageAvailableSemaphore, renderingCompleteSemaphore := None, None;
    }

    /** `create_semaphores`: with no device, `NoDevice` and no device call. Otherwise two
        semaphores are created; only when both succeed are the two fields set, to the
        first and the second, both unsignalled. On any error neither field changes. */
    method CreateSemaphores() returns (r: Result<VulkanRenderer>)
      requires device.Some? ==> device.value.Valid()
      modifies this`imageAvailableSemaphore, this`renderingCompleteSemaphore
      modifies if device.Some? then {device.value} else {}
      ensures r.Ok? ==> r.value == this
      ensures r.Err? ==> imageAvailableSemaphore == old(imageAvailableSemaphore)
                         && renderingCompleteSemaphore == old(renderingCompleteSemaphore)
      ensures device.None? <==> r == Err(Renderer(NoDevice))
      ensures device.Some? ==> var d, n0 := device.value, old(device.value.nextHandle);
        d.Valid()
        && (r.Ok? == RanAll(d.log, old(d.log), PairOps)) && (r.Err? == RanUntilFailure(d.log, old(d.log), PairOps))
        && (r.Ok? ==> imageAvailableSemaphore == Some(n0) && renderingCompleteSemaphore == Some(n0 + 1)
                      && d.nextHandle == n0 + 2 && d.semaphores == old(d.semaphores)[n0 := false][n0 + 1 := false])
    {
      if device.None? {
        return Err(Renderer(NoDevice));
      }
      var d := device.value;
      ghost var log0 := d.log;
      Start(log0, PairOps);
      var imageAvailable := d.CreateSemaphore();
      Step(d.log, log0, log0, PairOps, 0, imageAvailable.Ok?);
      if imageAvailable.Err? {
        CompletedOrFailed(d.log, log0, PairOps);
        return Err(imageAvailable.error);
      }
      ghost var log1 := d.log;
      var renderingComplete := d.CreateSemaphore();
      Step(d.log, log1, log0, PairOps, 1, renderingComplete.Ok?);
      CompletedOrFailed(d.log, log0, PairOps);
      if renderingComplete.Err? {
        return Err(renderingComplete.error);
      }
      imageAvailableSemaphore := Some(imageAvailable.value);
      renderingCompleteSemaphore := Some(renderingComplete.value);
      return Ok(this);
    }
  }
}
