/** `create_depth_view` of src/os_platform/vulkan/image_views.rs: a `D16Unorm` depth
    image the size of the surface, device-local memory of the image's requirement size
    bound to it at offset 0, and a view of it. */
module DepthView {
  import opened Wrappers
  import opened Vk
  import opened DeviceLog
  import opened GpuDevice
  import opened MemoryTypeSelection
  import opened Transfer

  const DEPTH_FORMAT: Format := FORMAT_D16_UNORM
  const DEPTH_USAGE: Flags := {IMAGE_USAGE_DEPTH_STENCIL_ATTACHMENT_BIT}
  const DEPTH_PROPERTIES: Flags := {MEMORY_PROPERTY_DEVICE_LOCAL_BIT}

  /** Create the depth image, then search for a device-local memory type for it. */
  function ImageOps(extent: Extent2D, req: MemoryRequirements): seq<Op> {
    [CreateImageOp(DEPTH_FORMAT, extent, DEPTH_USAGE), FindMemoryTypeOp(req.memoryTypeBits, DEPTH_PROPERTIES)]
  }

  /** Allocate the requirement size from `typeIndex`, then bind it, as `memory`, to
      `image` at offset 0. */
  function ImageMemoryOps(req: MemoryRequirements, typeIndex: nat, image: nat, memory: nat): seq<Op> {
    [AllocateMemoryOp(req.size, typeIndex), BindImageMemoryOp(image, memory, 0)]
  }

  /** The steps of `create_depth_view` when the image receives handle `image`. */
  function DepthViewOps(extent: Extent2D, req: MemoryRequirements, types: MemoryTypes, image: nat): seq<Op> {
    ImageOps(extent, req) + ImageMemoryOps(req, ChosenType(req, types, DEPTH_PROPERTIES), image, image + 1)
    + [CreateImageViewOp(image, DEPTH_FORMAT)]
  }

  /** The first two steps: the depth image, unbound, and the memory type for it. */
  method CreateDepthImage(device: Device, extent: Extent2D) returns (r: Result<(nat, nat)>)
    requires device.Valid() && extent.width > 0 && extent.height > 0
    modifies device`images, device`nextHandle, device`calls, device`log
    ensures device.Valid()
    ensures var n0, req := old(device.nextHandle), device.requirementsOf(old(device.nextHandle));
      r.Ok? ==>
        r.value == (n0, ChosenType(req, device.memoryTypes, DEPTH_PROPERTIES)) && device.nextHandle == n0 + 1
        && r.value.1 < MAX_MEMORY_TYPES && Allowed(req.memoryTypeBits, r.value.1)
        && DEPTH_PROPERTIES <= device.memoryTypes[r.value.1].propertyFlags
        && device.images == old(device.images)[n0 := ImageState(DEPTH_FORMAT, extent, DEPTH_USAGE, req, None)]
    ensures var ops := ImageOps(extent, device.requirementsOf(old(device.nextHandle)));
      (r.Ok? == RanAll(device.log, old(device.log), ops)) && (r.Err? == RanUntilFailure(device.log, old(device.log), ops))
  {
    ghost var log0 := device.log;
    ghost var ops := ImageOps(extent, device.requirementsOf(device.nextHandle));
    Start(log0, ops);
    var created := device.CreateImage(DEPTH_FORMAT, extent, DEPTH_USAGE);
    Step(device.log, log0, log0, ops, 0, created.Ok?);
    if created.Err? {
      CompletedOrFailed(device.log, log0, ops);
      return Err(created.error);
    }
    var image := created.value;
    var req := device.GetImageMemoryRequirements(image);
    ghost var log1 := device.log;
    var found := device.FindMemoryType(req, DEPTH_PROPERTIES);
    Step(device.log, log1, log0, ops, 1, found.Ok?);
    CompletedOrFailed(device.log, log0, ops);
    if found.Err? {
      return Err(found.error);
    }
    ResultIsAllowedSuperset(req, device.memoryTypes, DEPTH_PROPERTIES);
    return Ok((image, found.value));
  }

  /** The next two steps: memory of the image's requirement size from `typeIndex`,
      bound to the image at offset 0. */
  method BindDepthMemory(device: Device, image: nat, typeIndex: nat) returns (r: Result<nat>)
    requires device.Valid() && image in device.images && device.images[image].memory.None?
    requires typeIndex < MAX_MEMORY_TYPES && Allowed(device.images[image].requirements.memoryTypeBits, typeIndex)
    requires device.images[image].requirements.size > 0
    modifies device`images, device`memories, device`nextHandle, device`calls, device`log
    ensures device.Valid()
    ensures var n0, req := old(device.nextHandle), old(device.images[image].requirements);
      r.Ok? ==>
        r.value == n0 && device.nextHandle == n0 + 1
        && device.images == old(device.images)[image := old(device.images[image]).(memory := Some(n0))]
        && device.memories == old(device.memories)[n0 := MemoryState(req.size, typeIndex, None)]
    ensures var ops := ImageMemoryOps(old(device.images[image].requirements), typeIndex, image, old(device.nextHandle));
      (r.Ok? == RanAll(device.log, old(device.log), ops)) && (r.Err? == RanUntilFailure(device.log, old(device.log), ops))
  {
    ghost var log0 := device.log;
    var req := device.GetImageMemoryRequirements(image);
    ghost var ops := ImageMemoryOps(req, typeIndex, image, device.nextHandle);
    Start(log0, ops);
    var newMemory := device.AllocateMemory(req.size, typeIndex);
    Step(device.log, log0, log0, ops, 0, newMemory.Ok?);
    if newMemory.Err? {
      CompletedOrFailed(device.log, log0, ops);
      return Err(newMemory.error);
    }
    var memory := newMemory.value;
    ghost var log1 := device.log;
    var bound := device.BindImageMemory(image, memory, 0);
    Step(device.log, log1, log0, ops, 1, bound.Pass?);
    CompletedOrFailed(device.log, log0, ops);
    if bound.Fail? {
      return Err(bound.error);
    }
    return Ok(memory);
  }

  /** `create_depth_view`: on success the returned view shows a new `D16Unorm` depth image
      of the requested extent, whose memory (the handle after the image's) has the size
      the image's requirements report and a device-local type the mask allows. The log
      shows the memory bound at offset 0 before the view was created; on failure it
      shows the step that failed and that nothing after it was attempted. */
  method CreateDepthView(device: Device, extent: Extent2D) returns (r: Result<nat>)
    requires device.Valid() && extent.width > 0 && extent.height > 0 && device.ReportsAtLeast(1)
    modifies device`images, device`memories, device`imageViews, device`nextHandle, device`calls, device`log
    ensures device.Valid()
    ensures var n0, req := old(device.nextHandle), device.requirementsOf(old(device.nextHandle));
      var typeIndex := ChosenType(req, device.memoryTypes, DEPTH_PROPERTIES);
      r.Ok? ==>
        r.value == n0 + 2 && device.nextHandle == n0 + 3
        && r.value in device.imageViews && device.imageViews[r.value] == n0
        && n0 in device.images && device.images[n0] == ImageState(DEPTH_FORMAT, extent, DEPTH_USAGE, req, Some(n0 + 1))
        && n0 + 1 in device.memories && device.memories[n0 + 1] == MemoryState(req.size, typeIndex, None)
        && typeIndex < MAX_MEMORY_TYPES && DEPTH_PROPERTIES <= device.memoryTypes[typeIndex].propertyFlags
    ensures var ops := DepthViewOps(extent, device.requirementsOf(old(device.nextHandle)), device.memoryTypes, old(device.nextHandle));
      (r.Ok? == RanAll(device.log, old(device.log), ops)) && (r.Err? == RanUntilFailure(device.log, old(device.log), ops))
  {
    ghost var log0, n0 := device.log, device.nextHandle;
    ghost var req := device.requirementsOf(n0);
    ghost var first := ImageOps(extent, req);
    ghost var second := ImageMemoryOps(req, ChosenType(req, device.memoryTypes, DEPTH_PROPERTIES), n0, n0 + 1);
    ghost var third := [CreateImageViewOp(n0, DEPTH_FORMAT)];
    var found := CreateDepthImage(device, extent);
    if found.Err? {
      FailedRun(device.log, log0, first, second + third);
      assert first + (second + third) == first + second + third;
      return Err(found.error);
    }
    var image, typeIndex := found.value.0, found.value.1;
    ghost var log1 := device.log;
    var bound := BindDepthMemory(device, image, typeIndex);
    if bound.Err? {
      FailedInSecond(device.log, log1, log0, first, second);
      FailedRun(device.log, log0, first + second, third);
      return Err(bound.error);
    }
    Then(device.log, log1, log0, first, second);
    ghost var log2 := device.log;
    Start(log2, third);
    r := device.CreateImageView(image, DEPTH_FORMAT);
    Step(device.log, log2, log2, third, 0, r.Ok?);
    CompletedOrFailed(device.log, log2, third);
    ComposedRun(device.log, log2, log0, first + second, third, r.Ok?);
  }
}
