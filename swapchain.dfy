/** Swapchain configuration: the image count, pre-transform and present mode chosen from a
    surface's reported capabilities and modes, and the `VkSwapchainCreateInfoKHR` built from
    them. Two image-count rules exist in the repository: `min + 1` (src/os_platform/vulkan.rs,
    src/renderer/swapchain.rs) and `min` (src/render_backends/vulkan/swapchain.rs,
    src/os_platform/vulkan/swapchain.rs). */
module SwapchainPolicy {
  import opened Wrappers
  import opened Vk
  import SurfacePolicy

  /** The `min + 1` rule: one image more than the minimum, lowered to the maximum when a
      maximum is reported (`max > 0`) and `min + 1` exceeds it. The `+ 1` wraps as `u32`. */
  function ImageCountPlusOne(caps: SurfaceCapabilities): (r: u32)
    ensures caps.maxImageCount == 0 && caps.minImageCount < U32_MAX ==> r == caps.minImageCount + 1
    ensures caps.maxImageCount > 0 ==> r <= caps.maxImageCount
    ensures 0 < caps.maxImageCount && caps.minImageCount <= caps.maxImageCount && caps.minImageCount < U32_MAX
      ==> caps.minImageCount <= r
    ensures r == caps.maxImageCount || r == WrappingAddU32(caps.minImageCount, 1)
  {
    var desired := WrappingAddU32(caps.minImageCount, 1);
    if caps.maxImageCount > 0 && desired > caps.maxImageCount then caps.maxImageCount else desired
  }

  /** The `min` rule: the same test, but the fallback is `min` itself. */
  function ImageCountMin(caps: SurfaceCapabilities): (r: u32)
    ensures caps.maxImageCount == 0 || caps.maxImageCount >= caps.minImageCount ==> r == caps.minImageCount
    ensures r == caps.minImageCount || r == caps.maxImageCount
  {
    if caps.maxImageCount > 0 && WrappingAddU32(caps.minImageCount, 1) > caps.maxImageCount
    then caps.maxImageCount
    else caps.minImageCount
  }

  /** How the two rules differ on capabilities Vulkan can report (`max` is 0 or at least
      `min`): `min + 1` asks for one image more exactly when there is room for it. */
  lemma ImageCountRulesDiffer(caps: SurfaceCapabilities)
    requires caps.maxImageCount == 0 || caps.maxImageCount >= caps.minImageCount
    requires caps.minImageCount < U32_MAX
    ensures ImageCountMin(caps) == caps.minImageCount
    ensures caps.maxImageCount == 0 || caps.minImageCount < caps.maxImageCount
      ==> ImageCountPlusOne(caps) == ImageCountMin(caps) + 1
    ensures caps.maxImageCount == caps.minImageCount > 0
      ==> ImageCountPlusOne(caps) == ImageCountMin(caps)
  {
  }

  /** `subset(IDENTITY)` on the supported transforms picks the identity, else the current one. */
  function PreTransform(caps: SurfaceCapabilities): (r: Flags)
    ensures Contains(caps.supportedTransforms, SURFACE_TRANSFORM_IDENTITY_BIT_KHR) ==> r == {SURFACE_TRANSFORM_IDENTITY_BIT_KHR}
    ensures !Contains(caps.supportedTransforms, SURFACE_TRANSFORM_IDENTITY_BIT_KHR) ==> r == caps.currentTransform
  {
    if Contains(caps.supportedTransforms, SURFACE_TRANSFORM_IDENTITY_BIT_KHR)
    then {SURFACE_TRANSFORM_IDENTITY_BIT_KHR}
    else caps.currentTransform
  }

  /** `.find(|&mode| mode == target)` over the reported modes, front to back. */
  function FindMode(modes: seq<PresentMode>, target: PresentMode): (r: Option<PresentMode>)
    ensures r.Some? <==> target in modes
    ensures r.Some? ==> r.value == target
  {
    if modes == [] then None
    else if modes[0] == target then Some(modes[0])
    else FindMode(modes[1..], target)
  }

  /** Mailbox when it is offered anywhere in the list, Fifo (always available) otherwise. */
  function ChoosePresentMode(modes: seq<PresentMode>): (r: PresentMode)
    ensures r == Mailbox <==> Mailbox in modes
    ensures r != Mailbox ==> r == Fifo
  {
    FindMode(modes, Mailbox).GetOr(Fifo)
  }

  /** The order of the modes never matters, and only whether Mailbox is present does. */
  lemma PresentModeDependsOnlyOnMailbox(a: seq<PresentMode>, b: seq<PresentMode>)
    requires (Mailbox in a) == (Mailbox in b)
    ensures ChoosePresentMode(a) == ChoosePresentMode(b)
  {
  }

  /** The fields of `VkSwapchainCreateInfoKHR` the code sets from its inputs, plus the
      constant ones (`COLOR_ATTACHMENT` usage, exclusive sharing, opaque alpha, clipped, one
      array layer, no queue family indices, no old swapchain). */
  datatype SwapchainCreateInfo = SwapchainCreateInfo(
    surface: nat,
    minImageCount: u32,
    imageFormat: Format,
    imageColorSpace: ColorSpace,
    imageExtent: Extent2D,
    imageUsage: Flags,
    exclusiveSharing: bool,
    preTransform: Flags,
    compositeAlpha: Flags,
    presentMode: PresentMode,
    clipped: bool,
    imageArrayLayers: nat,
    queueFamilyIndexCount: nat,
    oldSwapchain: Option<nat>)

  /** The create info every variant builds from its chosen values. */
  function CreateInfo(surface: nat, count: u32, format: SurfaceFormat, extent: Extent2D,
                      transform: Flags, mode: PresentMode): (r: SwapchainCreateInfo)
    ensures r.surface == surface && r.minImageCount == count
    ensures r.imageFormat == format.format && r.imageColorSpace == format.colorSpace
    ensures r.imageExtent == extent && r.preTransform == transform && r.presentMode == mode
    ensures r.imageUsage == {IMAGE_USAGE_COLOR_ATTACHMENT_BIT} && r.exclusiveSharing
    ensures r.compositeAlpha == {COMPOSITE_ALPHA_OPAQUE_BIT_KHR} && r.clipped
    ensures r.imageArrayLayers == 1 && r.queueFamilyIndexCount == 0 && r.oldSwapchain.None?
  {
    SwapchainCreateInfo(surface, count, format.format, format.colorSpace, extent,
      {IMAGE_USAGE_COLOR_ATTACHMENT_BIT}, true, transform, {COMPOSITE_ALPHA_OPAQUE_BIT_KHR}, mode,
      true, 1, 0, None)
  }

  /** A swapchain handle returned by `create_swapchain_khr`, with the create info it was
      made from. */
  datatype CreatedSwapchain = CreatedSwapchain(handle: nat, info: SwapchainCreateInfo)

  /** `create_swapchain` of src/os_platform/vulkan.rs: formats are queried first (an empty
      list is `?` on `None`), then the capabilities, then the present modes; the swapchain
      loader must load; `create_swapchain_khr` is the last fallible call. */
  function OsPlatformCreateSwapchain(
    surface: nat,
    formats: Result<seq<SurfaceFormat>>,
    capabilities: Result<SurfaceCapabilities>,
    modes: Result<seq<PresentMode>>,
    loader: Outcome,
    windowWidth: u32,
    windowHeight: u32,
    create: Result<nat>): (r: Result<CreatedSwapchain>)
    ensures formats.Err? ==> r == Err(formats.error)
    ensures formats == Ok([]) ==> r == Err(NoneValue)
    ensures formats.Ok? && formats.value != [] && capabilities.Err? ==> r == Err(capabilities.error)
    ensures formats.Ok? && formats.value != [] && capabilities.Ok? && modes.Err? ==> r == Err(modes.error)
    ensures formats.Ok? && formats.value != [] && capabilities.Ok? && modes.Ok? && loader.Fail? ==> r == Err(loader.error)
    ensures formats.Ok? && formats.value != [] && capabilities.Ok? && modes.Ok? && loader.Pass? && create.Err?
      ==> r == Err(create.error)
    ensures r.Ok? <==> formats.Ok? && formats.value != [] && capabilities.Ok? && modes.Ok? && loader.Pass? && create.Ok?
    ensures r.Ok? ==> r.value.handle == create.value && r.value.info.surface == surface
    ensures r.Ok? ==> r.value.info.minImageCount == ImageCountPlusOne(capabilities.value)
    ensures r.Ok? ==> r.value.info.imageColorSpace == formats.value[0].colorSpace
    ensures r.Ok? ==> (r.value.info.imageFormat ==
      if formats.value[0].format == FORMAT_UNDEFINED then FORMAT_B8G8R8_UNORM else formats.value[0].format)
    ensures r.Ok? ==> (r.value.info.imageExtent ==
      SurfacePolicy.ChooseResolution(capabilities.value.currentExtent, windowWidth, windowHeight))
    ensures r.Ok? ==> r.value.info.preTransform == PreTransform(capabilities.value)
    ensures r.Ok? ==> (r.value.info.presentMode == Mailbox <==> Mailbox in modes.value)
    ensures r.Ok? && Mailbox !in modes.value ==> r.value.info.presentMode == Fifo
  {
    var all :- formats;
    var format :- SurfacePolicy.OkOr(SurfacePolicy.Nth(SurfacePolicy.MapFormats(all), 0), NoneValue);
    var caps :- capabilities;
    var count := ImageCountPlusOne(caps);
    var resolution := SurfacePolicy.ChooseResolution(caps.currentExtent, windowWidth, windowHeight);
    var transform := PreTransform(caps);
    var reported :- modes;
    var mode := ChoosePresentMode(reported);
    if loader.Fail? then Err(loader.error)
    else
      var handle :- create;
      Ok(CreatedSwapchain(handle, CreateInfo(surface, count, format, resolution, transform, mode)))
  }

  /** `new` of src/render_backends/vulkan/swapchain.rs: the `min` rule, with the format and
      resolution the caller passes copied unchanged; `create_swapchain_khr` comes last. */
  function BackendNewSwapchain(
    surface: nat,
    capabilities: Result<SurfaceCapabilities>,
    modes: Result<seq<PresentMode>>,
    format: SurfaceFormat,
    resolution: Extent2D,
    create: Result<nat>): (r: Result<CreatedSwapchain>)
    ensures capabilities.Err? ==> r == Err(capabilities.error)
    ensures capabilities.Ok? && modes.Err? ==> r == Err(modes.error)
    ensures capabilities.Ok? && modes.Ok? && create.Err? ==> r == Err(create.error)
    ensures r.Ok? <==> capabilities.Ok? && modes.Ok? && create.Ok?
    ensures r.Ok? ==> r.value.handle == create.value
    ensures r.Ok? ==> r.value.info.minImageCount == ImageCountMin(capabilities.value)
    ensures r.Ok? ==> r.value.info.imageFormat == format.format && r.value.info.imageColorSpace == format.colorSpace
    ensures r.Ok? ==> r.value.info.imageExtent == resolution && r.value.info.surface == surface
    ensures r.Ok? ==> r.value.info.preTransform == PreTransform(capabilities.value)
    ensures r.Ok? ==> (r.value.info.presentMode == Mailbox <==> Mailbox in modes.value)
    ensures r.Ok? && Mailbox !in modes.value ==> r.value.info.presentMode == Fifo
  {
    var caps :- capabilities;
    var reported :- modes;
    var info := CreateInfo(surface, ImageCountMin(caps), format, resolution, PreTransform(caps), ChoosePresentMode(reported));
    var handle :- create;
    Ok(CreatedSwapchain(handle, info))
  }

  /** `create_swapchain` of src/os_platform/vulkan/swapchain.rs: the `min` rule, with the
      surface, format, colour space and resolution copied from the `SurfaceDetails`;
      `create_swapchain_khr` comes last, and the loader is returned beside the handle
      (the loader itself is not modelled). */
  function DetailsCreateSwapchain(
    details: SurfacePolicy.SurfaceDetails,
    modes: Result<seq<PresentMode>>,
    loader: Outcome,
    create: Result<nat>): (r: Result<CreatedSwapchain>)
    ensures modes.Err? ==> r == Err(modes.error)
    ensures modes.Ok? && loader.Fail? ==> r == Err(loader.error)
    ensures modes.Ok? && loader.Pass? && create.Err? ==> r == Err(create.error)
    ensures r.Ok? <==> modes.Ok? && loader.Pass? && create.Ok?
    ensures r.Ok? ==> r.value.handle == create.value
    ensures r.Ok? ==> r.value.info.minImageCount == ImageCountMin(details.capabilities)
    ensures r.Ok? ==> r.value.info.surface == details.khr && r.value.info.imageExtent == details.resolution
    ensures r.Ok? ==> (r.value.info.imageFormat == details.format.format
                       && r.value.info.imageColorSpace == details.format.colorSpace)
    ensures r.Ok? ==> r.value.info.preTransform == PreTransform(details.capabilities)
    ensures r.Ok? ==> (r.value.info.presentMode == Mailbox <==> Mailbox in modes.value)
    ensures r.Ok? && Mailbox !in modes.value ==> r.value.info.presentMode == Fifo
  {
    var reported :- modes;
    if loader.Fail? then Err(loader.error)
    else
      var handle :- create;
      Ok(CreatedSwapchain(handle, CreateInfo(details.khr, ImageCountMin(details.capabilities), details.format,
                                             details.resolution, PreTransform(details.capabilities), ChoosePresentMode(reported))))
  }

  /** The renderer's `Swapchain`: the handle, the create info it was made from, and the
      index of the image being drawn. */
  datatype Swapchain = Swapchain(handle: nat, info: SwapchainCreateInfo, currentImage: u32)

  /** `Swapchain::new` of src/renderer/swapchain.rs: the loader, then the capabilities,
      then the present modes, then the creation itself; the `min + 1` rule, the surface's
      format and extent, and `current_image` starting at 0. */
  function RendererNewSwapchain(
    surface: SurfacePolicy.Surface,
    extent: Extent2D,
    loader: Outcome,
    capabilities: Result<SurfaceCapabilities>,
    modes: Result<seq<PresentMode>>,
    create: Result<nat>): (r: Result<Swapchain>)
    ensures loader.Fail? ==> r == Err(loader.error)
    ensures loader.Pass? && capabilities.Err? ==> r == Err(capabilities.error)
    ensures loader.Pass? && capabilities.Ok? && modes.Err? ==> r == Err(modes.error)
    ensures loader.Pass? && capabilities.Ok? && modes.Ok? && create.Err? ==> r == Err(create.error)
    ensures r.Ok? <==> loader.Pass? && capabilities.Ok? && modes.Ok? && create.Ok?
    ensures r.Ok? ==> r.value.currentImage == 0 && r.value.handle == create.value
    ensures r.Ok? ==> r.value.info.minImageCount == ImageCountPlusOne(capabilities.value)
    ensures r.Ok? ==> r.value.info.imageExtent == extent && r.value.info.surface == surface.handle
    ensures r.Ok? ==> (r.value.info.imageFormat == surface.format.format
                       && r.value.info.imageColorSpace == surface.format.colorSpace)
    ensures r.Ok? ==> r.value.info.preTransform == PreTransform(capabilities.value)
    ensures r.Ok? ==> (r.value.info.presentMode == Mailbox <==> Mailbox in modes.value)
    ensures r.Ok? && Mailbox !in modes.value ==> r.value.info.presentMode == Fifo
  {
    if loader.Fail? then Err(loader.error)
    else
      var caps :- capabilities;
      var reported :- modes;
      var info := CreateInfo(surface.handle, ImageCountPlusOne(caps), surface.format, extent,
                             PreTransform(caps), ChoosePresentMode(reported));
      var handle :- create;
      Ok(Swapchain(handle, info, 0))
  }
}
