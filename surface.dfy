/** Surface queries: the format chosen from the reported list and the resolution chosen
    from the reported capabilities (the "Surface Queries" section of the Window System
    Integration chapter of the Vulkan specification). One rule, three copies:
    src/render_backends/vulkan/surface.rs, src/renderer/surface.rs and
    src/os_platform/vulkan/surface.rs. */
module SurfacePolicy {
  import opened Wrappers
  import opened Vk

  const NO_SURFACE_FORMATS_MESSAGE: string := "Couldn't get physical device surface formats"

  /** The closure given to `map`: an `Undefined` entry ("any format") becomes
      `B8g8r8Unorm` in the same colour space; any other entry is kept. */
  function ReplaceUndefined(entry: SurfaceFormat): (r: SurfaceFormat)
    ensures r.colorSpace == entry.colorSpace
    ensures entry.format == FORMAT_UNDEFINED ==> r.format == FORMAT_B8G8R8_UNORM
    ensures entry.format != FORMAT_UNDEFINED ==> r == entry
  {
    match entry.format
    case 0 => SurfaceFormat(FORMAT_B8G8R8_UNORM, entry.colorSpace)
    case _ => entry
  }

  /** `.iter().map(ReplaceUndefined)`. */
  function MapFormats(formats: seq<SurfaceFormat>): (r: seq<SurfaceFormat>)
    ensures |r| == |formats|
    ensures forall i :: 0 <= i < |formats| ==> r[i] == ReplaceUndefined(formats[i])
  {
    if formats == [] then [] else [ReplaceUndefined(formats[0])] + MapFormats(formats[1..])
  }

  /** `.nth(n)` of an iterator over `s`. */
  function Nth<T>(s: seq<T>, n: nat): (r: Option<T>)
    ensures r.Some? <==> n < |s|
    ensures r.Some? ==> r.value == s[n]
  {
    if n < |s| then Some(s[n]) else None
  }

  /** `Option::ok_or`. */
  function OkOr<T>(o: Option<T>, e: Error): Result<T> {
    match o
    case Some(v) => Ok(v)
    case None => Err(e)
  }

  /** `new_format` (and `set_format`, `choose_surface_format`): the query's error is passed
      on; otherwise the mapped first entry, or the message when the list is empty. */
  function NewFormat(query: Result<seq<SurfaceFormat>>): (r: Result<SurfaceFormat>)
    ensures query.Err? ==> r == Err(query.error)
    ensures query.Ok? && query.value == [] ==> r == Err(Message(NO_SURFACE_FORMATS_MESSAGE))
    ensures query.Ok? && query.value != [] ==> r.Ok?
    ensures r.Ok? ==> r.value.colorSpace == query.value[0].colorSpace
    ensures r.Ok? && query.value[0].format == FORMAT_UNDEFINED ==> r.value.format == FORMAT_B8G8R8_UNORM
    ensures r.Ok? && query.value[0].format != FORMAT_UNDEFINED ==> r.value == query.value[0]
  {
    var formats :- query;
    OkOr(Nth(MapFormats(formats), 0), Message(NO_SURFACE_FORMATS_MESSAGE))
  }

  /** Only the first reported entry matters: whatever follows it, the choice is the same. */
  lemma NewFormatFirstOnly(first: SurfaceFormat, rest: seq<SurfaceFormat>, other: seq<SurfaceFormat>)
    ensures NewFormat(Ok([first] + rest)) == NewFormat(Ok([first] + other)) == Ok(ReplaceUndefined(first))
  {
    assert ([first] + rest)[0] == first;
    assert ([first] + other)[0] == first;
  }

  /** `new_resolution` / `set_extent` / the rule in `create_surface`: the width `u32::MAX`
      means "the surface size is decided by the swapchain", and the caller's size is used;
      otherwise `current_extent` is taken as it is. */
  function ChooseResolution(currentExtent: Extent2D, width: u32, height: u32): (r: Extent2D)
    ensures currentExtent.width == U32_MAX ==> r == Extent2D(width, height)
    ensures currentExtent.width != U32_MAX ==> r == currentExtent
  {
    match currentExtent.width
    case 0xFFFF_FFFF => Extent2D(width, height)
    case _ => currentExtent
  }

  /** Only the width is compared: the reported height never selects the branch, and outside
      the sentinel case the caller's size is ignored. */
  lemma ResolutionTestsOnlyWidth(w: u32, h1: u32, h2: u32, width1: u32, height1: u32, width2: u32, height2: u32)
    ensures ChooseResolution(Extent2D(U32_MAX, h1), width1, height1)
         == ChooseResolution(Extent2D(U32_MAX, h2), width1, height1)
    ensures w != U32_MAX ==>
      ChooseResolution(Extent2D(w, h1), width1, height1) == ChooseResolution(Extent2D(w, h1), width2, height2)
    ensures ChooseResolution(Extent2D(w, h1), width1, height1) == Extent2D(width1, height1)
         <==> w == U32_MAX || (w == width1 && h1 == height1)
  {
  }

  /** `new_resolution`: the capabilities query may fail; its error is passed on. */
  function NewResolution(query: Result<SurfaceCapabilities>, width: u32, height: u32): (r: Result<Extent2D>)
    ensures query.Err? <==> r.Err?
    ensures r.Err? ==> r.error == query.error
    ensures r.Ok? && query.value.currentExtent.width == U32_MAX ==> r.value == Extent2D(width, height)
    ensures r.Ok? && query.value.currentExtent.width != U32_MAX ==> r.value == query.value.currentExtent
  {
    var caps :- query;
    Ok(ChooseResolution(caps.currentExtent, width, height))
  }

  /** The renderer's `Surface`: its size, its handle and its fixed format. The loader is
      not modelled. */
  datatype Surface = Surface(width: u32, height: u32, handle: nat, format: SurfaceFormat)

  /** `Surface::new`: the surface handle is created first, then the loader; the size is the
      window's inner size, or `(0, 0)` when the window reports none; the format is always
      `B8g8r8Unorm` in `SrgbNonlinear`. */
  function NewSurface(handle: Result<nat>, loader: Outcome, innerSize: Option<(u32, u32)>): (r: Result<Surface>)
    ensures handle.Err? ==> r == Err(handle.error)
    ensures handle.Ok? && loader.Fail? ==> r == Err(loader.error)
    ensures r.Ok? <==> handle.Ok? && loader.Pass?
    ensures r.Ok? ==> r.value.handle == handle.value
    ensures r.Ok? && innerSize.Some? ==> (r.value.width, r.value.height) == innerSize.value
    ensures r.Ok? && innerSize.None? ==> r.value.width == 0 && r.value.height == 0
    ensures r.Ok? ==> r.value.format == SurfaceFormat(FORMAT_B8G8R8_UNORM, COLOR_SPACE_SRGB_NONLINEAR_KHR)
  {
    var h :- handle;
    if loader.Fail? then Err(loader.error)
    else
      var (width, height) := innerSize.GetOr((0, 0));
      Ok(Surface(width, height, h, SurfaceFormat(FORMAT_B8G8R8_UNORM, COLOR_SPACE_SRGB_NONLINEAR_KHR)))
  }

  /** `Surface::set_extent` (a `&self` method, so the surface is left as it was): the sentinel
      width yields the surface's own stored size. */
  function SetExtent(surface: Surface, query: Result<SurfaceCapabilities>): (r: Result<Extent2D>)
    ensures query.Err? ==> r == Err(query.error)
    ensures query.Ok? && query.value.currentExtent.width == U32_MAX ==> r == Ok(Extent2D(surface.width, surface.height))
    ensures query.Ok? && query.value.currentExtent.width != U32_MAX ==> r == Ok(query.value.currentExtent)
  {
    NewResolution(query, surface.width, surface.height)
  }

  /** `SurfaceDetails` of the os_platform tree. */
  datatype SurfaceDetails = SurfaceDetails(
    khr: nat,
    format: SurfaceFormat,
    capabilities: SurfaceCapabilities,
    resolution: Extent2D)

  /** `create_surface` from the point the physical device is picked: the format, then the
      capabilities; the details keep the capabilities and the resolution derived from them. */
  function CreateSurfaceDetails(
    khr: nat,
    picked: Outcome,
    formats: Result<seq<SurfaceFormat>>,
    capabilities: Result<SurfaceCapabilities>,
    windowWidth: u32,
    windowHeight: u32): (r: Result<SurfaceDetails>)
    ensures picked.Fail? ==> r == Err(picked.error)
    ensures picked.Pass? ==> (r.Err? <==> NewFormat(formats).Err? || capabilities.Err?)
    ensures picked.Pass? && NewFormat(formats).Err? ==> r == Err(NewFormat(formats).error)
    ensures picked.Pass? && NewFormat(formats).Ok? && capabilities.Err? ==> r == Err(capabilities.error)
    ensures r.Ok? ==> r.value.khr == khr && r.value.format == NewFormat(formats).value
    ensures r.Ok? ==> r.value.capabilities == capabilities.value
    ensures r.Ok? && capabilities.value.currentExtent.width == U32_MAX
      ==> r.value.resolution == Extent2D(windowWidth, windowHeight)
    ensures r.Ok? && capabilities.value.currentExtent.width != U32_MAX
      ==> r.value.resolution == capabilities.value.currentExtent
  {
    if picked.Fail? then Err(picked.error)
    else
      var format :- NewFormat(formats);
      var caps :- capabilities;
      Ok(SurfaceDetails(khr, format, caps, ChooseResolution(caps.currentExtent, windowWidth, windowHeight)))
  }
}
