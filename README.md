# xtreme_game renderer core, modelled in Dafny

This project models the core of xtreme_game. That core is a small Rust game with a Vulkan renderer written against `ash`, and it exists in three parallel trees: `src/render_backends/vulkan`, `src/renderer` and `src/os_platform/vulkan`. The model covers:

- **Memory-type selection** (`MemoryTypeSelection`): the two-pass search over the physical device's memory types.
  - The first pass looks for exact flags.
  - The second pass looks for a superset of the requested flags.
  - The loop shifts the type mask right once per step.
- **Surface and swapchain policies** (`SurfacePolicy`, `SwapchainPolicy`):
  - the first reported format, with `Undefined` replaced by `B8g8r8Unorm`;
  - the `u32::MAX` width sentinel for the resolution;
  - the two image-count rules found in the repository;
  - the identity pre-transform;
  - Mailbox-else-Fifo present-mode selection;
  - the swapchain create info each tree builds.
- **Physical-device selection** (`DeviceSelection`).
  - The first device that has a queue family with the graphics bit and surface support wins, together with its lowest such family.
  - The surface-support queries are made lazily, in the order the iterator chain makes them.
- **A Vulkan device** (`GpuDevice`, `DeviceLog`). The `ash` calls the core makes are the methods of a `Device` class.
  - Each call's `requires` is the valid-usage rule the unsafe call relies on.
  - Each call's `ensures` gives the new state of the objects it touches: command-buffer lifecycle, fences, semaphores, memory bindings and mappings.
  - Whether a call fails is decided by an oracle indexed by a call counter.
  - Every call is appended to a ghost log. This makes "these steps in this order, and nothing after the first failure" a checkable statement.
- **The buffer allocator and the staged vertex upload** (`Transfer`):
  - `Allocator::create_buffer`, `copy_vertices_to_device` and `copy_buffer`;
  - the backend's vertex-buffer `new`: a staging buffer, map/copy/unmap, a device-local buffer, the copy, and the release of the staging buffer.
- **The command-recorder protocol** (`CommandRecorder`).
  - `submit` and `submit_commands` run reset, one-time begin, the callback, end, fence creation, submit, wait and fence destruction.
  - `vkEndCommandBuffer` must not be called inside a render pass.
  - Also modelled: the pool and command-buffer allocators.
- **The depth view** (`DepthView`): `create_depth_view`.
- **Frames** (`Frames`):
  - the per-image frame-slot table;
  - `begin_frame` and `end_frame` with `frame_index`;
  - the semaphore hand-off between acquire, submit and present;
  - the recording loop of `new`, as written and corrected.
- **Graphics-pipeline creation and semaphores** (`GraphicsPipeline`, `Semaphores`):
  - the `Option` prerequisite checks of `create_graphics_pipeline`, its two shader modules and its pipeline layout;
  - `create_semaphores`.
- **The main loop** (`GameLoop`):
  - the hot-reload trigger;
  - the exit events;
  - the 250 ms frame-time cap;
  - the fixed-step accumulator with its update count.
- **Entities** (`Entities`, `GameState`): the `GLOBAL_ID` counter and the entity builder.
- **Meshes** (`Meshes`): `Mesh::new`, `load` and `unload`.

Vulkan constants and flag bits follow the Vulkan 1.0 specification. Flags are modelled as sets of bit positions.

## Model

| member | source | states |
|---|---|---|
| MemoryTypeSelection.Shifted | src/render_backends/vulkan/mod.rs:414-421 | shifting the mask right never makes it larger |
| MemoryTypeSelection.FirstCandidateIsLowest | src/render_backends/vulkan/mod.rs:415-422 | the found index is allowed by the mask, passes the test, and no lower index does both |
| MemoryTypeSelection.FindMemoryTypeIndexF | src/render_backends/vulkan/mod.rs:408-426 | the loop returns the lowest index whose mask bit is set and whose flags pass `f`, or the "Unable to find suitable memory index" error when no index does |
| MemoryTypeSelection.FindMemoryTypeIndex | src/render_backends/vulkan/mod.rs:389-406 | the exact-match pass result when it succeeds, otherwise the superset pass result |
| MemoryTypeSelection.SearchAgrees | src/renderer/mod.rs:306-321 | the loop's promise (lowest allowed passing index, or the message when none passes) pins down one result: the search's value |
| MemoryTypeSelection.ExactMatchWins | src/os_platform/vulkan/image_views.rs:120-137 | an allowed type with exactly the requested flags is chosen over any lower superset type |
| MemoryTypeSelection.SupersetFallback | src/render_backends/vulkan/mod.rs:402-405 | with no allowed exact match, the lowest allowed type holding all requested flags is chosen |
| MemoryTypeSelection.ResultIsAllowedSuperset | src/render_backends/vulkan/mod.rs:389-406 | a successful result is below 32, allowed by the mask, and holds every requested flag |
| MemoryTypeSelection.ErrIffNoSuperset | src/render_backends/vulkan/mod.rs:423-425 | the search fails exactly when no allowed type holds all requested flags |
| DeviceSelection.FirstFamily | src/render_backends/vulkan/physical_device.rs:17-34 | the lowest family from `from` on with the graphics bit and surface support, or None exactly when there is none |
| DeviceSelection.FirstDevice | src/render_backends/vulkan/physical_device.rs:13-37 | the first device from `from` on that has a qualifying family |
| DeviceSelection.NewWithQueue | src/render_backends/vulkan/physical_device.rs:8-41 | the enumeration error is passed on; the call fails with "Couldn't find suitable device." exactly when no device has a qualifying family |
| DeviceSelection.NewWithQueueChoosesFirst | src/os_platform/vulkan/physical_device.rs:14-39 | the pick is the first qualifying device, with its lowest qualifying family |
| DeviceSelection.SupportQueries | src/render_backends/vulkan/physical_device.rs:22-28 | every surface-support question the chain asks is about an existing family with the graphics bit, because `&&` skips the call otherwise |
| DeviceSelection.SupportQueriedOnlyForGraphics | src/render_backends/vulkan/physical_device.rs:21-37 | surface support is asked only for graphics families, and the last question asked is about the picked family |
| DeviceSelection.QueriesEndAtPick | src/render_backends/vulkan/physical_device.rs:34-37 | the lazy chain stops right after the picked pair |
| DeviceSelection.NewPhysicalDevice | src/renderer/physical_device.rs:10-18 | the first enumerated device, "Couldn't find suitable physical device." on an empty list, the enumeration error passed on |
| DeviceSelection.GraphicsQueueIndex | src/renderer/physical_device.rs:20-41 | the lowest family with graphics and surface support; None exactly when there is none |
| SurfacePolicy.ReplaceUndefined | src/render_backends/vulkan/surface.rs:93-101 | `Undefined` becomes `B8g8r8Unorm` with the same colour space; other entries are kept |
| SurfacePolicy.MapFormats | src/renderer/surface.rs:103-110 | the mapped list has the same length and is entry-wise the replacement |
| SurfacePolicy.NewFormat | src/render_backends/vulkan/surface.rs:85-106 | the query error is passed on; an empty list gives "Couldn't get physical device surface formats"; otherwise the result is the first entry, replaced |
| SurfacePolicy.NewFormatFirstOnly | src/os_platform/vulkan/surface.rs:103-124 | entries after the first never change the choice |
| SurfacePolicy.ChooseResolution | src/render_backends/vulkan/surface.rs:119-122 | width `u32::MAX` gives the caller's size; any other width gives `current_extent` |
| SurfacePolicy.ResolutionTestsOnlyWidth | src/renderer/surface.rs:121-127 | the reported height never selects the branch, and outside the sentinel the caller's size has no effect |
| SurfacePolicy.NewResolution | src/render_backends/vulkan/surface.rs:108-125 | fails exactly when the capabilities query fails; otherwise the sentinel rule |
| SurfacePolicy.NewSurface | src/renderer/surface.rs:22-38 | handle, then loader; the window size, or (0, 0) when there is none; the fixed `B8g8r8Unorm`/`SrgbNonlinear` format |
| SurfacePolicy.SetExtent | src/renderer/surface.rs:117-130 | the sentinel width yields the surface's stored size; otherwise `current_extent` |
| SurfacePolicy.CreateSurfaceDetails | src/os_platform/vulkan/surface.rs:27-53 | pick, then format, then capabilities, the first failure's error being the result; the details keep the capabilities and the resolution derived from them |
| SwapchainPolicy.ImageCountPlusOne | src/renderer/swapchain.rs:30-39 | `min + 1` (wrapping as u32), lowered to `max` when a maximum is reported and exceeded |
| SwapchainPolicy.ImageCountMin | src/render_backends/vulkan/swapchain.rs:33-42 | `min` itself whenever the reported maximum is 0 or at least `min` |
| SwapchainPolicy.ImageCountRulesDiffer | src/os_platform/vulkan/swapchain.rs:17-26 | on valid capabilities the `min + 1` rule asks for exactly one more image whenever there is room |
| SwapchainPolicy.PreTransform | src/render_backends/vulkan/swapchain.rs:44-51 | identity when supported, otherwise the current transform |
| SwapchainPolicy.FindMode | src/render_backends/vulkan/swapchain.rs:53-57 | `find` succeeds exactly when the target mode is in the list |
| SwapchainPolicy.ChoosePresentMode | src/render_backends/vulkan/swapchain.rs:53-58 | Mailbox exactly when offered, otherwise Fifo |
| SwapchainPolicy.PresentModeDependsOnlyOnMailbox | src/os_platform/vulkan/swapchain.rs:37-43 | order and other modes never change the choice |
| SwapchainPolicy.CreateInfo | src/render_backends/vulkan/swapchain.rs:61-80 | the chosen values are copied into the create info, with the constant fields (colour-attachment usage, exclusive sharing, opaque alpha, clipped, one layer) |
| SwapchainPolicy.OsPlatformCreateSwapchain | src/os_platform/vulkan.rs:183-261 | formats, capabilities, modes, loader and `create_swapchain_khr` must all succeed, and the first failing step's error is the result; the handle is the one created; `min + 1` rule, format replacement, sentinel resolution, pre-transform, present mode; the present mode is Mailbox when offered and Fifo otherwise |
| SwapchainPolicy.BackendNewSwapchain | src/render_backends/vulkan/swapchain.rs:21-91 | `min` rule; the caller's format and resolution are copied unchanged; the capabilities, modes and `create_swapchain_khr` errors are passed on in that order; the handle is the one created; the present mode is Mailbox when offered and Fifo otherwise |
| SwapchainPolicy.DetailsCreateSwapchain | src/os_platform/vulkan/swapchain.rs:11-80 | `min` rule; surface, format and resolution from the details; a modes, loader or `create_swapchain_khr` error is passed on in that order; the handle is the one created; the present mode is Mailbox when offered and Fifo otherwise |
| SwapchainPolicy.RendererNewSwapchain | src/renderer/swapchain.rs:21-87 | loader, capabilities, modes, create in that order, the first failure's error being the result; `min + 1` rule; `current_image` starts at 0; the present mode is Mailbox when offered and Fifo otherwise |
| GpuDevice.SemaphoresAfterSignals | src/renderer/command.rs:85-95 | a submission consumes the signals it waits on, leaves a pending signal on those it signals, and leaves the rest |
| GpuDevice.SubmitThenWait | src/renderer/command.rs:96-100 | submit on an unused fence, then waiting on it, completes exactly that buffer |
| GpuDevice.Device.CreateBuffer | src/renderer/buffer.rs:42-53 | a new unbound buffer of the requested size and usage with the next handle, or the oracle's error with no buffer added |
| GpuDevice.Device.GetBufferMemoryRequirements | src/renderer/buffer.rs:55 | the requirements reported for that handle |
| GpuDevice.Device.CreateImage | src/os_platform/vulkan/image_views.rs:54-75 | a new unbound 2-D image with the next handle, or the oracle's error |
| GpuDevice.Device.GetImageMemoryRequirements | src/os_platform/vulkan/image_views.rs:78 | the requirements reported for that image |
| GpuDevice.Device.FindMemoryType | src/renderer/buffer.rs:56-59 | the memory-type search over the device's memory types, logged as one step |
| GpuDevice.Device.AllocateMemory | src/renderer/buffer.rs:60-68 | new unmapped memory of the given size and type, or the oracle's error |
| GpuDevice.Device.BindBufferMemory | src/renderer/buffer.rs:69 | the buffer is bound to the memory, or nothing changes on failure |
| GpuDevice.Device.BindImageMemory | src/os_platform/vulkan/image_views.rs:92 | the image is bound to the memory, or nothing changes on failure |
| GpuDevice.Device.CreateImageView | src/os_platform/vulkan/image_views.rs:94-116 | a view of a bound image, with the next handle |
| GpuDevice.Device.MapMemory | src/renderer/buffer.rs:94-99 | the host-visible range becomes mapped |
| GpuDevice.Device.WriteMapped | src/renderer/buffer.rs:100-105 | a host write through the mapping changes no tracked state other than the log |
| GpuDevice.Device.UnmapMemory | src/renderer/buffer.rs:106 | the mapping is gone |
| GpuDevice.Device.DestroyBuffer | src/render_backends/vulkan/vertex_buffer.rs:67 | the buffer is removed; no pending command buffer may use it |
| GpuDevice.Device.FreeMemory | src/render_backends/vulkan/vertex_buffer.rs:68 | the memory is removed |
| GpuDevice.Device.CreateCommandPool | src/renderer/command.rs:12-19 | a new pool with the given flags |
| GpuDevice.Device.AllocateCommandBuffers | src/renderer/command.rs:30-41 | `count` fresh buffers in the initial state with consecutive handles |
| GpuDevice.Device.FreeCommandBuffers | src/renderer/buffer.rs:159 | the freed buffers are removed; none may be pending |
| GpuDevice.Device.ResetCommandBuffer | src/renderer/command.rs:56-59 | back to the initial state; the pool must allow individual reset and the buffer must not be pending |
| GpuDevice.Device.BeginCommandBuffer | src/renderer/command.rs:61-71 | an initial buffer starts recording, marked one-time when so flagged |
| GpuDevice.Device.Record | src/renderer/command.rs:73 | the callback's commands become the buffer's commands |
| GpuDevice.Device.EndCommandBuffer | src/renderer/command.rs:76 | executable on success, invalid on failure; the recording must not be inside a render pass |
| GpuDevice.Device.CreateFence | src/renderer/command.rs:79-84 | a new fence in the requested signal state |
| GpuDevice.Device.QueueSubmit | src/renderer/command.rs:96-98 | the buffers become pending on the fence and the semaphores move on; a failed submit changes nothing; the stage-mask array needs an entry per wait semaphore, and a longer one is accepted |
| GpuDevice.Device.WaitForFences | src/renderer/command.rs:100 | the work guarded by the fences completes and the fences are signalled |
| GpuDevice.Device.DestroyFence | src/renderer/command.rs:101 | the fence is removed; no pending work may use it |
| GpuDevice.Device.CreateSemaphore | src/render_backends/vulkan/semaphores.rs:21 | a new semaphore with no pending signal |
| GpuDevice.Device.QueueWaitIdle | src/render_backends/vulkan/mod.rs:320 | every pending submission completes |
| GpuDevice.Device.AcquireNextImage | src/render_backends/vulkan/mod.rs:324-331 | the semaphore, which must be unsignalled, becomes signalled; the returned index is below the image count and becomes acquired |
| GpuDevice.Device.QueuePresent | src/render_backends/vulkan/mod.rs:360-372 | an acquired image is presented once its semaphores are signalled, and they are consumed |
| GpuDevice.Device.CreateShaderModule | src/os_platform/vulkan/graphics_pipeline.rs:246-272 | a new module with the next handle, or the error |
| GpuDevice.Device.CreatePipelineLayout | src/os_platform/vulkan/graphics_pipeline.rs:194-206 | a new layout with the next handle, or the error |
| GpuDevice.Device.CreateGraphicsPipelines | src/os_platform/vulkan/graphics_pipeline.rs:231-237 | one pipeline per create info with consecutive handles, or the error |
| CommandRecorder.SubmitInfoFor | src/renderer/command.rs:85-95 | exactly one command buffer, and the caller's wait mask, wait and signal semaphores unchanged |
| CommandRecorder.Begin | src/renderer/command.rs:56-71 | reset with release-resources, then begin with the given usage; recording on success, one-time exactly when the usage says so |
| CommandRecorder.RecordAndEnd | src/renderer/command.rs:73-77 | the callback's commands, then end: executable, or invalid if end fails |
| CommandRecorder.RecordOnce | src/renderer/command.rs:55-77 | the recording half of `submit`, in order, stopping at the first failure |
| CommandRecorder.SubmitOn | src/renderer/command.rs:96-100 | submit and wait: the buffer ran to completion and the fence is signalled |
| CommandRecorder.SubmitAndWait | src/renderer/command.rs:79-102 | fence creation, submit, wait and destroy; on success no fence remains |
| CommandRecorder.SubmitWith | src/renderer/command.rs:46-105 | `submit` with any begin usage: the same six calls in order; on success the buffer ran once and is invalid when begun one-time, executable otherwise |
| CommandRecorder.Submit | src/renderer/command.rs:46-105 | success exactly when none of the six fallible calls fails; the log shows every step, or the steps up to the first failure; on success the buffer ran once and the semaphores moved on; a fence created before a failure leaks |
| CommandRecorder.SubmitCommands | src/render_backends/vulkan/command_buffer.rs:54-120 | `NoDevice` first, then the same protocol, with the other device tables unchanged |
| CommandRecorder.NewPool | src/renderer/command.rs:8-22 | a pool created with `RESET_COMMAND_BUFFER_BIT`, or the error with no pool added |
| CommandRecorder.NewBuffers | src/renderer/command.rs:24-44 | exactly `count` fresh primary buffers in the initial state; the existing ones are unchanged |
| CommandRecorder.CreateCommandBuffers | src/render_backends/vulkan/command_buffer.rs:31-52 | one buffer per framebuffer, the count truncated to u32 |
| Transfer.CreateUnbound | src/render_backends/vulkan/vertex_buffer.rs:82-97 | a new buffer, then the memory-type search; on success the type is allowed and has the flags |
| Transfer.BindNewMemory | src/render_backends/vulkan/vertex_buffer.rs:98-109 | memory of the requirement size, bound at offset 0 to the buffer |
| Transfer.CreateBoundBuffer | src/render_backends/vulkan/vertex_buffer.rs:74-112 | a buffer of the requested size bound to new memory of the requirement size and the chosen type; the log shows the steps, or the steps up to the first failure |
| Transfer.Allocator.CreateBuffer | src/renderer/buffer.rs:34-80 | on success the new buffer is appended and its index (the old length) is returned; on failure the table is unchanged |
| Transfer.Upload | src/render_backends/vulkan/vertex_buffer.rs:34-45 | map `[0, size)`, write at most the mapped size, unmap; the memory table ends as it began |
| Transfer.SubmitCopy | src/render_backends/vulkan/vertex_buffer.rs:133-152 | the copy is submitted, waited for, and the command buffer freed |
| Transfer.Copy | src/renderer/buffer.rs:121-163 | one command buffer records one copy region `0 -> 0` of `size`; on success it is freed and nothing else changes; on failure it leaks |
| Transfer.CopyVerticesToDevice | src/renderer/buffer.rs:83-119 | upload into the staging range, then a copy of `staging.size` bytes into the vertex buffer |
| Transfer.ChosenTypeHas | src/render_backends/vulkan/vertex_buffer.rs:97 | a chosen memory type has every requested flag |
| Transfer.StageVertices | src/render_backends/vulkan/vertex_buffer.rs:21-45 | a host-visible, host-coherent transfer source of `size` bytes is created and filled |
| Transfer.FillDeviceLocal | src/render_backends/vulkan/vertex_buffer.rs:47-64 | a device-local transfer destination and vertex buffer of `size` bytes, filled by a copy |
| Transfer.Release | src/render_backends/vulkan/vertex_buffer.rs:66-69 | the staging buffer and its memory are gone and nothing else changes |
| Transfer.NotInUseAbove | src/render_backends/vulkan/vertex_buffer.rs:66-67 | a fresh buffer is used by no pending command buffer |
| Transfer.OnlyOneBinding | src/render_backends/vulkan/vertex_buffer.rs:66-68 | only the staging buffer is bound to the staging memory |
| Transfer.FinishVertexBuffer | src/render_backends/vulkan/vertex_buffer.rs:47-71 | fill, then release the staging pair |
| Transfer.NewVertexBuffer | src/render_backends/vulkan/vertex_buffer.rs:13-72 | on success the returned buffer is a device-local vertex buffer of `size` bytes bound to its memory; the log shows every step in order, or the steps up to the first failure |
| DepthView.CreateDepthImage | src/os_platform/vulkan/image_views.rs:54-83 | a `D16Unorm` depth-attachment image of the extent, then a device-local memory type the mask allows |
| DepthView.BindDepthMemory | src/os_platform/vulkan/image_views.rs:85-92 | memory of the requirement size, bound to the image at offset 0 |
| DepthView.CreateDepthView | src/os_platform/vulkan/image_views.rs:48-118 | the view shows a new depth image whose memory has the requirement size and a device-local type; the log shows the steps in order, or the steps up to the first failure |
| Frames.NewFrame | src/render_backends/vulkan/mod.rs:127-132 | a slot made of the given view, framebuffer and command buffer, plus two new unsignalled semaphores |
| Frames.NewFrames | src/render_backends/vulkan/mod.rs:124-135 | slot `i` is made from the `i`-th view, framebuffer and command buffer; the first failure ends the loop |
| Frames.NewFrameTable | src/renderer/mod.rs:114-129 | one command buffer requested per present image view; slot `i` gets the `i`-th, fresh and in the initial state |
| Frames.TableRecordingLeavesPassOpen | src/render_backends/vulkan/mod.rs:213-226 | the recording `new` gives each slot leaves the render pass open, so no device state makes its `submit` valid |
| Frames.EndFrameResubmitRejected | src/render_backends/vulkan/mod.rs:356-358 | once every slot's buffer has run its one-time recording, no submission of a slot's buffer is valid |
| Frames.RecordSlot | src/render_backends/vulkan/mod.rs:213-226 | one slot recorded without one-time usage: executable again, holding exactly its commands, with the semaphores unchanged |
| Frames.RecordFrameTable | src/render_backends/vulkan/mod.rs:137-227 | the set-up barrier, then every slot recorded with its render pass closed; on success every slot's buffer is reusable and holds its slot's commands, and no semaphore changed |
| Frames.AcquireSignalsSlot | src/render_backends/vulkan/mod.rs:322-331 | acquiring with slot `slot`'s semaphore leaves exactly that one signalled |
| Frames.EndFrameConsumes | src/render_backends/vulkan/mod.rs:344-372 | submit, then present, leave every semaphore of the table unsignalled |
| Frames.IdleBuffersExecutable | src/render_backends/vulkan/mod.rs:320 | after the idle wait every buffer of a reusable table is executable again |
| Frames.SubmittedReusable | src/render_backends/vulkan/mod.rs:357-358 | submitting one slot's buffer keeps a reusable table reusable |
| Frames.Renderer.constructor | src/render_backends/vulkan/mod.rs:247-264 | `frame_index` starts at 0, with every table semaphore unsignalled, whatever state the table's buffers are in |
| Frames.Renderer.BeginFrame | src/render_backends/vulkan/mod.rs:319-336 | wait idle, then acquire with slot `frame_index`'s semaphore; `frame_index` becomes the acquired index; on failure `frame_index` is unchanged; the error is the failing call's code; the buffer table, the semaphores and the acquired images afterwards in each case; a reusable table is executable after it |
| Frames.Renderer.EndFrame | src/render_backends/vulkan/mod.rs:339-376 | submit slot `frame_index`'s buffer (signalling its render-finished semaphore), then present image `frame_index` on it; the slot's buffer must be executable; afterwards every table semaphore is unsignalled again and a reusable table stays reusable; the error is the failing call's code; the buffer table, the semaphores and the acquired images afterwards after a failed submit, a failed present and success |
| Frames.EndFrameMaskRejected | src/render_backends/vulkan/mod.rs:347-349 | one wait semaphore with an empty stage-mask array is never a valid submission |
| Frames.EndFrameWaitRejected | src/render_backends/vulkan/mod.rs:342-348 | when the acquired index differs from the slot whose semaphore was handed to acquire, the submission waits on an unsignalled semaphore |
| GraphicsPipeline.PipelineConfig | src/os_platform/vulkan/graphics_pipeline.rs:25-102 | a vertex stage then a fragment stage, both "main"; one scissor covering the surface; the render pass with subpass 0 |
| GraphicsPipeline.Renderer.CreateGraphicsPipeline | src/os_platform/vulkan/graphics_pipeline.rs:16-243 | `NoDevice`, `NoRenderPass`, `NoSurfaceResolution` checked in that order with no device call; then the two shader modules, the pipeline layout and the pipeline, the first failing call's error being the result; `graphics_pipeline` is set only on success, and a pipeline error becomes "Unable to create graphics pipeline" |
| Semaphores.VulkanRenderer.CreateSemaphores | src/render_backends/vulkan/semaphores.rs:11-30 | `NoDevice` exactly when there is no device; two new unsignalled semaphores are stored only when both creations succeed |
| GameLoop.FrameTime | src/main.rs:69-70 | the elapsed time capped at 250 ms, and equal to one of the two |
| GameLoop.SteppedKeepsStep | src/main.rs:74-78 | updates that keep the step keep it over any number of updates |
| GameLoop.TakeStep | src/main.rs:77 | subtracting one step lowers the quotient by one and keeps the remainder |
| GameLoop.UpdatesPerTick | src/main.rs:69-78 | with less than one step left over, a tick makes at most 250 ms / step + 1 updates |
| GameLoop.ZeroStepNeverDrains | src/main.rs:41-78 | with the zero step of `State::default()`, no number of inner-loop passes changes the accumulator or falsifies the guard |
| GameLoop.DrainedSteps | src/main.rs:74-78 | while whole steps remain, each pass of the inner loop takes off one step |
| GameLoop.PositiveStepDrains | src/main.rs:74-78 | with a positive step, after as many passes as whole steps fit, the remainder is left and the guard fails |
| GameLoop.MainLoop.constructor | src/main.rs:39-48 | the library is loaded once; both states are the (positive-step) initial state; the clock is started and the accumulator is zero |
| GameLoop.MainLoop.CheckReload | src/main.rs:50-56 | reloads exactly when the modification time is readable and newer; `last_modified` never decreases |
| GameLoop.MainLoop.PollEvents | src/main.rs:58-67 | running afterwards exactly when running before and no event is Escape input or Closed |
| GameLoop.MainLoop.AdvanceClock | src/main.rs:69-72 | the accumulator gains the capped frame time and the clock moves to now |
| GameLoop.MainLoop.CatchUp | src/main.rs:74-78 | updates as many times as whole steps fit, leaves the remainder (the accumulator drained by that many passes), and the states are those steps applied in order |
| GameLoop.MainLoop.Tick | src/main.rs:49-81 | one iteration: reloads exactly when the modification time is readable and newer; running exactly when no event requests an exit; the update count is the whole steps in the accumulator plus the capped frame time, the remainder is kept and the count is bounded; the states are those steps, then interpolated |
| GameLoop.MainLoop.Run | src/main.rs:49-97 | still running exactly when no tick's events request an exit; when stopped, the last tick taken requests an exit and no earlier one does; otherwise every input is taken |
| GameState.World.constructor | src/game/state.rs:7-14 | the world holds the given state |
| Entities.IdCounter.Next | src/game/entity.rs:13-17 | returns the old counter and increments it; every id is greater than all ids issued before |
| Entities.Entity.constructor | src/game/entity.rs:12-20 | the entity's id is the next counter value, and the entity borrows the given state |
| Entities.Entity.WithPhysics | src/game/entity.rs:22-25 | the physics component at the id is replaced; nothing else changes |
| Entities.Entity.WithGraphics | src/game/entity.rs:27-30 | the graphics component at the id is replaced; nothing else changes |
| Entities.Entity.Build | src/game/entity.rs:32-34 | returns the id |
| Meshes.Mesh.constructor | src/game/asset/mesh.rs:19-27 | empty vertices and indices, the path, Unloaded, `descriptors_changed` false |
| Meshes.Mesh.Load | src/game/asset/mesh.rs:29-44 | always succeeds: Loaded, and exactly the eight cube vertices; indices and descriptor flag untouched |
| Meshes.Mesh.Unload | src/game/asset/mesh.rs:46 | changes nothing |

## Left out

- Device outcomes are stated through the oracle `fault` and the ghost log. The driver's real failure behaviour is not modelled; any fallible call may fail with the code the oracle gives.
- Transfer.NewVertexBuffer: states the returned buffer's entry and the call log, not the whole buffer and memory tables afterwards.
- Transfer.Copy: on failure, states only the log and the leaked command buffer, not the full device state.
- The `Vertex` layout and `mem::size_of::<Vertex>()` are not part of this model. The byte size of the vertex data is a parameter, and `vertices.len() * size_of` overflowing `usize` is not modelled.
- The recording callback `f` of `submit` is modelled as the list of commands it records. The image-layout barrier and draw commands recorded elsewhere are not modelled.
- Leaks on failure are visible only in the log and the handle tables: the staging buffer when a later step fails, a command buffer after a failed submit, a fence after a failed submit or wait, and shader modules, which are never destroyed.
- Flags are sets of bit positions. Bit operations on flag words are not modelled beyond `subset` and `&`.
- `swapchain::Frame::new` is not part of this model. It is taken to create the slot's two semaphores in order.
- Frames.Renderer.constructor: takes the recorded table as an input. The instance, device, swapchain, render pass, framebuffer and depth-image set-up that precede the recording loop of `new` are not modelled.
- Frames.RecordFrameTable: its contract states the buffers' final state and commands, not the order of the calls in the log.
- Render-pass rules are modelled only as far as `vkEndCommandBuffer` needs them: recording `BeginRenderPass` twice, or `EndRenderPass` outside a pass, is not checked.
- `update_resolution` is a no-op returning `Ok(())` and is not modelled. The `println!` of `frame_index` in `end_frame` is output and is left out.
- The f32 fields of vertices, components and the viewport are reals or are left out. The interpolation weight `alpha` (an f64 division) is not computed; `interpolate` receives the states only.
- GameLoop.MainLoop.CatchUp: requires the library's `update` to keep `delta_time` (`KeepsStep`). The source's inner loop (src/main.rs:74-78) subtracts whatever step the last `update` wrote, so a reloaded library that changed the step would break the count and the states stated. The repository's own `update` keeps it, because `process_physics` writes only `physics_components` (src/game.rs:11-14, src/game/system/mod.rs:8-13). Its `interpolate` is empty (src/game.rs:16-19).
- GameLoop.MainLoop.Tick: rests on the same `KeepsStep` assumption for `update` and `interpolate` as CatchUp.
- GameLoop.MainLoop.Run: rests on the same `KeepsStep` assumption for `update` and `interpolate` as CatchUp.
- The game library's `update` and `interpolate` are function parameters. Loading and dropping the dynamic library, `std::fs::metadata` and the event pump are inputs of a tick.
- GameLoop.MainLoop.constructor: requires a positive `delta_time`, although `State::default()` gives zero. With zero the inner loop of the source never ends; see the findings.
- GameLoop.MainLoop.AdvanceClock: requires `now` not to go backwards, which `Instant` is documented to guarantee.
- `Duration` values are natural numbers of nanoseconds. Overflow of `Duration` is not modelled.
- The exit test matches any keyboard input for Escape, pressed or released, as the pattern does; the key state is not modelled.
- The `sound_components`, `ai_components` and `entities` fields of `State` are left out, because nothing in the core touches them.
- Entities.IdCounter.Next: does not model wrap-around of the `usize` counter. Ids are unbounded naturals, and the `unsafe` static is a single counter object, so no concurrent access is modelled.
- `CString::new("main")` cannot fail for that literal. It is modelled as the constant entry name.
- Shader file reading and GLSL-to-SPIR-V compilation are folded into the one fallible `CreateShaderModule` step. Their distinct error messages are not modelled.
- The fixed pipeline state records (vertex input, rasteriser, multisample, depth-stencil, colour blend) and the empty layout create info are constant records. They are not modelled beyond the stages, the scissor, the layout handle, the render pass and the subpass.
- SwapchainPolicy.ImageCountPlusOne: models the wrapping of a release build. A debug build panics on the overflow when `min_image_count == u32::MAX`.
- SwapchainPolicy.ImageCountMin: also computes `min_image_count + 1` in its test and models the wrapping of a release build. A debug build panics there when `min_image_count == u32::MAX`.
- GpuDevice.Device.ReportsAtLeast: the memory-requirements reports of the oracle are assumed to be at least the size of the buffer or image they describe. The members that allocate from a report (Transfer.CreateBoundBuffer, Transfer.Allocator.CreateBuffer, Transfer.StageVertices, Transfer.FillDeviceLocal, Transfer.FinishVertexBuffer, Transfer.NewVertexBuffer, DepthView.CreateDepthView) require it. A driver that reports less is not modelled.
- Transfer.CreateUnbound, Transfer.CreateBoundBuffer, Transfer.Allocator.CreateBuffer, Transfer.StageVertices, Transfer.FillDeviceLocal, Transfer.FinishVertexBuffer, Transfer.NewVertexBuffer: require `size > 0`, the rule of `vkCreateBuffer`. Empty vertex data, which would break that rule, is not modelled.
- Frames.NewFrames, Entities.Entity.WithPhysics, Entities.Entity.WithGraphics: their index bounds (`|present_image_views|` no longer than the framebuffers and command buffers; `id` below the component count) stand for the source's index panics. The panic itself is not modelled.
- `create_semaphores` is modelled on its own text, which treats `device` as an `Option` and stores two `Option` semaphore fields. The `VulkanRenderer` struct in src/render_backends/vulkan/mod.rs has neither, so that file does not compile against it. The model follows the method, not the struct.
- `create_swapchain` in src/os_platform/vulkan.rs queries the formats with the logical device in place of the physical device. The model treats the query as made on the physical device.
- Instance creation, the debug callback, logical-device creation, render passes, framebuffers, image views of the swapchain and window creation are outside the modelled core.

## Findings

| source | as written | input that shows it | evidently intended | confidence | as-written member | corrected member |
|---|---|---|---|---|---|---|
| src/render_backends/vulkan/mod.rs:347-349 | `end_frame` submits with one wait semaphore and an empty `p_wait_dst_stage_mask` array | any call of `end_frame`: `wait_semaphore_count` is 1 but the stage-mask array has no element | one wait stage (colour-attachment output) per wait semaphore | not executed | Frames.EndFrameMaskRejected | Frames.Renderer.EndFrame |
| src/render_backends/vulkan/mod.rs:322-348 | `begin_frame` acquires with slot `frame_index`'s semaphore and then overwrites `frame_index` with the acquired index; `end_frame` waits on the acquire semaphore of the new slot | a three-image swapchain with `frame_index` 0 where the acquire returns image 1: slot 0's semaphore is signalled, and slot 1's is waited on | wait on the semaphore that was handed to the acquire | not executed | Frames.EndFrameWaitRejected | Frames.Renderer.EndFrame |
| src/render_backends/vulkan/mod.rs:213-226 | each slot's buffer is recorded by `submit`, which begins it with `ONE_TIME_SUBMIT`, runs it once and waits for it; `end_frame` then submits the same buffer again (the same loop is in src/renderer/mod.rs:173-234) | any `end_frame` after `new`: the slot's buffer is invalid, so `vkQueueSubmit` may not be given it | record the slots without `ONE_TIME_SUBMIT` (or re-record them every frame), so that the buffer is executable when `end_frame` submits it | not executed | Frames.EndFrameResubmitRejected | Frames.RecordFrameTable |
| src/render_backends/vulkan/mod.rs:221-225 | the recording callback begins a render pass and never ends it, and `submit` then ends the command buffer (also src/renderer/mod.rs:225-231) | any slot of `new`: the buffer is ended inside the render pass | end the render pass before the command buffer is ended | not executed | Frames.TableRecordingLeavesPassOpen | Frames.RecordFrameTable |
| src/main.rs:41-78 | both states start as `State::default()`, whose `delta_time` is a zero `Duration`; the inner loop runs while `time_accumulator >= state.delta_time` and subtracts that step | the first tick with any accumulator: the guard holds and the step is zero, so the inner loop never ends | start from a state with a positive step | not executed | GameLoop.ZeroStepNeverDrains | GameLoop.PositiveStepDrains |
