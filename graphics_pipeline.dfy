/** The prerequisite checks and result assignment of `create_graphics_pipeline` in
    src/os_platform/vulkan/graphics_pipeline.rs, with the parts of the pipeline
    description that depend on the renderer's state. */
module GraphicsPipeline {
  import opened Wrappers
  import opened Vk
  import opened DeviceLog
  import opened GpuDevice

  const VERTEX_SHADER_PATH: string := "data/shaders/cube.vert"
  const FRAGMENT_SHADER_PATH: string := "data/shaders/cube.frag"
  const ENTRY_NAME: string := "main"
  const PIPELINE_ERROR: string := "Unable to create graphics pipeline"

  /** Each stage appears at most once and one of them is the vertex stage, as Vulkan
      requires of a graphics pipeline's stages. */
  predicate StagesValid(stages: seq<ShaderStage>) {
    (forall i, j :: 0 <= i < j < |stages| ==> stages[i].stage != stages[j].stage)
    && exists i :: 0 <= i < |stages| && stages[i].stage == SHADER_STAGE_VERTEX_BIT
  }

  /** Every scissor starts at the origin and spans the whole surface. */
  predicate CoversSurface(scissors: seq<Rect2D>, resolution: Extent2D) {
    forall i :: 0 <= i < |scissors| ==> scissors[i] == Rect2D(Offset2D(0, 0), resolution)
  }

  /** The pipeline description built from the two shader modules, the layout, the render
      pass and the surface resolution: the vertex stage and then the fragment stage, both
      entered at `main`, and one scissor covering the surface; it is used in subpass 0. */
  function PipelineConfig(vertex: nat, fragment: nat, layout: nat, renderPass: nat, resolution: Extent2D): (info: PipelineInfo)
    ensures |info.stages| == 2 && StagesValid(info.stages)
    ensures info.stages[0] == ShaderStage(SHADER_STAGE_VERTEX_BIT, vertex, ENTRY_NAME)
    ensures info.stages[1] == ShaderStage(SHADER_STAGE_FRAGMENT_BIT, fragment, ENTRY_NAME)
    ensures |info.scissors| == 1 && CoversSurface(info.scissors, resolution)
    ensures info.layout == layout && info.renderPass == renderPass && info.subpass == 0
  {
    var stages := [ShaderStage(SHADER_STAGE_VERTEX_BIT, vertex, ENTRY_NAME),
                   ShaderStage(SHADER_STAGE_FRAGMENT_BIT, fragment, ENTRY_NAME)];
    assert stages[0].stage == SHADER_STAGE_VERTEX_BIT;
    PipelineInfo(stages, [Rect2D(Offset2D(0, 0), resolution)], layout, renderPass, 0)
  }

  /** The device calls of a pipeline build whose first shader module receives `first`:
      the two modules, the layout, and the pipeline that uses all three. */
  function PipelineOps(first: nat, renderPass: nat, resolution: Extent2D): seq<Op> {
    [CreateShaderModuleOp(VERTEX_SHADER_PATH), CreateShaderModuleOp(FRAGMENT_SHADER_PATH),
     CreatePipelineLayoutOp,
     CreateGraphicsPipelinesOp([PipelineConfig(first, first + 1, first + 2, renderPass, resolution)])]
  }

  /** The builder state `create_graphics_pipeline` reads and writes. */
  class Renderer {
    const device: Option<Device>
    var renderPass: Option<nat>
    var surfaceResolution: Option<Extent2D>
    var graphicsPipeline: Option<nat>

    constructor (device: Option<Device>, renderPass: Option<nat>, surfaceResolution: Option<Extent2D>)
      ensures this.device == device && this.renderPass == renderPass && this.surfaceResolution == surfaceResolution
      ensures graphicsPipeline.None?
    {
      this.device := device;
      this.renderPass := renderPass;
      this.surfaceResolution := surfaceResolution;
      graphicsPipeline := None;
    }

    /** `create_graphics_pipeline`: the first missing prerequisite, in the order device,
        render pass, surface resolution, is reported before any device call. Otherwise
        the two shader modules, the pipeline layout and the pipeline are created in
        order; the first failure ends the build, and a failed module or layout creation
        returns its own error while a failed pipeline creation returns the fixed message.
        Only when all four succeed is `graphics_pipeline` set, to the created pipeline; on
        any error it keeps its old value. */
    method CreateGraphicsPipeline() returns (r: Result<Renderer>)
      modifies this`graphicsPipeline, if device.Some? then {device.value} else {}
      ensures r.Ok? ==> r.value == this
      ensures r.Err? ==> graphicsPipeline == old(graphicsPipeline)
      ensures device.None? ==> r == Err(Renderer(NoDevice))
      ensures device.Some? && renderPass.None? ==> r == Err(Renderer(NoRenderPass))
      ensures device.Some? && renderPass.Some? && surfaceResolution.None? ==> r == Err(Renderer(NoSurfaceResolution))
      ensures device.Some? && (renderPass.None? || surfaceResolution.None?) ==>
        device.value.log == old(device.value.log) && device.value.calls == old(device.value.calls)
      ensures device.Some? && renderPass.Some? && surfaceResolution.Some? ==>
        var d, ops := device.value, PipelineOps(old(device.value.nextHandle), renderPass.value, surfaceResolution.value);
        (r.Ok? == RanAll(d.log, old(d.log), ops)) && (r.Err? == RanUntilFailure(d.log, old(d.log), ops))
        && (r.Ok? ==> graphicsPipeline == Some(old(d.nextHandle) + 3) && d.nextHandle == old(d.nextHandle) + 4)
        && d.calls - old(d.calls) == |d.log| - |old(d.log)|
        && (r.Err? ==> (r.error == Message(PIPELINE_ERROR) <==> |d.log| == |old(d.log)| + 4))
        && (r.Err? && |d.log| < |old(d.log)| + 4 ==> d.calls - 1 in d.fault && r.error == VkError(d.fault[d.calls - 1]))
    {
      if device.None? {
        return Err(Renderer(NoDevice));
      }
      if renderPass.None? {
        return Err(Renderer(NoRenderPass));
      }
      if surfaceResolution.None? {
        return Err(Renderer(NoSurfaceResolution));
      }
      var d, pass, resolution := device.value, renderPass.value, surfaceResolution.value;
      ghost var log0 := d.log;
      ghost var ops := PipelineOps(d.nextHandle, pass, resolution);
      Start(log0, ops);
      var vertex := d.CreateShaderModule(VERTEX_SHADER_PATH);
      Step(d.log, log0, log0, ops, 0, vertex.Ok?);
      if vertex.Err? {
        CompletedOrFailed(d.log, log0, ops);
        return Err(vertex.error);
      }
      ghost var log1 := d.log;
      var fragment := d.CreateShaderModule(FRAGMENT_SHADER_PATH);
      Step(d.log, log1, log0, ops, 1, fragment.Ok?);
      if fragment.Err? {
        CompletedOrFailed(d.log, log0, ops);
        return Err(fragment.error);
      }
      ghost var log2 := d.log;
      var layout := d.CreatePipelineLayout();
      Step(d.log, log2, log0, ops, 2, layout.Ok?);
      if layout.Err? {
        CompletedOrFailed(d.log, log0, ops);
        return Err(layout.error);
      }
      ghost var log3 := d.log;
      var pipelines := d.CreateGraphicsPipelines([PipelineConfig(vertex.value, fragment.value, layout.value, pass, resolution)]);
      Step(d.log, log3, log0, ops, 3, pipelines.Ok?);
      CompletedOrFailed(d.log, log0, ops);
      if pipelines.Err? {
        return Err(Message(PIPELINE_ERROR));
      }
      graphicsPipeline := Some(pipelines.value[0]);
      return Ok(this);
    }
  }
}
