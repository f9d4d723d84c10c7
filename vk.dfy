/** The slice of the Vulkan API (as exposed by `ash` 0.x) that the model needs:
    fixed-width integers, flag bits and the records the drivers report. */
module Vk {

  /** Rust's `u32` and `u64`. */
  const U32_MAX: int := 0xFFFF_FFFF
  const U64_MAX: int := 0xFFFF_FFFF_FFFF_FFFF
  type u32 = x: int | 0 <= x <= U32_MAX
  type u64 = x: int | 0 <= x <= U64_MAX

  /** `a + b` on `u32` as a release build computes it (wrapping). */
  function WrappingAddU32(a: u32, b: u32): (r: u32)
    ensures a + b <= U32_MAX ==> r == a + b
    ensures a + b > U32_MAX ==> r == a + b - (U32_MAX + 1)
  {
    (a + b) % (U32_MAX + 1)
  }

  /** `VK_MAX_MEMORY_TYPES`: the length of `VkPhysicalDeviceMemoryProperties::memoryTypes`. */
  const MAX_MEMORY_TYPES: nat := 32

  /** A `VkFlags` mask, modelled as the set of the positions of its one bits: `a | b` is
      `a + b` and `a & b == b` is `b <= a`. A single flag bit is its position. */
  type Flags = set<nat>
  type Bit = nat

  // VkMemoryPropertyFlagBits
  const MEMORY_PROPERTY_DEVICE_LOCAL_BIT: Bit := 0          // 0x1
  const MEMORY_PROPERTY_HOST_VISIBLE_BIT: Bit := 1          // 0x2
  const MEMORY_PROPERTY_HOST_COHERENT_BIT: Bit := 2         // 0x4

  // VkBufferUsageFlagBits
  const BUFFER_USAGE_TRANSFER_SRC_BIT: Bit := 0             // 0x1
  const BUFFER_USAGE_TRANSFER_DST_BIT: Bit := 1             // 0x2
  const BUFFER_USAGE_VERTEX_BUFFER_BIT: Bit := 7            // 0x80

  // VkImageUsageFlagBits
  const IMAGE_USAGE_COLOR_ATTACHMENT_BIT: Bit := 4          // 0x10
  const IMAGE_USAGE_DEPTH_STENCIL_ATTACHMENT_BIT: Bit := 5  // 0x20

  // VkQueueFlagBits
  const QUEUE_GRAPHICS_BIT: Bit := 0                        // 0x1

  // VkSurfaceTransformFlagBitsKHR and VkCompositeAlphaFlagBitsKHR
  const SURFACE_TRANSFORM_IDENTITY_BIT_KHR: Bit := 0        // 0x1
  const COMPOSITE_ALPHA_OPAQUE_BIT_KHR: Bit := 0            // 0x1

  // VkCommandPoolCreateFlagBits, VkCommandBufferUsageFlagBits, VkCommandBufferResetFlagBits
  const COMMAND_POOL_CREATE_RESET_COMMAND_BUFFER_BIT: Bit := 1  // 0x2
  const COMMAND_BUFFER_USAGE_ONE_TIME_SUBMIT_BIT: Bit := 0      // 0x1
  const COMMAND_BUFFER_RESET_RELEASE_RESOURCES_BIT: Bit := 0    // 0x1

  // VkShaderStageFlagBits
  const SHADER_STAGE_VERTEX_BIT: Bit := 0                   // 0x1
  const SHADER_STAGE_FRAGMENT_BIT: Bit := 4                 // 0x10
  // VkPipelineStageFlagBits
  const PIPELINE_STAGE_COLOR_ATTACHMENT_OUTPUT_BIT: Bit := 10  // 0x400
  const PIPELINE_STAGE_BOTTOM_OF_PIPE_BIT: Bit := 13           // 0x2000

  /** `flags.contains(bit)` from `ash`: the bit is set in the mask. */
  predicate Contains(flags: Flags, bit: Bit) {
    bit in flags
  }

  // VkFormat and VkColorSpaceKHR codes
  type Format = nat
  type ColorSpace = nat
  const FORMAT_UNDEFINED: Format := 0
  const FORMAT_B8G8R8_UNORM: Format := 30
  const FORMAT_D16_UNORM: Format := 124
  const COLOR_SPACE_SRGB_NONLINEAR_KHR: ColorSpace := 0

  datatype PresentMode = Immediate | Mailbox | Fifo | FifoRelaxed

  datatype Extent2D = Extent2D(width: u32, height: u32)
  datatype Offset2D = Offset2D(x: int, y: int)
  datatype Rect2D = Rect2D(offset: Offset2D, extent: Extent2D)

  datatype SurfaceFormat = SurfaceFormat(format: Format, colorSpace: ColorSpace)

  /** `VkSurfaceCapabilitiesKHR`, the fields the policies read. */
  datatype SurfaceCapabilities = SurfaceCapabilities(
    minImageCount: u32,
    maxImageCount: u32,
    currentExtent: Extent2D,
    supportedTransforms: Flags,
    currentTransform: Flags)

  datatype MemoryType = MemoryType(propertyFlags: Flags, heapIndex: nat)

  /** `VkMemoryRequirements`; the mask is the `u32` the code shifts right one place at a time. */
  datatype MemoryRequirements = MemoryRequirements(size: nat, alignment: nat, memoryTypeBits: u32)

  /** `VkPhysicalDeviceMemoryProperties::memoryTypes`, always `VK_MAX_MEMORY_TYPES` long;
      `memoryTypeCount` is not modelled because the code never reads it. */
  type MemoryTypes = s: seq<MemoryType> | |s| == MAX_MEMORY_TYPES
    witness seq(MAX_MEMORY_TYPES, _ => MemoryType({}, 0))

  datatype QueueFamilyProperties = QueueFamilyProperties(queueFlags: Flags, queueCount: nat)
}
