/** Adapter and queue-family selection: the first enumerated physical device that has a
    queue family with the graphics bit and surface support, and the lowest such family.
    The same iterator chain is `new_with_queue` (src/render_backends/vulkan/physical_device.rs)
    and `pick_physical_device` (src/os_platform/vulkan/physical_device.rs); the renderer tree
    splits it into `new` and `graphics_queue_index` (src/renderer/physical_device.rs). */
module DeviceSelection {
  import opened Wrappers
  import opened Vk

  const NO_SUITABLE_DEVICE_MESSAGE: string := "Couldn't find suitable device."
  const NO_PHYSICAL_DEVICE_MESSAGE: string := "Couldn't find suitable physical device."

  /** An enumerated device: its handle and what `get_physical_device_queue_family_properties`
      reports for it. */
  datatype PhysicalDevice = PhysicalDevice(handle: nat, queueFamilies: seq<QueueFamilyProperties>)

  /** `get_physical_device_surface_support_khr(device, family, surface)` for the one surface
      being presented to, as an oracle. */
  type SurfaceSupport = (nat, nat) -> bool

  predicate HasGraphics(d: PhysicalDevice, i: nat)
    requires i < |d.queueFamilies|
  {
    Contains(d.queueFamilies[i].queueFlags, QUEUE_GRAPHICS_BIT)
  }

  /** The closure passed to `filter_map`: the family has the graphics bit and the surface
      can be presented from it. */
  predicate Qualifies(d: PhysicalDevice, support: SurfaceSupport, i: nat)
    requires i < |d.queueFamilies|
  {
    HasGraphics(d, i) && support(d.handle, i)
  }

  predicate HasQualifyingFamily(d: PhysicalDevice, support: SurfaceSupport) {
    exists i :: 0 <= i < |d.queueFamilies| && Qualifies(d, support, i)
  }

  /** The inner `filter_map(..).nth(0)`: the lowest qualifying family at or after `from`. */
  function FirstFamily(d: PhysicalDevice, support: SurfaceSupport, from: nat): (r: Option<nat>)
    requires from <= |d.queueFamilies|
    decreases |d.queueFamilies| - from
    ensures r.Some? ==> from <= r.value < |d.queueFamilies| && Qualifies(d, support, r.value)
    ensures r.Some? ==> forall j :: from <= j < r.value ==> !Qualifies(d, support, j)
    ensures r.None? <==> forall j :: from <= j < |d.queueFamilies| ==> !Qualifies(d, support, j)
  {
    if from == |d.queueFamilies| then None
    else if Qualifies(d, support, from) then Some(from)
    else FirstFamily(d, support, from + 1)
  }

  /** The outer `filter_map(|v| v).nth(0)`: the position of the first device at or after
      `from` whose inner search succeeds. */
  function FirstDevice(devices: seq<PhysicalDevice>, support: SurfaceSupport, from: nat): (r: Option<nat>)
    requires from <= |devices|
    decreases |devices| - from
    ensures r.Some? ==> from <= r.value < |devices| && HasQualifyingFamily(devices[r.value], support)
    ensures r.Some? ==> forall k :: from <= k < r.value ==> !HasQualifyingFamily(devices[k], support)
    ensures r.None? <==> forall k :: from <= k < |devices| ==> !HasQualifyingFamily(devices[k], support)
  {
    if from == |devices| then None
    else if FirstFamily(devices[from], support, 0).Some? then Some(from)
    else FirstDevice(devices, support, from + 1)
  }

  /** `new_with_queue` / `pick_physical_device`: the enumeration's error is passed on; then
      the first device with a qualifying family and that device's lowest qualifying family,
      or the message when no device has one. */
  function NewWithQueue(enumeration: Result<seq<PhysicalDevice>>, support: SurfaceSupport): (r: Result<(nat, nat)>)
    ensures enumeration.Err? ==> r == Err(enumeration.error)
    ensures enumeration.Ok? ==> (r.Err? <==> forall k :: 0 <= k < |enumeration.value| ==> !HasQualifyingFamily(enumeration.value[k], support))
    ensures enumeration.Ok? && r.Err? ==> r.error == Message(NO_SUITABLE_DEVICE_MESSAGE)
  {
    var devices :- enumeration;
    match FirstDevice(devices, support, 0)
    case None => Err(Message(NO_SUITABLE_DEVICE_MESSAGE))
    case Some(k) => Ok((devices[k].handle, FirstFamily(devices[k], support, 0).value))
  }

  /** A successful pick is the device at position `k` that comes first among the devices
      with a qualifying family, paired with its lowest qualifying family. */
  lemma NewWithQueueChoosesFirst(devices: seq<PhysicalDevice>, support: SurfaceSupport, k: nat)
    requires k < |devices| && HasQualifyingFamily(devices[k], support)
    requires forall j :: 0 <= j < k ==> !HasQualifyingFamily(devices[j], support)
    ensures var r := NewWithQueue(Ok(devices), support);
      r.Ok? && r.value.0 == devices[k].handle
      && r.value.1 < |devices[k].queueFamilies| && Qualifies(devices[k], support, r.value.1)
      && forall i :: 0 <= i < r.value.1 ==> !Qualifies(devices[k], support, i)
  {
    var first := FirstDevice(devices, support, 0);
    assert first.Some?;
    var family := FirstFamily(devices[k], support, 0);
    assert family.Some?;
  }

  /** The surface-support calls the lazy chain makes, as (device position, family index)
      pairs in call order, starting at family `from` of device `k`: `&&` skips the call for a
      family without the graphics bit, and the chain stops at the first qualifying family. */
  function SupportQueries(devices: seq<PhysicalDevice>, support: SurfaceSupport, k: nat, from: nat): (r: seq<(nat, nat)>)
    requires k <= |devices|
    requires k < |devices| ==> from <= |devices[k].queueFamilies|
    decreases |devices| - k, if k < |devices| then |devices[k].queueFamilies| - from else 0
    ensures forall q :: q in r ==> k <= q.0 < |devices| && q.1 < |devices[q.0].queueFamilies| && HasGraphics(devices[q.0], q.1)
  {
    if k == |devices| then []
    else if from == |devices[k].queueFamilies| then SupportQueries(devices, support, k + 1, 0)
    else if !HasGraphics(devices[k], from) then SupportQueries(devices, support, k, from + 1)
    else if support(devices[k].handle, from) then [(k, from)]
    else [(k, from)] + SupportQueries(devices, support, k, from + 1)
  }

  /** Surface support is asked only about graphics families, and the last question asked is
      about the family that is picked. */
  lemma {:induction false} SupportQueriedOnlyForGraphics(devices: seq<PhysicalDevice>, support: SurfaceSupport)
    ensures forall q :: q in SupportQueries(devices, support, 0, 0) ==> HasGraphics(devices[q.0], q.1)
    ensures NewWithQueue(Ok(devices), support).Ok? ==>
      var k := FirstDevice(devices, support, 0).value;
      var qs := SupportQueries(devices, support, 0, 0);
      qs != [] && qs[|qs| - 1] == (k, FirstFamily(devices[k], support, 0).value)
  {
    if NewWithQueue(Ok(devices), support).Ok? {
      var k := FirstDevice(devices, support, 0).value;
      QueriesEndAtPick(devices, support, 0, 0, k);
    }
  }

  /** From any point before the pick, the calls end with the picked pair. */
  lemma {:induction false} QueriesEndAtPick(devices: seq<PhysicalDevice>, support: SurfaceSupport, k: nat, from: nat, pick: nat)
    requires k <= pick < |devices|
    requires FirstFamily(devices[pick], support, 0).Some?
    requires k < pick ==> from <= |devices[k].queueFamilies|
    requires k == pick ==> from <= FirstFamily(devices[pick], support, 0).value
    requires forall j :: k <= j < pick ==> !HasQualifyingFamily(devices[j], support)
    requires forall i :: 0 <= i < from ==> (k == pick ==> !Qualifies(devices[pick], support, i))
    decreases pick - k, |devices[k].queueFamilies| - from
    ensures var qs := SupportQueries(devices, support, k, from);
      qs != [] && qs[|qs| - 1] == (pick, FirstFamily(devices[pick], support, 0).value)
  {
    var target := FirstFamily(devices[pick], support, 0).value;
    if k < pick {
      if from == |devices[k].queueFamilies| {
        QueriesEndAtPick(devices, support, k + 1, 0, pick);
      } else {
        assert !Qualifies(devices[k], support, from) by {
          if Qualifies(devices[k], support, from) { assert HasQualifyingFamily(devices[k], support); }
        }
        QueriesEndAtPick(devices, support, k, from + 1, pick);
        var rest := SupportQueries(devices, support, k, from + 1);
        if HasGraphics(devices[k], from) {
          assert SupportQueries(devices, support, k, from) == [(k, from)] + rest;
        }
      }
    } else {
      if from == target {
        assert Qualifies(devices[pick], support, from);
      } else {
        assert !Qualifies(devices[pick], support, from);
        QueriesEndAtPick(devices, support, k, from + 1, pick);
        var rest := SupportQueries(devices, support, k, from + 1);
        if HasGraphics(devices[k], from) {
          assert SupportQueries(devices, support, k, from) == [(k, from)] + rest;
        }
      }
    }
  }

  /** `PhysicalDevice::new` of the renderer tree: the first enumerated device, whatever its
      queues; an empty enumeration is the error message. */
  function NewPhysicalDevice(enumeration: Result<seq<nat>>): (r: Result<nat>)
    ensures enumeration.Err? ==> r == Err(enumeration.error)
    ensures enumeration.Ok? && enumeration.value == [] ==> r == Err(Message(NO_PHYSICAL_DEVICE_MESSAGE))
    ensures enumeration.Ok? && enumeration.value != [] ==> r == Ok(enumeration.value[0])
  {
    var devices :- enumeration;
    if devices == [] then Err(Message(NO_PHYSICAL_DEVICE_MESSAGE)) else Ok(devices[0])
  }

  /** `graphics_queue_index`: the lowest family with the graphics bit and surface support
      on the given device, `None` when there is none. */
  function GraphicsQueueIndex(d: PhysicalDevice, support: SurfaceSupport): (r: Option<nat>)
    ensures r.Some? ==> r.value < |d.queueFamilies| && HasGraphics(d, r.value) && support(d.handle, r.value)
    ensures r.Some? ==> forall j :: 0 <= j < r.value ==> !Qualifies(d, support, j)
    ensures r.None? <==> !HasQualifyingFamily(d, support)
  {
    FirstFamily(d, support, 0)
  }
}
