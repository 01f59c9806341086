/** The decision rules of `ShadeApplication` (src/shade/ShadeApplication.cpp)
    that choose a physical device, its queue families and the swapchain
    settings. The Vulkan queries they run are replaced by their results,
    passed in as plain data. */
module DeviceSelection {
  import opened Vk
  import opened Wrappers

  // ----- Swapchain settings -----

  datatype Extent2D = Extent2D(width: u32, height: u32)

  /** The part of `VkSurfaceCapabilitiesKHR` the engine reads. */
  datatype SurfaceCapabilities = SurfaceCapabilities(
    minImageCount: u32, maxImageCount: u32,
    currentExtent: Extent2D, minImageExtent: Extent2D, maxImageExtent: Extent2D)

  /** `VkPresentModeKHR` values. */
  type PresentMode = nat
  const PRESENT_MODE_IMMEDIATE: PresentMode := 0
  const PRESENT_MODE_MAILBOX: PresentMode := 1
  const PRESENT_MODE_FIFO: PresentMode := 2
  const PRESENT_MODE_FIFO_RELAXED: PresentMode := 3

  /** `VkColorSpaceKHR` values. */
  type ColorSpace = nat
  const COLOR_SPACE_SRGB_NONLINEAR: ColorSpace := 0

  datatype SurfaceFormat = SurfaceFormat(format: Format, colorSpace: ColorSpace)

  const PREFERRED_SURFACE_FORMAT := SurfaceFormat(FORMAT_B8G8R8A8_UNORM, COLOR_SPACE_SRGB_NONLINEAR)

  /** r is v brought into [lo, hi] as `max(lo, min(hi, v))` does: v itself
      when it lies inside, the nearer bound when it lies outside, and lo
      when the bounds are crossed. */
  ghost predicate ClampedTo(r: nat, v: nat, lo: nat, hi: nat) {
    && lo <= r
    && (lo <= hi ==> r <= hi)
    && (lo <= v <= hi ==> r == v)
    && (v < lo ==> r == lo)
    && (lo <= hi < v ==> r == hi)
    && (hi < lo ==> r == lo)
  }

  /** `getOptimalSwapExtent`: the surface's current extent, unless its width
      is the special value UINT32_MAX, in which case the window size clamped
      to the surface's extent range, dimension by dimension. */
  function OptimalSwapExtent(caps: SurfaceCapabilities, window: Extent2D): (extent: Extent2D)
    ensures caps.currentExtent.width != UINT32_MAX ==> extent == caps.currentExtent
    ensures caps.currentExtent.width == UINT32_MAX ==>
      && ClampedTo(extent.width, window.width, caps.minImageExtent.width, caps.maxImageExtent.width)
      && ClampedTo(extent.height, window.height, caps.minImageExtent.height, caps.maxImageExtent.height)
  {
    if caps.currentExtent.width != UINT32_MAX then
      caps.currentExtent
    else
      Extent2D(Max(caps.minImageExtent.width, Min(caps.maxImageExtent.width, window.width)),
               Max(caps.minImageExtent.height, Min(caps.maxImageExtent.height, window.height)))
  }

  function Min(a: u32, b: u32): u32 { if a <= b then a else b }
  function Max(a: u32, b: u32): u32 { if a >= b then a else b }

  /** The image count `createSwapchain` asks for: one more than the minimum
      (in `uint32_t`), lowered to the maximum when there is one (non-zero)
      and it would be exceeded. */
  function SwapchainImageCount(caps: SurfaceCapabilities): (count: u32)
    ensures caps.maxImageCount > 0 ==> count <= caps.maxImageCount
    ensures caps.maxImageCount == 0 || Wrap32(caps.minImageCount + 1) <= caps.maxImageCount ==>
      count == Wrap32(caps.minImageCount + 1)
  {
    var count := Wrap32(caps.minImageCount + 1);
    if caps.maxImageCount > 0 && count > caps.maxImageCount then caps.maxImageCount else count
  }

  /** Under the guarantees of the Window System Integration chapter (a
      minimum below UINT32_MAX, and a maximum of 0 or at least the minimum)
      the count never drops below the minimum, and it exceeds the minimum
      exactly when the maximum leaves room. */
  lemma ImageCountWithinLimits(caps: SurfaceCapabilities)
    requires caps.minImageCount < UINT32_MAX
    requires caps.maxImageCount == 0 || caps.minImageCount <= caps.maxImageCount
    ensures caps.minImageCount <= SwapchainImageCount(caps)
    ensures SwapchainImageCount(caps) == caps.minImageCount + 1 <==>
      caps.maxImageCount == 0 || caps.minImageCount < caps.maxImageCount
  {
  }

  /** `getOptimalSwapPresentMode`: MAILBOX when offered, FIFO otherwise. */
  method OptimalSwapPresentMode(availablePresentModes: seq<PresentMode>) returns (mode: PresentMode)
    ensures mode == PRESENT_MODE_MAILBOX <==> PRESENT_MODE_MAILBOX in availablePresentModes
    ensures mode != PRESENT_MODE_MAILBOX ==> mode == PRESENT_MODE_FIFO
  {
    for i := 0 to |availablePresentModes|
      invariant PRESENT_MODE_MAILBOX !in availablePresentModes[..i]
    {
      if availablePresentModes[i] == PRESENT_MODE_MAILBOX {
        return availablePresentModes[i];
      }
    }
    assert availablePresentModes[..|availablePresentModes|] == availablePresentModes;
    return PRESENT_MODE_FIFO;
  }

  /** `getOptimalSwapSurfaceFormat`: (B8G8R8A8_UNORM, SRGB_NONLINEAR) when
      offered, the first format otherwise. The list must not be empty: the
      code reads its first element unchecked. */
  method OptimalSwapSurfaceFormat(availableFormats: seq<SurfaceFormat>) returns (format: SurfaceFormat)
    requires availableFormats != []
    ensures format in availableFormats
    ensures PREFERRED_SURFACE_FORMAT in availableFormats ==> format == PREFERRED_SURFACE_FORMAT
    ensures PREFERRED_SURFACE_FORMAT !in availableFormats ==> format == availableFormats[0]
  {
    for i := 0 to |availableFormats|
      invariant PREFERRED_SURFACE_FORMAT !in availableFormats[..i]
    {
      if availableFormats[i].format == FORMAT_B8G8R8A8_UNORM
        && availableFormats[i].colorSpace == COLOR_SPACE_SRGB_NONLINEAR
      {
        return availableFormats[i];
      }
    }
    assert availableFormats[..|availableFormats|] == availableFormats;
    return availableFormats[0];
  }

  // ----- Queue families -----

  /** One queue family as the two queries report it: whether it has
      `VK_QUEUE_GRAPHICS_BIT`, and whether it can present to the surface. */
  datatype QueueFamily = QueueFamily(graphics: bool, presentSupport: bool)

  datatype QueueFamilyIndices = QueueFamilyIndices(graphicsQueue: Option<nat>, presentQueue: Option<nat>) {
    predicate IsComplete() {
      graphicsQueue.Some? && presentQueue.Some?
    }
  }

  /** The last family before position n with the graphics bit. */
  function LastGraphics(families: seq<QueueFamily>, n: nat): (r: Option<nat>)
    requires n <= |families|
    ensures r.Some? ==> r.value < n && families[r.value].graphics
    ensures r.Some? ==> forall j :: r.value < j < n ==> !families[j].graphics
    ensures r.None? ==> forall j :: 0 <= j < n ==> !families[j].graphics
  {
    if n == 0 then None
    else if families[n - 1].graphics then Some(n - 1)
    else LastGraphics(families, n - 1)
  }

  /** The last family before position n that can present. */
  function LastPresent(families: seq<QueueFamily>, n: nat): (r: Option<nat>)
    requires n <= |families|
    ensures r.Some? ==> r.value < n && families[r.value].presentSupport
    ensures r.Some? ==> forall j :: r.value < j < n ==> !families[j].presentSupport
    ensures r.None? ==> forall j :: 0 <= j < n ==> !families[j].presentSupport
  {
    if n == 0 then None
    else if families[n - 1].presentSupport then Some(n - 1)
    else LastPresent(families, n - 1)
  }

  /** The indices after scanning the first n families. */
  function ScannedIndices(families: seq<QueueFamily>, n: nat): QueueFamilyIndices
    requires n <= |families|
  {
    QueueFamilyIndices(LastGraphics(families, n), LastPresent(families, n))
  }

  /** Where the scan stops, looking from position n on: at the first prefix
      that has both a graphics and a presenting family, or at the end. */
  function ScanEnd(families: seq<QueueFamily>, n: nat): (e: nat)
    requires n <= |families|
    ensures n <= e <= |families|
    decreases |families| - n
  {
    if n == |families| || ScannedIndices(families, n).IsComplete() then n
    else ScanEnd(families, n + 1)
  }

  /** What `findQueueFamilies` returns. */
  function QueueFamilyChoice(families: seq<QueueFamily>): QueueFamilyIndices {
    ScannedIndices(families, ScanEnd(families, 0))
  }

  /** `findQueueFamilies`: walks the families in order, recording every
      graphics family and every presenting family it meets, and stops as
      soon as both have been found. Each index is therefore the last such
      family before the stop, not necessarily the first in the list. */
  method FindQueueFamilies(families: seq<QueueFamily>) returns (indices: QueueFamilyIndices)
    ensures indices == QueueFamilyChoice(families)
  {
    indices := QueueFamilyIndices(None, None);
    var i := 0;
    while i < |families|
      invariant i <= |families|
      invariant indices == ScannedIndices(families, i)
      invariant ScanEnd(families, 0) == ScanEnd(families, i)
    {
      if indices.IsComplete() {
        break;
      }
      if families[i].graphics {
        indices := indices.(graphicsQueue := Some(i));
      }
      if families[i].presentSupport {
        indices := indices.(presentQueue := Some(i));
      }
      i := i + 1;
    }
  }

  /** The chosen indices name families that have the capability and exist;
      they are complete exactly when the device has some graphics family and
      some presenting family. */
  lemma QueueFamilyChoiceCorrect(families: seq<QueueFamily>)
    ensures var c := QueueFamilyChoice(families);
      && (c.graphicsQueue.Some? ==> c.graphicsQueue.value < |families| && families[c.graphicsQueue.value].graphics)
      && (c.presentQueue.Some? ==> c.presentQueue.value < |families| && families[c.presentQueue.value].presentSupport)
      && (c.IsComplete() <==>
            (exists g :: 0 <= g < |families| && families[g].graphics) &&
            (exists p :: 0 <= p < |families| && families[p].presentSupport))
  {
    var e := ScanEnd(families, 0);
    ScanEndComplete(families, 0);
    if e == |families| {
      assert QueueFamilyChoice(families) == ScannedIndices(families, |families|);
    }
  }

  /** The scan stops early only at a complete prefix. */
  lemma {:induction false} ScanEndComplete(families: seq<QueueFamily>, n: nat)
    requires n <= |families|
    ensures ScanEnd(families, n) == |families| || ScannedIndices(families, ScanEnd(families, n)).IsComplete()
    decreases |families| - n
  {
    if !(n == |families| || ScannedIndices(families, n).IsComplete()) {
      ScanEndComplete(families, n + 1);
    }
  }

  // ----- Extensions and device suitability -----

  /** `deviceExtensions`: the swapchain extension. */
  const DEVICE_EXTENSIONS: seq<string> := ["VK_KHR_swapchain"]

  /** `checkDeviceExtensionsSupport`: erases every available extension from
      the set of required ones and reports whether nothing is left. */
  method CheckDeviceExtensionsSupport(requiredExtensions: seq<string>, availableExtensions: seq<string>)
      returns (supported: bool)
    ensures supported <==> forall e :: e in requiredExtensions ==> e in availableExtensions
  {
    var remaining := set e | e in requiredExtensions;
    for k := 0 to |availableExtensions|
      invariant remaining == (set e | e in requiredExtensions) - (set e | e in availableExtensions[..k])
    {
      remaining := remaining - {availableExtensions[k]};
    }
    assert availableExtensions[..|availableExtensions|] == availableExtensions;
    supported := remaining == {};
    if supported {
      forall e | e in requiredExtensions
        ensures e in availableExtensions
      {
        assert e !in remaining;
      }
    } else {
      var e :| e in remaining;
      assert e in requiredExtensions && e !in availableExtensions;
    }
  }

  /** What the device queries report for one physical device. */
  datatype PhysicalDevice = PhysicalDevice(
    queueFamilies: seq<QueueFamily>,
    extensions: seq<string>,
    capabilities: SurfaceCapabilities,
    formats: seq<SurfaceFormat>,
    presentModes: seq<PresentMode>)

  /** A device the engine can use: it has a graphics family and a presenting
      family, offers every required extension, and its surface has at least
      one format and one present mode. */
  ghost predicate Suitable(device: PhysicalDevice) {
    && (exists g :: 0 <= g < |device.queueFamilies| && device.queueFamilies[g].graphics)
    && (exists p :: 0 <= p < |device.queueFamilies| && device.queueFamilies[p].presentSupport)
    && (forall e :: e in DEVICE_EXTENSIONS ==> e in device.extensions)
    && device.formats != []
    && device.presentModes != []
  }

  /** `isDeviceSuitable`: complete queue families, supported extensions, and
      (looked at only when the extensions are supported) a non-empty format
      list and present-mode list. */
  method IsDeviceSuitable(device: PhysicalDevice) returns (suitable: bool)
    ensures suitable <==> Suitable(device)
  {
    var indices := FindQueueFamilies(device.queueFamilies);
    QueueFamilyChoiceCorrect(device.queueFamilies);
    var extensionsSupported := CheckDeviceExtensionsSupport(DEVICE_EXTENSIONS, device.extensions);
    var swapChainAdequate := false;
    if extensionsSupported {
      swapChainAdequate := device.formats != [] && device.presentModes != [];
    }
    suitable := indices.IsComplete() && extensionsSupported && swapChainAdequate;
  }

  datatype SelectionError = NoVulkanDevice | NoSuitableDevice

  /** `pickPhysicalDevice`: the position of the first suitable device; an
      error when there are no devices at all, or none is suitable. */
  method PickPhysicalDevice(devices: seq<PhysicalDevice>) returns (r: Result<nat, SelectionError>)
    ensures devices == [] ==> r == Failure(NoVulkanDevice)
    ensures devices != [] && (forall d :: d in devices ==> !Suitable(d)) ==> r == Failure(NoSuitableDevice)
    ensures (exists i :: 0 <= i < |devices| && Suitable(devices[i])) ==> r.Success?
    ensures r.Success? ==> r.value < |devices| && Suitable(devices[r.value])
    ensures r.Success? ==> forall j :: 0 <= j < r.value ==> !Suitable(devices[j])
  {
    if |devices| == 0 {
      return Failure(NoVulkanDevice);
    }
    for i := 0 to |devices|
      invariant forall j :: 0 <= j < i ==> !Suitable(devices[j])
    {
      var suitable := IsDeviceSuitable(devices[i]);
      if suitable {
        return Success(i);
      }
    }
    return Failure(NoSuitableDevice);
  }

  // ----- Logical device queues and swapchain sharing -----

  /** `uniqueQueueFamilies`: the `std::set` of the two indices, in the
      ascending order the set iterates in. */
  function UniqueQueueFamilies(graphics: u32, present: u32): (families: seq<u32>)
    ensures forall f :: f in families <==> f == graphics || f == present
    ensures forall i, j :: 0 <= i < j < |families| ==> families[i] < families[j]
  {
    if graphics == present then [graphics]
    else if graphics < present then [graphics, present]
    else [present, graphics]
  }

  datatype QueueCreateInfo = QueueCreateInfo(queueFamilyIndex: u32, queueCount: nat)

  /** The families a list of create-infos asks queues from. */
  function FamiliesOf(infos: seq<QueueCreateInfo>): set<u32> {
    set i | 0 <= i < |infos| :: infos[i].queueFamilyIndex
  }

  /** The queue create-infos of `createLogicalDevice`: one queue per
      distinct family, in ascending family order. */
  method QueueCreateInfos(graphics: u32, present: u32) returns (infos: seq<QueueCreateInfo>)
    ensures |infos| == (if graphics == present then 1 else 2)
    ensures forall i :: 0 <= i < |infos| ==> infos[i].queueCount == 1
    ensures FamiliesOf(infos) == {graphics, present}
    ensures forall i, j :: 0 <= i < j < |infos| ==> infos[i].queueFamilyIndex < infos[j].queueFamilyIndex
  {
    var uniqueQueueFamilies := UniqueQueueFamilies(graphics, present);
    infos := [];
    for k := 0 to |uniqueQueueFamilies|
      invariant |infos| == k
      invariant forall i :: 0 <= i < k ==> infos[i] == QueueCreateInfo(uniqueQueueFamilies[i], 1)
    {
      infos := infos + [QueueCreateInfo(uniqueQueueFamilies[k], 1)];
    }
    assert infos[0].queueFamilyIndex == uniqueQueueFamilies[0];
    if graphics != present {
      assert infos[1].queueFamilyIndex == uniqueQueueFamilies[1];
    }
  }

  datatype SharingMode = Exclusive | Concurrent

  /** The image sharing settings of `createSwapchain`. */
  datatype ImageSharing = ImageSharing(mode: SharingMode, queueFamilyIndices: seq<u32>)

  /** CONCURRENT over both families when they differ, EXCLUSIVE with no
      family list when they are the same. */
  function ImageSharingFor(graphics: u32, present: u32): (sharing: ImageSharing)
    ensures sharing.mode == Concurrent <==> graphics != present
    ensures sharing.mode == Concurrent ==> sharing.queueFamilyIndices == [graphics, present]
    ensures sharing.mode == Exclusive ==> sharing.queueFamilyIndices == []
  {
    if graphics != present then ImageSharing(Concurrent, [graphics, present])
    else ImageSharing(Exclusive, [])
  }

  /** The two choices agree: the swapchain is shared concurrently exactly
      when the logical device creates two queues, over the same families. */
  lemma SharingMatchesQueues(graphics: u32, present: u32, infos: seq<QueueCreateInfo>)
    requires |infos| == (if graphics == present then 1 else 2)
    requires FamiliesOf(infos) == {graphics, present}
    ensures ImageSharingFor(graphics, present).mode == Concurrent <==> |infos| == 2
    ensures forall f :: f in ImageSharingFor(graphics, present).queueFamilyIndices ==> f in FamiliesOf(infos)
  {
  }

  /** The settings `createSwapchain` derives from the surface support and
      the chosen queue families. */
  datatype SwapchainSettings = SwapchainSettings(
    minImageCount: u32, imageFormat: SurfaceFormat, imageExtent: Extent2D,
    presentMode: PresentMode, sharing: ImageSharing)

  method ChooseSwapchainSettings(caps: SurfaceCapabilities, formats: seq<SurfaceFormat>, presentModes: seq<PresentMode>,
                                 window: Extent2D, graphics: u32, present: u32)
      returns (settings: SwapchainSettings)
    requires formats != []
    ensures settings.minImageCount == SwapchainImageCount(caps)
    ensures settings.imageExtent == OptimalSwapExtent(caps, window)
    ensures settings.imageFormat in formats
    ensures PREFERRED_SURFACE_FORMAT in formats <==> settings.imageFormat == PREFERRED_SURFACE_FORMAT
    ensures PREFERRED_SURFACE_FORMAT !in formats ==> settings.imageFormat == formats[0]
    ensures settings.presentMode == (if PRESENT_MODE_MAILBOX in presentModes then PRESENT_MODE_MAILBOX else PRESENT_MODE_FIFO)
    ensures settings.sharing == ImageSharingFor(graphics, present)
  {
    var imageCount := SwapchainImageCount(caps);
    var imageExtent := OptimalSwapExtent(caps, window);
    var surfaceFormat := OptimalSwapSurfaceFormat(formats);
    var presentMode := OptimalSwapPresentMode(presentModes);
    settings := SwapchainSettings(imageCount, surfaceFormat, imageExtent, presentMode, ImageSharingFor(graphics, present));
  }
}
