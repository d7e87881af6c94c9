/** `CircleFenceInfo`: a named circular geofence, the id the trace service gave
    it, and the circle overlay drawn for it on the map. */
module Fence {
  import opened Wrappers
  import opened Sdk

  /** Default look of the circle overlay: fill 0x6600A7FF, a 1-pixel stroke of
      `Color.rgb(0x00, 0xA7, 0xFF)` (0xFF00A7FF read as a signed 32-bit Int). */
  const DefaultFillColor: int := 0x6600A7FF
  const DefaultStrokeWidth: int := 1
  const DefaultStrokeColor: int := -16734209

  class CircleFenceInfo {
    var id: int                     // fenceId, a Long assigned by the trace service
    const name: string
    const latLng: Option<LatLng>    // centre
    const radius: int               // metres
    var fenceOverlay: Option<Handle>

    /** A fence the application describes by name, centre and radius (by default an
        empty name, no centre and radius 0); it has id 0 and no overlay until the trace
        service and the map give it one. */
    constructor (name: string := "", latLng: Option<LatLng> := None, radius: int := 0)
      ensures this.name == name && this.latLng == latLng && this.radius == radius
      ensures id == 0 && fenceOverlay == None
    {
      this.name := name;
      this.latLng := latLng;
      this.radius := radius;
      id := 0;
      fenceOverlay := None;
    }

    /** Whether a map click at `point` falls inside the fence. `distance` stands for
        the SDK's `DistanceUtil.getDistance`, which the library does not compute itself. */
    function IsClickedInOverlay(point: Option<LatLng>, distance: (LatLng, LatLng) -> real): (clicked: bool)
      ensures latLng.None? || point.None? ==> !clicked
      ensures latLng.Some? && point.Some? ==>
                (clicked <==> distance(point.value, latLng.value) <= radius as real)
    {
      match (latLng, point)
      case (Some(centre), Some(p)) => distance(p, centre) <= radius as real
      case _ => false
    }

    /** Removes the overlay from the map it was drawn on, but keeps the field set,
        so a later `CreateOverlay` draws nothing. */
    method Destroy(baiduMap: BaiduMap)
      modifies baiduMap`calls
      ensures baiduMap.calls == old(baiduMap.calls) + (if fenceOverlay.Some? then [OverlayRemoved(fenceOverlay.value)] else [])
    {
      if fenceOverlay.Some? {
        baiduMap.calls := baiduMap.calls + [OverlayRemoved(fenceOverlay.value)];
      }
    }

    /** Draws the circle only when no overlay is held; a second call changes nothing. */
    method CreateOverlay(baiduMap: BaiduMap, bgColor: int := DefaultFillColor, strokeWidth: int := DefaultStrokeWidth,
                         strokeColor: int := DefaultStrokeColor)
      modifies this`fenceOverlay, baiduMap
      ensures old(fenceOverlay).Some? ==>
                fenceOverlay == old(fenceOverlay) && baiduMap.nextSerial == old(baiduMap.nextSerial) && baiduMap.calls == old(baiduMap.calls)
      ensures old(fenceOverlay).None? ==>
                && fenceOverlay == Some(Handle(old(baiduMap.nextSerial)))
                && baiduMap.nextSerial == old(baiduMap.nextSerial) + 1
                && baiduMap.calls == old(baiduMap.calls)
                   + [OverlayAdded(fenceOverlay.value, CircleOptions(latLng, radius, bgColor, strokeWidth, strokeColor))]
    {
      if fenceOverlay.None? {
        var overlay := baiduMap.AddOverlay(CircleOptions(latLng, radius, bgColor, strokeWidth, strokeColor));
        fenceOverlay := Some(overlay);
      }
    }
  }
}
