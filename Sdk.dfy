/** The vendor map SDK as this library sees it: opaque handles for the objects the
    map creates, and a record of every call made on the map or on its overlays.
    Nothing here is the SDK's own behaviour; the map only hands out fresh handles
    and remembers what it was asked to do. */
module Sdk {
  import opened Wrappers

  /** A geographic point. The library only copies coordinates, never computes on them. */
  datatype LatLng = LatLng(latitude: real, longitude: real)

  /** Identity of an object the map created (a Marker or another Overlay).
      Two handles are the same object exactly when their serials agree. */
  datatype Handle = Handle(serial: nat)

  /** The option builders passed to `addOverlay`. Icons and bitmaps are not modelled. */
  datatype OverlayOptions =
    | MarkerOptions(position: LatLng, zIndex: int, draggable: bool)
    | CircleOptions(center: Option<LatLng>, radius: int, fillColor: int, strokeWidth: int, strokeColor: int)

  /** One call made on the map or on an object it created. */
  datatype MapCall =
    | OverlayAdded(overlay: Handle, options: OverlayOptions)  // baiduMap.addOverlay(options)
    | OverlayRemoved(overlay: Handle)                         // overlay.remove()
    | IconRecycled(marker: Handle)                            // marker.icon.recycle()
    | PositionSet(marker: Handle, position: LatLng)           // marker.position = ...
    | StatusAnimated(target: LatLng, zoom: real, overlook: real) // animateMapStatus(newMapStatus(...))
    | MapClickListenerSet                                      // setOnMapClickListener(...)
    | MarkerClickListenerSet                                   // setOnMarkerClickListener(...)
    | MarkerClickListenerRemoved                               // removeMarkerClickListener(...)
    | MarkerDragListenerSet(present: bool)                     // setOnMarkerDragListener(listener or null)
    | MapCleared                                               // baiduMap.clear()

  /** A `BaiduMap`: hands out a fresh handle for every overlay it adds and logs each call. */
  class BaiduMap {
    var nextSerial: nat
    ghost var calls: seq<MapCall>

    constructor ()
      ensures nextSerial == 0 && calls == []
    {
      nextSerial := 0;
      calls := [];
    }

    /** `addOverlay(options)`: a new overlay, distinct from every one added before. */
    method AddOverlay(options: OverlayOptions) returns (overlay: Handle)
      modifies this
      ensures overlay == Handle(old(nextSerial)) && nextSerial == old(nextSerial) + 1
      ensures calls == old(calls) + [OverlayAdded(overlay, options)]
    {
      overlay := Handle(nextSerial);
      nextSerial := nextSerial + 1;
      calls := calls + [OverlayAdded(overlay, options)];
    }
  }
}
