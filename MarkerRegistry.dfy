/** `MarkerManager`: a registry of the markers to show, keyed by entity name. Each
    entry is a `MarkerInfo` holding the entity name, the marker drawn for it (if any)
    and its last known coordinates. Lookups by name or by marker return the first
    matching entry. */
module MarkerRegistry {
  import opened Wrappers
  import opened Sdk

  /** One registry entry. The icon view and the extra bundle are not modelled. */
  datatype MarkerInfo = MarkerInfo(entityName: string, marker: Option<Handle>, lat: real, lng: real)

  /** Index of the first entry named `name`, or None. */
  function FirstNamed(infos: seq<MarkerInfo>, name: string): (k: Option<nat>)
    ensures k.Some? ==> k.value < |infos| && infos[k.value].entityName == name
    ensures k.Some? ==> forall j :: 0 <= j < k.value ==> infos[j].entityName != name
    ensures k.None? <==> forall j :: 0 <= j < |infos| ==> infos[j].entityName != name
  {
    if infos == [] then None
    else if infos[0].entityName == name then Some(0)
    else
      match FirstNamed(infos[1..], name)
      case None => None
      case Some(j) => Some(j + 1)
  }

  /** Index of the first entry whose marker is `marker`, or None. */
  function FirstWithMarker(infos: seq<MarkerInfo>, marker: Handle): (k: Option<nat>)
    ensures k.Some? ==> k.value < |infos| && infos[k.value].marker == Some(marker)
    ensures k.Some? ==> forall j :: 0 <= j < k.value ==> infos[j].marker != Some(marker)
    ensures k.None? <==> forall j :: 0 <= j < |infos| ==> infos[j].marker != Some(marker)
  {
    if infos == [] then None
    else if infos[0].marker == Some(marker) then Some(0)
    else
      match FirstWithMarker(infos[1..], marker)
      case None => None
      case Some(j) => Some(j + 1)
  }

  /** The entries with the first one named `name` taken out: what the removal loop
      leaves behind, stated entry by entry. */
  function WithoutFirstNamed(infos: seq<MarkerInfo>, name: string): seq<MarkerInfo> {
    if infos == [] then []
    else if infos[0].entityName == name then infos[1..]
    else [infos[0]] + WithoutFirstNamed(infos[1..], name)
  }

  /** Taking out the first entry named `name` is cutting the list at `FirstNamed`:
      everything before and after it stays, in order, and an absent name changes nothing. */
  lemma {:induction false} WithoutFirstNamedCuts(infos: seq<MarkerInfo>, name: string)
    ensures FirstNamed(infos, name).None? ==> WithoutFirstNamed(infos, name) == infos
    ensures FirstNamed(infos, name).Some? ==>
              var k := FirstNamed(infos, name).value;
              WithoutFirstNamed(infos, name) == infos[..k] + infos[k + 1..]
  {
    if infos != [] && infos[0].entityName != name {
      WithoutFirstNamedCuts(infos[1..], name);
      if FirstNamed(infos, name).Some? {
        var k := FirstNamed(infos, name).value;
        assert [infos[0]] + (infos[1..][..k - 1] + infos[1..][k..]) == infos[..k] + infos[k + 1..];
      }
    }
  }

  /** The marker removals made while clearing the registry, entry by entry. */
  function MarkerRemovals(infos: seq<MarkerInfo>): (calls: seq<MapCall>)
    ensures |calls| <= |infos|
  {
    if infos == [] then []
    else
      var last := infos[|infos| - 1];
      MarkerRemovals(infos[..|infos| - 1]) + (if last.marker.Some? then [OverlayRemoved(last.marker.value)] else [])
  }

  /** Clearing removes exactly the markers the entries hold, and nothing else. */
  lemma {:induction false} MarkerRemovalsExact(infos: seq<MarkerInfo>, h: Handle)
    ensures OverlayRemoved(h) in MarkerRemovals(infos) <==> exists j :: 0 <= j < |infos| && infos[j].marker == Some(h)
    ensures forall c :: c in MarkerRemovals(infos) ==> c.OverlayRemoved?
  {
    if infos != [] {
      var front := infos[..|infos| - 1];
      MarkerRemovalsExact(front, h);
      if exists j :: 0 <= j < |front| && front[j].marker == Some(h) {
        var j :| 0 <= j < |front| && front[j].marker == Some(h);
        assert infos[j] == front[j];
      }
      if exists j :: 0 <= j < |infos| && infos[j].marker == Some(h) {
        var j :| 0 <= j < |infos| && infos[j].marker == Some(h);
        if j < |front| {
          assert front[j] == infos[j];
        }
      }
    }
  }

  /** `MarkerManager` holds no map: only `createMarker` is given one, and its marker
      is added to that map's log. Later position changes and removals are calls on
      the `Marker` objects the entries hold, so they go to `markerCalls`, the log of
      this registry's marker calls; a marker's whole history is the map's add
      followed by its entries here. */
  class MarkerManager {
    var markerInfos: seq<MarkerInfo>
    /** Calls made on the markers the entries hold (position changes and removals). */
    ghost var markerCalls: seq<MapCall>

    constructor ()
      ensures markerInfos == [] && markerCalls == []
    {
      markerInfos := [];
      markerCalls := [];
    }

    /** `addMarkerList`: the given entries go after the existing ones, in order. */
    method AddMarkerList(infos: seq<MarkerInfo>)
      modifies this`markerInfos
      ensures markerInfos == old(markerInfos) + infos
    {
      markerInfos := markerInfos + infos;
    }

    /** `getEntityNames`: the entry names in registry order. */
    function GetEntityNames(): (names: seq<string>)
      reads this
      ensures |names| == |markerInfos|
      ensures forall j :: 0 <= j < |names| ==> names[j] == markerInfos[j].entityName
    {
      NamesOf(markerInfos)
    }

    /** `getMarkerInfoByEntityName`: the first entry named `name`, or null. */
    function GetMarkerInfoByEntityName(name: string): (r: Option<MarkerInfo>)
      reads this
      ensures r.Some? <==> exists j :: 0 <= j < |markerInfos| && markerInfos[j].entityName == name
      ensures r.Some? ==> exists k :: 0 <= k < |markerInfos| && r.value == markerInfos[k] && r.value.entityName == name
                            && forall j :: 0 <= j < k ==> markerInfos[j].entityName != name
    {
      match FirstNamed(markerInfos, name)
      case None => None
      case Some(k) => Some(markerInfos[k])
    }

    /** `getMarkerInfoByMarker`: the first entry holding `marker`, or null. */
    function GetMarkerInfoByMarker(marker: Handle): (r: Option<MarkerInfo>)
      reads this
      ensures r.Some? <==> exists j :: 0 <= j < |markerInfos| && markerInfos[j].marker == Some(marker)
      ensures r.Some? ==> exists k :: 0 <= k < |markerInfos| && r.value == markerInfos[k] && r.value.marker == Some(marker)
                            && forall j :: 0 <= j < k ==> markerInfos[j].marker != Some(marker)
    {
      match FirstWithMarker(markerInfos, marker)
      case None => None
      case Some(k) => Some(markerInfos[k])
    }

    /** `createMarker`: an unknown name changes nothing; otherwise a marker is drawn at
        the first such entry's coordinates and stored in that entry alone. */
    method CreateMarker(baiduMap: BaiduMap, entityName: string)
      modifies this`markerInfos, baiduMap
      ensures FirstNamed(old(markerInfos), entityName).None? ==>
                markerInfos == old(markerInfos) && baiduMap.nextSerial == old(baiduMap.nextSerial)
                && baiduMap.calls == old(baiduMap.calls)
      ensures FirstNamed(old(markerInfos), entityName).Some? ==>
                var k := FirstNamed(old(markerInfos), entityName).value;
                var info := old(markerInfos)[k];
                var h := Handle(old(baiduMap.nextSerial));
                && markerInfos == old(markerInfos)[k := info.(marker := Some(h))]
                && baiduMap.nextSerial == old(baiduMap.nextSerial) + 1
                && baiduMap.calls == old(baiduMap.calls) + [OverlayAdded(h, MarkerOptions(LatLng(info.lat, info.lng), 9, false))]
    {
      var k := FirstNamed(markerInfos, entityName);
      if k.Some? {
        var info := markerInfos[k.value];
        var marker := baiduMap.AddOverlay(MarkerOptions(LatLng(info.lat, info.lng), 9, false));
        markerInfos := markerInfos[k.value := info.(marker := Some(marker))];
      }
    }

    /** `changeMarkerPosition`: moves the first such entry's marker to the entry's
        coordinates; the list itself never changes. */
    method ChangeMarkerPosition(entityName: string)
      modifies this`markerCalls
      ensures var k := FirstNamed(markerInfos, entityName);
              markerCalls == old(markerCalls)
                + (if k.Some? && markerInfos[k.value].marker.Some?
                   then [PositionSet(markerInfos[k.value].marker.value, LatLng(markerInfos[k.value].lat, markerInfos[k.value].lng))]
                   else [])
    {
      var k := FirstNamed(markerInfos, entityName);
      if k.Some? {
        var info := markerInfos[k.value];
        if info.marker.Some? {
          markerCalls := markerCalls + [PositionSet(info.marker.value, LatLng(info.lat, info.lng))];
        }
      }
    }

    /** `removeMarkerInfo`: walks the list and, at the first entry named `entityName`,
        removes its marker and the entry, then stops. */
    method RemoveMarkerInfo(entityName: string)
      modifies this
      ensures markerInfos == WithoutFirstNamed(old(markerInfos), entityName)
      ensures FirstNamed(old(markerInfos), entityName).None? ==> markerCalls == old(markerCalls)
      ensures FirstNamed(old(markerInfos), entityName).Some? ==>
                var removed := old(markerInfos)[FirstNamed(old(markerInfos), entityName).value];
                markerCalls == old(markerCalls) + (if removed.marker.Some? then [OverlayRemoved(removed.marker.value)] else [])
    {
      WithoutFirstNamedCuts(markerInfos, entityName);
      var i := 0;
      while i < |markerInfos|
        invariant 0 <= i <= |markerInfos|
        invariant forall j :: 0 <= j < i ==> markerInfos[j].entityName != entityName
      {
        if markerInfos[i].entityName == entityName {
          var info := markerInfos[i];
          if info.marker.Some? {
            markerCalls := markerCalls + [OverlayRemoved(info.marker.value)];
          }
          markerInfos := markerInfos[..i] + markerInfos[i + 1..];
          return;
        }
        i := i + 1;
      }
    }

    /** `clearMarkerInfo`: every entry's marker is removed, then the list is emptied. */
    method ClearMarkerInfo()
      modifies this
      ensures markerInfos == []
      ensures markerCalls == old(markerCalls) + MarkerRemovals(old(markerInfos))
    {
      if |markerInfos| == 0 {
        return;
      }
      var infos := markerInfos;
      var i := 0;
      while i < |infos|
        invariant 0 <= i <= |infos|
        invariant markerCalls == old(markerCalls) + MarkerRemovals(infos[..i])
      {
        assert infos[..i + 1][..i] == infos[..i];
        if infos[i].marker.Some? {
          markerCalls := markerCalls + [OverlayRemoved(infos[i].marker.value)];
        }
        i := i + 1;
      }
      assert infos[..i] == infos;
      markerInfos := [];
    }
  }

  /** The names of `infos`, in order. */
  function NamesOf(infos: seq<MarkerInfo>): (names: seq<string>)
    ensures |names| == |infos|
    ensures forall j :: 0 <= j < |names| ==> names[j] == infos[j].entityName
  {
    if infos == [] then [] else [infos[0].entityName] + NamesOf(infos[1..])
  }
}
