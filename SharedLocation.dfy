/** `SharedLocationUtils`: shows other people's positions as markers on a map.
    The registered `MarkerInfo`s name the entities to follow; each entity-list
    response from the trace service removes the markers of entities that went
    offline, moves the markers of entities still online, and draws a marker for
    every registered entity that has none yet. It also hands the fence list to the
    trace controller once and centres the map on a fence. */
module SharedLocation {
  import opened Wrappers
  import opened Sdk
  import opened Fence

  /** A person to show. The coordinates are the last ones reported for the entity. */
  datatype MarkerInfo = MarkerInfo(entityName: string, iconUrl: string, userId: string, name: string,
                                   userNickName: string, phone: string, lat: real, lng: real)

  /** A marker on the map and the `MarkerInfo` stored in its extra bundle, given by its
      index in the registered list (the list only grows, so the index names the object). */
  datatype Placed = Placed(marker: Handle, info: nat)

  /** One entity of an entity-list response and its latest location. */
  datatype Entity = Entity(entityName: string, location: LatLng)

  /** A request handed to the trace helper. */
  datatype TraceRequest =
    | StartTraceRequested
    | CreateLocalFencesRequested(fences: seq<CircleFenceInfo>)
    | EntityListQueried(entityNames: seq<string>)
    | TraceDestroyed

  /** `List.get` with an index outside the list throws. */
  datatype IndexOutOfBounds = IndexOutOfBounds(index: int, size: int)

  const MarkerZIndex: int := 9
  const CenterZoom: real := 18.0
  const CenterOverlook: real := 0.0

  // ----- lookups -----

  /** The entity name in the marker's extra bundle, "" when it holds none. */
  function NameOf(infos: seq<MarkerInfo>, p: Placed): string {
    if p.info < |infos| then infos[p.info].entityName else ""
  }

  /** `getMarkerByEntityName`: the first marker whose entity is `name`, or null. */
  function MarkerNamed(infos: seq<MarkerInfo>, ms: seq<Placed>, name: string): (r: Option<Placed>)
    ensures r.Some? ==> r.value in ms && NameOf(infos, r.value) == name
    ensures r.None? <==> forall k :: 0 <= k < |ms| ==> NameOf(infos, ms[k]) != name
  {
    if ms == [] then None
    else if NameOf(infos, ms[0]) == name then Some(ms[0])
    else MarkerNamed(infos, ms[1..], name)
  }

  /** The marker found is the first one of that entity in list order. */
  lemma {:induction false} MarkerNamedIsFirst(infos: seq<MarkerInfo>, ms: seq<Placed>, name: string)
    requires MarkerNamed(infos, ms, name).Some?
    ensures exists k :: 0 <= k < |ms| && ms[k] == MarkerNamed(infos, ms, name).value
                        && forall j :: 0 <= j < k ==> NameOf(infos, ms[j]) != name
  {
    if NameOf(infos, ms[0]) != name {
      MarkerNamedIsFirst(infos, ms[1..], name);
      var k :| 0 <= k < |ms[1..]| && ms[1..][k] == MarkerNamed(infos, ms, name).value
               && forall j :: 0 <= j < k ==> NameOf(infos, ms[1..][j]) != name;
      assert ms[k + 1] == ms[1..][k];
      forall j | 0 <= j < k + 1 ensures NameOf(infos, ms[j]) != name {
        if j > 0 { assert ms[j] == ms[1..][j - 1]; }
      }
    }
  }

  /** `getMarkerInfoByEntityName`: index of the first registered info named `name`, or None. */
  function InfoNamed(infos: seq<MarkerInfo>, name: string): (k: Option<nat>)
    ensures k.Some? ==> k.value < |infos| && infos[k.value].entityName == name
    ensures k.Some? ==> forall j :: 0 <= j < k.value ==> infos[j].entityName != name
    ensures k.None? <==> forall j :: 0 <= j < |infos| ==> infos[j].entityName != name
  {
    if infos == [] then None
    else if infos[0].entityName == name then Some(0)
    else
      match InfoNamed(infos[1..], name)
      case None => None
      case Some(j) => Some(j + 1)
  }

  /** The names of `infos`, in order (`getEntityNames`). */
  function NamesOf(infos: seq<MarkerInfo>): (names: seq<string>)
    ensures |names| == |infos|
    ensures forall j :: 0 <= j < |names| ==> names[j] == infos[j].entityName
  {
    if infos == [] then [] else [infos[0].entityName] + NamesOf(infos[1..])
  }

  /** The names of the entities in a response, in order. */
  function EntityNames(entities: seq<Entity>): (names: seq<string>)
    ensures |names| == |entities|
    ensures forall j :: 0 <= j < |names| ==> names[j] == entities[j].entityName
  {
    if entities == [] then []
    else EntityNames(entities[..|entities| - 1]) + [entities[|entities| - 1].entityName]
  }

  /** The location of the last entity named `name` in a response, if any. */
  function LastLocation(entities: seq<Entity>, name: string): (loc: Option<LatLng>)
    ensures loc.None? <==> name !in EntityNames(entities)
  {
    if entities == [] then None
    else if entities[|entities| - 1].entityName == name then Some(entities[|entities| - 1].location)
    else LastLocation(entities[..|entities| - 1], name)
  }

  /** Kotlin's `names.subtract(result)`: the names not in `result`, each once, in first-seen order. */
  function Subtract(names: seq<string>, result: seq<string>): (d: seq<string>)
    ensures NoDup(d)
    ensures forall x :: x in d <==> x in names && x !in result
  {
    if names == [] then []
    else
      var d := Subtract(names[..|names| - 1], result);
      var x := names[|names| - 1];
      assert forall y :: y in names <==> y in names[..|names| - 1] || y == x by {
        assert names == names[..|names| - 1] + [x];
      }
      if x in result || x in d then d else d + [x]
  }

  // ----- the marker list as values -----

  /** Same names at the same places; coordinates may differ. */
  predicate SameNames(a: seq<MarkerInfo>, b: seq<MarkerInfo>) {
    |a| == |b| && forall k :: 0 <= k < |a| ==> a[k].entityName == b[k].entityName
  }

  /** Every marker's info is a registered one, and no entity has two markers. */
  predicate WellFormed(infos: seq<MarkerInfo>, ms: seq<Placed>) {
    && (forall k :: 0 <= k < |ms| ==> ms[k].info < |infos|)
    && (forall i, j :: 0 <= i < j < |ms| ==> NameOf(infos, ms[i]) != NameOf(infos, ms[j]))
  }

  lemma SameNamesWellFormed(a: seq<MarkerInfo>, b: seq<MarkerInfo>, ms: seq<Placed>)
    requires SameNames(a, b) && WellFormed(a, ms)
    ensures WellFormed(b, ms)
  {
    assert forall k :: 0 <= k < |ms| ==> NameOf(b, ms[k]) == NameOf(a, ms[k]);
  }

  /** The info at `j` with new coordinates (`markerInfo.lat = …; markerInfo.lng = …`). */
  function Relocate(infos: seq<MarkerInfo>, j: nat, location: LatLng): (r: seq<MarkerInfo>)
    ensures SameNames(r, infos)
  {
    if j < |infos| then infos[j := infos[j].(lat := location.latitude, lng := location.longitude)] else infos
  }

  /** The markers whose entity is not in `names`, in order. */
  function Keep(infos: seq<MarkerInfo>, ms: seq<Placed>, names: seq<string>): (kept: seq<Placed>)
    ensures |kept| <= |ms|
  {
    if ms == [] then []
    else (if NameOf(infos, ms[0]) in names then [] else [ms[0]]) + Keep(infos, ms[1..], names)
  }

  lemma {:induction false} KeepNothing(infos: seq<MarkerInfo>, ms: seq<Placed>)
    ensures Keep(infos, ms, []) == ms
  {
    if ms != [] {
      KeepNothing(infos, ms[1..]);
      assert ms == [ms[0]] + ms[1..];
    }
  }

  /** `ms` without the first occurrence of `p` (`mMarkers.remove(p)`). */
  function WithoutPlaced(ms: seq<Placed>, p: Placed): seq<Placed> {
    if ms == [] then []
    else if ms[0] == p then ms[1..]
    else [ms[0]] + WithoutPlaced(ms[1..], p)
  }

  /** The kept markers are exactly the markers whose entity is not listed. */
  lemma {:induction false} KeepMembers(infos: seq<MarkerInfo>, ms: seq<Placed>, names: seq<string>, p: Placed)
    ensures p in Keep(infos, ms, names) <==> p in ms && NameOf(infos, p) !in names
  {
    if ms != [] {
      KeepMembers(infos, ms[1..], names, p);
      assert p in ms <==> p == ms[0] || p in ms[1..] by {
        assert ms == [ms[0]] + ms[1..];
      }
    }
  }

  /** Filtering keeps the handles fresh. */
  lemma KeepFresh(infos: seq<MarkerInfo>, ms: seq<Placed>, names: seq<string>, nextSerial: nat)
    requires Fresh(ms, nextSerial)
    ensures Fresh(Keep(infos, ms, names), nextSerial)
  {
    forall p | p in Keep(infos, ms, names) ensures p in ms {
      KeepMembers(infos, ms, names, p);
    }
  }

  /** Filtering keeps a well-formed list well formed. */
  lemma {:induction false} KeepWellFormed(infos: seq<MarkerInfo>, ms: seq<Placed>, names: seq<string>)
    requires WellFormed(infos, ms)
    ensures WellFormed(infos, Keep(infos, ms, names))
  {
    if ms != [] {
      assert WellFormed(infos, ms[1..]);
      KeepWellFormed(infos, ms[1..], names);
      var rest := Keep(infos, ms[1..], names);
      if NameOf(infos, ms[0]) !in names {
        var kept := [ms[0]] + rest;
        forall i, j | 0 <= i < j < |kept| ensures NameOf(infos, kept[i]) != NameOf(infos, kept[j]) {
          if i == 0 {
            KeepMembers(infos, ms[1..], names, kept[j]);
            var k :| 0 <= k < |ms[1..]| && ms[1..][k] == kept[j];
            assert ms[k + 1] == kept[j];
          }
        }
        forall k | 0 <= k < |kept| ensures kept[k].info < |infos| {
          if k > 0 {
            KeepMembers(infos, ms[1..], names, kept[k]);
          }
        }
      }
    }
  }

  /** Dropping names the lookup is not about does not change what it finds. */
  lemma {:induction false} KeepLookup(infos: seq<MarkerInfo>, ms: seq<Placed>, names: seq<string>, name: string)
    requires name !in names
    ensures MarkerNamed(infos, Keep(infos, ms, names), name) == MarkerNamed(infos, ms, name)
  {
    if ms != [] {
      KeepLookup(infos, ms[1..], names, name);
      var rest := Keep(infos, ms[1..], names);
      var n0 := NameOf(infos, ms[0]);
      if n0 in names {
        assert n0 != name;
        assert Keep(infos, ms, names) == rest;
      } else {
        var kept := [ms[0]] + rest;
        assert Keep(infos, ms, names) == kept;
        assert kept[0] == ms[0] && kept[1..] == rest;
      }
    }
  }

  /** Removing the one marker of entity `name` from the kept list is dropping `name` as well. */
  lemma {:induction false} KeepStep(infos: seq<MarkerInfo>, ms: seq<Placed>, names: seq<string>, name: string)
    requires WellFormed(infos, ms) && name !in names
    ensures MarkerNamed(infos, ms, name).None? ==> Keep(infos, ms, names + [name]) == Keep(infos, ms, names)
    ensures MarkerNamed(infos, ms, name).Some? ==>
              WithoutPlaced(Keep(infos, ms, names), MarkerNamed(infos, ms, name).value) == Keep(infos, ms, names + [name])
  {
    if ms != [] {
      assert WellFormed(infos, ms[1..]);
      KeepStep(infos, ms[1..], names, name);
      var wider := names + [name];
      var n0 := NameOf(infos, ms[0]);
      var rest := Keep(infos, ms[1..], names);
      var rest' := Keep(infos, ms[1..], wider);
      assert n0 in wider <==> n0 in names || n0 == name;
      if n0 == name {
        assert MarkerNamed(infos, ms[1..], name).None? by {
          forall k | 0 <= k < |ms[1..]| ensures NameOf(infos, ms[1..][k]) != name {
            assert ms[1..][k] == ms[k + 1];
          }
        }
        assert Keep(infos, ms, names) == [ms[0]] + rest;
        assert Keep(infos, ms, wider) == rest';
        assert ([ms[0]] + rest)[0] == ms[0] && ([ms[0]] + rest)[1..] == rest;
      } else if n0 in names {
        assert Keep(infos, ms, names) == rest;
        assert Keep(infos, ms, wider) == rest';
      } else {
        assert Keep(infos, ms, names) == [ms[0]] + rest;
        assert Keep(infos, ms, wider) == [ms[0]] + rest';
        if MarkerNamed(infos, ms, name).Some? {
          var p := MarkerNamed(infos, ms, name).value;
          assert ms[0] != p;
          assert ([ms[0]] + rest)[0] == ms[0] && ([ms[0]] + rest)[1..] == rest;
        }
      }
    }
  }

  /** The removal calls of the offline pass: one per listed entity that has a marker. */
  function OfflineRemovals(infos: seq<MarkerInfo>, ms: seq<Placed>, names: seq<string>): (calls: seq<MapCall>)
    ensures |calls| <= |names|
    ensures forall c :: c in calls ==> c.OverlayRemoved?
  {
    if names == [] then []
    else
      var found := MarkerNamed(infos, ms, names[|names| - 1]);
      OfflineRemovals(infos, ms, names[..|names| - 1]) + (if found.Some? then [OverlayRemoved(found.value.marker)] else [])
  }

  /** One step of the offline pass: the lookup in the list kept so far finds what
      the whole list would, and removing it keeps one more name out. */
  lemma OfflineStep(infos: seq<MarkerInfo>, ms: seq<Placed>, offline: seq<string>, i: nat)
    requires WellFormed(infos, ms) && NoDup(offline) && i < |offline|
    ensures var found := MarkerNamed(infos, Keep(infos, ms, offline[..i]), offline[i]);
            && (found.None? ==> Keep(infos, ms, offline[..i + 1]) == Keep(infos, ms, offline[..i]))
            && (found.Some? ==> WithoutPlaced(Keep(infos, ms, offline[..i]), found.value) == Keep(infos, ms, offline[..i + 1]))
            && OfflineRemovals(infos, ms, offline[..i + 1])
               == OfflineRemovals(infos, ms, offline[..i]) + (if found.Some? then [OverlayRemoved(found.value.marker)] else [])
  {
    assert offline[..i + 1][..i] == offline[..i] && offline[..i + 1] == offline[..i] + [offline[i]];
    assert offline[i] !in offline[..i];
    KeepLookup(infos, ms, offline[..i], offline[i]);
    KeepStep(infos, ms, offline[..i], offline[i]);
  }

  /** The offline pass removes from the map exactly the markers of the listed entities. */
  lemma {:induction false} OfflineRemovalsExact(infos: seq<MarkerInfo>, ms: seq<Placed>, names: seq<string>, p: Placed)
    requires WellFormed(infos, ms) && p in ms
    ensures NameOf(infos, p) in names ==> OverlayRemoved(p.marker) in OfflineRemovals(infos, ms, names)
    ensures forall c :: c in OfflineRemovals(infos, ms, names) ==>
              exists q :: q in ms && NameOf(infos, q) in names && c == OverlayRemoved(q.marker)
  {
    if names != [] {
      var front := names[..|names| - 1];
      var last := names[|names| - 1];
      OfflineRemovalsExact(infos, ms, front, p);
      assert names == front + [last];
      if NameOf(infos, p) == last {
        var found := MarkerNamed(infos, ms, last);
        assert found.Some?;
        var k :| 0 <= k < |ms| && ms[k] == p;
        var k' :| 0 <= k' < |ms| && ms[k'] == found.value;
        assert k == k';
      }
    }
  }

  /** The removal calls of `clearMarker`, marker by marker. */
  function Removals(ms: seq<Placed>): (calls: seq<MapCall>)
    ensures |calls| == |ms|
    ensures forall k :: 0 <= k < |ms| ==> calls[k] == OverlayRemoved(ms[k].marker)
  {
    if ms == [] then [] else Removals(ms[..|ms| - 1]) + [OverlayRemoved(ms[|ms| - 1].marker)]
  }

  // ----- placing the online entities -----

  /** What the marker sync touches: the registered infos, the markers, and the map. */
  datatype Scene = Scene(infos: seq<MarkerInfo>, markers: seq<Placed>, nextSerial: nat, calls: seq<MapCall>)

  predicate Consistent(s: Scene) {
    WellFormed(s.infos, s.markers)
  }

  /** `addIconMarker` for the info at `j`: a marker is drawn only when its entity has none. */
  function AddIconMarkerIn(s: Scene, j: nat, location: LatLng): Scene {
    if j >= |s.infos| || MarkerNamed(s.infos, s.markers, s.infos[j].entityName).Some? then s
    else
      var h := Handle(s.nextSerial);
      Scene(s.infos, s.markers + [Placed(h, j)], s.nextSerial + 1,
            s.calls + [OverlayAdded(h, MarkerOptions(location, MarkerZIndex, false))])
  }

  /** One entity of a response: an existing marker moves and its info takes the new
      coordinates; otherwise a registered entity's first info takes them and gets a marker. */
  function PlaceEntityIn(s: Scene, e: Entity): Scene {
    match MarkerNamed(s.infos, s.markers, e.entityName)
    case Some(p) =>
      Scene(Relocate(s.infos, p.info, e.location), s.markers, s.nextSerial, s.calls + [PositionSet(p.marker, e.location)])
    case None =>
      match InfoNamed(s.infos, e.entityName)
      case None => s
      case Some(j) =>
        AddIconMarkerIn(s.(infos := Relocate(s.infos, j, e.location)), j, e.location)
  }

  /** The entities of a response, in order. */
  function PlaceAll(s: Scene, entities: seq<Entity>): Scene {
    if entities == [] then s
    else PlaceEntityIn(PlaceAll(s, entities[..|entities| - 1]), entities[|entities| - 1])
  }

  /** Adding an icon marker never gives an entity a second marker. */
  lemma AddIconMarkerKeepsOnePerEntity(s: Scene, j: nat, location: LatLng)
    requires Consistent(s)
    ensures Consistent(AddIconMarkerIn(s, j, location))
    ensures j < |s.infos| ==> MarkerNamed(s.infos, AddIconMarkerIn(s, j, location).markers, s.infos[j].entityName).Some?
  {
    var t := AddIconMarkerIn(s, j, location);
    if t != s {
      assert NameOf(s.infos, t.markers[|s.markers|]) == s.infos[j].entityName;
      assert forall k :: 0 <= k < |s.markers| ==> t.markers[k] == s.markers[k];
    }
  }

  /** What one placement step `s` to `t` for entity `e` guarantees about the list:
      it stays well formed and keeps its names, only grows at the end and only by a
      marker for `e`, an entity that had a marker keeps the count, and every other
      entity is looked up as before. */
  ghost predicate PlacedWell(s: Scene, t: Scene, e: Entity) {
    && Consistent(t)
    && SameNames(t.infos, s.infos)
    && |s.markers| <= |t.markers| <= |s.markers| + 1
    && t.markers[..|s.markers|] == s.markers
    && (forall k :: |s.markers| <= k < |t.markers| ==> NameOf(s.infos, t.markers[k]) == e.entityName)
    && (MarkerNamed(s.infos, s.markers, e.entityName).Some? ==> |t.markers| == |s.markers|)
    && (forall n :: n != e.entityName ==> MarkerNamed(t.infos, t.markers, n) == MarkerNamed(s.infos, s.markers, n))
  }

  /** ... and about the infos: only infos of `e` change, and afterwards a registered
      `e` has a marker whose info holds the reported coordinates. */
  ghost predicate Located(s: Scene, t: Scene, e: Entity) {
    && (forall k :: 0 <= k < |t.infos| && k < |s.infos| && t.infos[k] != s.infos[k] ==> t.infos[k].entityName == e.entityName)
    && (InfoNamed(s.infos, e.entityName).Some? ==>
          && MarkerNamed(t.infos, t.markers, e.entityName).Some?
          && var p := MarkerNamed(t.infos, t.markers, e.entityName).value;
             p.info < |t.infos| && t.infos[p.info].lat == e.location.latitude && t.infos[p.info].lng == e.location.longitude)
  }

  lemma PlaceEntityEffect(s: Scene, e: Entity)
    requires Consistent(s)
    ensures PlacedWell(s, PlaceEntityIn(s, e), e) && Located(s, PlaceEntityIn(s, e), e)
  {
    match MarkerNamed(s.infos, s.markers, e.entityName)
    case Some(p) => MoveEffect(s, e, p);
    case None =>
      match InfoNamed(s.infos, e.entityName)
      case None =>
        assert PlaceEntityIn(s, e) == s;
        assert s.markers[..|s.markers|] == s.markers;
      case Some(j) => DrawEffect(s, e, j); DrawLocated(s, e, j);
  }

  lemma PlaceEntityShape(s: Scene, e: Entity)
    requires Consistent(s)
    ensures PlacedWell(s, PlaceEntityIn(s, e), e)
  {
    PlaceEntityEffect(s, e);
  }

  /** An entity that has a marker: the marker moves, its info takes the coordinates. */
  lemma MoveEffect(s: Scene, e: Entity, p: Placed)
    requires Consistent(s) && MarkerNamed(s.infos, s.markers, e.entityName) == Some(p)
    ensures PlaceEntityIn(s, e)
              == Scene(Relocate(s.infos, p.info, e.location), s.markers, s.nextSerial, s.calls + [PositionSet(p.marker, e.location)])
    ensures PlacedWell(s, PlaceEntityIn(s, e), e) && Located(s, PlaceEntityIn(s, e), e)
  {
    var t := Scene(Relocate(s.infos, p.info, e.location), s.markers, s.nextSerial, s.calls + [PositionSet(p.marker, e.location)]);
    assert PlaceEntityIn(s, e) == t;
    SameNamesWellFormed(s.infos, t.infos, s.markers);
    assert t.markers[..|s.markers|] == s.markers;
    forall n | n != e.entityName ensures MarkerNamed(t.infos, t.markers, n) == MarkerNamed(s.infos, s.markers, n) {
      MarkerNamedSameNames(s.infos, t.infos, s.markers, n);
    }
    MarkerNamedSameNames(s.infos, t.infos, s.markers, e.entityName);
    var k :| 0 <= k < |s.markers| && s.markers[k] == p;
    assert p.info < |s.infos|;
  }

  /** A registered entity without a marker: its first info takes the coordinates and a marker is drawn. */
  lemma Drawn(s: Scene, e: Entity, j: nat)
    requires Consistent(s) && MarkerNamed(s.infos, s.markers, e.entityName).None? && InfoNamed(s.infos, e.entityName) == Some(j)
    ensures PlaceEntityIn(s, e) == Scene(Relocate(s.infos, j, e.location), s.markers + [Placed(Handle(s.nextSerial), j)],
                                         s.nextSerial + 1,
                                         s.calls + [OverlayAdded(Handle(s.nextSerial), MarkerOptions(e.location, MarkerZIndex, false))])
  {
    var r := s.(infos := Relocate(s.infos, j, e.location));
    assert PlaceEntityIn(s, e) == AddIconMarkerIn(r, j, e.location);
    MarkerNamedSameNames(s.infos, r.infos, s.markers, e.entityName);
  }

  lemma DrawEffect(s: Scene, e: Entity, j: nat)
    requires Consistent(s) && MarkerNamed(s.infos, s.markers, e.entityName).None? && InfoNamed(s.infos, e.entityName) == Some(j)
    ensures PlacedWell(s, PlaceEntityIn(s, e), e)
    ensures PlaceEntityIn(s, e).markers == s.markers + [Placed(Handle(s.nextSerial), j)]
  {
    Drawn(s, e, j);
    var r := s.(infos := Relocate(s.infos, j, e.location));
    SameNamesWellFormed(s.infos, r.infos, s.markers);
    MarkerNamedSameNames(s.infos, r.infos, s.markers, e.entityName);
    AddIconMarkerKeepsOnePerEntity(r, j, e.location);
    var q := Placed(Handle(s.nextSerial), j);
    var t := PlaceEntityIn(s, e);
    assert t.markers[..|s.markers|] == s.markers;
    forall n | n != e.entityName ensures MarkerNamed(t.infos, t.markers, n) == MarkerNamed(s.infos, s.markers, n) {
      MarkerNamedSameNames(s.infos, t.infos, s.markers, n);
      MarkerNamedAppend(t.infos, s.markers, q, n);
    }
  }

  lemma DrawLocated(s: Scene, e: Entity, j: nat)
    requires Consistent(s) && MarkerNamed(s.infos, s.markers, e.entityName).None? && InfoNamed(s.infos, e.entityName) == Some(j)
    ensures Located(s, PlaceEntityIn(s, e), e)
  {
    Drawn(s, e, j);
    var q := Placed(Handle(s.nextSerial), j);
    var t := PlaceEntityIn(s, e);
    MarkerNamedSameNames(s.infos, t.infos, s.markers, e.entityName);
    MarkerNamedAppend(t.infos, s.markers, q, e.entityName);
    assert NameOf(t.infos, q) == e.entityName;
    assert MarkerNamed(t.infos, t.markers, e.entityName) == Some(q);
  }

  // ----- where the markers stand on the map -----

  /** The handles of `ms` were handed out by the map: each is below its next serial,
      and no two markers share one. */
  predicate Fresh(ms: seq<Placed>, nextSerial: nat) {
    && (forall p :: p in ms ==> p.marker.serial < nextSerial)
    && (forall p, q :: p in ms && q in ms && p.marker == q.marker ==> p == q)
  }

  /** Where the map log last put marker `h`: the position of the last call that
      added it as a marker or moved it, None if no call did. */
  function PositionOf(calls: seq<MapCall>, h: Handle): Option<LatLng> {
    if calls == [] then None
    else
      var c := calls[|calls| - 1];
      if c.PositionSet? && c.marker == h then Some(c.position)
      else if c.OverlayAdded? && c.overlay == h && c.options.MarkerOptions? then Some(c.options.position)
      else PositionOf(calls[..|calls| - 1], h)
  }

  /** A call that neither adds nor moves `h` leaves its position as it was. */
  lemma PositionOfAppend(calls: seq<MapCall>, c: MapCall, h: Handle)
    ensures PositionOf(calls + [c], h)
              == if c.PositionSet? && c.marker == h then Some(c.position)
                 else if c.OverlayAdded? && c.overlay == h && c.options.MarkerOptions? then Some(c.options.position)
                 else PositionOf(calls, h)
  {
    assert (calls + [c])[..|calls|] == calls;
  }

  /** What placing one entity guarantees about where markers stand: the handles stay
      fresh, a registered `e` has a marker at the reported location, and every marker
      of another entity stays where it was. */
  ghost predicate Positioned(s: Scene, t: Scene, e: Entity) {
    && Fresh(t.markers, t.nextSerial)
    && (InfoNamed(s.infos, e.entityName).Some? ==>
          && MarkerNamed(t.infos, t.markers, e.entityName).Some?
          && PositionOf(t.calls, MarkerNamed(t.infos, t.markers, e.entityName).value.marker) == Some(e.location))
    && (forall p :: p in s.markers && NameOf(s.infos, p) != e.entityName ==>
          PositionOf(t.calls, p.marker) == PositionOf(s.calls, p.marker))
  }

  lemma PlaceEntityPositions(s: Scene, e: Entity)
    requires Consistent(s) && Fresh(s.markers, s.nextSerial)
    ensures Positioned(s, PlaceEntityIn(s, e), e)
  {
    match MarkerNamed(s.infos, s.markers, e.entityName)
    case Some(p) => MovePositions(s, e, p);
    case None =>
      match InfoNamed(s.infos, e.entityName)
      case None =>
      case Some(j) => DrawPositions(s, e, j);
  }

  /** An entity that has a marker: only that marker moves, to the reported location. */
  lemma MovePositions(s: Scene, e: Entity, p: Placed)
    requires Consistent(s) && Fresh(s.markers, s.nextSerial) && MarkerNamed(s.infos, s.markers, e.entityName) == Some(p)
    ensures Positioned(s, PlaceEntityIn(s, e), e)
  {
    MoveEffect(s, e, p);
    var t := PlaceEntityIn(s, e);
    var c := PositionSet(p.marker, e.location);
    MarkerNamedSameNames(s.infos, t.infos, s.markers, e.entityName);
    forall q | q in s.markers && NameOf(s.infos, q) != e.entityName
      ensures PositionOf(t.calls, q.marker) == PositionOf(s.calls, q.marker)
    {
      PositionOfAppend(s.calls, c, q.marker);
    }
    PositionOfAppend(s.calls, c, p.marker);
  }

  /** A registered entity without a marker: the new marker, on a handle no marker had,
      is added at the reported location and no other marker moves. */
  lemma DrawPositions(s: Scene, e: Entity, j: nat)
    requires Consistent(s) && Fresh(s.markers, s.nextSerial)
    requires MarkerNamed(s.infos, s.markers, e.entityName).None? && InfoNamed(s.infos, e.entityName) == Some(j)
    ensures Positioned(s, PlaceEntityIn(s, e), e)
  {
    Drawn(s, e, j);
    var q := Placed(Handle(s.nextSerial), j);
    var c := OverlayAdded(q.marker, MarkerOptions(e.location, MarkerZIndex, false));
    var t := Scene(Relocate(s.infos, j, e.location), s.markers + [q], s.nextSerial + 1, s.calls + [c]);
    assert PlaceEntityIn(s, e) == t;
    FreshAppend(s.markers, q, s.nextSerial);
    forall p | p in s.markers
      ensures PositionOf(t.calls, p.marker) == PositionOf(s.calls, p.marker)
    {
      PositionOfAppend(s.calls, c, p.marker);
    }
    PositionOfAppend(s.calls, c, q.marker);
    assert MarkerNamed(t.infos, t.markers, e.entityName) == Some(q) by {
      MarkerNamedSameNames(s.infos, t.infos, s.markers, e.entityName);
      MarkerNamedAppend(t.infos, s.markers, q, e.entityName);
    }
  }

  /** A marker on the map's next handle keeps the handles fresh. */
  lemma FreshAppend(ms: seq<Placed>, q: Placed, nextSerial: nat)
    requires Fresh(ms, nextSerial) && q.marker.serial == nextSerial
    ensures Fresh(ms + [q], nextSerial + 1)
  {
    assert forall p :: p in ms + [q] <==> p in ms || p == q;
  }

  /** What placing a whole response guarantees about the list: it stays well formed
      and keeps its names; the markers that were there stay, in order, at the front;
      and every new marker belongs to a reported entity. */
  ghost predicate PlacedAllShape(s: Scene, t: Scene, entities: seq<Entity>) {
    && Consistent(t)
    && SameNames(t.infos, s.infos)
    && |s.markers| <= |t.markers|
    && t.markers[..|s.markers|] == s.markers
    && (forall k :: |s.markers| <= k < |t.markers| ==> NameOf(s.infos, t.markers[k]) in EntityNames(entities))
  }

  /** An entity that was not reported is looked up as before. */
  ghost predicate UnreportedUnchanged(s: Scene, t: Scene, entities: seq<Entity>) {
    forall n :: n !in EntityNames(entities) ==> MarkerNamed(t.infos, t.markers, n) == MarkerNamed(s.infos, s.markers, n)
  }

  /** Every registered entity that was reported has a marker, and the info behind it
      holds the last coordinates reported for it. */
  ghost predicate ReportedLocations(s: Scene, t: Scene, entities: seq<Entity>) {
    forall n :: LastLocation(entities, n).Some? && InfoNamed(s.infos, n).Some? ==>
      && MarkerNamed(t.infos, t.markers, n).Some?
      && var p := MarkerNamed(t.infos, t.markers, n).value;
         && p.info < |t.infos|
         && t.infos[p.info].lat == LastLocation(entities, n).value.latitude
         && t.infos[p.info].lng == LastLocation(entities, n).value.longitude
  }

  lemma {:induction false} PlaceAllShape(s: Scene, entities: seq<Entity>)
    requires Consistent(s)
    ensures PlacedAllShape(s, PlaceAll(s, entities), entities)
  {
    if entities == [] {
      assert s.markers[..|s.markers|] == s.markers;
    } else {
      var front := entities[..|entities| - 1];
      var e := entities[|entities| - 1];
      PlaceAllShape(s, front);
      var u := PlaceAll(s, front);
      PlaceEntityShape(u, e);
      var t := PlaceAll(s, entities);
      assert t == PlaceEntityIn(u, e);
      assert EntityNames(entities) == EntityNames(front) + [e.entityName];
      assert t.markers[..|s.markers|] == s.markers by {
        assert t.markers[..|u.markers|] == u.markers;
        assert t.markers[..|s.markers|] == t.markers[..|u.markers|][..|s.markers|];
      }
      forall k | |s.markers| <= k < |t.markers|
        ensures NameOf(s.infos, t.markers[k]) in EntityNames(entities)
      {
        assert NameOf(s.infos, t.markers[k]) == NameOf(u.infos, t.markers[k]);
        if k < |u.markers| {
          assert t.markers[k] == t.markers[..|u.markers|][k];
        }
      }
    }
  }

  lemma {:induction false} PlaceAllLookups(s: Scene, entities: seq<Entity>)
    requires Consistent(s)
    ensures UnreportedUnchanged(s, PlaceAll(s, entities), entities)
  {
    if entities != [] {
      var front := entities[..|entities| - 1];
      var e := entities[|entities| - 1];
      PlaceAllShape(s, front);
      PlaceAllLookups(s, front);
      var u := PlaceAll(s, front);
      PlaceEntityShape(u, e);
      assert PlaceAll(s, entities) == PlaceEntityIn(u, e);
      assert EntityNames(entities) == EntityNames(front) + [e.entityName];
    }
  }

  lemma {:induction false} PlaceAllLocations(s: Scene, entities: seq<Entity>)
    requires Consistent(s)
    ensures ReportedLocations(s, PlaceAll(s, entities), entities)
  {
    if entities != [] {
      var front := entities[..|entities| - 1];
      var e := entities[|entities| - 1];
      PlaceAllShape(s, front);
      PlaceAllLocations(s, front);
      var u := PlaceAll(s, front);
      PlaceEntityEffect(u, e);
      var t := PlaceAll(s, entities);
      assert t == PlaceEntityIn(u, e);
      forall n | LastLocation(entities, n).Some? && InfoNamed(s.infos, n).Some?
        ensures && MarkerNamed(t.infos, t.markers, n).Some?
                && var p := MarkerNamed(t.infos, t.markers, n).value;
                   && p.info < |t.infos|
                   && t.infos[p.info].lat == LastLocation(entities, n).value.latitude
                   && t.infos[p.info].lng == LastLocation(entities, n).value.longitude
      {
        InfoNamedSameNames(s.infos, u.infos, n);
        if n != e.entityName {
          var p := MarkerNamed(u.infos, u.markers, n).value;
          assert NameOf(u.infos, p) == n;
          assert t.infos[p.info] == u.infos[p.info];
        }
      }
    }
  }

  /** Every registered entity that was reported has a marker, and the map log last put
      it at the last location reported for that entity. */
  ghost predicate ReportedPositions(s: Scene, t: Scene, entities: seq<Entity>) {
    forall n :: LastLocation(entities, n).Some? && InfoNamed(s.infos, n).Some? ==>
      && MarkerNamed(t.infos, t.markers, n).Some?
      && PositionOf(t.calls, MarkerNamed(t.infos, t.markers, n).value.marker) == LastLocation(entities, n)
  }

  /** A marker of an entity that was not reported stays where it was. */
  ghost predicate UnreportedStay(s: Scene, t: Scene, entities: seq<Entity>) {
    forall p :: p in s.markers && NameOf(s.infos, p) !in EntityNames(entities) ==>
      PositionOf(t.calls, p.marker) == PositionOf(s.calls, p.marker)
  }

  /** Placing a whole response keeps the marker handles fresh. */
  lemma {:induction false} PlaceAllFresh(s: Scene, entities: seq<Entity>)
    requires Consistent(s) && Fresh(s.markers, s.nextSerial)
    ensures Fresh(PlaceAll(s, entities).markers, PlaceAll(s, entities).nextSerial)
  {
    if entities != [] {
      var front := entities[..|entities| - 1];
      PlaceAllShape(s, front);
      PlaceAllFresh(s, front);
      PlaceEntityPositions(PlaceAll(s, front), entities[|entities| - 1]);
    }
  }

  lemma {:induction false} PlaceAllPositions(s: Scene, entities: seq<Entity>)
    requires Consistent(s) && Fresh(s.markers, s.nextSerial)
    ensures ReportedPositions(s, PlaceAll(s, entities), entities)
  {
    if entities != [] {
      var front := entities[..|entities| - 1];
      var e := entities[|entities| - 1];
      PlaceAllShape(s, front);
      PlaceAllFresh(s, front);
      PlaceAllPositions(s, front);
      var u := PlaceAll(s, front);
      PlaceEntityShape(u, e);
      PlaceEntityPositions(u, e);
      var t := PlaceEntityIn(u, e);
      assert PlaceAll(s, entities) == t;
      ReportedStep(s, u, t, entities);
    }
  }

  /** The step of `PlaceAllPositions`: placing the last entity of `entities`. */
  lemma ReportedStep(s: Scene, u: Scene, t: Scene, entities: seq<Entity>)
    requires entities != []
    requires SameNames(u.infos, s.infos)
    requires var e := entities[|entities| - 1];
             && (forall n :: n != e.entityName ==> MarkerNamed(t.infos, t.markers, n) == MarkerNamed(u.infos, u.markers, n))
             && (InfoNamed(u.infos, e.entityName).Some? ==>
                   && MarkerNamed(t.infos, t.markers, e.entityName).Some?
                   && PositionOf(t.calls, MarkerNamed(t.infos, t.markers, e.entityName).value.marker) == Some(e.location))
             && (forall p :: p in u.markers && NameOf(u.infos, p) != e.entityName ==>
                   PositionOf(t.calls, p.marker) == PositionOf(u.calls, p.marker))
    requires ReportedPositions(s, u, entities[..|entities| - 1])
    ensures ReportedPositions(s, t, entities)
  {
    var e := entities[|entities| - 1];
    forall n | LastLocation(entities, n).Some? && InfoNamed(s.infos, n).Some?
      ensures && MarkerNamed(t.infos, t.markers, n).Some?
              && PositionOf(t.calls, MarkerNamed(t.infos, t.markers, n).value.marker) == LastLocation(entities, n)
    {
      InfoNamedSameNames(s.infos, u.infos, n);
      if n != e.entityName {
        var q := MarkerNamed(u.infos, u.markers, n).value;
        assert q in u.markers && NameOf(u.infos, q) == n;
      }
    }
  }

  lemma {:induction false} PlaceAllStay(s: Scene, entities: seq<Entity>)
    requires Consistent(s) && Fresh(s.markers, s.nextSerial)
    ensures UnreportedStay(s, PlaceAll(s, entities), entities)
  {
    if entities != [] {
      var front := entities[..|entities| - 1];
      var e := entities[|entities| - 1];
      PlaceAllShape(s, front);
      PlaceAllFresh(s, front);
      PlaceAllStay(s, front);
      var u := PlaceAll(s, front);
      PlaceEntityPositions(u, e);
      var t := PlaceAll(s, entities);
      assert t == PlaceEntityIn(u, e);
      assert EntityNames(entities) == EntityNames(front) + [e.entityName];
      forall p | p in s.markers && NameOf(s.infos, p) !in EntityNames(entities)
        ensures PositionOf(t.calls, p.marker) == PositionOf(s.calls, p.marker)
      {
        var k :| 0 <= k < |s.markers| && s.markers[k] == p;
        assert u.markers[..|s.markers|][k] == p;
        assert NameOf(u.infos, p) == NameOf(s.infos, p);
      }
    }
  }

  /** Lookups by name only see names. */
  lemma MarkerNamedSameNames(a: seq<MarkerInfo>, b: seq<MarkerInfo>, ms: seq<Placed>, name: string)
    requires SameNames(a, b)
    ensures MarkerNamed(a, ms, name) == MarkerNamed(b, ms, name)
  {
    if ms != [] {
      assert NameOf(a, ms[0]) == NameOf(b, ms[0]);
      MarkerNamedSameNames(a, b, ms[1..], name);
    }
  }

  lemma InfoNamedSameNames(a: seq<MarkerInfo>, b: seq<MarkerInfo>, name: string)
    requires SameNames(a, b)
    ensures InfoNamed(a, name) == InfoNamed(b, name)
  {
    if a != [] {
      assert SameNames(a[1..], b[1..]);
      InfoNamedSameNames(a[1..], b[1..], name);
    }
  }

  /** A marker appended at the end is found only when no earlier one has its name. */
  lemma MarkerNamedAppend(infos: seq<MarkerInfo>, ms: seq<Placed>, p: Placed, name: string)
    ensures MarkerNamed(infos, ms + [p], name) ==
              if MarkerNamed(infos, ms, name).Some? then MarkerNamed(infos, ms, name)
              else if NameOf(infos, p) == name then Some(p) else None
  {
    if ms != [] {
      assert (ms + [p])[1..] == ms[1..] + [p];
      MarkerNamedAppend(infos, ms[1..], p, name);
    }
  }

  /** A non-empty entity-list response, end to end: an entity that was queried but
      not reported ends with no marker; every marker of any other entity stays; every
      registered entity that was reported ends with a marker whose info holds the last
      coordinates reported for it; and no entity has two markers. */
  lemma {:induction false} EntityListSync(infos: seq<MarkerInfo>, ms: seq<Placed>, names: seq<string>, entities: seq<Entity>,
                                          serial: nat, calls: seq<MapCall>)
    requires WellFormed(infos, ms)
    ensures var offline := Subtract(names, EntityNames(entities));
            var t := PlaceAll(Scene(infos, Keep(infos, ms, offline), serial, calls + OfflineRemovals(infos, ms, offline)), entities);
            && WellFormed(t.infos, t.markers)
            && (forall n :: n in names && n !in EntityNames(entities) ==> MarkerNamed(t.infos, t.markers, n).None?)
            && (forall p :: p in ms && (NameOf(infos, p) !in names || NameOf(infos, p) in EntityNames(entities)) ==> p in t.markers)
            && ReportedLocations(Scene(infos, ms, serial, calls), t, entities)
  {
    var offline := Subtract(names, EntityNames(entities));
    var s := Scene(infos, Keep(infos, ms, offline), serial, calls + OfflineRemovals(infos, ms, offline));
    KeepWellFormed(infos, ms, offline);
    PlaceAllShape(s, entities);
    PlaceAllLookups(s, entities);
    PlaceAllLocations(s, entities);
    var t := PlaceAll(s, entities);
    forall n | n in names && n !in EntityNames(entities) ensures MarkerNamed(t.infos, t.markers, n).None? {
      forall k | 0 <= k < |s.markers| ensures NameOf(infos, s.markers[k]) != n {
        KeepMembers(infos, ms, offline, s.markers[k]);
      }
    }
    forall p | p in ms && (NameOf(infos, p) !in names || NameOf(infos, p) in EntityNames(entities)) ensures p in t.markers {
      KeepMembers(infos, ms, offline, p);
      var k :| 0 <= k < |s.markers| && s.markers[k] == p;
      assert t.markers[..|s.markers|][k] == p;
    }
  }

  /** A non-empty entity-list response and the map: the marker handles stay fresh;
      every registered entity that was reported ends with a marker that the map log
      last put at the last location reported for it; and a marker of an entity that
      was neither queried nor reported stays where it was. */
  lemma EntityListPositions(infos: seq<MarkerInfo>, ms: seq<Placed>, names: seq<string>, entities: seq<Entity>,
                            serial: nat, calls: seq<MapCall>)
    requires WellFormed(infos, ms) && Fresh(ms, serial)
    ensures var offline := Subtract(names, EntityNames(entities));
            var t := PlaceAll(Scene(infos, Keep(infos, ms, offline), serial, calls + OfflineRemovals(infos, ms, offline)), entities);
            && Fresh(t.markers, t.nextSerial)
            && ReportedPositions(Scene(infos, ms, serial, calls), t, entities)
            && (forall p :: p in ms && NameOf(infos, p) !in names && NameOf(infos, p) !in EntityNames(entities) ==>
                  PositionOf(t.calls, p.marker) == PositionOf(calls, p.marker))
  {
    var offline := Subtract(names, EntityNames(entities));
    var s := Scene(infos, Keep(infos, ms, offline), serial, calls + OfflineRemovals(infos, ms, offline));
    KeepWellFormed(infos, ms, offline);
    forall p | p in s.markers ensures p in ms {
      KeepMembers(infos, ms, offline, p);
    }
    PlaceAllFresh(s, entities);
    PlaceAllPositions(s, entities);
    PlaceAllStay(s, entities);
    var t := PlaceAll(s, entities);
    forall p | p in ms && NameOf(infos, p) !in names && NameOf(infos, p) !in EntityNames(entities)
      ensures PositionOf(t.calls, p.marker) == PositionOf(calls, p.marker)
    {
      KeepMembers(infos, ms, offline, p);
      PositionOfRemovals(calls, OfflineRemovals(infos, ms, offline), p.marker);
    }
  }

  /** Removals do not move markers. */
  lemma {:induction false} PositionOfRemovals(calls: seq<MapCall>, removals: seq<MapCall>, h: Handle)
    requires forall c :: c in removals ==> c.OverlayRemoved?
    ensures PositionOf(calls + removals, h) == PositionOf(calls, h)
  {
    if removals != [] {
      var front := removals[..|removals| - 1];
      assert forall c :: c in front ==> c in removals;
      PositionOfRemovals(calls, front, h);
      assert (calls + removals)[..|calls + removals| - 1] == calls + front;
      assert (calls + removals)[|calls + removals| - 1] == removals[|removals| - 1] && removals[|removals| - 1] in removals;
    } else {
      assert calls + removals == calls;
    }
  }

  class SharedLocationUtils {
    const baiduMap: BaiduMap
    const serviceId: int
    const myEntityName: string
    var markerInfos: seq<MarkerInfo>                        // the people to show, not including oneself
    var markers: seq<Placed>                                // mMarkers
    /** Every periodic query started so far, oldest first, true while it runs. Only
        the newest is held in `disposable`. */
    var intervals: seq<bool>
    var circleFenceInfoList: Option<seq<CircleFenceInfo>>
    var isFirstLoc: bool
    ghost var traceRequests: seq<TraceRequest>

    /** Every marker names a registered info, no entity has two, and the handles
        were handed out by the map. */
    ghost predicate Valid()
      reads this, baiduMap
    {
      WellFormed(markerInfos, markers) && Fresh(markers, baiduMap.nextSerial)
    }

    /** The part of the state the marker sync works on. */
    ghost function SceneOf(): Scene
      reads this, baiduMap
    {
      Scene(markerInfos, markers, baiduMap.nextSerial, baiduMap.calls)
    }

    /** Creating the helper starts the trace service. */
    constructor (baiduMap: BaiduMap, serviceId: int, myEntityName: string)
      ensures this.baiduMap == baiduMap && this.serviceId == serviceId && this.myEntityName == myEntityName
      ensures Valid() && markerInfos == [] && markers == [] && intervals == []
      ensures circleFenceInfoList == None && isFirstLoc && traceRequests == [StartTraceRequested]
    {
      this.baiduMap := baiduMap;
      this.serviceId := serviceId;
      this.myEntityName := myEntityName;
      markerInfos := [];
      markers := [];
      intervals := [];
      circleFenceInfoList := None;
      isFirstLoc := true;
      traceRequests := [StartTraceRequested];
    }

    /** `setMarkerList`: an empty list is ignored; otherwise the infos go after the
        existing ones, in order, and the periodic query starts. */
    method SetMarkerList(infos: seq<MarkerInfo>)
      requires Valid()
      modifies this`markerInfos, this`intervals
      ensures Valid()
      ensures infos == [] ==> markerInfos == old(markerInfos) && intervals == old(intervals)
      ensures infos != [] ==> markerInfos == old(markerInfos) + infos && intervals == old(intervals) + [true]
    {
      if |infos| == 0 {
        return;
      }
      markerInfos := markerInfos + infos;
      intervals := intervals + [true];
      assert forall k :: 0 <= k < |markers| ==> NameOf(markerInfos, markers[k]) == NameOf(old(markerInfos), markers[k]);
    }

    /** `queryMarkers`: with no registered names nothing is queried; otherwise the
        entity list of exactly the registered names is requested. */
    method QueryMarkers() returns (entityNames: seq<string>)
      modifies this`traceRequests
      ensures |entityNames| == |markerInfos|
      ensures forall j :: 0 <= j < |entityNames| ==> entityNames[j] == markerInfos[j].entityName
      ensures traceRequests == old(traceRequests) + (if entityNames == [] then [] else [EntityListQueried(entityNames)])
    {
      entityNames := NamesOf(markerInfos);
      if |entityNames| > 0 {
        traceRequests := traceRequests + [EntityListQueried(entityNames)];
      }
    }

    method ChangeMarkerPosition(marker: Handle, location: LatLng)
      modifies baiduMap`calls
      ensures baiduMap.calls == old(baiduMap.calls) + [PositionSet(marker, location)]
    {
      baiduMap.calls := baiduMap.calls + [PositionSet(marker, location)];
    }

    /** `removeMarker`: a null marker is ignored; otherwise it leaves the map and the list. */
    method RemoveMarker(marker: Option<Placed>)
      modifies this`markers, baiduMap`calls
      ensures marker.None? ==> markers == old(markers) && baiduMap.calls == old(baiduMap.calls)
      ensures marker.Some? ==>
                markers == WithoutPlaced(old(markers), marker.value)
                && baiduMap.calls == old(baiduMap.calls) + [OverlayRemoved(marker.value.marker)]
    {
      if marker.Some? {
        baiduMap.calls := baiduMap.calls + [OverlayRemoved(marker.value.marker)];
        markers := WithoutPlaced(markers, marker.value);
      }
    }

    /** `clearMarker`: every marker leaves the map, in list order, and the list is emptied. */
    method ClearMarker()
      modifies this`markers, baiduMap`calls
      ensures Valid() && markers == []
      ensures baiduMap.calls == old(baiduMap.calls) + Removals(old(markers))
    {
      if |markers| == 0 {
        return;
      }
      var ms := markers;
      for i := 0 to |ms|
        invariant baiduMap.calls == old(baiduMap.calls) + Removals(ms[..i])
      {
        assert ms[..i + 1][..i] == ms[..i];
        baiduMap.calls := baiduMap.calls + [OverlayRemoved(ms[i].marker)];
      }
      assert ms[..|ms|] == ms;
      markers := [];
    }

    /** `addIconMarker` for the info at `j`: a marker at `location` (z-index 9, not
        draggable) is drawn only when that info's entity has none yet. */
    method AddIconMarker(j: nat, location: LatLng)
      requires j < |markerInfos|
      modifies this`markers, baiduMap
      ensures markerInfos == old(markerInfos)
      ensures SceneOf() == AddIconMarkerIn(old(SceneOf()), j, location)
    {
      if MarkerNamed(markerInfos, markers, markerInfos[j].entityName).None? {
        var marker := baiduMap.AddOverlay(MarkerOptions(location, MarkerZIndex, false));
        markers := markers + [Placed(marker, j)];
      }
    }

    /** One online entity of a response (the body of the second loop). */
    method PlaceEntity(e: Entity)
      modifies this`markerInfos, this`markers, baiduMap
      ensures SceneOf() == PlaceEntityIn(old(SceneOf()), e)
    {
      var marker := MarkerNamed(markerInfos, markers, e.entityName);
      if marker.Some? {
        markerInfos := Relocate(markerInfos, marker.value.info, e.location);
        ChangeMarkerPosition(marker.value.marker, e.location);
      } else {
        var j := InfoNamed(markerInfos, e.entityName);
        if j.Some? {
          markerInfos := Relocate(markerInfos, j.value, e.location);
          AddIconMarker(j.value, e.location);
        }
      }
    }

    /** The first loop: the marker of each offline entity is removed. */
    method RemoveOffline(offline: seq<string>)
      requires Valid() && NoDup(offline)
      modifies this`markers, baiduMap`calls
      ensures markers == Keep(markerInfos, old(markers), offline)
      ensures baiduMap.calls == old(baiduMap.calls) + OfflineRemovals(markerInfos, old(markers), offline)
    {
      var infos, ms := markerInfos, markers;
      KeepNothing(infos, ms);
      for i := 0 to |offline|
        invariant markers == Keep(infos, ms, offline[..i])
        invariant baiduMap.calls == old(baiduMap.calls) + OfflineRemovals(infos, ms, offline[..i])
      {
        OfflineStep(infos, ms, offline, i);
        var marker := MarkerNamed(infos, markers, offline[i]);
        RemoveMarker(marker);
      }
      assert offline[..|offline|] == offline;
    }

    /** The entity-list callback for a query of `entityNames`. A null or empty
        response clears every marker; otherwise the markers of queried entities the
        response leaves out are removed, then each reported entity is placed. */
    method OnEntityListCallback(entityNames: seq<string>, response: Option<seq<Entity>>)
      requires Valid()
      modifies this`markerInfos, this`markers, baiduMap
      ensures Valid()
      ensures response.None? || response.value == [] ==>
                && markers == [] && markerInfos == old(markerInfos)
                && baiduMap.calls == old(baiduMap.calls) + Removals(old(markers))
                && baiduMap.nextSerial == old(baiduMap.nextSerial)
      ensures response.Some? && response.value != [] ==>
                var offline := Subtract(entityNames, EntityNames(response.value));
                SceneOf() == PlaceAll(Scene(old(markerInfos), Keep(old(markerInfos), old(markers), offline),
                                            old(baiduMap.nextSerial),
                                            old(baiduMap.calls) + OfflineRemovals(old(markerInfos), old(markers), offline)),
                                      response.value)
    {
      if response.None? || |response.value| == 0 {
        ClearMarker();
        return;
      }
      var entities := response.value;
      var offline := Subtract(entityNames, EntityNames(entities));
      RemoveOffline(offline);
      KeepWellFormed(markerInfos, old(markers), offline);
      KeepFresh(markerInfos, old(markers), offline, baiduMap.nextSerial);
      PlaceEntities(entities);
    }

    /** The second loop of the entity-list callback: each reported entity is placed, in order. */
    method PlaceEntities(entities: seq<Entity>)
      requires Valid()
      modifies this`markerInfos, this`markers, baiduMap
      ensures Valid()
      ensures SceneOf() == PlaceAll(old(SceneOf()), entities)
    {
      ghost var s := SceneOf();
      for i := 0 to |entities|
        invariant SceneOf() == PlaceAll(s, entities[..i])
      {
        assert entities[..i + 1][..i] == entities[..i];
        PlaceEntity(entities[i]);
      }
      assert entities[..|entities|] == entities;
      PlaceAllShape(s, entities);
      PlaceAllFresh(s, entities);
    }

    /** `createFences`: only the first call with a non-empty list has an effect: it
        keeps the list, hands it to the trace controller and centres the map on the
        first fence. Every later call changes nothing. */
    method CreateFences(fenceList: seq<CircleFenceInfo>)
      modifies this`isFirstLoc, this`circleFenceInfoList, this`traceRequests, baiduMap`calls
      ensures fenceList == [] || !old(isFirstLoc) ==>
                && isFirstLoc == old(isFirstLoc) && circleFenceInfoList == old(circleFenceInfoList)
                && traceRequests == old(traceRequests) && baiduMap.calls == old(baiduMap.calls)
      ensures fenceList != [] && old(isFirstLoc) ==>
                && !isFirstLoc && circleFenceInfoList == Some(fenceList)
                && traceRequests == old(traceRequests) + [CreateLocalFencesRequested(fenceList)]
                && baiduMap.calls == old(baiduMap.calls) + CenterCalls(fenceList[0].latLng)
    {
      if |fenceList| == 0 {
        return;
      }
      if isFirstLoc {
        isFirstLoc := false;
        circleFenceInfoList := Some(fenceList);
        traceRequests := traceRequests + [CreateLocalFencesRequested(fenceList)];
        SetMapCenter(fenceList[0].latLng);
      }
    }

    /** `setMapCenter(index)`: nothing before `createFences`; an index outside the kept
        list throws; otherwise the map is centred on that fence. */
    method SetMapCenterAt(index: int) returns (outcome: Outcome<IndexOutOfBounds>)
      modifies baiduMap`calls
      ensures circleFenceInfoList.None? ==> outcome == Pass && baiduMap.calls == old(baiduMap.calls)
      ensures circleFenceInfoList.Some? && !(0 <= index < |circleFenceInfoList.value|) ==>
                outcome == Fail(IndexOutOfBounds(index, |circleFenceInfoList.value|)) && baiduMap.calls == old(baiduMap.calls)
      ensures circleFenceInfoList.Some? && 0 <= index < |circleFenceInfoList.value| ==>
                outcome == Pass && baiduMap.calls == old(baiduMap.calls) + CenterCalls(circleFenceInfoList.value[index].latLng)
    {
      if circleFenceInfoList.None? {
        return Pass;
      }
      var fences := circleFenceInfoList.value;
      if !(0 <= index < |fences|) {
        return Fail(IndexOutOfBounds(index, |fences|));
      }
      SetMapCenter(fences[index].latLng);
      outcome := Pass;
    }

    /** `setMapCenter(latLng)`: a null point is ignored. */
    method SetMapCenter(latLng: Option<LatLng>)
      modifies baiduMap`calls
      ensures baiduMap.calls == old(baiduMap.calls) + CenterCalls(latLng)
    {
      if latLng.Some? {
        baiduMap.calls := baiduMap.calls + [StatusAnimated(latLng.value, CenterZoom, CenterOverlook)];
      }
    }

    /** `onDestroy`: stops the newest periodic query (the one `disposable` holds),
        destroys the trace helper, forgets the markers without removing them one by
        one, and clears the map. A query started by an earlier `setMarkerList` keeps
        running. */
    method OnDestroy()
      modifies this`intervals, this`traceRequests, this`markers, baiduMap`calls
      ensures |intervals| == |old(intervals)|
      ensures intervals != [] ==>
                intervals[..|intervals| - 1] == old(intervals)[..|intervals| - 1] && !intervals[|intervals| - 1]
      ensures true in intervals <==> old(intervals) != [] && true in old(intervals)[..|old(intervals)| - 1]
      ensures Valid() && markers == []
      ensures traceRequests == old(traceRequests) + [TraceDestroyed]
      ensures baiduMap.calls == old(baiduMap.calls) + [MapCleared]
    {
      if |intervals| > 0 {
        intervals := intervals[|intervals| - 1 := false];
      }
      traceRequests := traceRequests + [TraceDestroyed];
      markers := [];
      baiduMap.calls := baiduMap.calls + [MapCleared];
    }
  }

  /** The map call that centres the map on `latLng`, none for a null point. */
  function CenterCalls(latLng: Option<LatLng>): seq<MapCall> {
    if latLng.Some? then [StatusAnimated(latLng.value, CenterZoom, CenterOverlook)] else []
  }
}
