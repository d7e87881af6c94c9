/** `MarkerUtils`: the set of live markers one map shows, with add, remove and clear,
    and click/drag listeners that shield the application's delegates from null markers. */
module MarkerSet {
  import opened Wrappers
  import opened Sdk

  /** The three drag notifications. */
  datatype DragPhase = DragStart | Dragging | DragEnd

  /** A drag notification handed to the application's delegate, known by its identity. */
  datatype DragDelivery = DragDelivery(delegate: nat, phase: DragPhase, marker: Handle)

  /** `s` with `x` taken out (a set holds it at most once). */
  function Without(s: seq<Handle>, x: Handle): seq<Handle> {
    if s == [] then []
    else if s[0] == x then Without(s[1..], x)
    else [s[0]] + Without(s[1..], x)
  }

  /** Removing `x` keeps every other member, in order and without repeats, and drops
      one element when `x` was there. */
  lemma {:induction false} WithoutKeepsOthers(s: seq<Handle>, x: Handle)
    requires NoDup(s)
    ensures x !in Without(s, x)
    ensures forall y :: y != x ==> (y in Without(s, x) <==> y in s)
    ensures NoDup(Without(s, x))
    ensures |Without(s, x)| == if x in s then |s| - 1 else |s|
    ensures x !in s ==> Without(s, x) == s
  {
    if s != [] {
      WithoutKeepsOthers(s[1..], x);
      if s[0] != x {
        var w := [s[0]] + Without(s[1..], x);
        forall i, j | 0 <= i < j < |w| ensures w[i] != w[j] {
          if i == 0 {
            assert w[j] in Without(s[1..], x);
            assert s[0] !in s[1..];
          }
        }
      } else {
        assert x !in s[1..];
      }
    }
  }

  /** The calls `clear` makes on the map: each marker's icon is recycled, then the marker removed. */
  function Teardown(markers: seq<Handle>): (calls: seq<MapCall>)
    ensures |calls| == 2 * |markers|
  {
    if markers == [] then []
    else Teardown(markers[..|markers| - 1]) + [IconRecycled(markers[|markers| - 1]), OverlayRemoved(markers[|markers| - 1])]
  }

  /** How often `c` occurs in `calls`. */
  function Count(calls: seq<MapCall>, c: MapCall): nat {
    if calls == [] then 0
    else Count(calls[..|calls| - 1], c) + (if calls[|calls| - 1] == c then 1 else 0)
  }

  /** Clearing a set removes each of its markers exactly once and no other marker. */
  lemma {:induction false} TeardownRemovesEachOnce(markers: seq<Handle>, h: Handle)
    requires NoDup(markers)
    ensures Count(Teardown(markers), OverlayRemoved(h)) == if h in markers then 1 else 0
    ensures Count(Teardown(markers), IconRecycled(h)) == if h in markers then 1 else 0
  {
    if markers != [] {
      var front := markers[..|markers| - 1];
      var last := markers[|markers| - 1];
      assert NoDup(front);
      TeardownRemovesEachOnce(front, h);
      var tail := [IconRecycled(last), OverlayRemoved(last)];
      var t := Teardown(markers);
      assert t[..|t| - 1] == Teardown(front) + [IconRecycled(last)];
      assert t[..|t| - 1][..|t| - 2] == Teardown(front);
      assert last !in front;
      assert h in markers <==> h in front || h == last;
    }
  }

  class MarkerUtils {
    const baiduMap: BaiduMap
    var markers: seq<Handle>                          // mMarkers, a LinkedHashSet
    var clickDelegate: Option<Handle -> bool>         // mMarkerClickListener1
    var dragDelegate: Option<nat>                     // mMarkerDragListener1
    ghost var deliveries: seq<DragDelivery>

    /** The set never holds a marker twice. */
    ghost predicate Valid()
      reads this
    {
      NoDup(markers)
    }

    /** Installs the null-safe click and drag listeners on the map. */
    constructor (baiduMap: BaiduMap)
      modifies baiduMap`calls
      ensures this.baiduMap == baiduMap && Valid()
      ensures markers == [] && clickDelegate == None && dragDelegate == None && deliveries == []
      ensures baiduMap.calls == old(baiduMap.calls) + [MarkerClickListenerSet, MarkerDragListenerSet(true)]
    {
      this.baiduMap := baiduMap;
      markers := [];
      clickDelegate := None;
      dragDelegate := None;
      deliveries := [];
      new;
      baiduMap.calls := baiduMap.calls + [MarkerClickListenerSet, MarkerDragListenerSet(true)];
    }

    /** `addMarker`: draws a marker and tracks it; a handle already tracked is not added
        twice. The parameter is typed `MarkerOptions`, so only marker options come in. */
    method AddMarker(opts: OverlayOptions) returns (marker: Handle)
      requires opts.MarkerOptions? && Valid()
      modifies this`markers, baiduMap
      ensures Valid() && marker in markers
      ensures marker == Handle(old(baiduMap.nextSerial)) && baiduMap.nextSerial == old(baiduMap.nextSerial) + 1
      ensures baiduMap.calls == old(baiduMap.calls) + [OverlayAdded(marker, opts)]
      ensures markers == if marker in old(markers) then old(markers) else old(markers) + [marker]
    {
      marker := baiduMap.AddOverlay(opts);
      if marker !in markers {
        markers := markers + [marker];
        assert forall i :: 0 <= i < |markers| - 1 ==> markers[i] in old(markers);
      }
    }

    /** `remove`: only a tracked marker is recycled and removed from the map; the
        result says whether it was tracked. */
    method Remove(marker: Handle) returns (removed: bool)
      requires Valid()
      modifies this`markers, baiduMap`calls
      ensures Valid()
      ensures removed <==> marker in old(markers)
      ensures marker !in markers
      ensures forall m :: m != marker ==> (m in markers <==> m in old(markers))
      ensures markers == Without(old(markers), marker)
      ensures baiduMap.calls == old(baiduMap.calls) + (if removed then [IconRecycled(marker), OverlayRemoved(marker)] else [])
    {
      WithoutKeepsOthers(markers, marker);
      removed := marker in markers;
      markers := Without(markers, marker);
      if removed {
        baiduMap.calls := baiduMap.calls + [IconRecycled(marker), OverlayRemoved(marker)];
      }
    }

    /** `clear`: every tracked marker is recycled and removed, in insertion order, and the set emptied. */
    method Clear()
      modifies this`markers, baiduMap`calls
      ensures Valid() && markers == []
      ensures baiduMap.calls == old(baiduMap.calls) + Teardown(old(markers))
    {
      var ms := markers;
      for i := 0 to |ms|
        invariant baiduMap.calls == old(baiduMap.calls) + Teardown(ms[..i])
      {
        assert ms[..i + 1][..i] == ms[..i];
        baiduMap.calls := baiduMap.calls + [IconRecycled(ms[i]), OverlayRemoved(ms[i])];
      }
      assert ms[..|ms|] == ms;
      markers := [];
    }

    method SetOnMarkerClickListener(listener: Handle -> bool)
      modifies this`clickDelegate
      ensures clickDelegate == Some(listener)
    {
      clickDelegate := Some(listener);
    }

    method SetOnMarkerDragListener(listener: nat)
      modifies this`dragDelegate
      ensures dragDelegate == Some(listener)
    {
      dragDelegate := Some(listener);
    }

    /** The click listener: false for a null marker or when no delegate is set,
        otherwise the delegate's answer. */
    function OnMarkerClick(marker: Option<Handle>): (handled: bool)
      reads this
      ensures marker.None? || clickDelegate.None? ==> !handled
      ensures marker.Some? && clickDelegate.Some? ==> handled == clickDelegate.value(marker.value)
    {
      if marker.None? then false
      else
        match clickDelegate
        case None => false
        case Some(delegate) => delegate(marker.value)
    }

    /** The drag listener (start, drag and end alike): a null marker, or no delegate,
        delivers nothing. */
    method OnMarkerDrag(phase: DragPhase, marker: Option<Handle>)
      modifies this`deliveries
      ensures marker.None? || dragDelegate.None? ==> deliveries == old(deliveries)
      ensures marker.Some? && dragDelegate.Some? ==>
                deliveries == old(deliveries) + [DragDelivery(dragDelegate.value, phase, marker.value)]
    {
      if marker.None? {
        return;
      }
      if dragDelegate.Some? {
        deliveries := deliveries + [DragDelivery(dragDelegate.value, phase, marker.value)];
      }
    }

    /** `onDestroy`: detaches both listeners from the map, then clears the set. */
    method OnDestroy()
      modifies this`markers, baiduMap`calls
      ensures Valid() && markers == []
      ensures baiduMap.calls == old(baiduMap.calls) + [MarkerClickListenerRemoved, MarkerDragListenerSet(false)]
                                + Teardown(old(markers))
    {
      baiduMap.calls := baiduMap.calls + [MarkerClickListenerRemoved, MarkerDragListenerSet(false)];
      Clear();
    }
  }
}
