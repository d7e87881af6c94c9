/** `MyTraceUtils`: this device's trace controller. It keeps two persisted flags
    (trace started, gather started) that the trace SDK's status callbacks drive,
    numbers its requests with a 32-bit counter, owns the registry of circle fences,
    reconciles that registry with the fences the trace service already knows, and
    turns fence alarms and map clicks into bus posts. */
module Trace {
  import opened Wrappers
  import opened Sdk
  import opened Fence

  // ---------------------------------------------------------------------------
  // Status codes and the flag state machine
  // ---------------------------------------------------------------------------

  /** The trace SDK's named status codes. Their numeric values belong to the SDK. */
  datatype StatusCodes = StatusCodes(
    success: int,
    startTraceNetworkConnectFailed: int,
    cacheTrackNotUpload: int,
    gatherStarted: int,
    gatherStopped: int)

  /** The two booleans persisted under "is_trace_started" and "is_gather_started"
      (a missing key reads as false). */
  datatype Flags = Flags(traceStarted: bool, gatherStarted: bool)

  /** A status callback from the trace SDK. */
  datatype TraceReply =
    | StartTraceReply(status: int)
    | StopTraceReply(status: int)
    | StartGatherReply(status: int)
    | StopGatherReply(status: int)

  /** Whether the callback reports success, by the test each callback applies. */
  predicate Succeeded(codes: StatusCodes, reply: TraceReply) {
    match reply
    case StartTraceReply(s) => s == codes.success || codes.startTraceNetworkConnectFailed <= s
    case StopTraceReply(s) => s == codes.success || s == codes.cacheTrackNotUpload
    case StartGatherReply(s) => s == codes.success || s == codes.gatherStarted
    case StopGatherReply(s) => s == codes.success || s == codes.gatherStopped
  }

  /** The flags after one callback. */
  function Step(codes: StatusCodes, flags: Flags, reply: TraceReply): (next: Flags)
    ensures !Succeeded(codes, reply) ==> next == flags
    ensures Succeeded(codes, reply) && reply.StartTraceReply? ==> next == Flags(true, flags.gatherStarted)
    ensures Succeeded(codes, reply) && reply.StopTraceReply? ==> next == Flags(false, false)
    ensures Succeeded(codes, reply) && reply.StartGatherReply? ==> next == Flags(flags.traceStarted, true)
    ensures Succeeded(codes, reply) && reply.StopGatherReply? ==> next == Flags(flags.traceStarted, false)
  {
    if !Succeeded(codes, reply) then flags
    else
      match reply
      case StartTraceReply(_) => flags.(traceStarted := true)
      case StopTraceReply(_) => Flags(false, false)
      case StartGatherReply(_) => flags.(gatherStarted := true)
      case StopGatherReply(_) => flags.(gatherStarted := false)
  }

  /** The flags after `init` (which clears both) and then the callbacks `replies`, in order. */
  function Replay(codes: StatusCodes, replies: seq<TraceReply>): Flags {
    if replies == [] then Flags(false, false)
    else Step(codes, Replay(codes, replies[..|replies| - 1]), replies[|replies| - 1])
  }

  /** Callback `i` is a successful start-trace. */
  predicate TraceStartedAt(codes: StatusCodes, replies: seq<TraceReply>, i: int)
    requires 0 <= i < |replies|
  {
    replies[i].StartTraceReply? && Succeeded(codes, replies[i])
  }

  /** Callback `i` is a successful stop-trace. */
  predicate TraceStoppedAt(codes: StatusCodes, replies: seq<TraceReply>, i: int)
    requires 0 <= i < |replies|
  {
    replies[i].StopTraceReply? && Succeeded(codes, replies[i])
  }

  /** Callback `i` is a successful start-gather. */
  predicate GatherStartedAt(codes: StatusCodes, replies: seq<TraceReply>, i: int)
    requires 0 <= i < |replies|
  {
    replies[i].StartGatherReply? && Succeeded(codes, replies[i])
  }

  /** Callback `i` ends gathering: a successful stop-gather or stop-trace. */
  predicate GatherEndedAt(codes: StatusCodes, replies: seq<TraceReply>, i: int)
    requires 0 <= i < |replies|
  {
    (replies[i].StopGatherReply? || replies[i].StopTraceReply?) && Succeeded(codes, replies[i])
  }

  /** Since `init`, the trace-started flag holds exactly when some start-trace
      callback succeeded and no stop-trace callback succeeded after it. */
  lemma {:induction false} ReplayTraceStarted(codes: StatusCodes, replies: seq<TraceReply>)
    ensures Replay(codes, replies).traceStarted <==>
              exists i :: 0 <= i < |replies| && TraceStartedAt(codes, replies, i)
                && forall j :: i < j < |replies| ==> !TraceStoppedAt(codes, replies, j)
  {
    if replies != [] {
      var n := |replies| - 1;
      var front := replies[..n];
      ReplayTraceStarted(codes, front);
      assert forall k :: 0 <= k < n ==> replies[k] == front[k];
      if Replay(codes, replies).traceStarted {
        if TraceStartedAt(codes, replies, n) {
        } else {
          assert Replay(codes, front).traceStarted;
          var i :| 0 <= i < n && TraceStartedAt(codes, front, i)
                   && forall j :: i < j < n ==> !TraceStoppedAt(codes, front, j);
          assert TraceStartedAt(codes, replies, i);
          forall j | i < j < |replies|
            ensures !TraceStoppedAt(codes, replies, j)
          {
            if j < n {
              assert !TraceStoppedAt(codes, front, j);
            }
          }
        }
      } else {
        forall i | 0 <= i < |replies| && TraceStartedAt(codes, replies, i)
          ensures exists j :: i < j < |replies| && TraceStoppedAt(codes, replies, j)
        {
          if TraceStoppedAt(codes, replies, n) {
            assert i < n;
          } else {
            assert i < n;
            assert TraceStartedAt(codes, front, i);
            var j :| i < j < n && TraceStoppedAt(codes, front, j);
            assert TraceStoppedAt(codes, replies, j);
          }
        }
      }
    }
  }

  /** Since `init`, the gather-started flag holds exactly when some start-gather
      callback succeeded and neither a stop-gather nor a stop-trace callback
      succeeded after it. */
  lemma {:induction false} ReplayGatherStarted(codes: StatusCodes, replies: seq<TraceReply>)
    ensures Replay(codes, replies).gatherStarted <==>
              exists i :: 0 <= i < |replies| && GatherStartedAt(codes, replies, i)
                && forall j :: i < j < |replies| ==>
                     !GatherEndedAt(codes, replies, j)
  {
    if replies != [] {
      var n := |replies| - 1;
      var front := replies[..n];
      ReplayGatherStarted(codes, front);
      assert forall k :: 0 <= k < n ==> replies[k] == front[k];
      if Replay(codes, replies).gatherStarted {
        if GatherStartedAt(codes, replies, n) {
        } else {
          assert Replay(codes, front).gatherStarted;
          var i :| 0 <= i < n && GatherStartedAt(codes, front, i)
                   && forall j :: i < j < n ==> !GatherEndedAt(codes, front, j);
          assert GatherStartedAt(codes, replies, i);
          forall j | i < j < |replies|
            ensures !GatherEndedAt(codes, replies, j)
          {
            if j < n {
              assert !GatherEndedAt(codes, front, j);
            }
          }
        }
      } else {
        forall i | 0 <= i < |replies| && GatherStartedAt(codes, replies, i)
          ensures exists j :: i < j < |replies| && GatherEndedAt(codes, replies, j)
        {
          if GatherEndedAt(codes, replies, n) {
            assert i < n;
          } else {
            assert i < n;
            assert GatherStartedAt(codes, front, i);
            var j :| i < j < n && GatherEndedAt(codes, front, j);
            assert GatherEndedAt(codes, replies, j);
          }
        }
      }
    }
  }

  // ---------------------------------------------------------------------------
  // Request tags: an AtomicInteger, incremented before use, wrapping at 32 bits
  // ---------------------------------------------------------------------------

  const Int32Min: int := -0x8000_0000
  const Int32Max: int := 0x7fff_ffff
  const TwoTo32: int := 0x1_0000_0000

  type Int32 = x: int | Int32Min <= x <= Int32Max

  /** `incrementAndGet`: Int.MAX_VALUE wraps to Int.MIN_VALUE. */
  function NextTag(t: Int32): Int32 {
    if t == Int32Max then Int32Min else t + 1
  }

  /** The counter after `n` increments. */
  function TagAfter(t: Int32, n: nat): Int32 {
    if n == 0 then t else NextTag(TagAfter(t, n - 1))
  }

  /** Two's-complement reading of `x` modulo 2^32. */
  function Wrap(x: int): Int32 {
    (x - Int32Min) % TwoTo32 + Int32Min
  }

  /** The counter after `n` increments is the start value plus `n`, wrapped to 32 bits. */
  lemma {:induction false} TagAfterIsWrappedSum(t: Int32, n: nat)
    ensures TagAfter(t, n) == Wrap(t + n)
  {
    if n > 0 {
      TagAfterIsWrappedSum(t, n - 1);
      var q := (t + n - 1 - Int32Min) / TwoTo32;
      assert t + n - 1 - Int32Min == q * TwoTo32 + (TagAfter(t, n - 1) - Int32Min);
      if TagAfter(t, n - 1) == Int32Max {
        assert t + n - Int32Min == (q + 1) * TwoTo32;
      } else {
        assert t + n - Int32Min == q * TwoTo32 + (TagAfter(t, n - 1) + 1 - Int32Min);
      }
    }
  }

  /** Any 2^32 consecutive requests carry pairwise distinct tags. */
  lemma TagsDistinct(t: Int32, i: nat, j: nat)
    requires i < j < TwoTo32
    ensures TagAfter(t, i) != TagAfter(t, j)
  {
    TagAfterIsWrappedSum(t, i);
    TagAfterIsWrappedSum(t, j);
  }

  // ---------------------------------------------------------------------------
  // Requests to the trace client and posts on the event bus
  // ---------------------------------------------------------------------------

  const DefaultGatherInterval: int := 5     // seconds
  const DefaultPackInterval: int := 10      // seconds
  const LatestPointRadiusThreshold: int := 100
  const FenceDenoise: int := 30

  /** One call on the trace client (`LBSTraceClient`). */
  datatype TraceCall =
    | SetInterval(gatherInterval: int, packInterval: int)
    | SetTraceListener
    | SetProtocolHttp
    | StartTrace(serviceId: int, entityName: string)
    | StopTrace(serviceId: int, entityName: string)
    | StartGather
    | QueryHistoryTrack(tag: Int32, serviceId: int, entityName: string, startTime: int, endTime: int, isProcessed: bool)
      /** carries the platform attribute id `android.R.attr.tag`, not a counter value */
    | QueryDistanceWithAttrTag(serviceId: int, entityName: string, startTime: int, endTime: int, isProcessed: bool)
    | QueryLatestPoint(tag: Int32, serviceId: int, entityName: string, radiusThreshold: int)
    | QueryRealTimeLoc(serviceId: int)
    | QueryFenceHistoryAlarm(tag: Int32, serviceId: int, startTime: int, endTime: int, entityName: string, fenceIds: seq<int>)
    | QueryMonitoredStatus(tag: Int32, serviceId: int, entityName: string, fenceIds: seq<int>)
    | QueryFenceList(tag: Int32, serviceId: int, entityName: string)
    | CreateLocalCircleFence(tag: Int32, serviceId: int, fenceName: string, entityName: string,
                             center: LatLng, radius: real, denoise: int)

  /** The bus tags the controller posts under. */
  datatype Topic = MoveInFence | MoveOutFence | ClickFenceOverlay

  /** `LiveDataBus.post(topic, fence)`; a null fence is posted as null. */
  datatype Post = Post(topic: Topic, fence: CircleFenceInfo?)

  /** What a fence alarm push says the monitored person did. */
  datatype MonitoredAction = Enter | Exit | OtherAction

  /** The part of a fence alarm push that the controller reads. */
  datatype FenceAlarm = FenceAlarm(fenceId: int, action: MonitoredAction)

  /** A Kotlin Byte. */
  type Byte = x: int | -128 <= x < 128

  /** A circle fence in a fence-list response: its name and its service id. */
  datatype FenceEntry = FenceEntry(fenceName: string, fenceId: int)

  datatype FenceType = LocalFence | ServerFence

  datatype FenceListResponse = FenceListResponse(status: int, size: int, fenceType: FenceType, fenceInfos: seq<FenceEntry>)

  /** The values of a fence that its create request is built from. */
  datatype FenceSpec = FenceSpec(name: string, center: Option<LatLng>, radius: int)

  // ---------------------------------------------------------------------------
  // Pure views of the fence registry
  // ---------------------------------------------------------------------------

  /** `getCircleFenceInfoByFenceId`: the first registered fence with that id, or null. */
  function FenceWithId(fences: seq<CircleFenceInfo>, fenceId: int): (r: CircleFenceInfo?)
    reads fences
    ensures r == null <==> forall k :: 0 <= k < |fences| ==> fences[k].id != fenceId
    ensures r != null ==> exists k :: 0 <= k < |fences| && fences[k] == r && r.id == fenceId
                                       && forall j :: 0 <= j < k ==> fences[j].id != fenceId
  {
    if fences == [] then null
    else if fences[0].id == fenceId then fences[0]
    else
      var r := FenceWithId(fences[1..], fenceId);
      assert r != null ==> exists k :: 0 <= k < |fences| - 1 && fences[1..][k] == r && r.id == fenceId
                                       && forall j :: 0 <= j < k ==> fences[1..][j].id != fenceId;
      r
  }

  /** `getFenceIds`: one id per registered fence, in registry order. */
  function FenceIds(fences: seq<CircleFenceInfo>): (ids: seq<int>)
    reads fences
    ensures |ids| == |fences|
    ensures forall k :: 0 <= k < |fences| ==> ids[k] == fences[k].id
  {
    if fences == [] then [] else [fences[0].id] + FenceIds(fences[1..])
  }

  /** The overlay each registered fence holds, in registry order. */
  function Overlays(fences: seq<CircleFenceInfo>): (overlays: seq<Option<Handle>>)
    reads fences
    ensures |overlays| == |fences|
    ensures forall k :: 0 <= k < |fences| ==> overlays[k] == fences[k].fenceOverlay
  {
    if fences == [] then [] else [fences[0].fenceOverlay] + Overlays(fences[1..])
  }

  /** The posts a map click at `point` produces, fence by fence in registry order
      (`return@forEach` moves on to the next fence rather than stopping). */
  function ClickPosts(fences: seq<CircleFenceInfo>, point: Option<LatLng>, distance: (LatLng, LatLng) -> real): seq<Post>
    reads fences
  {
    if fences == [] then []
    else
      var last := fences[|fences| - 1];
      ClickPosts(fences[..|fences| - 1], point, distance)
        + (if last.IsClickedInOverlay(point, distance) then [Post(ClickFenceOverlay, last)] else [])
  }

  /** A click posts exactly the registered fences it falls in: every post names a
      registered fence the click is inside, and every such fence is posted. */
  lemma {:induction false} ClickPostsExact(fences: seq<CircleFenceInfo>, point: Option<LatLng>, distance: (LatLng, LatLng) -> real)
    ensures var posts := ClickPosts(fences, point, distance);
            && (forall k :: 0 <= k < |posts| ==>
                  posts[k].topic == ClickFenceOverlay && posts[k].fence in fences
                  && posts[k].fence.IsClickedInOverlay(point, distance))
            && (forall k :: 0 <= k < |fences| && fences[k].IsClickedInOverlay(point, distance) ==>
                  Post(ClickFenceOverlay, fences[k]) in posts)
  {
    if fences != [] {
      var front := fences[..|fences| - 1];
      var last := fences[|fences| - 1];
      ClickPostsExact(front, point, distance);
      assert forall k :: 0 <= k < |front| ==> fences[k] == front[k];
      assert forall f :: f in front ==> f in fences;
      var head := ClickPosts(front, point, distance);
      var tail := if last.IsClickedInOverlay(point, distance) then [Post(ClickFenceOverlay, last)] else [];
      assert ClickPosts(fences, point, distance) == head + tail;
      assert forall k :: 0 <= k < |tail| ==> tail[k].fence == last;
    }
  }

  lemma ClickPostsStep(fs: seq<CircleFenceInfo>, i: nat, point: Option<LatLng>, distance: (LatLng, LatLng) -> real)
    requires i < |fs|
    ensures ClickPosts(fs[..i + 1], point, distance)
            == ClickPosts(fs[..i], point, distance)
               + (if fs[i].IsClickedInOverlay(point, distance) then [Post(ClickFenceOverlay, fs[i])] else [])
  {
    assert fs[..i + 1][..i] == fs[..i];
  }

  /** The values a fence's create request is built from. */
  function SpecOf(f: CircleFenceInfo): FenceSpec
  {
    FenceSpec(f.name, f.latLng, f.radius)
  }

  function Specs(fences: seq<CircleFenceInfo>): (specs: seq<FenceSpec>)
    ensures |specs| == |fences|
    ensures forall k :: 0 <= k < |fences| ==> specs[k] == SpecOf(fences[k])
  {
    if fences == [] then [] else [SpecOf(fences[0])] + Specs(fences[1..])
  }

  /** A fence-list response the controller trusts: SUCCESS, non-empty, of local fences. */
  predicate UsableList(codes: StatusCodes, response: FenceListResponse) {
    response.status == codes.success && response.size != 0 && response.fenceType == LocalFence
  }

  /** Index of the first entry named `name`: the `filter { it.fenceName == name }` and
      `[0]` of the callback. */
  function EntryNamed(entries: seq<FenceEntry>, name: string): (k: Option<nat>)
    ensures k.Some? ==> k.value < |entries|
  {
    if entries == [] then None
    else if entries[0].fenceName == name then Some(0)
    else
      match EntryNamed(entries[1..], name)
      case None => None
      case Some(j) => Some(j + 1)
  }

  /** `EntryNamed` finds the first entry of that name, and finds none exactly when no entry has it. */
  lemma {:induction false} EntryNamedIsFirst(entries: seq<FenceEntry>, name: string)
    ensures var k := EntryNamed(entries, name);
            && (k.Some? ==> entries[k.value].fenceName == name)
            && (k.Some? ==> forall j :: 0 <= j < k.value ==> entries[j].fenceName != name)
            && (k.None? <==> forall j :: 0 <= j < |entries| ==> entries[j].fenceName != name)
  {
    if entries != [] && entries[0].fenceName != name {
      EntryNamedIsFirst(entries[1..], name);
      assert forall j :: 1 <= j < |entries| ==> entries[j] == entries[1..][j - 1];
    }
  }

  /** Index in a usable response of the first entry named `name`; None when the
      response is not usable or has no such entry. */
  function MatchFor(codes: StatusCodes, response: FenceListResponse, name: string): Option<nat> {
    if UsableList(codes, response) then EntryNamed(response.fenceInfos, name) else None
  }

  /** The fences, in order, that the reconciliation sends a create request for. */
  function Unmatched(codes: StatusCodes, response: FenceListResponse, specs: seq<FenceSpec>): (u: seq<FenceSpec>)
    ensures |u| <= |specs|
  {
    if specs == [] then []
    else
      var last := specs[|specs| - 1];
      Unmatched(codes, response, specs[..|specs| - 1])
        + (if MatchFor(codes, response, last.name).None? then [last] else [])
  }

  /** A fence is sent to the service exactly when the response has no usable entry of its name. */
  lemma {:induction false} UnmatchedMembers(codes: StatusCodes, response: FenceListResponse, specs: seq<FenceSpec>)
    ensures forall s :: s in Unmatched(codes, response, specs) <==> s in specs && MatchFor(codes, response, s.name).None?
  {
    if specs != [] {
      UnmatchedMembers(codes, response, specs[..|specs| - 1]);
      assert specs == specs[..|specs| - 1] + [specs[|specs| - 1]];
    }
  }

  /** With an unusable response every registered fence gets a create request. */
  lemma {:induction false} UnusableListCreatesAll(codes: StatusCodes, response: FenceListResponse, specs: seq<FenceSpec>)
    requires !UsableList(codes, response)
    ensures Unmatched(codes, response, specs) == specs
  {
    if specs != [] {
      UnusableListCreatesAll(codes, response, specs[..|specs| - 1]);
      assert specs == specs[..|specs| - 1] + [specs[|specs| - 1]];
    }
  }

  /** `createLocalFence`'s request for `spec`: a missing centre is sent as (0, 0). */
  function CreateRequest(tag: Int32, serviceId: int, entityName: string, spec: FenceSpec): TraceCall {
    CreateLocalCircleFence(tag, serviceId, spec.name, entityName, spec.center.GetOr(LatLng(0.0, 0.0)),
                           spec.radius as real, FenceDenoise)
  }

  /** The create requests for `specs`, numbered by the counter starting after `t`. */
  function CreateRequests(serviceId: int, entityName: string, specs: seq<FenceSpec>, t: Int32): (calls: seq<TraceCall>)
    ensures |calls| == |specs|
  {
    if specs == [] then []
    else
      var n := |specs| - 1;
      CreateRequests(serviceId, entityName, specs[..n], t) + [CreateRequest(TagAfter(t, n + 1), serviceId, entityName, specs[n])]
  }

  /** The k-th create request is for the k-th fence and carries the counter's (k+1)-th next value. */
  lemma {:induction false} CreateRequestsNumbered(serviceId: int, entityName: string, specs: seq<FenceSpec>, t: Int32)
    ensures forall k :: 0 <= k < |specs| ==>
              CreateRequests(serviceId, entityName, specs, t)[k] == CreateRequest(TagAfter(t, k + 1), serviceId, entityName, specs[k])
  {
    if specs != [] {
      var n := |specs| - 1;
      CreateRequestsNumbered(serviceId, entityName, specs[..n], t);
    }
  }

  /** One more create request is the next one in counter order. */
  lemma CreateRequestsAppend(serviceId: int, entityName: string, specs: seq<FenceSpec>, spec: FenceSpec, t: Int32)
    ensures CreateRequests(serviceId, entityName, specs + [spec], t)
              == CreateRequests(serviceId, entityName, specs, t) + [CreateRequest(TagAfter(t, |specs| + 1), serviceId, entityName, spec)]
  {
    assert (specs + [spec])[..|specs|] == specs;
  }

  /** The outcome of reconciling fences in registry order from counter value `tag0`:
      the create requests sent and the counter value afterwards. */
  datatype Reconciliation = Reconciliation(requests: seq<TraceCall>, tag: Int32)

  /** The fence-list callback's effect on the client, fence by fence: an unmatched fence
      takes the next counter value for its create request; a matched one sends nothing. */
  function Reconcile(codes: StatusCodes, response: FenceListResponse, serviceId: int, entityName: string,
                     specs: seq<FenceSpec>, tag0: Int32): Reconciliation
  {
    if specs == [] then Reconciliation([], tag0)
    else
      var n := |specs| - 1;
      var r := Reconcile(codes, response, serviceId, entityName, specs[..n], tag0);
      if MatchFor(codes, response, specs[n].name).None? then
        var tag := NextTag(r.tag);
        Reconciliation(r.requests + [CreateRequest(tag, serviceId, entityName, specs[n])], tag)
      else r
  }

  /** Reconciliation sends exactly the create requests of the unmatched fences, in order,
      numbered by consecutive counter values. */
  lemma {:induction false} ReconcileSendsUnmatched(codes: StatusCodes, response: FenceListResponse, serviceId: int,
                                                   entityName: string, specs: seq<FenceSpec>, tag0: Int32)
    ensures Reconcile(codes, response, serviceId, entityName, specs, tag0).requests
              == CreateRequests(serviceId, entityName, Unmatched(codes, response, specs), tag0)
    ensures Reconcile(codes, response, serviceId, entityName, specs, tag0).tag
              == TagAfter(tag0, |Unmatched(codes, response, specs)|)
  {
    if specs != [] {
      var n := |specs| - 1;
      var front := Unmatched(codes, response, specs[..n]);
      ReconcileSendsUnmatched(codes, response, serviceId, entityName, specs[..n], tag0);
      if MatchFor(codes, response, specs[n].name).None? {
        assert Unmatched(codes, response, specs) == front + [specs[n]];
        CreateRequestsAppend(serviceId, entityName, front, specs[n], tag0);
      } else {
        assert Unmatched(codes, response, specs) == front;
      }
    }
  }

  // ---------------------------------------------------------------------------
  // The controller
  // ---------------------------------------------------------------------------

  /** After the fence-list callback: a fence named `name` that a usable response lists
      holds the id of the first entry of that name, and an overlay. */
  predicate Settled(codes: StatusCodes, response: FenceListResponse, name: string, id: int, overlay: Option<Handle>) {
    var k := MatchFor(codes, response, name);
    k.Some? ==> id == response.fenceInfos[k.value].fenceId && overlay.Some?
  }

  /** What the fence-list callback leaves alone: an unmatched fence keeps its id and
      overlay (`id0`, `overlay0`), and an overlay already drawn is never replaced. */
  predicate Kept(codes: StatusCodes, response: FenceListResponse, name: string, id0: int, overlay0: Option<Handle>,
                 id: int, overlay: Option<Handle>) {
    && (MatchFor(codes, response, name).None? ==> id == id0 && overlay == overlay0)
    && (overlay0.Some? ==> overlay == overlay0)
  }

  /** The circle `createOverlay` draws for `f` with its default look, as overlay `h`. */
  function CircleFor(f: CircleFenceInfo, h: Handle): MapCall {
    OverlayAdded(h, CircleOptions(f.latLng, f.radius, DefaultFillColor, DefaultStrokeWidth, DefaultStrokeColor))
  }

  /** Entry `i` of the registry draws its circle in the fence-list callback: the
      response names it, it held no overlay before the callback (`overlays0`), and it
      is not the same fence object as an earlier entry, which would have drawn it. */
  predicate DrawsAt(codes: StatusCodes, response: FenceListResponse, fs: seq<CircleFenceInfo>,
                    overlays0: seq<Option<Handle>>, i: nat)
    requires i < |fs| && |overlays0| == |fs|
  {
    MatchFor(codes, response, fs[i].name).Some? && overlays0[i].None? && fs[i] !in fs[..i]
  }

  /** The circles the fence-list callback draws, in registry order, on overlays
      numbered from `serial0`. */
  function Draws(codes: StatusCodes, response: FenceListResponse, fs: seq<CircleFenceInfo>,
                 overlays0: seq<Option<Handle>>, serial0: nat): seq<MapCall>
    requires |overlays0| == |fs|
  {
    if fs == [] then []
    else
      var n := |fs| - 1;
      var d := Draws(codes, response, fs[..n], overlays0[..n], serial0);
      d + (if DrawsAt(codes, response, fs, overlays0, n) then [CircleFor(fs[n], Handle(serial0 + |d|))] else [])
  }

  lemma DrawsAtPrefix(codes: StatusCodes, response: FenceListResponse, fs: seq<CircleFenceInfo>,
                      overlays0: seq<Option<Handle>>, n: nat, k: nat)
    requires k < n <= |fs| && |overlays0| == |fs|
    ensures DrawsAt(codes, response, fs[..n], overlays0[..n], k) == DrawsAt(codes, response, fs, overlays0, k)
  {
    assert fs[..n][..k] == fs[..k];
  }

  /** One more registry entry: its circle, if it draws one, comes next. */
  lemma DrawsStep(codes: StatusCodes, response: FenceListResponse, fs: seq<CircleFenceInfo>,
                  overlays0: seq<Option<Handle>>, serial0: nat, i: nat)
    requires i < |fs| && |overlays0| == |fs|
    ensures var d := Draws(codes, response, fs[..i], overlays0[..i], serial0);
            Draws(codes, response, fs[..i + 1], overlays0[..i + 1], serial0)
              == d + (if DrawsAt(codes, response, fs, overlays0, i) then [CircleFor(fs[i], Handle(serial0 + |d|))] else [])
  {
    assert fs[..i + 1][..i] == fs[..i] && overlays0[..i + 1][..i] == overlays0[..i];
    DrawsAtPrefix(codes, response, fs, overlays0, i + 1, i);
  }

  /** Where the fence-list callback stands after visiting the first `i` registry
      entries, stated on the ids and overlays the entries hold now (`ids`, `overlays`)
      against those they held before (`ids0`, `overlays0`): the visited entries are
      settled, every entry is kept, and an entry not yet visited (and not a repeat of
      a visited one) still holds its overlay from before. */
  predicate Progress(codes: StatusCodes, response: FenceListResponse, fs: seq<CircleFenceInfo>,
                     ids0: seq<int>, overlays0: seq<Option<Handle>>, ids: seq<int>, overlays: seq<Option<Handle>>, i: nat)
    requires |ids0| == |overlays0| == |ids| == |overlays| == |fs|
  {
    && (forall k :: 0 <= k < i && k < |fs| ==> Settled(codes, response, fs[k].name, ids[k], overlays[k]))
    && (forall k :: 0 <= k < |fs| ==> Kept(codes, response, fs[k].name, ids0[k], overlays0[k], ids[k], overlays[k]))
    && (forall k :: i <= k < |fs| && fs[k] !in fs[..i] ==> overlays[k] == overlays0[k])
  }

  /** Visiting entry `i`, which settles that fence and keeps it, and changes no other
      fence, moves the callback's progress on by one entry. */
  lemma ProgressStep(codes: StatusCodes, response: FenceListResponse, fs: seq<CircleFenceInfo>,
                     ids0: seq<int>, overlays0: seq<Option<Handle>>, ids: seq<int>, overlays: seq<Option<Handle>>,
                     ids': seq<int>, overlays': seq<Option<Handle>>, i: nat)
    requires i < |fs| && |ids0| == |overlays0| == |ids| == |overlays| == |ids'| == |overlays'| == |fs|
    requires Progress(codes, response, fs, ids0, overlays0, ids, overlays, i)
    requires Settled(codes, response, fs[i].name, ids'[i], overlays'[i])
    requires Kept(codes, response, fs[i].name, ids[i], overlays[i], ids'[i], overlays'[i])
    requires forall k :: 0 <= k < |fs| && fs[k] == fs[i] ==>
               ids[k] == ids[i] && overlays[k] == overlays[i] && ids'[k] == ids'[i] && overlays'[k] == overlays'[i]
    requires forall k :: 0 <= k < |fs| && fs[k] != fs[i] ==> ids'[k] == ids[k] && overlays'[k] == overlays[k]
    ensures Progress(codes, response, fs, ids0, overlays0, ids', overlays', i + 1)
  {
    assert fs[..i + 1] == fs[..i] + [fs[i]];
  }

  /** When the callback reaches entry `i`, it draws that fence's circle exactly when
      `DrawsAt` says so: a repeat of an earlier fence is already settled, so it holds
      an overlay if the response names it. */
  lemma DrawsAtVisit(codes: StatusCodes, response: FenceListResponse, fs: seq<CircleFenceInfo>,
                     ids0: seq<int>, overlays0: seq<Option<Handle>>, ids: seq<int>, overlays: seq<Option<Handle>>, i: nat)
    requires i < |fs| && |ids0| == |overlays0| == |ids| == |overlays| == |fs|
    requires Progress(codes, response, fs, ids0, overlays0, ids, overlays, i)
    requires forall k :: 0 <= k < |fs| && fs[k] == fs[i] ==> overlays[k] == overlays[i]
    ensures DrawsAt(codes, response, fs, overlays0, i) == (MatchFor(codes, response, fs[i].name).Some? && overlays[i].None?)
  {
    if fs[i] in fs[..i] {
      var j :| 0 <= j < i && fs[j] == fs[i];
      assert Settled(codes, response, fs[j].name, ids[j], overlays[j]);
    }
  }

  /** The handle each registry entry's circle gets if it draws one: the serial after
      the circles drawn for the entries before it. */
  function Slots(codes: StatusCodes, response: FenceListResponse, fs: seq<CircleFenceInfo>,
                 overlays0: seq<Option<Handle>>, serial0: nat): seq<nat>
    requires |overlays0| == |fs|
  {
    seq(|fs|, k requires 0 <= k < |fs| => serial0 + |Draws(codes, response, fs[..k], overlays0[..k], serial0)|)
  }

  /** The handle in an entry's slot is the handle of that entry's own circle among
      the circles the callback draws. */
  lemma SlotsNameCircles(codes: StatusCodes, response: FenceListResponse, fs: seq<CircleFenceInfo>,
                         overlays0: seq<Option<Handle>>, serial0: nat)
    requires |overlays0| == |fs|
    ensures forall k :: 0 <= k < |fs| && DrawsAt(codes, response, fs, overlays0, k) ==>
              var slot := Slots(codes, response, fs, overlays0, serial0)[k];
              serial0 <= slot < serial0 + |Draws(codes, response, fs, overlays0, serial0)|
              && Draws(codes, response, fs, overlays0, serial0)[slot - serial0] == CircleFor(fs[k], Handle(slot))
  {
    DrawsComplete(codes, response, fs, overlays0, serial0);
  }

  /** The visited entries that draw hold the circle drawn for them: entry `k`'s overlay
      is the handle `slots[k]`. */
  predicate Holding(codes: StatusCodes, response: FenceListResponse, fs: seq<CircleFenceInfo>,
                    overlays0: seq<Option<Handle>>, slots: seq<nat>, overlays: seq<Option<Handle>>, i: nat)
    requires |overlays0| == |slots| == |overlays| == |fs|
  {
    forall k :: 0 <= k < i && k < |fs| && DrawsAt(codes, response, fs, overlays0, k) ==> overlays[k] == Some(Handle(slots[k]))
  }

  /** Visiting entry `i`, which stores the circle it draws and otherwise keeps a held
      overlay, and changes no other fence, keeps every visited drawing entry holding
      its own circle. */
  lemma HoldingStep(codes: StatusCodes, response: FenceListResponse, fs: seq<CircleFenceInfo>,
                    overlays0: seq<Option<Handle>>, slots: seq<nat>, overlays: seq<Option<Handle>>,
                    overlays': seq<Option<Handle>>, i: nat)
    requires i < |fs| && |overlays0| == |slots| == |overlays| == |overlays'| == |fs|
    requires Holding(codes, response, fs, overlays0, slots, overlays, i)
    requires DrawsAt(codes, response, fs, overlays0, i) ==> overlays'[i] == Some(Handle(slots[i]))
    requires overlays[i].Some? ==> overlays'[i] == overlays[i]
    requires forall k :: 0 <= k < |fs| && fs[k] == fs[i] ==> overlays[k] == overlays[i] && overlays'[k] == overlays'[i]
    requires forall k :: 0 <= k < |fs| && fs[k] != fs[i] ==> overlays'[k] == overlays[k]
    ensures Holding(codes, response, fs, overlays0, slots, overlays', i + 1)
  {
    forall k | 0 <= k < i + 1 && k < |fs| && DrawsAt(codes, response, fs, overlays0, k)
      ensures overlays'[k] == Some(Handle(slots[k]))
    {
      if k < i && fs[k] == fs[i] {
        assert overlays[i] == overlays[k];
      }
    }
  }

  /** The callback's visit to entry `i`, stated on the ids and overlays before it
      (`ids`, `overlays`) and after it (`ids'`, `overlays'`): the visit settles and keeps
      that fence, stores the circle it draws on handle `slots[i]`, and changes no other
      fence. It draws exactly when `DrawsAt` says so, and moves both the progress and
      the held circles on by one entry. */
  lemma VisitStep(codes: StatusCodes, response: FenceListResponse, fs: seq<CircleFenceInfo>,
                  ids0: seq<int>, overlays0: seq<Option<Handle>>, slots: seq<nat>,
                  ids: seq<int>, overlays: seq<Option<Handle>>, ids': seq<int>, overlays': seq<Option<Handle>>, i: nat)
    requires i < |fs| && |ids0| == |overlays0| == |slots| == |ids| == |overlays| == |ids'| == |overlays'| == |fs|
    requires Progress(codes, response, fs, ids0, overlays0, ids, overlays, i)
    requires Holding(codes, response, fs, overlays0, slots, overlays, i)
    requires Settled(codes, response, fs[i].name, ids'[i], overlays'[i])
    requires Kept(codes, response, fs[i].name, ids[i], overlays[i], ids'[i], overlays'[i])
    requires MatchFor(codes, response, fs[i].name).Some? && overlays[i].None? ==> overlays'[i] == Some(Handle(slots[i]))
    requires forall k :: 0 <= k < |fs| && fs[k] == fs[i] ==>
               ids[k] == ids[i] && overlays[k] == overlays[i] && ids'[k] == ids'[i] && overlays'[k] == overlays'[i]
    requires forall k :: 0 <= k < |fs| && fs[k] != fs[i] ==> ids'[k] == ids[k] && overlays'[k] == overlays[k]
    ensures DrawsAt(codes, response, fs, overlays0, i) == (MatchFor(codes, response, fs[i].name).Some? && overlays[i].None?)
    ensures Progress(codes, response, fs, ids0, overlays0, ids', overlays', i + 1)
    ensures Holding(codes, response, fs, overlays0, slots, overlays', i + 1)
  {
    DrawsAtVisit(codes, response, fs, ids0, overlays0, ids, overlays, i);
    ProgressStep(codes, response, fs, ids0, overlays0, ids, overlays, ids', overlays', i);
    HoldingStep(codes, response, fs, overlays0, slots, overlays, overlays', i);
  }

  /** The map log after the callback's visit to entry `i`, which draws that entry's
      circle exactly when `DrawsAt` holds, holds the circles of the first `i + 1` entries. */
  lemma DrawsAdvance(codes: StatusCodes, response: FenceListResponse, fs: seq<CircleFenceInfo>,
                     overlays0: seq<Option<Handle>>, serial0: nat, i: nat, mcalls0: seq<MapCall>,
                     callsBefore: seq<MapCall>, serialBefore: nat, callsAfter: seq<MapCall>, serialAfter: nat)
    requires i < |fs| && |overlays0| == |fs|
    requires callsBefore == mcalls0 + Draws(codes, response, fs[..i], overlays0[..i], serial0)
    requires serialBefore == serial0 + |Draws(codes, response, fs[..i], overlays0[..i], serial0)|
    requires var drawn := DrawsAt(codes, response, fs, overlays0, i);
             && callsAfter == callsBefore + (if drawn then [CircleFor(fs[i], Handle(serialBefore))] else [])
             && serialAfter == serialBefore + (if drawn then 1 else 0)
    ensures callsAfter == mcalls0 + Draws(codes, response, fs[..i + 1], overlays0[..i + 1], serial0)
    ensures serialAfter == serial0 + |Draws(codes, response, fs[..i + 1], overlays0[..i + 1], serial0)|
  {
    DrawsStep(codes, response, fs, overlays0, serial0, i);
  }

  /** Every circle the fence-list callback draws belongs to a registry entry that
      draws, and is numbered by its place in the sequence of drawn circles. */
  lemma {:induction false} DrawsSound(codes: StatusCodes, response: FenceListResponse, fs: seq<CircleFenceInfo>,
                                      overlays0: seq<Option<Handle>>, serial0: nat)
    requires |overlays0| == |fs|
    ensures forall j :: 0 <= j < |Draws(codes, response, fs, overlays0, serial0)| ==>
              exists k: nat :: k < |fs| && DrawsAt(codes, response, fs, overlays0, k)
                && Draws(codes, response, fs, overlays0, serial0)[j] == CircleFor(fs[k], Handle(serial0 + j))
  {
    var d := Draws(codes, response, fs, overlays0, serial0);
    if fs == [] {
      assert d == [];
    } else {
      var n := |fs| - 1;
      var front := Draws(codes, response, fs[..n], overlays0[..n], serial0);
      DrawsSound(codes, response, fs[..n], overlays0[..n], serial0);
      assert d[..|front|] == front;
      forall j | 0 <= j < |d|
        ensures exists k: nat :: k < |fs| && DrawsAt(codes, response, fs, overlays0, k) && d[j] == CircleFor(fs[k], Handle(serial0 + j))
      {
        if j < |front| {
          assert d[j] == front[j];
          var k: nat :| k < |fs[..n]| && DrawsAt(codes, response, fs[..n], overlays0[..n], k)
            && Draws(codes, response, fs[..n], overlays0[..n], serial0)[j] == CircleFor(fs[..n][k], Handle(serial0 + j));
          DrawsAtPrefix(codes, response, fs, overlays0, n, k);
          assert d[j] == CircleFor(fs[k], Handle(serial0 + j));
        } else {
          assert d[j] == CircleFor(fs[n], Handle(serial0 + j));
        }
      }
    }
  }

  /** The circles drawn for a front part of the registry come first. */
  lemma {:induction false} DrawsPrefix(codes: StatusCodes, response: FenceListResponse, fs: seq<CircleFenceInfo>,
                                       overlays0: seq<Option<Handle>>, serial0: nat, m: nat)
    requires m <= |fs| && |overlays0| == |fs|
    ensures Draws(codes, response, fs[..m], overlays0[..m], serial0) <= Draws(codes, response, fs, overlays0, serial0)
  {
    if m < |fs| {
      var n := |fs| - 1;
      DrawsPrefix(codes, response, fs[..n], overlays0[..n], serial0, m);
      assert fs[..n][..m] == fs[..m] && overlays0[..n][..m] == overlays0[..m];
    } else {
      assert fs[..m] == fs && overlays0[..m] == overlays0;
    }
  }

  /** Every registry entry that draws gets its circle, numbered after the circles of
      the entries before it. */
  lemma DrawsComplete(codes: StatusCodes, response: FenceListResponse, fs: seq<CircleFenceInfo>,
                      overlays0: seq<Option<Handle>>, serial0: nat)
    requires |overlays0| == |fs|
    ensures forall k :: 0 <= k < |fs| && DrawsAt(codes, response, fs, overlays0, k) ==>
              var before := |Draws(codes, response, fs[..k], overlays0[..k], serial0)|;
              before < |Draws(codes, response, fs, overlays0, serial0)|
              && Draws(codes, response, fs, overlays0, serial0)[before] == CircleFor(fs[k], Handle(serial0 + before))
  {
    forall k | 0 <= k < |fs| && DrawsAt(codes, response, fs, overlays0, k)
      ensures var before := |Draws(codes, response, fs[..k], overlays0[..k], serial0)|;
              before < |Draws(codes, response, fs, overlays0, serial0)|
              && Draws(codes, response, fs, overlays0, serial0)[before] == CircleFor(fs[k], Handle(serial0 + before))
    {
      DrawsStep(codes, response, fs, overlays0, serial0, k);
      DrawsPrefix(codes, response, fs, overlays0, serial0, k + 1);
    }
  }

  class MyTraceUtils {
    const codes: StatusCodes
    var baiduMap: BaiduMap?                 // lateinit, set by Init
    var serviceId: int
    var myEntityName: string
    /** The (serviceId, entityName) the lazily built `Trace` object captured on first use. */
    var traceIdentity: Option<(int, string)>
    var sequence: Int32                     // mSequenceGenerator
    var fences: seq<CircleFenceInfo>        // mFenceInfoList
    var flags: Flags                        // the two persisted booleans
    ghost var traceCalls: seq<TraceCall>
    ghost var posts: seq<Post>

    /** The persisted flags outlive the process, so a new controller starts from whatever was stored. */
    constructor (codes: StatusCodes, persisted: Flags)
      ensures this.codes == codes && flags == persisted
      ensures baiduMap == null && serviceId == 0 && myEntityName == "" && traceIdentity == None
      ensures sequence == 0 && fences == [] && traceCalls == [] && posts == []
    {
      this.codes := codes;
      flags := persisted;
      baiduMap := null;
      serviceId := 0;
      myEntityName := "";
      traceIdentity := None;
      sequence := 0;
      fences := [];
      traceCalls := [];
      posts := [];
    }

    /** `init`: records the map and identity, clears both persisted flags, configures the client. */
    method Init(baiduMap: BaiduMap, serviceId: int, myEntityName: string)
      modifies this, baiduMap`calls
      ensures this.baiduMap == baiduMap && this.serviceId == serviceId && this.myEntityName == myEntityName
      ensures flags == Flags(false, false)
      ensures traceCalls == old(traceCalls) + [TraceCall.SetInterval(DefaultGatherInterval, DefaultPackInterval), SetTraceListener, SetProtocolHttp]
      ensures baiduMap.calls == old(baiduMap.calls) + [MapClickListenerSet]
      ensures traceIdentity == old(traceIdentity) && sequence == old(sequence) && fences == old(fences) && posts == old(posts)
    {
      this.baiduMap := baiduMap;
      this.serviceId := serviceId;
      this.myEntityName := myEntityName;
      flags := Flags(false, false);
      traceCalls := traceCalls + [TraceCall.SetInterval(DefaultGatherInterval, DefaultPackInterval), SetTraceListener, SetProtocolHttp];
      baiduMap.calls := baiduMap.calls + [MapClickListenerSet];
    }

    /** `getTag`: the next counter value. */
    method GetTag() returns (tag: Int32)
      modifies this`sequence
      ensures sequence == NextTag(old(sequence)) && tag == sequence
    {
      sequence := NextTag(sequence);
      tag := sequence;
    }

    /** The lazily created `Trace` object fixes the identity it is first built with. */
    method TraceObject() returns (identity: (int, string))
      modifies this`traceIdentity
      ensures old(traceIdentity).Some? ==> identity == old(traceIdentity).value
      ensures old(traceIdentity).None? ==> identity == (serviceId, myEntityName)
      ensures traceIdentity == Some(identity)
    {
      if traceIdentity.None? {
        traceIdentity := Some((serviceId, myEntityName));
      }
      identity := traceIdentity.value;
    }

    method StartTrace()
      modifies this`traceIdentity, this`traceCalls
      ensures traceIdentity.Some? && (old(traceIdentity).Some? ==> traceIdentity == old(traceIdentity))
      ensures traceCalls == old(traceCalls) + [TraceCall.StartTrace(traceIdentity.value.0, traceIdentity.value.1)]
    {
      var identity := TraceObject();
      traceCalls := traceCalls + [TraceCall.StartTrace(identity.0, identity.1)];
    }

    method StopTrace()
      modifies this`traceIdentity, this`traceCalls
      ensures traceIdentity.Some? && (old(traceIdentity).Some? ==> traceIdentity == old(traceIdentity))
      ensures traceCalls == old(traceCalls) + [TraceCall.StopTrace(traceIdentity.value.0, traceIdentity.value.1)]
    {
      var identity := TraceObject();
      traceCalls := traceCalls + [TraceCall.StopTrace(identity.0, identity.1)];
    }

    method SetInterval(gatherInterval: int, packInterval: int)
      modifies this`traceCalls
      ensures traceCalls == old(traceCalls) + [TraceCall.SetInterval(gatherInterval, packInterval)]
    {
      traceCalls := traceCalls + [TraceCall.SetInterval(gatherInterval, packInterval)];
    }

    /** `destroy`: removes every registered fence's overlay, then stops the service. */
    method Destroy()
      requires baiduMap != null
      modifies this`traceIdentity, this`traceCalls, baiduMap`calls
      ensures baiduMap.calls == old(baiduMap.calls) + OverlayRemovals(fences)
      ensures traceIdentity.Some? && (old(traceIdentity).Some? ==> traceIdentity == old(traceIdentity))
      ensures traceCalls == old(traceCalls) + [TraceCall.StopTrace(traceIdentity.value.0, traceIdentity.value.1)]
    {
      var i := 0;
      while i < |fences|
        invariant 0 <= i <= |fences|
        invariant baiduMap.calls == old(baiduMap.calls) + OverlayRemovals(fences[..i])
        invariant traceCalls == old(traceCalls) && traceIdentity == old(traceIdentity)
      {
        fences[i].Destroy(baiduMap);
        assert fences[..i + 1][..i] == fences[..i];
        i := i + 1;
      }
      assert fences[..|fences|] == fences;
      StopTrace();
    }

    // ----- status callbacks -----

    method OnStartTraceCallback(status: int)
      modifies this`flags, this`traceCalls
      ensures flags == Step(codes, old(flags), StartTraceReply(status))
      ensures traceCalls == old(traceCalls) + (if Succeeded(codes, StartTraceReply(status)) then [StartGather] else [])
    {
      if status == codes.success || codes.startTraceNetworkConnectFailed <= status {
        flags := flags.(traceStarted := true);
        traceCalls := traceCalls + [StartGather];
      }
    }

    method OnStopTraceCallback(status: int)
      modifies this`flags
      ensures flags == Step(codes, old(flags), StopTraceReply(status))
    {
      if status == codes.success || status == codes.cacheTrackNotUpload {
        flags := Flags(false, false);
      }
    }

    method OnStartGatherCallback(status: int)
      modifies this`flags
      ensures flags == Step(codes, old(flags), StartGatherReply(status))
    {
      if status == codes.success || status == codes.gatherStarted {
        flags := flags.(gatherStarted := true);
      }
    }

    method OnStopGatherCallback(status: int)
      modifies this`flags
      ensures flags == Step(codes, old(flags), StopGatherReply(status))
    {
      if status == codes.success || status == codes.gatherStopped {
        flags := flags.(gatherStarted := false);
      }
    }

    /** `onPushCallback`: only message numbers 0x03 and 0x04 (fence alarms) are handled. */
    method OnPushCallback(messageNo: Byte, alarm: FenceAlarm)
      modifies this`posts
      ensures messageNo < 0x03 || messageNo > 0x04 || alarm.action == OtherAction ==> posts == old(posts)
      ensures 0x03 <= messageNo <= 0x04 && alarm.action == Enter ==>
                posts == old(posts) + [Post(MoveInFence, FenceWithId(fences, alarm.fenceId))]
      ensures 0x03 <= messageNo <= 0x04 && alarm.action == Exit ==>
                posts == old(posts) + [Post(MoveOutFence, FenceWithId(fences, alarm.fenceId))]
    {
      if messageNo < 0x03 || messageNo > 0x04 {
        return;
      }
      var fence := FenceWithId(fences, alarm.fenceId);
      match alarm.action {
        case Enter => posts := posts + [Post(MoveInFence, fence)];
        case Exit => posts := posts + [Post(MoveOutFence, fence)];
        case OtherAction =>
      }
    }

    /** The map-click listener installed by `init`. */
    method OnMapClick(point: Option<LatLng>, distance: (LatLng, LatLng) -> real)
      modifies this`posts
      ensures posts == old(posts) + ClickPosts(fences, point, distance)
    {
      var fs := fences;
      for i := 0 to |fs|
        invariant posts == old(posts) + ClickPosts(fs[..i], point, distance)
      {
        ClickPostsStep(fs, i, point, distance);
        if fs[i].IsClickedInOverlay(point, distance) {
          posts := posts + [Post(ClickFenceOverlay, fs[i])];
        }
      }
      assert fs[..|fs|] == fs;
    }

    // ----- queries -----

    /** `getCurrentLocation`: the corrected latest point when the network is up and
        both trace and gather are recorded as started; a real-time location otherwise. */
    method GetCurrentLocation(networkAvailable: bool)
      modifies this`sequence, this`traceCalls
      ensures networkAvailable && flags.traceStarted && flags.gatherStarted ==>
                && sequence == NextTag(old(sequence))
                && traceCalls == old(traceCalls) + [QueryLatestPoint(sequence, serviceId, myEntityName, LatestPointRadiusThreshold)]
      ensures !(networkAvailable && flags.traceStarted && flags.gatherStarted) ==>
                sequence == old(sequence) && traceCalls == old(traceCalls) + [QueryRealTimeLoc(serviceId)]
    {
      if networkAvailable && flags.traceStarted && flags.gatherStarted {
        var tag := GetTag();
        traceCalls := traceCalls + [QueryLatestPoint(tag, serviceId, myEntityName, LatestPointRadiusThreshold)];
      } else {
        traceCalls := traceCalls + [QueryRealTimeLoc(serviceId)];
      }
    }

    method QueryHistoryTrack(startTime: int, endTime: int, isProcessed: bool)
      modifies this`sequence, this`traceCalls
      ensures sequence == NextTag(old(sequence))
      ensures traceCalls == old(traceCalls) + [TraceCall.QueryHistoryTrack(sequence, serviceId, myEntityName, startTime, endTime, isProcessed)]
    {
      var tag := GetTag();
      traceCalls := traceCalls + [TraceCall.QueryHistoryTrack(tag, serviceId, myEntityName, startTime, endTime, isProcessed)];
    }

    /** `queryDistance` passes `android.R.attr.tag` as its tag, so the counter does not move. */
    method QueryDistance(startTime: int, endTime: int, isProcessed: bool)
      modifies this`traceCalls
      ensures traceCalls == old(traceCalls) + [QueryDistanceWithAttrTag(serviceId, myEntityName, startTime, endTime, isProcessed)]
    {
      traceCalls := traceCalls + [QueryDistanceWithAttrTag(serviceId, myEntityName, startTime, endTime, isProcessed)];
    }

    method QueryFenceHistoryAlarmInfo(startTime: int, endTime: int)
      modifies this`sequence, this`traceCalls
      ensures sequence == NextTag(old(sequence))
      ensures traceCalls == old(traceCalls) + [QueryFenceHistoryAlarm(sequence, serviceId, startTime, endTime, myEntityName, FenceIds(fences))]
    {
      var tag := GetTag();
      traceCalls := traceCalls + [QueryFenceHistoryAlarm(tag, serviceId, startTime, endTime, myEntityName, FenceIds(fences))];
    }

    method QueryMonitoredStatus()
      modifies this`sequence, this`traceCalls
      ensures sequence == NextTag(old(sequence))
      ensures traceCalls == old(traceCalls) + [TraceCall.QueryMonitoredStatus(sequence, serviceId, myEntityName, FenceIds(fences))]
    {
      var tag := GetTag();
      traceCalls := traceCalls + [TraceCall.QueryMonitoredStatus(tag, serviceId, myEntityName, FenceIds(fences))];
    }

    // ----- fence registry -----

    /** `createLocalFences`: an empty list is ignored; otherwise the registry becomes
        exactly the list and the service is asked for its local fences. */
    method CreateLocalFences(fenceList: seq<CircleFenceInfo>)
      modifies this`fences, this`sequence, this`traceCalls
      ensures fenceList == [] ==>
                fences == old(fences) && sequence == old(sequence) && traceCalls == old(traceCalls)
      ensures fenceList != [] ==>
                && fences == fenceList
                && sequence == NextTag(old(sequence))
                && traceCalls == old(traceCalls) + [QueryFenceList(sequence, serviceId, myEntityName)]
    {
      if |fenceList| == 0 {
        return;
      }
      fences := fenceList;
      var tag := GetTag();
      traceCalls := traceCalls + [QueryFenceList(tag, serviceId, myEntityName)];
    }

    /** `createLocalFence`: asks the service to create `fence` as a local circle fence. */
    method CreateLocalFence(fence: CircleFenceInfo)
      modifies this`sequence, this`traceCalls
      ensures sequence == NextTag(old(sequence))
      ensures traceCalls == old(traceCalls) + [CreateRequest(sequence, serviceId, myEntityName, SpecOf(fence))]
    {
      var tag := GetTag();
      var center := LatLng(if fence.latLng.Some? then fence.latLng.value.latitude else 0.0,
                           if fence.latLng.Some? then fence.latLng.value.longitude else 0.0);
      traceCalls := traceCalls + [CreateLocalCircleFence(tag, serviceId, fence.name, myEntityName, center,
                                                         fence.radius as real, FenceDenoise)];
    }

    /** Fence `i` of the fence-list callback, `f`, whose create values are `specs[i]`:
        a name the response lists gives the fence that entry's id and its overlay; any
        other fence is sent to the service under the next counter value. */
    method ReconcileFence(f: CircleFenceInfo, response: FenceListResponse, ghost specs: seq<FenceSpec>, ghost i: nat,
                          ghost t0: Int32, ghost calls0: seq<TraceCall>)
      requires baiduMap != null && i < |specs| && specs[i] == SpecOf(f)
      requires traceCalls == calls0 + Reconcile(codes, response, serviceId, myEntityName, specs[..i], t0).requests
      requires sequence == Reconcile(codes, response, serviceId, myEntityName, specs[..i], t0).tag
      modifies this`sequence, this`traceCalls, f`id, f`fenceOverlay, baiduMap
      ensures traceCalls == calls0 + Reconcile(codes, response, serviceId, myEntityName, specs[..i + 1], t0).requests
      ensures sequence == Reconcile(codes, response, serviceId, myEntityName, specs[..i + 1], t0).tag
      ensures Settled(codes, response, f.name, f.id, f.fenceOverlay)
      ensures Kept(codes, response, f.name, old(f.id), old(f.fenceOverlay), f.id, f.fenceOverlay)
      ensures var drawn := MatchFor(codes, response, f.name).Some? && old(f.fenceOverlay).None?;
              && baiduMap.calls == old(baiduMap.calls) + (if drawn then [CircleFor(f, Handle(old(baiduMap.nextSerial)))] else [])
              && baiduMap.nextSerial == old(baiduMap.nextSerial) + (if drawn then 1 else 0)
              && (drawn ==> f.fenceOverlay == Some(Handle(old(baiduMap.nextSerial))))
    {
      assert specs[..i + 1][..i] == specs[..i];
      var k := MatchFor(codes, response, f.name);
      if k.Some? {
        f.id := response.fenceInfos[k.value].fenceId;
        f.CreateOverlay(baiduMap);
      } else {
        CreateLocalFence(f);
      }
    }

    /** One step of the fence-list callback over the snapshot `fs`: fence `i` is
        reconciled, which moves the callback's progress on by one entry and adds that
        entry's circle, if it draws one, to the map. */
    method ReconcileAt(fs: seq<CircleFenceInfo>, i: nat, f: CircleFenceInfo, response: FenceListResponse, ghost specs: seq<FenceSpec>,
                       ghost ids0: seq<int>, ghost overlays0: seq<Option<Handle>>, ghost t0: Int32, ghost calls0: seq<TraceCall>,
                       ghost mcalls0: seq<MapCall>, ghost serial0: nat, ghost slots: seq<nat>)
      requires baiduMap != null && i < |fs| && f == fs[i] && specs == Specs(fs) && |ids0| == |overlays0| == |fs|
      requires traceCalls == calls0 + Reconcile(codes, response, serviceId, myEntityName, specs[..i], t0).requests
      requires sequence == Reconcile(codes, response, serviceId, myEntityName, specs[..i], t0).tag
      requires Progress(codes, response, fs, ids0, overlays0, FenceIds(fs), Overlays(fs), i)
      requires baiduMap.calls == mcalls0 + Draws(codes, response, fs[..i], overlays0[..i], serial0)
      requires baiduMap.nextSerial == serial0 + |Draws(codes, response, fs[..i], overlays0[..i], serial0)|
      requires |slots| == |fs| && slots[i] == baiduMap.nextSerial
      requires Holding(codes, response, fs, overlays0, slots, Overlays(fs), i)
      modifies this`sequence, this`traceCalls, f`id, f`fenceOverlay, baiduMap
      ensures traceCalls == calls0 + Reconcile(codes, response, serviceId, myEntityName, specs[..i + 1], t0).requests
      ensures sequence == Reconcile(codes, response, serviceId, myEntityName, specs[..i + 1], t0).tag
      ensures Progress(codes, response, fs, ids0, overlays0, FenceIds(fs), Overlays(fs), i + 1)
      ensures baiduMap.calls == mcalls0 + Draws(codes, response, fs[..i + 1], overlays0[..i + 1], serial0)
      ensures baiduMap.nextSerial == serial0 + |Draws(codes, response, fs[..i + 1], overlays0[..i + 1], serial0)|
      ensures Holding(codes, response, fs, overlays0, slots, Overlays(fs), i + 1)
    {
      ghost var ids, overlays := FenceIds(fs), Overlays(fs);
      ghost var callsBefore, serialBefore := baiduMap.calls, baiduMap.nextSerial;
      ReconcileFence(f, response, specs, i, t0, calls0);
      ghost var ids', overlays' := FenceIds(fs), Overlays(fs);
      forall k | 0 <= k < |fs| && fs[k] != f
        ensures ids'[k] == ids[k] && overlays'[k] == overlays[k]
      {
        assert fs[k].id == old(fs[k].id) && fs[k].fenceOverlay == old(fs[k].fenceOverlay);
      }
      forall k | 0 <= k < |fs| && fs[k] == f
        ensures ids[k] == ids[i] && overlays[k] == overlays[i] && ids'[k] == ids'[i] && overlays'[k] == overlays'[i]
      {
      }
      VisitStep(codes, response, fs, ids0, overlays0, slots, ids, overlays, ids', overlays', i);
      DrawsAdvance(codes, response, fs, overlays0, serial0, i, mcalls0, callsBefore, serialBefore, baiduMap.calls, baiduMap.nextSerial);
    }

    /** The fence-list callback's loop over the registry snapshot `fs`, fence by fence. */
    method ReconcileAll(fs: seq<CircleFenceInfo>, response: FenceListResponse, ghost specs: seq<FenceSpec>)
      requires baiduMap != null && specs == Specs(fs)
      modifies this`sequence, this`traceCalls, baiduMap, fs`id, fs`fenceOverlay
      ensures traceCalls == old(traceCalls) + Reconcile(codes, response, serviceId, myEntityName, specs, old(sequence)).requests
      ensures sequence == Reconcile(codes, response, serviceId, myEntityName, specs, old(sequence)).tag
      ensures forall k :: 0 <= k < |fs| ==> Settled(codes, response, fs[k].name, fs[k].id, fs[k].fenceOverlay)
      ensures forall k :: 0 <= k < |fs| ==>
                Kept(codes, response, fs[k].name, old(fs[k].id), old(fs[k].fenceOverlay), fs[k].id, fs[k].fenceOverlay)
      ensures baiduMap.calls == old(baiduMap.calls) + Draws(codes, response, fs, old(Overlays(fs)), old(baiduMap.nextSerial))
      ensures baiduMap.nextSerial == old(baiduMap.nextSerial) + |Draws(codes, response, fs, old(Overlays(fs)), old(baiduMap.nextSerial))|
      ensures Holding(codes, response, fs, old(Overlays(fs)), Slots(codes, response, fs, old(Overlays(fs)), old(baiduMap.nextSerial)),
                      Overlays(fs), |fs|)
    {
      ghost var ids0 := FenceIds(fs);
      ghost var overlays0 := Overlays(fs);
      ghost var t0 := sequence;
      ghost var calls0 := traceCalls;
      ghost var mcalls0 := baiduMap.calls;
      ghost var serial0 := baiduMap.nextSerial;
      ghost var slots := Slots(codes, response, fs, overlays0, serial0);
      for i := 0 to |fs|
        invariant traceCalls == calls0 + Reconcile(codes, response, serviceId, myEntityName, specs[..i], t0).requests
        invariant sequence == Reconcile(codes, response, serviceId, myEntityName, specs[..i], t0).tag
        invariant Progress(codes, response, fs, ids0, overlays0, FenceIds(fs), Overlays(fs), i)
        invariant baiduMap.calls == mcalls0 + Draws(codes, response, fs[..i], overlays0[..i], serial0)
        invariant baiduMap.nextSerial == serial0 + |Draws(codes, response, fs[..i], overlays0[..i], serial0)|
        invariant Holding(codes, response, fs, overlays0, slots, Overlays(fs), i)
      {
        assert slots[i] == serial0 + |Draws(codes, response, fs[..i], overlays0[..i], serial0)|;
        ReconcileAt(fs, i, fs[i], response, specs, ids0, overlays0, t0, calls0, mcalls0, serial0, slots);
      }
      assert specs[..|fs|] == specs && fs[..|fs|] == fs && overlays0[..|fs|] == overlays0;
    }

    /** The fence-list callback: a registered fence whose name the (usable) response
        lists takes the id of the first such entry and gets its overlay; every other
        registered fence gets a create request, in registry order. */
    method OnFenceListCallback(response: FenceListResponse)
      requires baiduMap != null
      modifies this`sequence, this`traceCalls, baiduMap, fences`id, fences`fenceOverlay
      ensures traceCalls == old(traceCalls)
                + CreateRequests(serviceId, myEntityName, Unmatched(codes, response, Specs(fences)), old(sequence))
      ensures sequence == TagAfter(old(sequence), |Unmatched(codes, response, Specs(fences))|)
      ensures forall k :: 0 <= k < |fences| ==> Settled(codes, response, fences[k].name, fences[k].id, fences[k].fenceOverlay)
      ensures forall k :: 0 <= k < |fences| ==>
                Kept(codes, response, fences[k].name, old(fences[k].id), old(fences[k].fenceOverlay), fences[k].id, fences[k].fenceOverlay)
      ensures baiduMap.calls == old(baiduMap.calls) + Draws(codes, response, fences, old(Overlays(fences)), old(baiduMap.nextSerial))
      ensures baiduMap.nextSerial
                == old(baiduMap.nextSerial) + |Draws(codes, response, fences, old(Overlays(fences)), old(baiduMap.nextSerial))|
      ensures Holding(codes, response, fences, old(Overlays(fences)),
                      Slots(codes, response, fences, old(Overlays(fences)), old(baiduMap.nextSerial)), Overlays(fences), |fences|)
    {
      var fs := fences;
      ReconcileSendsUnmatched(codes, response, serviceId, myEntityName, Specs(fs), sequence);
      ReconcileAll(fs, response, Specs(fs));
    }

    /** The create-fence callback for `fence`: only SUCCESS assigns the id and draws the overlay. */
    method OnCreateFenceCallback(fence: CircleFenceInfo, status: int, fenceId: int)
      requires baiduMap != null
      modifies fence`id, fence`fenceOverlay, baiduMap
      ensures status != codes.success ==>
                && fence.id == old(fence.id) && fence.fenceOverlay == old(fence.fenceOverlay)
                && baiduMap.calls == old(baiduMap.calls) && baiduMap.nextSerial == old(baiduMap.nextSerial)
      ensures status == codes.success ==>
                && fence.id == fenceId
                && fence.fenceOverlay == (if old(fence.fenceOverlay).Some? then old(fence.fenceOverlay)
                                          else Some(Handle(old(baiduMap.nextSerial))))
                && baiduMap.calls == old(baiduMap.calls)
                   + (if old(fence.fenceOverlay).None? then [CircleFor(fence, Handle(old(baiduMap.nextSerial)))] else [])
                && baiduMap.nextSerial == old(baiduMap.nextSerial) + (if old(fence.fenceOverlay).None? then 1 else 0)
    {
      if status != codes.success {
        return;
      }
      fence.id := fenceId;
      fence.CreateOverlay(baiduMap);
    }
  }

  /** The overlay removals `destroy` makes, fence by fence. */
  function OverlayRemovals(fences: seq<CircleFenceInfo>): seq<MapCall>
    reads fences
  {
    if fences == [] then []
    else
      var last := fences[|fences| - 1];
      OverlayRemovals(fences[..|fences| - 1])
        + (if last.fenceOverlay.Some? then [OverlayRemoved(last.fenceOverlay.value)] else [])
  }
}
