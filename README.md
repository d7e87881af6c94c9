# Location library: fences, trace flags and marker bookkeeping

A Dafny model of the bookkeeping at the core of the `com.like.location` Android
library. The library is glue over the Baidu map and trace ("Yingyan") SDKs. The
model keeps the library's own logic and treats every SDK object (the map, an
overlay, a marker, the trace client) as an opaque handle. Every SDK call is
recorded in a ghost log.

- `Wrappers` holds nullable values (`Option`), a thrown-or-not outcome and
  lists without repeats.
- `Sdk` holds coordinates, handles, overlay options, the log of map calls and a
  `BaiduMap` that hands out fresh handles.
- `Fence` models `CircleFenceInfo`: a named circular geofence with the id the
  trace service gave it and the circle overlay drawn for it. The overlay is drawn
  at most once. The click test is false when either point is missing.
- `Trace` models `MyTraceUtils`, the trace controller. It covers:
  - the two persisted flags (trace started, gather started), driven by the SDK's
    status callbacks, as a state machine;
  - the 32-bit request counter;
  - the fence registry, reconciled against the fences the trace service knows;
  - fence-alarm pushes and map clicks turned into event-bus posts.
- `SharedLocation` models `SharedLocationUtils`, which shows other people's
  positions as markers. An entity-list response removes the markers of entities
  that went offline, moves the markers of entities still online and draws a
  marker for each reported registered entity that has none. A registered entity
  the response does not list is never drawn. The marker sync is also
  stated on values (`Scene`, `PlaceAll`), and the class's methods are proved
  against it. The file also covers handing the fences over once and centring the
  map on a fence.
- `MarkerRegistry` models `MarkerManager`, a list of `MarkerInfo` entries keyed
  by entity name. Lookups find the first match, removal takes out only the first
  match, and clearing removes every entry's marker.
- `MarkerSet` models `MarkerUtils`, a set of live markers with add, remove and
  clear, and null-safe click and drag delegation.

State the source changes in place is kept in classes with `modifies` frames.
Loops become `for`/`while` loops proved against specification functions, and
those functions carry lemmas for the properties the library promises.

The SDK's status codes (`SUCCESS`, `START_TRACE_NETWORK_CONNECT_FAILED`, …) are
kept symbolic in `Trace.StatusCodes`. Distances are a function-valued parameter.

When an entity stops reporting, the code removes only its marker
(`SharedLocationUtils.kt`, lines 213-217) and keeps its `MarkerInfo` registered,
so it is placed again when it reports again. `SharedLocation.EntityListSync`
states this, and `markerInfos` never shrinks.

Points where the code is easy to misread, modelled as written:
- a map click posts every fence it falls in, because `return@forEach` only moves
  on to the next fence;
- `queryDistance` sends the platform constant `android.R.attr.tag` rather than a
  counter value, so the counter does not move;
- every non-empty `setMarkerList` starts a new periodic query and overwrites
  `disposable`, so `onDestroy` stops only the newest query and the earlier
  ones keep running;
- `SharedLocationUtils` talks to a `TraceUtils` class whose source is entirely
  commented out, so its requests to that helper are modelled only as a log
  (`SharedLocation.TraceRequest`).

## Model

| member | source | states |
|---|---|---|
| Fence.CircleFenceInfo.constructor | location/src/main/java/com/like/location/entity/CircleFenceInfo.kt:19-35 | a fresh fence has id 0 and no overlay; by default an empty name, no centre and radius 0 |
| Fence.CircleFenceInfo.IsClickedInOverlay | location/src/main/java/com/like/location/entity/CircleFenceInfo.kt:41-46 | false when the fence centre or the clicked point is null; otherwise true exactly when the distance is at most the radius (inclusive) |
| Fence.CircleFenceInfo.Destroy | location/src/main/java/com/like/location/entity/CircleFenceInfo.kt:51-53 | removes the held overlay from the map and leaves the field as it was |
| Fence.CircleFenceInfo.CreateOverlay | location/src/main/java/com/like/location/entity/CircleFenceInfo.kt:58-67 | with an overlay held nothing changes; otherwise exactly one circle overlay is added with the fence's centre, radius and the default fill 0x6600A7FF, stroke width 1 and stroke colour rgb(0x00,0xA7,0xFF), and the fence holds it |
| Trace.Step | location/src/main/java/com/like/location/MyTraceUtils.kt:85-153 | a failed callback changes no flag; a successful start-trace sets only trace-started, a successful stop-trace clears both, start/stop-gather set/clear only gather-started |
| Trace.ReplayTraceStarted | location/src/main/java/com/like/location/MyTraceUtils.kt:85-115 | after `init` and any sequence of callbacks, trace-started holds exactly when some start-trace succeeded and no stop-trace succeeded after it |
| Trace.ReplayGatherStarted | location/src/main/java/com/like/location/MyTraceUtils.kt:106-153 | gather-started holds exactly when some start-gather succeeded and neither a stop-gather nor a stop-trace succeeded after it |
| Trace.TagAfterIsWrappedSum | location/src/main/java/com/like/location/MyTraceUtils.kt:568 | `incrementAndGet` applied n times gives the start value plus n wrapped to a signed 32-bit int |
| Trace.TagsDistinct | location/src/main/java/com/like/location/MyTraceUtils.kt:568 | any 2^32 consecutive request tags are pairwise distinct |
| Trace.FenceWithId | location/src/main/java/com/like/location/MyTraceUtils.kt:570-577 | the result is the first registered fence with that id; null exactly when no fence has it |
| Trace.FenceIds | location/src/main/java/com/like/location/MyTraceUtils.kt:579-586 | one id per registered fence, in registry order |
| Trace.ClickPostsExact | location/src/main/java/com/like/location/MyTraceUtils.kt:222-230 | every post of a map click is a click-fence-overlay post for a registered fence the click falls in, and every registered fence the click falls in is posted |
| Trace.EntryNamedIsFirst | location/src/main/java/com/like/location/MyTraceUtils.kt:508-510 | the entry matched to a fence is the first response entry with the fence's name; none exactly when no entry has it |
| Trace.UnmatchedMembers | location/src/main/java/com/like/location/MyTraceUtils.kt:502-523 | a fence is sent to the service exactly when the response is unusable or has no entry of its name |
| Trace.UnusableListCreatesAll | location/src/main/java/com/like/location/MyTraceUtils.kt:518-523 | a response that is not SUCCESS, is empty or is not of local fences sends every registered fence, in order |
| Trace.CreateRequestsNumbered | location/src/main/java/com/like/location/MyTraceUtils.kt:531-552 | the k-th create request is for the k-th unmatched fence and carries the counter's (k+1)-th next value |
| Trace.ReconcileSendsUnmatched | location/src/main/java/com/like/location/MyTraceUtils.kt:500-525 | the fence-list callback sends exactly the create requests of the unmatched fences, in order, and advances the counter once per request |
| Trace.DrawsStep | location/src/main/java/com/like/location/MyTraceUtils.kt:507-517 | visiting one more registry entry appends its default circle exactly when the response names it, it held no overlay before the callback and it is not a repeat of an earlier entry, on the handle after the circles already drawn |
| Trace.DrawsSound | location/src/main/java/com/like/location/MyTraceUtils.kt:502-523 | every circle the callback draws is the default circle of a registry entry the response names and that held no overlay, on the handle given by its place among the drawn circles |
| Trace.DrawsComplete | location/src/main/java/com/like/location/MyTraceUtils.kt:502-523 | every registry entry the response names and that held no overlay gets its circle, numbered after the circles of the entries before it |
| Trace.DrawsPrefix | location/src/main/java/com/like/location/MyTraceUtils.kt:502-523 | the circles drawn for a front part of the registry come first, in the same order |
| Trace.DrawsAtVisit | location/src/main/java/com/like/location/MyTraceUtils.kt:507-517 | when the loop reaches an entry, it draws exactly when the response names the fence and the fence holds no overlay yet; a repeated fence was already settled |
| Trace.DrawsAdvance | location/src/main/java/com/like/location/MyTraceUtils.kt:507-517 | after visiting entry i, the map log holds the circles of the first i+1 entries and the handle counter has advanced by their number |
| Trace.ProgressStep | location/src/main/java/com/like/location/MyTraceUtils.kt:507-517 | settling entry i, keeping it, and changing no other fence moves the loop's progress on by one entry |
| Trace.SlotsNameCircles | location/src/main/java/com/like/location/MyTraceUtils.kt:507-517 | the handle in a drawing entry's slot is the handle of that entry's own circle among the circles the callback draws |
| Trace.HoldingStep | location/src/main/java/com/like/location/MyTraceUtils.kt:507-517 | visiting entry i, which stores the circle it draws, keeps a held overlay and changes no other fence, keeps every visited drawing entry holding its own circle |
| Trace.VisitStep | location/src/main/java/com/like/location/MyTraceUtils.kt:507-517 | a visit that settles and keeps fence i, stores the circle it draws and changes no other fence draws exactly when `DrawsAt` says, and moves the loop's progress and held circles on by one entry |
| Trace.MyTraceUtils.constructor | location/src/main/java/com/like/location/MyTraceUtils.kt:45-56 | a new controller has an empty registry and counter 0, and starts from the persisted flags |
| Trace.MyTraceUtils.Init | location/src/main/java/com/like/location/MyTraceUtils.kt:204-236 | `init` records map and identity, clears both flags, sets the default intervals, the listener and HTTP, and installs the map-click listener |
| Trace.MyTraceUtils.GetTag | location/src/main/java/com/like/location/MyTraceUtils.kt:568 | the counter is incremented (with 32-bit wrap) and the new value returned |
| Trace.MyTraceUtils.TraceObject | location/src/main/java/com/like/location/MyTraceUtils.kt:54 | the lazily built trace object keeps the service id and entity name it was first built with |
| Trace.MyTraceUtils.StartTrace | location/src/main/java/com/like/location/MyTraceUtils.kt:248-250 | exactly one start-trace request for the trace object's identity |
| Trace.MyTraceUtils.StopTrace | location/src/main/java/com/like/location/MyTraceUtils.kt:256-258 | exactly one stop-trace request for the trace object's identity |
| Trace.MyTraceUtils.SetInterval | location/src/main/java/com/like/location/MyTraceUtils.kt:291-293 | exactly one set-interval request with the given intervals |
| Trace.MyTraceUtils.Destroy | location/src/main/java/com/like/location/MyTraceUtils.kt:238-241 | every registered fence's overlay is removed, in order, then the service is stopped |
| Trace.MyTraceUtils.OnStartTraceCallback | location/src/main/java/com/like/location/MyTraceUtils.kt:85-93 | SUCCESS or any status at least START_TRACE_NETWORK_CONNECT_FAILED sets trace-started and issues exactly one start-gather; any other status changes nothing |
| Trace.MyTraceUtils.OnStopTraceCallback | location/src/main/java/com/like/location/MyTraceUtils.kt:106-115 | SUCCESS or CACHE_TRACK_NOT_UPLOAD clears both flags; any other status changes nothing |
| Trace.MyTraceUtils.OnStartGatherCallback | location/src/main/java/com/like/location/MyTraceUtils.kt:127-134 | SUCCESS or GATHER_STARTED sets only gather-started; any other status changes nothing |
| Trace.MyTraceUtils.OnStopGatherCallback | location/src/main/java/com/like/location/MyTraceUtils.kt:146-153 | SUCCESS or GATHER_STOPPED clears only gather-started; any other status changes nothing |
| Trace.MyTraceUtils.OnPushCallback | location/src/main/java/com/like/location/MyTraceUtils.kt:168-196 | a message number outside 0x03..0x04 or an action other than enter/exit posts nothing; enter posts move-in and exit posts move-out with the first fence of the alarm's id, or null |
| Trace.MyTraceUtils.OnMapClick | location/src/main/java/com/like/location/MyTraceUtils.kt:222-230 | the posts a click adds are the clicked fences, in registry order, one post each |
| Trace.MyTraceUtils.GetCurrentLocation | location/src/main/java/com/like/location/MyTraceUtils.kt:402-416 | a latest-point query with the next tag only when the network is up and both flags hold; otherwise a real-time location query and the counter does not move |
| Trace.MyTraceUtils.QueryHistoryTrack | location/src/main/java/com/like/location/MyTraceUtils.kt:306-348 | one history-track request carrying the next tag |
| Trace.MyTraceUtils.QueryDistance | location/src/main/java/com/like/location/MyTraceUtils.kt:360-397 | one distance request carrying `android.R.attr.tag`; the counter does not move |
| Trace.MyTraceUtils.QueryFenceHistoryAlarmInfo | location/src/main/java/com/like/location/MyTraceUtils.kt:424-452 | one alarm-history request carrying the next tag and the registered fence ids |
| Trace.MyTraceUtils.QueryMonitoredStatus | location/src/main/java/com/like/location/MyTraceUtils.kt:458-489 | one monitored-status request carrying the next tag and the registered fence ids |
| Trace.MyTraceUtils.CreateLocalFences | location/src/main/java/com/like/location/MyTraceUtils.kt:494-499 | an empty list changes nothing; otherwise the registry becomes exactly the list and one fence-list query with the next tag is sent |
| Trace.MyTraceUtils.CreateLocalFence | location/src/main/java/com/like/location/MyTraceUtils.kt:531-553 | one create request with the next tag, the fence's name and radius, the centre or (0, 0) when it is null, and denoise 30 |
| Trace.MyTraceUtils.ReconcileFence | location/src/main/java/com/like/location/MyTraceUtils.kt:507-517 | a fence the usable response names takes the first such entry's id; if it held no overlay, exactly one default circle at its centre and radius is added to the map on the next handle, and the fence holds that handle; any other fence sends its create request under the next tag and the map is untouched |
| Trace.MyTraceUtils.ReconcileAt | location/src/main/java/com/like/location/MyTraceUtils.kt:507-517 | one step of the callback's loop settles fence i, leaves every other fence's id and overlay as they were, extends the map log to the circles `Draws` gives for the first i+1 entries, and leaves fence i holding the handle of the circle drawn for it |
| Trace.MyTraceUtils.ReconcileAll | location/src/main/java/com/like/location/MyTraceUtils.kt:502-523 | the callback's loop over the registry settles every fence, keeps every unmatched fence unchanged, sends the reconciliation's requests, appends to the map log exactly the circles `Draws` gives, on consecutive new handles, and leaves every fence that drew holding its own circle's handle (`Holding` with `Slots`) |
| Trace.MyTraceUtils.OnFenceListCallback | location/src/main/java/com/like/location/MyTraceUtils.kt:500-525 | the client receives exactly the create requests of the unmatched fences, numbered by consecutive tags; every matched fence holds the first same-named entry's id and an overlay; unmatched fences keep their id and overlay; no drawn overlay is replaced; the map gets exactly the circles `Draws` gives, in registry order, on consecutive new handles; and each fence that drew holds the handle of its own circle, the one `destroy` later removes |
| Trace.MyTraceUtils.OnCreateFenceCallback | location/src/main/java/com/like/location/MyTraceUtils.kt:554-565 | only SUCCESS assigns the returned id and, unless the fence holds an overlay, adds exactly one default circle for it on the next handle; any other status leaves the fence and the map unchanged |
| SharedLocation.MarkerNamed | location/src/main/java/com/like/location/SharedLocationUtils.kt:246-251 | the marker found is in the list and belongs to that entity; null exactly when no marker does |
| SharedLocation.MarkerNamedIsFirst | location/src/main/java/com/like/location/SharedLocationUtils.kt:246-251 | the marker found is the first one of that entity in list order |
| SharedLocation.InfoNamed | location/src/main/java/com/like/location/SharedLocationUtils.kt:261-268 | the info found is the first registered one with that name; null exactly when none has it |
| SharedLocation.NamesOf | location/src/main/java/com/like/location/SharedLocationUtils.kt:253-259 | one name per registered info, in order |
| SharedLocation.EntityNames | location/src/main/java/com/like/location/SharedLocationUtils.kt:208-211 | one name per entity of the response, in order |
| SharedLocation.LastLocation | location/src/main/java/com/like/location/SharedLocationUtils.kt:219-239 | a response gives a location for a name exactly when it lists that name |
| SharedLocation.Subtract | location/src/main/java/com/like/location/SharedLocationUtils.kt:213 | Kotlin's `subtract`: each queried name missing from the response, once |
| SharedLocation.KeepMembers | location/src/main/java/com/like/location/SharedLocationUtils.kt:213-217 | after the offline pass a marker remains exactly when it was there and its entity is not offline |
| SharedLocation.KeepWellFormed | location/src/main/java/com/like/location/SharedLocationUtils.kt:213-217 | the offline pass keeps every marker's info registered and at most one marker per entity |
| SharedLocation.KeepLookup | location/src/main/java/com/like/location/SharedLocationUtils.kt:246-251 | removing other entities' markers does not change which marker a name finds |
| SharedLocation.KeepStep | location/src/main/java/com/like/location/SharedLocationUtils.kt:331-336 | removing the one marker of an offline entity is the offline pass for one more name |
| SharedLocation.OfflineRemovalsExact | location/src/main/java/com/like/location/SharedLocationUtils.kt:213-217 | the offline pass removes from the map every marker of an offline entity and no other marker |
| SharedLocation.Removals | location/src/main/java/com/like/location/SharedLocationUtils.kt:338-345 | one removal per marker, in list order |
| SharedLocation.AddIconMarkerKeepsOnePerEntity | location/src/main/java/com/like/location/SharedLocationUtils.kt:288-293 | `addIconMarker` never gives an entity a second marker, and afterwards the info's entity has one |
| SharedLocation.PlaceEntityEffect | location/src/main/java/com/like/location/SharedLocationUtils.kt:219-239 | placing one entity keeps the list well formed, only appends, leaves other entities' lookups alone, and gives a registered entity a marker whose info holds the reported coordinates |
| SharedLocation.MoveEffect | location/src/main/java/com/like/location/SharedLocationUtils.kt:223-230 | an entity with a marker: its info takes the coordinates, exactly one position change moves that marker to them, and the marker list and handle counter are unchanged |
| SharedLocation.DrawEffect | location/src/main/java/com/like/location/SharedLocationUtils.kt:231-237 | a registered entity without a marker gets exactly one new marker, on the next handle and for its first info, appended after the existing ones; the list stays well formed and other lookups are unchanged |
| SharedLocation.DrawLocated | location/src/main/java/com/like/location/SharedLocationUtils.kt:231-237 | that new marker is the one found for the entity and its info holds the reported coordinates |
| SharedLocation.PlaceAllShape | location/src/main/java/com/like/location/SharedLocationUtils.kt:219-239 | after all online entities the list is well formed, existing markers stay in order at the front, and new markers belong to reported entities |
| SharedLocation.PlaceAllLookups | location/src/main/java/com/like/location/SharedLocationUtils.kt:219-239 | an entity not in the response is looked up as before |
| SharedLocation.PlaceAllLocations | location/src/main/java/com/like/location/SharedLocationUtils.kt:219-239 | every registered, reported entity ends with a marker whose info holds the last coordinates reported for it |
| SharedLocation.EntityListSync | location/src/main/java/com/like/location/SharedLocationUtils.kt:207-239 | a non-empty response leaves no marker for a queried entity it leaves out, keeps every other marker, gives every registered reported entity a marker whose info holds its last reported coordinates, and leaves at most one marker per entity |
| SharedLocation.PositionOfAppend | location/src/main/java/com/like/location/SharedLocationUtils.kt:320-322 | a map call that neither adds nor moves a marker leaves where the log puts it; a position change or a marker add puts it at that call's position |
| SharedLocation.PositionOfRemovals | location/src/main/java/com/like/location/SharedLocationUtils.kt:331-345 | removing markers from the map moves no marker |
| SharedLocation.PlaceEntityPositions | location/src/main/java/com/like/location/SharedLocationUtils.kt:219-239 | placing one entity keeps the handles distinct and handed out by the map, puts a registered entity's marker at the reported location on the map, and leaves every other entity's marker where it was |
| SharedLocation.MovePositions | location/src/main/java/com/like/location/SharedLocationUtils.kt:223-230 | an entity with a marker: only that marker moves, to the reported location |
| SharedLocation.DrawPositions | location/src/main/java/com/like/location/SharedLocationUtils.kt:231-237 | a registered entity without a marker: the new marker, on a handle no marker had, is added at the reported location, and no other marker moves |
| SharedLocation.FreshAppend | location/src/main/java/com/like/location/SharedLocationUtils.kt:288-293 | a marker on the map's next handle keeps every marker's handle distinct and handed out by the map |
| SharedLocation.KeepFresh | location/src/main/java/com/like/location/SharedLocationUtils.kt:213-217 | the offline pass keeps every remaining marker's handle distinct and handed out by the map |
| SharedLocation.PlaceAllFresh | location/src/main/java/com/like/location/SharedLocationUtils.kt:219-239 | placing every online entity keeps the handles distinct and handed out by the map |
| SharedLocation.PlaceAllPositions | location/src/main/java/com/like/location/SharedLocationUtils.kt:219-239 | every registered reported entity ends with a marker that the map log last put at the last location reported for it |
| SharedLocation.PlaceAllStay | location/src/main/java/com/like/location/SharedLocationUtils.kt:219-239 | a marker of an entity the response does not list stays where it was on the map |
| SharedLocation.EntityListPositions | location/src/main/java/com/like/location/SharedLocationUtils.kt:207-239 | a non-empty response keeps the handles distinct, leaves every registered reported entity's marker on the map at its last reported location, and does not move a marker of an entity that was neither queried nor reported |
| SharedLocation.SharedLocationUtils.constructor | location/src/main/java/com/like/location/SharedLocationUtils.kt:94-95 | a new helper has no infos, no markers and no periodic query, and has asked the trace helper to start |
| SharedLocation.SharedLocationUtils.SetMarkerList | location/src/main/java/com/like/location/SharedLocationUtils.kt:113-119 | an empty list changes nothing; otherwise the infos go after the existing ones, in order, and one more periodic query starts, the earlier ones still running |
| SharedLocation.SharedLocationUtils.QueryMarkers | location/src/main/java/com/like/location/SharedLocationUtils.kt:198-201 | no query without registered names; otherwise one entity-list query of exactly the registered names, in order |
| SharedLocation.SharedLocationUtils.ChangeMarkerPosition | location/src/main/java/com/like/location/SharedLocationUtils.kt:320-322 | exactly one position change of that marker |
| SharedLocation.SharedLocationUtils.RemoveMarker | location/src/main/java/com/like/location/SharedLocationUtils.kt:331-336 | null changes nothing; otherwise the marker leaves the map and its first occurrence leaves the list |
| SharedLocation.SharedLocationUtils.ClearMarker | location/src/main/java/com/like/location/SharedLocationUtils.kt:338-345 | every marker leaves the map, in list order, and the list is empty |
| SharedLocation.SharedLocationUtils.AddIconMarker | location/src/main/java/com/like/location/SharedLocationUtils.kt:288-293 | a marker at z-index 9, not draggable, is drawn only when that info's entity has none |
| SharedLocation.SharedLocationUtils.PlaceEntity | location/src/main/java/com/like/location/SharedLocationUtils.kt:219-239 | the body of the second loop places one online entity exactly as `PlaceEntityIn` says on the whole scene |
| SharedLocation.SharedLocationUtils.PlaceEntities | location/src/main/java/com/like/location/SharedLocationUtils.kt:219-239 | the callback's second loop places each reported entity in order, as `PlaceAll` says, keeping the list well formed and the handles distinct |
| SharedLocation.SharedLocationUtils.RemoveOffline | location/src/main/java/com/like/location/SharedLocationUtils.kt:213-217 | the offline loop leaves exactly the markers of entities not offline and removes the others from the map |
| SharedLocation.SharedLocationUtils.OnEntityListCallback | location/src/main/java/com/like/location/SharedLocationUtils.kt:202-241 | a null or empty response removes every marker and leaves the list empty; otherwise the offline pass and then the placing of every entity, as `EntityListSync` and `EntityListPositions` describe, keeping the list well formed and the handles distinct |
| SharedLocation.SharedLocationUtils.CreateFences | location/src/main/java/com/like/location/SharedLocationUtils.kt:163-174 | only the first call with a non-empty list keeps it, hands it to the trace helper and centres the map on its first fence; every other call changes nothing |
| SharedLocation.SharedLocationUtils.SetMapCenterAt | location/src/main/java/com/like/location/SharedLocationUtils.kt:177-181 | nothing before fences exist; an index outside the list throws; otherwise the map is centred on that fence |
| SharedLocation.SharedLocationUtils.SetMapCenter | location/src/main/java/com/like/location/SharedLocationUtils.kt:184-189 | a null point is ignored; otherwise one animation to it at zoom 18 and overlook 0 |
| SharedLocation.SharedLocationUtils.OnDestroy | location/src/main/java/com/like/location/SharedLocationUtils.kt:379-397 | only the newest periodic query stops, so some query still runs exactly when an earlier one did; the trace helper is destroyed, the marker list is emptied and the map cleared |
| MarkerRegistry.FirstNamed | location/src/main/java/com/like/location/MarkerManager.kt:59-62 | the index found is the first entry with that name; None exactly when no entry has it |
| MarkerRegistry.FirstWithMarker | location/src/main/java/com/like/location/MarkerManager.kt:54-57 | the index found is the first entry holding that marker; None exactly when no entry holds it |
| MarkerRegistry.WithoutFirstNamedCuts | location/src/main/java/com/like/location/MarkerManager.kt:64-75 | removal takes out exactly the first entry of that name and keeps the others in order; an absent name changes nothing |
| MarkerRegistry.MarkerRemovalsExact | location/src/main/java/com/like/location/MarkerManager.kt:77-84 | clearing removes exactly the markers the entries hold |
| MarkerRegistry.MarkerManager.constructor | location/src/main/java/com/like/location/MarkerManager.kt:23 | a new registry is empty |
| MarkerRegistry.MarkerManager.AddMarkerList | location/src/main/java/com/like/location/MarkerManager.kt:25-27 | the given entries go after the existing ones, in order |
| MarkerRegistry.MarkerManager.GetEntityNames | location/src/main/java/com/like/location/MarkerManager.kt:50 | the names in registry order, one per entry |
| MarkerRegistry.MarkerManager.GetMarkerInfoByEntityName | location/src/main/java/com/like/location/MarkerManager.kt:59-62 | the first entry with that name; null exactly when none has it |
| MarkerRegistry.MarkerManager.GetMarkerInfoByMarker | location/src/main/java/com/like/location/MarkerManager.kt:54-57 | the first entry holding that marker; null exactly when none holds it |
| MarkerRegistry.MarkerManager.CreateMarker | location/src/main/java/com/like/location/MarkerManager.kt:29-40 | an unregistered name changes nothing; otherwise one marker at the entry's coordinates (z-index 9, not draggable) is stored in the first matching entry only |
| MarkerRegistry.MarkerManager.ChangeMarkerPosition | location/src/main/java/com/like/location/MarkerManager.kt:42-48 | the list never changes; the first matching entry's marker, if any, moves to the entry's coordinates |
| MarkerRegistry.MarkerManager.RemoveMarkerInfo | location/src/main/java/com/like/location/MarkerManager.kt:64-75 | the first entry of that name and its marker are removed, the others keep their order; an absent name changes nothing |
| MarkerRegistry.MarkerManager.ClearMarkerInfo | location/src/main/java/com/like/location/MarkerManager.kt:77-84 | every entry's marker is removed, in order, and the registry is empty |
| MarkerRegistry.NamesOf | location/src/main/java/com/like/location/MarkerManager.kt:50 | one name per entry, in order |
| MarkerSet.WithoutKeepsOthers | location/src/main/java/com/like/location/MarkerUtils.kt:51-58 | removing a marker from the set keeps every other member and no duplicates, and shrinks it by one exactly when it was there |
| MarkerSet.TeardownRemovesEachOnce | location/src/main/java/com/like/location/MarkerUtils.kt:60-66 | clearing recycles and removes each tracked marker exactly once and no other marker |
| MarkerSet.MarkerUtils.constructor | location/src/main/java/com/like/location/MarkerUtils.kt:40-43 | a new set is empty and installs its null-safe click and drag listeners |
| MarkerSet.MarkerUtils.AddMarker | location/src/main/java/com/like/location/MarkerUtils.kt:45-49 | only marker options are accepted; the new marker is tracked, and a handle already tracked is not added twice |
| MarkerSet.MarkerUtils.Remove | location/src/main/java/com/like/location/MarkerUtils.kt:51-58 | true exactly when the marker was tracked; afterwards it is not tracked and the others are; an untracked marker causes no recycle and no removal |
| MarkerSet.MarkerUtils.Clear | location/src/main/java/com/like/location/MarkerUtils.kt:60-66 | every tracked marker is recycled and removed, in order, and the set is empty |
| MarkerSet.MarkerUtils.SetOnMarkerClickListener | location/src/main/java/com/like/location/MarkerUtils.kt:70-72 | the click delegate is the given listener |
| MarkerSet.MarkerUtils.SetOnMarkerDragListener | location/src/main/java/com/like/location/MarkerUtils.kt:74-76 | the drag delegate is the given listener |
| MarkerSet.MarkerUtils.OnMarkerClick | location/src/main/java/com/like/location/MarkerUtils.kt:15-20 | false for a null marker or with no delegate; otherwise the delegate's answer |
| MarkerSet.MarkerUtils.OnMarkerDrag | location/src/main/java/com/like/location/MarkerUtils.kt:22-38 | a null marker or no delegate delivers nothing; otherwise exactly one delivery to the delegate |
| MarkerSet.MarkerUtils.OnDestroy | location/src/main/java/com/like/location/MarkerUtils.kt:78-82 | both listeners are detached, every marker is torn down, and the set is empty |

## Left out

- I/O and platform calls are not modelled. This covers toasts, log output, the
  sensor listener, the location listener behind `getLat`/`getLng`, and
  `locationMyPosition`, which centres on those coordinates.
- The persisted flags are a constructor parameter of `Trace.MyTraceUtils`. The
  SharedPreferences store (`SPUtils`) that keeps them across processes is not
  modelled.
- The periodic entity-list queries (RxJava intervals) are modelled only as the
  `intervals` list, one entry per query started, true while it runs. Their
  timing is not modelled. Each entity-list callback is a direct call with the
  names captured when the query was made.
- Glide icon downloads and their asynchrony are not modelled.
  `SharedLocationUtils.addMarker` is modelled by `AddIconMarker`, which all three
  download outcomes reach with the same options. Icons, bitmaps and the marker's
  icon view are not modelled.
- `TraceUtils.kt` is entirely commented out. The calls `SharedLocationUtils`
  makes on it are modelled as a log of requests with no behaviour.
- Floating-point distance (`DistanceUtil.getDistance`) is a function parameter.
  Coordinates are only copied.
- The SDK's numeric status codes are kept symbolic.
- The `lateinit` map in `MyTraceUtils` is a nullable field, and every method that
  may touch the map requires it set (`requires baiduMap != null`). This is a
  caller assumption: callers are expected to call `init` first, and the source
  does not enforce it. Two cases are excluded:
  - `Destroy` before `init`. The source accepts it, and it only sends stop-trace,
    because no fence can hold an overlay without a map.
  - A fence-list or create-fence callback before `init` (`ReconcileFence`,
    `ReconcileAt`, `ReconcileAll`, `OnFenceListCallback`,
    `OnCreateFenceCallback`). Its paths that do not draw work, and its drawing
    path throws `UninitializedPropertyAccessException`.
- The map chrome set up by `initBaiduMap` is not modelled: the hidden logo, the
  controls and the my-location layer.
- The marker-click bus post `initBaiduMap` installs is not modelled.
- `SharedLocationUtils`'s forwarding wrappers for fence alarm and monitored
  status queries are not modelled; they only delegate to the trace helper.
- `MarkerManager.getMarkerInfos` is not modelled. It returns the live list, so
  callers can mutate it directly, and that aliasing is outside the model.
- `MarkerManager`'s entries are values, so the aliasing of the Kotlin objects is
  lost in both directions. A caller holding an entry returned by a lookup does
  not see later writes to it. Writes a caller makes to the `lat`/`lng` of an
  entry it holds do not reach the registry either. The source moves a marker
  that way, by writing the coordinates and then calling `changeMarkerPosition`.
  No model operation changes an entry's coordinates after `AddMarkerList`, so
  `MarkerRegistry.MarkerManager.ChangeMarkerPosition` can only re-send the
  coordinates the entry was registered with.
- `MarkerUtils.getMarkers` is a plain field read and is not modelled separately.
- `CircleFenceInfo`'s `extra` bundle and `toString` are not modelled.
- Fence.CircleFenceInfo.constructor: `name`, `latLng` and `radius` are constants
  set at construction, because the library never writes them. Writes the
  application could make to these public fields later are not modelled.
- `SharedLocationUtils`'s `MarkerInfo` is identified by its index in the
  registered list. The list only grows, so the index names the object a marker's
  extra bundle refers to. An object registered twice sits at two indices, and a
  write through one does not show at the other. This changes nothing the model
  states, because every marker refers to the first info of its name, every lookup
  finds that first info, and the later index is read only for its name.
- `SharedLocationUtils`'s view of the trace helper is a log of requests. Its
  callbacks into the helper's fence logic are modelled in `Trace`, not composed
  with it.
