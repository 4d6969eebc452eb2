# Road-hazard backend: a Dafny model

This project models the decision logic of a road-hazard detection backend. The backend takes frames from a
camera or an uploaded video and filters detections from a road-damage model and a standard model. It streams
annotated frames and telemetry over a websocket. Duplicate reports are suppressed with hazard keys held in a
Redis cache. Reports are stored in a Postgres/PostGIS database and broadcast over MQTT to geofenced zones.

The model has one Dafny module per backend file:

- `HazardHash` (hazard_hash.py): the hazard key. It quantises coordinates, normalises the type, truncates the
  timestamp to a minute window and serialises a canonical record.
- `RedisCache` (redis_client.py): the duplicate cache. It connects lazily and at most once. It is a map from
  key to expiry instant over an explicit clock, and it degrades to "not duplicate" when it is down.
- `Notification` (notification_service.py): the report pipeline. The steps are the type gate, the cache check,
  the nearby-report check, storing the key, the map link with its lat/lng repair, and the insert.
- `Camera` (camera_manager.py), `VideoFile` (video_file_manager.py) and `FrameQueue`: the two frame sources
  and their one-frame slots. The camera has its reconnect counter.
- `StreamSession` (websocket_server.py): one iteration of the streaming loop and the per-frame filters.
- `VideoBatch` (process_video.py): the batch filters and the summary aggregation.
- `Geofence` (geofence_service.py), `Mqtt` (mqtt_client.py) and `Payload`: the zone fan-out, topics,
  payload override order and subscription upsert. `Payload` is an insertion-ordered JSON object.
- `Gps` (gps_extractor.py): the GPS history, degrees/minutes/seconds conversion and nearest-in-time lookup.
- `SchemaSplit` (db_init.py): the SQL statement splitters, including the dollar-quote scanner.
- `NeonDb` (neon_db.py): the database client's guards, the coordinate-swap heuristic and the cleanup loop.
- `Api` (main.py): the live/video mode state machine, the upload check and the trends interval.
- `Verification` (verify_data_flow.py): the result counter of the data-flow script.

`Common` and `Config` hold shared helpers and constants. Coordinates in the hash, the cache keys and the
database are fixed-point integers (`Coord`, units of 10^-7 degree). The GPS source uses reals. Every external
collaborator is an input to the operation that consults it. This covers database answers, device open and
read outcomes, publish outcomes, Redis reachability and the clock.

## Model

| member | source | states |
|---|---|---|
| HazardHash.RoundCoordIsClose | project/backend/hazard_hash.py:38-39 | a coordinate rounded to `precision` decimals lies within half a unit of the last kept decimal of the original |
| HazardHash.RoundCoordIdempotent | project/backend/hazard_hash.py:38-39 | rounding an already rounded coordinate changes nothing |
| HazardHash.Resolve | project/backend/hazard_hash.py:51-57 | a datetime is used as given, a parsable string as parsed, and an unparsable one falls back to now |
| HazardHash.ToMinute | project/backend/hazard_hash.py:60 | seconds and microseconds become zero and every other field is kept |
| HazardHash.NormaliseType | project/backend/hazard_hash.py:47 | the normalised type has no surrounding white space and no upper-case letter |
| HazardHash.BoxPart | project/backend/hazard_hash.py:64-72 | a box contributes exactly when it has at least four values, and then its first four values rounded to hundredths |
| HazardHash.CanonicalOf | project/backend/hazard_hash.py:37-72 | the canonical record holds the rounded lat/lng (missing keys as 0), the normalised type, the minute window only for a truthy timestamp, and the box part |
| HazardHash.KeyOf | project/backend/hazard_hash.py:75-81 | every key starts with `hazard:` |
| HazardHash.KeyOfInjective | project/backend/hazard_hash.py:75-81 | two well-formed canonical records give the same key exactly when they are equal |
| HazardHash.HazardKey | project/backend/hazard_hash.py:11-81 | the full key always starts with `hazard:` |
| HazardHash.HazardKeyEqualIff | project/backend/hazard_hash.py:75-81 | two calls give the same key exactly when their canonical records agree |
| HazardHash.SimpleKey | project/backend/hazard_hash.py:84-99 | the simple key is the full key with no timestamp and no box |
| HazardHash.TimeBoundedKey | project/backend/hazard_hash.py:102-134 | a zero window yields no key and a positive window always yields one |
| HazardHash.LocationSensitivity | project/backend/hazard_hash.py:38-39 | two locations share a simple key exactly when their rounded lat and lng agree |
| HazardHash.TypeNormalisation | project/backend/hazard_hash.py:47 | two types share a simple key exactly when they agree after lower-casing and stripping |
| HazardHash.TimestampTruncated | project/backend/hazard_hash.py:51-61 | two timestamps give the same key exactly when they agree up to the minute |
| HazardHash.TimestampIncludedOnlyIfGiven | project/backend/hazard_hash.py:51-61 | a key with a timestamp never equals the key without one |
| HazardHash.BoundingBoxRule | project/backend/hazard_hash.py:64-72 | a box of fewer than four values leaves the key unchanged; a longer box changes it and only its first four rounded values matter |
| HazardHash.WindowedMinuteBounds | project/backend/hazard_hash.py:131 | the window start is a multiple of the window, not above the minute, and less than one window below it |
| HazardHash.SameWindowIff | project/backend/hazard_hash.py:131 | two minutes share a window start exactly when their quotients by the window agree |
| HazardHash.TimeBoundedKeyIsWindowStart | project/backend/hazard_hash.py:131-134 | the time-bounded key is the full key at the window start of the same hour, with seconds zeroed |
| HazardHash.SameWindowSameKey | project/backend/hazard_hash.py:131-134 | within one hour two timestamps give the same time-bounded key exactly when their minutes fall in the same window |
| HazardHash.PrecisionExample | project/backend/verify_data_flow.py:124-132 | the two nearby sample locations of the data-flow script share their key at four decimals |
| RedisCache.EffectiveTtl | project/backend/redis_client.py:137-143 | a missing or zero TTL becomes the 1800 s default and any other TTL is kept (also line 27) |
| RedisCache.TtlReply | project/backend/redis_client.py:195-201 | the reply is -2 exactly for a key that is not live, otherwise the positive number of seconds left |
| RedisCache.RedisClient.constructor | project/backend/redis_client.py:41-45 | a new client has attempted nothing, is not connected and holds no keys |
| RedisCache.RedisClient.Connect | project/backend/redis_client.py:47-87 | the connection is attempted at most once; a failed attempt leaves the client down for good; the store is untouched |
| RedisCache.RedisClient.EnsureConnected | project/backend/redis_client.py:89-92 | it connects lazily with the same at-most-once rule |
| RedisCache.RedisClient.IsConnected | project/backend/redis_client.py:94-103 | true exactly when the client is connected and the ping answers |
| RedisCache.RedisClient.CheckDuplicate | project/backend/redis_client.py:105-124 | a duplicate exactly when the cache serves the command and the key is live; nothing stored changes |
| RedisCache.RedisClient.StoreHazardKey | project/backend/redis_client.py:126-147 | succeeds exactly when the cache serves it with a positive TTL, and then the key expires at now plus that TTL; otherwise nothing changes |
| RedisCache.RedisClient.DeleteHazardKey | project/backend/redis_client.py:168-185 | true exactly when a live key was removed; a serving cache no longer holds the key |
| RedisCache.RedisClient.GetTtl | project/backend/redis_client.py:187-204 | the TTL reply when the cache serves the command, otherwise -1 |
| RedisCache.StoredKeyLive | project/backend/redis_client.py:126-147 | a stored key stays live until exactly its TTL has passed |
| RedisCache.StoreKeepsOthers | project/backend/redis_client.py:126-147 | storing one key does not change whether any other key is live |
| RedisCache.DeleteRemoves | project/backend/redis_client.py:168-185 | after a delete the key is gone and every other key is as live as before |
| RedisCache.DifferentLocationNotDuplicate | project/backend/test_redis_duplicate.py:51-83 | a key from a location whose rounded latitude differs is not a duplicate of a stored key |
| RedisCache.StoreThenCheck | project/backend/test_redis_duplicate.py:51-83 | on a serving cache, storing a key makes it a duplicate with its whole TTL left |
| Notification.ScanClearIff | project/backend/notification_service.py:64-77 | the nearby scan passes exactly when every entry is skipped or is an instant at least 7 days old |
| Notification.ScanRecentIff | project/backend/notification_service.py:64-77 | the scan rejects exactly when a report under 7 days old comes before any unparsable timestamp string |
| Notification.ScanLoop | project/backend/notification_service.py:64-77 | the loop over nearby reports reaches the scan's verdict |
| Notification.MapLink | project/backend/notification_service.py:84-93 | the map link always starts with the maps URL prefix |
| Notification.MapLinkRepairs | project/backend/notification_service.py:84-93 | an in-range pair is used as is; an out-of-range pair whose swap is in range is swapped; a pair out of range both ways is used as is |
| Notification.NotificationKey | project/backend/notification_service.py:42-47 | the key is the 5-minute time-bounded hash of location, type and timestamp |
| Notification.SendHazardNotification | project/backend/notification_service.py:35-115 | a non-pothole is rejected before any cache or database access; a live key is a duplicate that stores nothing; the nearby search first connects when there is no pool (also lines 298-304 of project/backend/neon_db.py), and a failed connect or search is a server error; a recent nearby report rejects; the report is `reported` exactly when it is a pothole with no live key, a pool or a successful connect, a clear search and both coordinates; the pool, the next id and, on an error, the key store are stated for every outcome |
| Notification.SearchAndStore | project/backend/notification_service.py:57-112 | after the duplicate check: the search's connect, then a recent report rejects, a failed connect or search is an error, and a clear search stores the key and inserts the report; the pool and the next id are stated and the cache connection is kept |
| Notification.StoreAndInsert | project/backend/notification_service.py:79-112 | the key is stored with TTL 1800 before the report is inserted as `reported` with the unswapped location and that key; the result is `reported` exactly when both coordinates are given and a pool exists or the connect succeeds; the pool is connected only for a location with both coordinates, and the next id grows by one exactly on `reported` |
| Camera.TrailingFailuresRun | project/backend/camera_manager.py:74-121 | the attempt counter counts exactly the failures since the last success |
| Camera.FiveInARow | project/backend/camera_manager.py:74-115 | reaching the cap of 5 means the last five outcomes were all failures |
| Camera.SleepTime | project/backend/camera_manager.py:142-146 | the loop sleeps only when the rest of the frame time exceeds 1 ms, and then it sleeps exactly that rest |
| Camera.CameraManager.constructor | project/backend/camera_manager.py:7-15 | a new manager has an empty slot, no camera, no capture and is not running |
| Camera.CameraManager.FindAvailableCamera | project/backend/camera_manager.py:17-31 | the index found is `FirstWorking` of the probes: the first of 0, 1, 2 whose camera opens and reads a frame, or none when none does |
| Camera.FirstWorkingIsFirst | project/backend/camera_manager.py:17-31 | the first working index works and every smaller index does not; no index means none of the three works |
| Camera.CameraManager.StartStream | project/backend/camera_manager.py:33-50 | a known camera is kept, and otherwise the camera becomes the first working probe; a live loop is stopped first and its capture released, while a loop that already ended keeps its capture; no camera leaves the manager unavailable and not streaming; a found camera streams with a zero counter; the frame time is kept |
| Camera.CameraManager.StopStream | project/backend/camera_manager.py:52-58 | streaming stops and the capture is released; the camera choice and its availability stay |
| Camera.CameraManager.Fail | project/backend/camera_manager.py:74-154 | one failure is counted, and the loop stops and the camera becomes unavailable exactly at the fifth (the open, read and exception paths) |
| Camera.CameraManager.CaptureStep | project/backend/camera_manager.py:64-154 | a failed open or read counts a failure (a failed read that ends the loop leaves the capture open), a successful read resets the counter and fills the slot with the new frame, and a successful reopen stamps the frame time; a failed open pauses the reconnect delay unless it was the fifth, which ends the loop with no pause; an exception pauses the delay and counts a failure after what the pass did before it (nothing when opening, an open capture without the reset when configuring, a reset reopen when reading); once the loop stops the manager is not active |
| Camera.CameraManager.Crashed | project/backend/camera_manager.py:148-154 | an exception counts one failure and pauses the reconnect delay; raised while configuring it leaves the new capture open with the counter not reset, raised by the read it follows a reopen that reset the counter (also lines 71-109) |
| Camera.CameraManager.Reopen | project/backend/camera_manager.py:71-105 | a connection attempt: success resets the failure counter and stamps the frame time, a failure counts one more and keeps the unopened capture; reaching the limit stops the loop and leaves the manager inactive |
| Camera.CameraManager.ReadFrame | project/backend/camera_manager.py:107-145 | a read from an open capture: a frame resets the counter and leaves exactly that frame in the slot; no frame counts a failure and releases the capture unless the loop ends, in which case the capture is left open |
| Camera.CameraManager.LoseFrame | project/backend/camera_manager.py:109-118 | a failed read counts a failure; the capture is released and a reconnect delay follows unless the limit is reached, which stops the loop, leaves the capture open and the manager inactive |
| Camera.CameraManager.ReplaceFrame | project/backend/camera_manager.py:124-139 | afterwards the slot holds exactly the new frame |
| Camera.CameraManager.ActiveWhileCapturing | project/backend/camera_manager.py:60-62 | while the capture loop runs the manager is active (running and available) |
| FrameQueue.FrameSlot.constructor | project/backend/camera_manager.py:9 | a new slot is empty |
| FrameQueue.FrameSlot.GetNowait | project/backend/camera_manager.py:9 | an empty slot yields nothing; otherwise the oldest frame is taken out |
| FrameQueue.FrameSlot.PutNowait | project/backend/video_file_manager.py:10 | a put succeeds exactly when the slot holds fewer than one frame, and then appends the frame |
| VideoFile.EffectiveFps | project/backend/video_file_manager.py:64 | a zero reported frame rate becomes 30, any other is kept |
| VideoFile.FrameDelay | project/backend/video_file_manager.py:71 | the delay is one frame time for a positive rate and 0.033 s otherwise |
| VideoFile.Progress | project/backend/video_file_manager.py:94-98 | progress is 0 with no frames, otherwise the current frame as a percentage of the total |
| VideoFile.ProgressIsPercentage | project/backend/video_file_manager.py:94-98 | within the clip, progress lies between 0 and 100 |
| VideoFile.VideoFileManager.constructor | project/backend/video_file_manager.py:8-18 | a new manager has no path, an empty slot, no capture, 30 fps, zero frames and the 0.033 s fallback delay |
| VideoFile.VideoFileManager.StopProcessing | project/backend/video_file_manager.py:41-53 | playback stops, the capture is released and the slot is emptied; the path, position, frame rate, frame count and frame delay stay |
| VideoFile.VideoFileManager.LoadVideo | project/backend/video_file_manager.py:20-26 | running playback is stopped first (capture released, slot emptied), then the path is set; otherwise the playback state and slot stay; position, frame rate, frame count and frame delay always stay |
| VideoFile.VideoFileManager.StartProcessing | project/backend/video_file_manager.py:28-39 | fails with no path or a missing file and changes nothing; otherwise a live thread is stopped first (slot emptied) and playback runs from frame 0 with no capture open; the path, frame rate, frame count and frame delay stay |
| VideoFile.VideoFileManager.OpenVideo | project/backend/video_file_manager.py:57-71 | a file that fails to open stops playback and keeps the frame rate, count and delay; otherwise the frame rate falls back to 30, the frame count is recorded and the delay is one frame period |
| VideoFile.VideoFileManager.ProcessStep | project/backend/video_file_manager.py:73-92 | at the end of the clip the position restarts at 0; a read frame advances the position by one and becomes the slot's only frame, and the wait is the frame delay; the playback flags, frame rate, count and delay stay |
| VideoFile.VideoFileManager.GetProgress | project/backend/video_file_manager.py:94-98 | the manager's progress is the percentage of its current frame |
| VideoFile.VideoFileManager.ActiveWhilePlaying | project/backend/video_file_manager.py:100-102 | a playing manager with a path is active; one without a path or not running is not |
| VideoFile.VideoFileManager.CleanupFile | project/backend/video_file_manager.py:104-111 | the path is cleared only after the file was there and its removal succeeded; playback state, position, frame rate, count and delay stay |
| Boxes.ThresholdKey | project/backend/websocket_server.py:188 | the threshold key is `class_` followed by the class number |
| Boxes.ThresholdKeyKnown | project/backend/config.py:4-13 | only classes 0 and 1 have road thresholds in the table |
| Boxes.LaneIsMiddleHalf | project/backend/websocket_server.py:155-156 | a box in the lane has its centre in the middle half of the frame; for widths divisible by 4 this is an equivalence |
| StreamSession.LaneCount | project/backend/websocket_server.py:263 | the lane count never exceeds the number of detections |
| StreamSession.RoadKeepIff | project/backend/websocket_server.py:188-193 | a road detection is kept exactly for class 0 at confidence 0.40 or more, or class 1 at 0.60 or more |
| StreamSession.RoadDetectionsMembers | project/backend/websocket_server.py:184-202 | a detection is in the road results exactly when some row passes the road threshold and maps to it |
| StreamSession.StandardDetectionsMembers | project/backend/websocket_server.py:210-227 | a detection is in the standard results exactly when some row of a person, dog or cow at confidence 0.5 or more maps to it |
| StreamSession.DistancesMatch | project/backend/websocket_server.py:229-243 | there is one distance per standard detection, and each belongs to that detection |
| StreamSession.FilterRoad | project/backend/websocket_server.py:184-207 | the loop returns the road results and their lane count |
| StreamSession.FilterStandard | project/backend/websocket_server.py:210-248 | the loop returns the standard results, their lane count and their distances |
| StreamSession.FilterFrame | project/backend/websocket_server.py:149-263 | the frame result is the road results then the standard results, with the lane count over both and the standard distances |
| StreamSession.Pace | project/backend/websocket_server.py:100-104 | a slow send raises the interval by 20 ms up to 200, a fast send lowers it by 5 ms down to 50, and any other send keeps it |
| StreamSession.PaceAllBounds | project/backend/websocket_server.py:100-104 | from the 60 ms start the interval stays between 50 and 200 ms whatever the send times (also line 34) |
| StreamSession.SlowSendsRaise | project/backend/websocket_server.py:100-104 | consecutive slow sends raise the interval linearly until it saturates at 200 ms |
| StreamSession.FastSendsLower | project/backend/websocket_server.py:100-104 | consecutive fast sends lower the interval linearly until it saturates at 50 ms |
| StreamSession.SamplingAlternates | project/backend/websocket_server.py:43 | detection runs on every other processed frame (also line 71) |
| StreamSession.AnyPothole | project/backend/websocket_server.py:112 | the telemetry type is a pothole exactly when some result's type lower-cases to `pothole` |
| StreamSession.PotholeOnlyFromRoad | project/backend/websocket_server.py:195-227 | only the road model's results can make the telemetry type a pothole (also line 112) |
| StreamSession.Drain | project/backend/websocket_server.py:57-62 | draining empties the slot and yields its newest frame |
| StreamSession.DrainActive | project/backend/websocket_server.py:56-62 | video mode drains the video slot; live mode drains the camera slot only when the camera is available; the other slot is untouched |
| StreamSession.Session.constructor | project/backend/websocket_server.py:34-48 | a session starts at 60 ms with no sends, no frames and empty cached results in live mode |
| StreamSession.Session.Sample | project/backend/websocket_server.py:68-85 | the frame index advances by one; detection runs exactly on even indices, and otherwise the cached results are kept |
| StreamSession.Session.Refresh | project/backend/websocket_server.py:73-78 | the cache then holds the frame's filtered results, their lane count, the distances and the mode |
| StreamSession.Session.SendFrame | project/backend/websocket_server.py:67-128 | the frame is sent, annotated only on detection frames; the interval is paced on success; telemetry goes out at most every 200 ms after a frame send and carries the video progress of the manager; any failed send ends the session |
| StreamSession.Session.SendTelemetry | project/backend/websocket_server.py:110-128 | telemetry goes out once 200 ms have passed since the last one and reports the cached hazard count, lane count, distances, pothole flag, mode and the manager's video progress; a failed send ends the session and nothing else changes |
| StreamSession.Session.Keepalive | project/backend/websocket_server.py:131-136 | a ping is sent when 20 s have passed since the last one, and its failure ends the session |
| StreamSession.Session.Iterate | project/backend/websocket_server.py:51-139 | one iteration drains the active slot and sends a frame only when one is waiting and its interval has passed; otherwise timers and the whole cache stay; a handled frame is the waiting one, the interval is paced on success, every detection interval the cache is refreshed from both models on that frame and the mode, and telemetry goes out, stamping its time, exactly when the frame send succeeded, 200 ms have passed and its send succeeded; the ping time moves exactly when a ping is sent |
| VideoBatch.RoadThreshold | project/backend/process_video.py:86-92 | the road threshold is 0.40 for class 0, 0.60 for class 1 and 0.25 for any other class |
| VideoBatch.TrackedThreshold | project/backend/process_video.py:136 | person, dog and cow use the threshold 0.45 |
| VideoBatch.StandardKeepAspect | project/backend/process_video.py:142-149 | a kept standard box has positive width, and a height between 0.3 and 3 widths for a person or between 0.5 and 2 widths otherwise |
| VideoBatch.RatioWindow | project/backend/process_video.py:142-149 | a ratio window on height over width is a window on the height |
| VideoBatch.StandardDetectionsMembers | project/backend/process_video.py:127-191 | a detection is in the standard results exactly when some kept row maps to it |
| VideoBatch.StandardDetectionFacts | project/backend/process_video.py:127-191 | every standard detection is a tracked class at confidence 0.45 or more with a valid aspect ratio, tagged with the standard model |
| VideoBatch.DistancesMatch | project/backend/process_video.py:182-188 | there is one distance per standard detection, and each belongs to that detection |
| VideoBatch.FilterRoad | project/backend/process_video.py:82-124 | the loop returns the road detections and their lane count |
| VideoBatch.FilterStandard | project/backend/process_video.py:127-191 | the loop returns the standard detections, their lane count and their distances |
| VideoBatch.FrameResultOf | project/backend/process_video.py:193-198 | the frame total is the number of detections and bounds the lane count |
| VideoBatch.ProcessFrame | project/backend/process_video.py:82-198 | the frame is processed to its frame result |
| VideoBatch.FrameResultConsistent | project/backend/process_video.py:193-198 | the frame result lists the road detections then the standard detections, with the lane count over both |
| VideoBatch.TypeCountsSum | project/backend/process_video.py:309-313 | the per-type counts add up to the number of detections |
| VideoBatch.TypeCountsKeys | project/backend/process_video.py:309-313 | a type has a count exactly when some detection has it |
| VideoBatch.CountsPositive | project/backend/process_video.py:309-313 | every counted type was seen at least once |
| VideoBatch.TotalsMatchKinds | project/backend/process_video.py:305-313 | the detection types across frames are as many as the frame totals, and the lane hazards do not exceed them |
| VideoBatch.CountsAddUp | project/backend/process_video.py:305-313 | the per-type counts over all frames add up to the total number of detections |
| VideoBatch.ResultsOf | project/backend/process_video.py:279-291 | one frame result per frame, in order, each with its total equal to its detections and its lane hazards within that total |
| VideoBatch.SummaryOfFacts | project/backend/process_video.py:305-331 | in the summary of the frames the per-type counts add up to the total, every count is positive and the lane hazards stay within the total |
| VideoBatch.Average | project/backend/process_video.py:331 | the average per frame is 0 with no frames and otherwise the total divided by the frame count |
| VideoBatch.CountKinds | project/backend/process_video.py:310-313 | the counting loop adds one per detection to its type's count |
| VideoBatch.Summarize | project/backend/process_video.py:305-331 | the summary holds the frame count, the totals, the per-type counts and the average |
| VideoBatch.ProcessVideo | project/backend/process_video.py:229-365 | a summary exactly when the file exists and opens, and then it is `SummaryOf` the frames: one result per frame, the totals, lane hazards, per-type counts and average of those results |
| Geofence.ZonesReached | project/backend/geofence_service.py:149-161 | a missing location, missing coordinates or a failed zone lookup reach no zone; otherwise the zones found (also lines 182-192) |
| Geofence.ZonePayloadOverrides | project/backend/geofence_service.py:208-216 | the zone payload carries the subscriber count, and the additional data override the fixed keys |
| Geofence.BroadcastLogsMembers | project/backend/geofence_service.py:196-240 | a log entry is written exactly for each zone whose publish succeeded and whose log insert did not fail |
| Geofence.LogsWithinSuccesses | project/backend/geofence_service.py:222-236 | there are never more log entries than successful zones, and as many when no log insert fails |
| Geofence.BroadcastLogTopics | project/backend/geofence_service.py:227-235 | each log entry names its zone's topic and the detection, and counts that zone's subscriptions |
| Geofence.BroadcastDeviceCount | project/backend/geofence_service.py:208-216 | the published device count is the number of subscriptions found, none when that lookup failed |
| Geofence.FindPair | project/backend/geofence_service.py:302-309 | the position of the subscription for the device and zone, or none when there is none |
| Geofence.UpsertResult | project/backend/geofence_service.py:302-340 | after the upsert the pair has one active row with the new type, hazard types (none as empty) and time; other rows are kept |
| Geofence.UpsertSize | project/backend/geofence_service.py:302-340 | the upsert adds a row only for a new pair |
| Geofence.GeofenceService.constructor | project/backend/geofence_service.py:20-23 | a new service has no logs and no subscriptions |
| Geofence.GeofenceService.BroadcastToZone | project/backend/geofence_service.py:196-240 | one zone is published to and logged only on success and when the log insert works; its failure does not reach the caller |
| Geofence.GeofenceService.ZoneStep | project/backend/geofence_service.py:196-240 | zone `i` extends the logs and messages of the zones before it and reports whether its publish succeeded |
| Geofence.GeofenceService.BroadcastZones | project/backend/geofence_service.py:194-242 | the loop logs the successful zones whose log insert works and counts every successful zone, failed log or not |
| Geofence.GeofenceService.BroadcastToGeofence | project/backend/geofence_service.py:163-246 | the count is the number of successful zones among those reached and never exceeds them; no zone means nothing is published |
| Geofence.GeofenceService.SubscribeDevice | project/backend/geofence_service.py:277-347 | a successful database write upserts the subscription; a failed one changes nothing |
| Mqtt.LogRow | project/backend/mqtt_client.py:242-273 | a log row carries the given fields at QoS 1, and a payload naming the detection only when its id is non-zero |
| Mqtt.DetectionTopic | project/backend/mqtt_client.py:151-156 | the detection topic is under the hazard type |
| Mqtt.DetectionTopicUnknownIff | project/backend/mqtt_client.py:151-156 | the topic ends in `unknown` exactly when the location lacks lat or lng |
| Mqtt.GeofenceTopic | project/backend/mqtt_client.py:220 | the geofence topic is under the geofence prefix |
| Mqtt.GeofenceTopicInjective | project/backend/mqtt_client.py:220 | two zones share a topic exactly when they are the same zone |
| Mqtt.GeofencePayloadOverrides | project/backend/mqtt_client.py:222-229 | the payload data override the base payload keys |
| Mqtt.MqttClient.constructor | project/backend/mqtt_client.py:28-47 | a new client is not connected and has sent and logged nothing |
| Mqtt.MqttClient.Connect | project/backend/mqtt_client.py:49-94 | disabled or already up, nothing changes; otherwise it connects, over TLS exactly on ports 8883 and 8884, and a failure leaves it down |
| Mqtt.MqttClient.Disconnect | project/backend/mqtt_client.py:96-106 | a connected client drops its handle and is down unless the exit failed |
| Mqtt.MqttClient.EnsureConnected | project/backend/mqtt_client.py:108-116 | false when disabled; otherwise up exactly when connected after a connect attempt |
| Mqtt.MqttClient.PublishDetection | project/backend/mqtt_client.py:118-187 | true exactly when enabled, up and delivered; a client that is not connected logs a failed attempt; a publish error marks the client down |
| Mqtt.MqttClient.PublishGeofenceBroadcast | project/backend/mqtt_client.py:189-240 | true exactly when enabled, up and delivered, and then the zone's message is published |
| Mqtt.MqttClient.IsConnected | project/backend/mqtt_client.py:275-277 | connected and enabled |
| Payload.MergeLookup | project/backend/geofence_service.py:208-216 | a merged object answers a key from the extra data when it holds it, otherwise from the base |
| Gps.DmsToDecimal | project/backend/gps_extractor.py:153-181 | nothing for an absent or empty tuple, otherwise degrees plus minutes and seconds as fractions of a degree, negated for S and W |
| Gps.HemisphereFlipsSign | project/backend/gps_extractor.py:174-175 | S and W give the same value, N and E give the same value, and the two differ only in sign |
| Gps.DmsWithinDegree | project/backend/gps_extractor.py:172 | with minutes and seconds below 60 the value lies within its degree |
| Gps.ConvertGpsToDecimal | project/backend/gps_extractor.py:124-151 | a fix exactly when both coordinates convert to non-zero values, and then those values |
| Gps.EquatorIsMissing | project/backend/gps_extractor.py:144 | a fix on the equator is never reported |
| Gps.Closest | project/backend/gps_extractor.py:226-229 | the entry nearest in time, the first one on ties |
| Gps.LastNSnoc | project/backend/gps_extractor.py:194-201 | appending and dropping the oldest past the cap keeps the last entries |
| Gps.GpsExtractor.constructor | project/backend/gps_extractor.py:21-23 | a new extractor has no fix and no history |
| Gps.GpsExtractor.SetGpsLocation | project/backend/gps_extractor.py:183-201 | the fix becomes current and the last history entry; the history grows by one up to 100 and drops its oldest entry past that |
| Gps.GpsExtractor.GetCurrentGps | project/backend/gps_extractor.py:203-210 | the fix last set |
| Gps.GpsExtractor.GetGpsFromHistory | project/backend/gps_extractor.py:212-231 | the current fix with no history, otherwise the entry nearest the target time, the first on ties |
| Gps.GpsExtractor.ExtractFromFrame | project/backend/gps_extractor.py:25-48 | the EXIF fix when there is one, otherwise the last known fix |
| SchemaSplit.Split | project/backend/db_init.py:26 | splitting on `;` yields at least one piece |
| SchemaSplit.SplitNoSeparator | project/backend/db_init.py:26 | no piece contains `;` |
| SchemaSplit.JoinSplit | project/backend/db_init.py:26 | joining the pieces with `;` gives back the script |
| SchemaSplit.KeptClean | project/backend/db_init.py:26 | every kept statement is stripped and non-empty |
| SchemaSplit.KeptFrom | project/backend/db_init.py:26 | a statement is kept exactly when it is the strip of some non-blank piece |
| SchemaSplit.SimpleStatements | project/backend/db_init.py:26 | every statement of the simple split is stripped and non-empty (also line 45) |
| SchemaSplit.SimpleStatementsPieces | project/backend/db_init.py:26 | every statement is the stripped text of one piece and holds no `;` (also line 45) |
| SchemaSplit.StripComments | project/backend/db_init.py:69 | comment removal leaves no `--` comment |
| SchemaSplit.StripCommentsLines | project/backend/db_init.py:69 | comment removal keeps every line and changes a text without comments not at all |
| SchemaSplit.TagEnd | project/backend/db_init.py:98-101 | a tag runs over identifier characters up to the first other character |
| SchemaSplit.DoubleDollarRule | project/backend/db_init.py:85-95 | `$$` closes an untagged quote and opens an untagged quote in every other state |
| SchemaSplit.DollarStatementsCut | project/backend/db_init.py:71-127 | the dollar-aware statements are the kept pieces of one cut of the text |
| SchemaSplit.ExtendedStatements | project/backend/db_init.py:69-127 | the statements of the extended schema are non-empty and stripped, and they are the kept pieces of a split that concatenates back to the comment-free script |
| SchemaSplit.TaggedRule | project/backend/db_init.py:96-112 | `$tag$` closes a quote with the same tag and otherwise opens a quote with that tag |
| SchemaSplit.LoneDollarRule | project/backend/db_init.py:82 | any other `$` is copied as an ordinary character (also lines 102, 114) |
| SchemaSplit.SemicolonRule | project/backend/db_init.py:114-121 | a `;` outside a quote ends the statement and belongs to it; inside a quote it is ordinary text |
| SchemaSplit.DollarSplitLossless | project/backend/db_init.py:93-127 | the unstripped statements and the remainder put together give back the input |
| SchemaSplit.DollarStatementsClean | project/backend/db_init.py:118-120 | every emitted statement is stripped and non-empty (also lines 126-127) |
| SchemaSplit.SplitDollarQuoted | project/backend/db_init.py:72-127 | the scanner loop returns the statements of the character rules above |
| NeonDb.SwapIfTransposed | project/backend/neon_db.py:261-268 | a pair is swapped only when it is out of range and its swap is in range |
| NeonDb.SwapIdempotent | project/backend/neon_db.py:261-268 | repairing a repaired pair changes nothing |
| NeonDb.NearbyQueryPoint | project/backend/neon_db.py:261-268 | the query point is the repaired pair with missing keys as 0, passed lng first (also lines 298-301) |
| NeonDb.NearbyMembers | project/backend/neon_db.py:270-304 | a row is found exactly when it is in the table and within distance and time of the point |
| NeonDb.DropIdsTwice | project/backend/neon_db.py:390-408 | deleting two batches of ids one after the other deletes their union |
| NeonDb.NearbyIgnoresOld | project/backend/neon_db.py:270-304 | deleting only rows older than the cutoff does not change which rows are nearby within it (also lines 390-408) |
| NeonDb.VictimIff | project/backend/neon_db.py:390-410 | an old hazard with coordinates is deleted exactly when no other row is near it |
| NeonDb.VictimsAreOld | project/backend/neon_db.py:390-410 | every deleted id belongs to an old hazard, and there are no more deletions than old hazards |
| NeonDb.OnlyOldRowsCarryVictimIds | project/backend/neon_db.py:390-410 | every row carrying a deleted id is older than the cutoff |
| NeonDb.DeleteAlwaysSucceeds | project/backend/neon_db.py:357-361 | a delete reports success whatever the number of rows it removed, zero included |
| NeonDb.DetectionPoint | project/backend/neon_db.py:189-237 | an empty location stores no point; one with lat and lng stores the point lng first; one missing either fails |
| NeonDb.BoxJson | project/backend/neon_db.py:198 | the box is serialised exactly when it is present and non-empty (also line 224) |
| NeonDb.TruncUnit | project/backend/neon_db.py:456-463 | the unit is day, week or hour, and one of those is kept as given |
| NeonDb.NeonDb.constructor | project/backend/neon_db.py:34-36 | a new client has no pool and no rows |
| NeonDb.NeonDb.Connect | project/backend/neon_db.py:38-57 | succeeds exactly when the URL is non-empty and the pool is created |
| NeonDb.NeonDb.EnsurePool | project/backend/neon_db.py:94-98 | every query creates the pool first when there is none |
| NeonDb.NeonDb.InsertReport | project/backend/neon_db.py:113-153 | a missing `lat` or `lng` fails before any connect; otherwise the pool is created when missing, and with a pool the report is appended under the next id; on failure the rows and the next id stay; the pool exists afterwards exactly when it did or the keys were there and the connect succeeded |
| NeonDb.NeonDb.InsertDetection | project/backend/neon_db.py:155-239 | a partial location fails before any connect; otherwise the pool is created when missing, and with a pool the detection is appended under the next id; on failure the rows and the next id stay; the pool exists afterwards exactly when it did or the location was valid and the connect succeeded |
| NeonDb.NeonDb.DeleteHazard | project/backend/neon_db.py:357-361 | with no pool the call connects first, and a failed connect fails and deletes nothing; otherwise the row with the id is removed and the status reports success (also lines 86-92) |
| NeonDb.NeonDb.CleanupVisit | project/backend/neon_db.py:390-408 | one old hazard is deleted exactly when it is a victim |
| NeonDb.NeonDb.CleanupOldHazards | project/backend/neon_db.py:363-410 | the first query connects when there is no pool, and a failed connect fails and deletes nothing; otherwise the victims among the old rows are deleted and counted, never more than the old rows, and the pool stays |
| NeonDb.NeonDb.Sweep | project/backend/neon_db.py:388-410 | with a pool, the loop deletes exactly the victims among the old rows and counts them |
| NeonDb.NeonDb.CleanupNext | project/backend/neon_db.py:390-408 | visiting old report `i` extends the deletions and the count from the victims among the reports before it to those up to it |
| NeonDb.CleanupStep | project/backend/neon_db.py:390-408 | checking a hazard against the table before or after earlier deletions gives the same verdict |
| Api.BaseName | project/backend/main.py:107 | the file name is the part of the path after its last `/` |
| Api.Suffix | project/backend/main.py:107 | the suffix is empty or a dot and at least one more character ending the name, never the whole name |
| Api.AllowedShape | project/backend/main.py:106 | every allowed extension is a dot and three or four characters |
| Api.AcceptedIff | project/backend/main.py:106-113 | a name with an allowed extension is accepted exactly when something precedes the extension |
| Api.RejectedIff | project/backend/main.py:106-113 | a non-empty stem with an extension is accepted exactly when the lower-cased extension is allowed |
| Api.AcceptedEndsWithExtension | project/backend/main.py:106-113 | an accepted name ends, ignoring case, with an allowed extension |
| Api.UpperCaseAccepted | project/backend/main.py:107-109 | an upper-case extension is accepted |
| Api.HiddenFileRejected | project/backend/main.py:107-109 | a name that is only an extension is rejected |
| Api.LastExtensionCounts | project/backend/main.py:107-109 | only the last extension counts |
| Api.TrendsInterval | project/backend/main.py:237-238 | an unknown interval becomes day and a known one is kept |
| Api.TrendsIntervalReachesQuery | project/backend/main.py:237-238 | the normalised interval passes through the database's unit mapping unchanged |
| Api.App.constructor | project/backend/main.py:13-21 | the app starts in the given mode with the two managers |
| Api.App.SetMode | project/backend/main.py:152-176 | an unknown mode is rejected and changes nothing; live stops video and starts the camera only when it is not running, choosing the first working probe when no camera is known; video stops the camera and starts a loaded video only when not running |
| Api.App.UploadVideo | project/backend/main.py:102-146 | an unsupported extension is rejected; a saved upload loads the video, starts it and sets the video mode; otherwise nothing changes |
| Api.App.PlaySaved | project/backend/main.py:129-134 | the saved upload is loaded and playing from frame 0, and the mode is video |
| Api.App.StopVideo | project/backend/main.py:184-194 | video stops and its file is cleaned up; the camera starts only when it is not running and has no active camera, and then takes the first working probe and streams exactly when one works; the mode ends as live |
| Verification.StatusOf | project/backend/verify_data_flow.py:63-66 | a warning prints as WARN, otherwise a passed entry as PASS and a failed one as FAIL |
| Verification.PrintedStatus | project/backend/verify_data_flow.py:63-66 | a warning entry prints as WARN although it is marked passed |
| Verification.CountsAddUp | project/backend/verify_data_flow.py:20-48 | the numbers of passed, failed and warning entries add up to the number of entries |
| Verification.FailCountZeroIff | project/backend/verify_data_flow.py:482-490 | no failure is counted exactly when every entry passed |
| Verification.ExitCode | project/backend/verify_data_flow.py:482-490 | the exit code is 1 exactly when something failed and 0 otherwise |
| Verification.VerdictOf | project/backend/verify_data_flow.py:482-490 | the closing verdict is failure exactly with failures, and warnings only with no failures |
| Verification.VerificationResults.constructor | project/backend/verify_data_flow.py:20-24 | a new collector has no entries and zero counters |
| Verification.VerificationResults.AddTest | project/backend/verify_data_flow.py:26-37 | one entry is appended and exactly one of passed or failed goes up |
| Verification.VerificationResults.AddWarning | project/backend/verify_data_flow.py:39-48 | one passed warning entry is appended and only the warnings go up |
| Verification.VerificationResults.TotalIsSum | project/backend/verify_data_flow.py:20-48 | the number of entries is the sum of the three counters |
| Verification.VerificationResults.ExitCodeIff | project/backend/verify_data_flow.py:482-490 | the exit code is 1 exactly when some recorded entry did not pass |

## Left out

- HazardHash.RoundCoordIsClose: Python's `round` on binary floats rounds half to even. The model rounds
  half up on fixed-point integers, so keys of values exactly halfway can differ from the backend's.
- HazardHash.BoxPart: the same holds for the bounding box. `round(v, 2)` rounds half to even on binary
  floats, while `RoundHundredths` rounds halves upwards, so a box value exactly halfway can key differently.
- HazardHash.KeyOf: SHA-256 is modelled as an injective serialisation of the canonical record. Digest
  collisions and the hex digest's length are not modelled.
- Mqtt.DetectionTopic: float `repr` inside topics is approximated by `CoordText` on fixed-point values.
  Exact float printing is not modelled.
- Notification.MapLink: the coordinates in the link are printed by `CoordText` on fixed-point values, not by Python's float `repr`; forms such as `-0.0` or exponent notation like `5e-05` are not modelled, so only the link's prefix and the coordinate repair are stated.
- NeonDb.NearbyMembers: the PostGIS distance test `ST_DWithin` is an input predicate, and the SQL `ORDER BY`
  is not modelled, so results are compared as members.
- SMTP e-mail to the authority (notification_service.py:118-175) is not modelled. It happens after the
  decision and its failure does not change the response.
- The report listing, resolved-report cleanup and report deletion endpoints (notification_service.py:178-261)
  are not modelled. They are plain database calls without decision logic.
- Camera.CameraManager.CaptureStep: an exception raised after a frame was read, in the slot operations or
  the frame-rate sleep, is not modelled. The slot's own `queue.Empty` and `queue.Full` handlers cover those
  operations.
- Threads, `join` timeouts, `sleep` and the interleaving of producers and consumers are not modelled. Each
  capture, playback or session step is one method, and sleep lengths are returned values.
- RedisCache: `get_hazard_key`, `flush_all` and `get_stats` are not modelled. They are plain cache calls.
- RedisCache.TtlReply: Redis answers -1 for a key without expiry. Every modelled key has an expiry, so the
  model answers -2 for missing keys and the seconds left for live ones.
- Failures to insert a publish log row (mqtt_client.py:272-273) are not modelled. They are swallowed, so the
  log simply records the row.
- StreamSession.Pace: pacing works on integer milliseconds instead of float seconds.
- Boxes.ThresholdKey: the class number is an integer, so the float-to-int conversion `int(cls)` is not
  modelled.
- Geofence: `create_geofence_zone` and `get_geofence_zones` are not modelled. They are plain database calls.
  The zone id is always present in a zone record.
- EXIF and video-metadata extraction through imaging libraries (gps_extractor.py:50-122) is not modelled.
  The tags found are an input.
- The clock, `datetime.now`, `isoformat` and `fromisoformat` are inputs. Timestamp strings are given
  together with what they parse to.
- Notification.SendHazardNotification: converting the report's datetime to the stored instant is not modelled;
  `reportTime` is that instant, given as an input. One cache reachability `net` serves both the duplicate
  check and the store, so a connection that drops between the two is not modelled.
- The byte layout of `json.dumps` is not modelled. One consequence: a missing `lat` or `lng` defaults to the
  integer 0 (hazard_hash.py:38-39), which `json.dumps` prints as `0`, while an explicit `0.0` prints as
  `0.0` and `-0.0` as `-0.0`. The model keys all three as the fixed-point value 0, so a location without
  coordinates and one at 0.0 share a key in the model but not in the backend.
- Common.Lower and Common.Strip: lower-casing and stripping cover ASCII only, without Unicode cases or white
  space.
- Common.IsTagChar: a dollar-quote tag character is an ASCII letter, digit or `_`. Python's `isalnum()` also
  accepts non-ASCII letters and digits, so a tag such as `$été$` is a lone `$` in the model.
- SchemaSplit.TagEnd: ends a tag at the first character outside `Common.IsTagChar`, with the same ASCII
  limit.
- Api.BaseName: path normalisation is not modelled. The file name is the text after the last `/`.
- mode_state.py is not part of this model. The initial mode is a constructor argument of `Api.App`.
- Removal of a partly written upload on error (main.py:144-145) is not modelled.
- The printed summary of `print_summary` is not modelled beyond the status each entry prints with.
- VideoBatch.ProcessVideo: the summary's `video_file`, `video_properties` (fps, width, height, total_frames,
  duration_seconds; process_video.py:316-325) and `processing_date` are not modelled. They are read from the
  decoder and the clock, and no decision depends on them. The summary holds the `summary` block only.
- VideoBatch.ResultsOf: the per-frame `frame_number` and `timestamp` fields (process_video.py:285-290) are not
  modelled. A frame's result is its position in the list of results, and the batch summary does not use them.
- `get_mode`, the health endpoint, static-file serving and the analytics endpoints other than trends are not
  modelled. They return state or query results without decisions.
- Gps: GPS coordinates are reals, while the hash, cache and database use fixed-point coordinates.
- Model loading, `DistanceEstimator`, drawing, resizing and JPEG encoding are inputs or not modelled. The
  detectors and the distance estimator are functions passed in.
- The data-flow script's test functions that call live services are not modelled. Where they assert
  something about the core, a lemma states it.
- NeonDb: `disconnect`, `get_hazard_by_id`, `get_all_hazards`, `check_connection` and the PostGIS setup are
  not modelled. They are plain database calls.
