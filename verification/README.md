# ZoneMinder: verified models

Dafny models of the parts of ZoneMinder whose behaviour is hardest to see from the code, with proofs of what
they promise. Check everything with `dafny verify dfyconfig.toml`.

| file | what it models |
|---|---|
| `Wrappers.dfy`, `Sums.dfy` | the option type and the repeated addition that the others share |
| `Planes.dfy`, `Layouts.dfy` | strided planes in a byte buffer, and where the planes of a pixel format lie |
| `PolygonEdges.dfy`, `PolygonInterior.dfy`, `PolygonFill.dfy` | the scan-line polygon fill: edge tables, the inside of a polygon by its vertices, termination, what is painted |
| `PlaneTransforms.dfy`, `Pictures.dfy`, `Images.dfy` | rotate, flip, crop, privacy mask, fill and delta of an image object |
| `RowDeltas.dfy`, `Blending.dfy` | unrolled against plain delta helpers; the shift-based reference blend |
| `EventWriter.dfy`, `EventRows.dfy`, `FrameTable.dfy` | which frames of an event get a row, rebuilding the dense frame table, searching it |
| `SetEventMessage.dfy`, `StreamState.dfy`, `StreamFrames.dfy`, `EventPlayback.dfy` | event playback directed by a web page: message, state machine, which frame is shown, object |
| `ForcedAlarms.dfy`, `AlarmExpiry.dfy` | raising, expiring and cancelling forced alarms, with signals |
| `DbQueue.dfy` | the database work queue and its shutdown |
| `ByteBuffer.dfy` | the head/tail byte buffer as a plain byte sequence |
| `LoopReader.dfy`, `LoopJoins.dfy` | timestamps of a looped file |

Code that updates state is modelled as classes and methods over arrays and fields. A method's `ensures` ties the
new state to a specification function or to a property stated without reference to the code (the even-odd rule,
a raster, a plain byte sequence); lemmas then prove properties of those functions over all inputs or whole runs.
The concurrent parts are state machines whose steps are the critical sections of the original, in any order.
Doubles are exact reals or integers in microseconds.

## Where the code does not do what it seems to promise

Each is stated by the member named with it: the exact condition, a concrete input or run, or both.

* Two comments in `Image::Fill` describe the loop loosely: "deactivate edges with max_y < current scan line" is
  `scan_line >= max_y`, and "continue to next line" does not step the line counter. The model follows the code; the
  loop still ends because a closed polygon crosses every line an even number of times (`ThinTurnIsLast`).
* An event's start is stored in whole seconds, so the timestamps of a loaded table lack the part of a second at which
  recording began: with a first packet at 1 700 000 000.4 s, frame 1 comes back 0.4 s early (`SubsecondLost`). Offsets
  are right to 5 ms; timestamps are exactly when the lost part is small enough (`RecoveredWithin`).
* `zmDbQueue::stop()` loses accepted statements when it sets its flag before the worker has first looked at it, and
  after a termination signal pushes are accepted that never run once the worker has left. Nothing else loses one
  (`StopExecutesAllIff`, with the runs `EarlyStopLosesStatement` and `SignalLosesStatement`).
* A signal in `trigger()` can leave an alarm without an expiry thread, and then only `stop()` ends it
  (`InterruptedAlarmNeverExpires`, `OrphanStays`, `StopEndsOrphan`); nothing but such a signal does that
  (`EveryAlarmHasThreadIff`).
* A looped second input whose audio has the same stream index as the video takes over the decode time the video's next
  restart goes by, while its own restarts move no offset. Both streams can get out of order: the video when that audio
  is far enough behind (`SharedIndexInOrderIff`, with the run `SharedIndexBreaksOrder`), the audio whenever the video's
  offset has not moved on far enough (`AudioRestartInOrderIff`, with the run `SharedIndexBreaksAudio`). Neither breaks
  anywhere but at the first packet of a pass (`InOrderIff`).
* `CMD_SEEK` to the offset of frame i returns to frame i exactly when that offset is within the event's recorded
  length, or i is the first frame (`SeekRoundTrip`); a trailing frame can lie past it (`SeekMissesLastFrame`).
* The end of an event is stored in whole seconds too, so the last row of an event that ends further into a second than it
  began cannot be sought by time (`LastRowSought`).
* A hint that "restarts a stream that stopped at its end" loads the event only in the two modes that play one event
  after another (`ResumeLoadsIffManyEvents`, with the run `SingleModeStopsAtEnd`).
* Next or previous overtaken by a turn of the streaming loop before the check sees it is taken back by the frame that the
  turn sends. Previous is lost so at every rate but 0 (`PressReachesCheck`): during normal playback the stream goes on
  from the first frame, or even leaves the event forwards (`OvertakenPrevious`, with the run `PreviousIsLost`).
* A hint is documented never to match a wrong event; events whose ids agree in the low 48 bits do match
  (`MessageAcceptedIff`).
* The reload meant for an event still being recorded never happens to one: an event without an end is loaded with the
  current time as its end (`src/zm_eventstream.cpp:202`), and the reload wants an end at the epoch (`:873`). It is left
  or paused instead (`ReadsAgainIffEndIsEpoch`, `UnfinishedEventIsLeft`).
* The unrolled 24-bit delta helpers would leave their row at three residues of the width (`Overshoot24`); the code
  uses them only for GRAY8 and the 32-bit orders.
* `frame_count` counts every trailing frame on top of the recorded count, so after padding it is larger than the
  table (`FrameTable.EventData.LoadFrames` states both).

## Model

| member | source | states |
|---|---|---|
| Planes.AtInjective | src/zm_image.cpp:2632-2638 | no two sample bytes of a plane share an address, for any stride at least as long as a row |
| Planes.PlanesApart | src/zm_image.cpp:2680-2697 | planes that follow one another share no byte |
| PolygonEdges.CrossXClosedForm | src/zm_image.cpp:3278-3279 | repeated addition of the slope gives x_low + (y - min_y) * slope |
| PolygonEdges.SelectPermuted | src/zm_image.cpp:3268-3298 | what retiring or activating edges leaves does not depend on how the table is sorted |
| PolygonEdges.LiveStep | src/zm_image.cpp:3274-3291 | retiring, stepping and activating turn the edges live on line y - 1 into exactly those with min_y <= y < max_y |
| PolygonEdges.PendingStep | src/zm_image.cpp:3284-3291 | what stays in the global table is exactly the edges that begin further down |
| PolygonEdges.CrossingParity | src/zm_image.cpp:3250-3264 | by how the two end vertices lie, the sides up to a vertex cross a line an even or an odd number of times |
| PolygonEdges.CrossingsEvenAndPresent | src/zm_image.cpp:3250-3297 | a closed polygon crosses every line an even number of times, and at least twice exactly from its lowest vertex up to but excluding its highest |
| PolygonEdges.CrossXBetween | src/zm_image.cpp:3258-3264 | an edge crosses a line between its two end columns |
| PolygonEdges.PairsAreEvenOdd | src/zm_image.cpp:3304-3308 | a column lies in some inclusive span of the (2k)-th and (2k+1)-th sorted crossing if and only if an odd number of crossings lie left of it or one lies on it |
| PolygonEdges.ActiveShadesCovered | src/zm_image.cpp:3298-3308 | the sorted active table shades exactly the pixels covered under the even-odd rule, which mentions neither tables nor sorting |
| PolygonEdges.LiveInside | src/zm_image.cpp:3305-3308 | with all vertices in a box, every crossing is in it, so every write stays in its row |
| PolygonEdges.CoveredInsideBox | src/zm_image.cpp:3304-3336 | nothing outside the polygon's bounding box is covered |
| PolygonInterior.EdgeEnds | src/zm_image.cpp:3250-3264 | a side's edge passes through both of its vertices |
| PolygonInterior.EdgeOnSide | src/zm_image.cpp:3258-3279 | and on every line through the point of the straight line between them |
| PolygonInterior.TruncIs | src/zm_image.cpp:3305-3306 | the cast of a column to an integer rounds towards zero |
| PolygonInterior.CoveredIsInside | src/zm_image.cpp:3250-3308 | a pixel is covered if and only if, by the vertices alone and in whole numbers, an odd number of sides lie left of it or one goes through it |
| PolygonInterior.TriangleInside | src/zm_image.cpp:3250-3308 | for a triangle, the exact columns of every line |
| PolygonFill.BuildEdges | src/zm_image.cpp:3250-3264 | the edge table is the non-horizontal sides of the closed polygon |
| PolygonFill.Sort | src/zm_image.cpp:3268-3298 | an ordering of the same edges, for either comparison |
| PolygonFill.AdvanceActive | src/zm_image.cpp:3274-3281 | the erasing loop retires finished edges and steps all others |
| PolygonFill.Activate | src/zm_image.cpp:3284-3291 | the erasing loop moves exactly the edges that begin on this line |
| PolygonFill.PaintSpan | src/zm_image.cpp:3305-3335 | one span paints its inclusive columns at the density and no other byte of the buffer |
| PolygonFill.PaintLine | src/zm_image.cpp:3304-3336 | a line paints the union of its spans and no other byte |
| PolygonFill.ThinTurnIsLast | src/zm_image.cpp:3295-3297 | a turn with fewer than two active edges has none, and none are left to come: the counter stands still only on the last turn |
| PolygonFill.LineIsShaded | src/zm_image.cpp:3298-3336 | a line's spans are the even-odd interior of the polygon on that line |
| PolygonFill.ScanLines | src/zm_image.cpp:3271-3340 | the line loop terminates for every closed polygon and paints exactly its interior |
| PolygonFill.Fill | src/zm_image.cpp:3234-3341 | fewer than three vertices change nothing; otherwise exactly the pixels inside the vertices by the even-odd rule, at the density, take the colour and no other byte changes |
| PlaneTransforms.QuarterTurnsUndo | src/zm_image.cpp:3347-3389 | 90 then 270, and 270 then 90, are the identity |
| PlaneTransforms.TwoQuarterTurns | src/zm_image.cpp:3347-3389 | two quarter turns are a half turn |
| PlaneTransforms.HalfTurnUndo | src/zm_image.cpp:3347-3389 | two half turns are the identity |
| PlaneTransforms.FourQuarterTurns | src/zm_image.cpp:3347-3389 | four quarter turns are the identity |
| PlaneTransforms.FlipTwice | src/zm_image.cpp:3484-3508 | each flip done twice is the identity |
| PlaneTransforms.HalfTurnIsBothFlips | src/zm_image.cpp:3347-3508 | a half turn is the two flips, in either order |
| PlaneTransforms.TargetsCoverOnce | src/zm_image.cpp:3351-3388 | every visible destination sample is the target of exactly one source sample |
| PlaneTransforms.RotatePlane | src/zm_image.cpp:3347-3389 | for any valid strides the destination raster is the rotated source raster and nothing outside the plane changes |
| PlaneTransforms.FlipPlane | src/zm_image.cpp:3484-3508 | for any valid strides the destination raster is the mirrored source raster and nothing outside the plane changes |
| PlaneTransforms.CopyPlane | src/zm_image.cpp:2059-2073 | a window of the source raster, and nothing outside the destination plane changes |
| PlaneTransforms.CropTwice | src/zm_image.cpp:2055-2074 | a window of a window is one window |
| Layouts.PlaneFits | src/zm_image.cpp:2033-2048 | every plane of a laid-out image fits before the next one begins |
| Layouts.TurnedChromaSizes | src/zm_image.cpp:3413-3475 | the ceil-sized chroma planes of a turned image have exactly the turned chroma sizes, odd sizes too |
| Pictures.PictureBytes | src/zm_image.cpp:2632-2638 | which byte of the buffer each byte of each visible sample is |
| Pictures.TurnedRightIff | src/zm_image.cpp:3351-3363 | 90 degrees is the clockwise turn: row y becomes column H - 1 - y |
| Pictures.TurnedLeftIff | src/zm_image.cpp:3375-3388 | 270 degrees is the anticlockwise one |
| Pictures.UpsideDownIff | src/zm_image.cpp:3364-3374 | 180 degrees reverses rows and columns |
| Pictures.MirroredIff | src/zm_image.cpp:3484-3508 | a left-right flip swaps left and right, the other one top and bottom |
| Pictures.PlaneHoldsPixels | src/zm_image.cpp:1988-1990 | a chroma plane has exactly the samples that the pixels are drawn with, odd sizes too |
| Images.MaskHidesEverything | src/zm_image.cpp:2623-2715 | two images that agree on unmasked luma and on chroma covering no masked pixel become equal on all visible samples |
| Images.MaskHitIsChromaMasked | src/zm_image.cpp:2700-2709 | the four-way test with its bounds checks finds exactly the chroma samples that cover a masked pixel, odd sizes too |
| Images.MaskChroma | src/zm_image.cpp:2689-2715 | both chroma planes become neutral exactly there and no other byte changes |
| Images.MaskLuma | src/zm_image.cpp:2630-2666 | the colour on exactly the masked samples, with a running bitmask index and re-based rows |
| Images.WindowInPlane | src/zm_image.cpp:1993-2063 | the snapped window keeps its size and stays inside every plane |
| Images.ChromaFollowsPixel | src/zm_image.cpp:2055-2063 | after a crop each pixel is drawn with the chroma sample it had before |
| Images.TwoCropsAreOne | src/zm_image.cpp:1993-2078 | two crops equal one crop at the sum of their snapped origins, on every plane |
| Images.SnapIsGreatest | src/zm_image.cpp:2015-2025 | a crop's origin moves back to the nearest point of the chroma grid |
| Images.CropShowsWindow | src/zm_image.cpp:1993-2078 | after a crop every pixel of the window is drawn with the very samples it was drawn with before, on every plane |
| Images.MaskedLumaShows | src/zm_image.cpp:2630-2666 | byte y * width + x of the bitmask decides for pixel (x, y) |
| Images.MaskedChromaShows | src/zm_image.cpp:2689-2715 | a chroma sample is 128 if a masked pixel is drawn with it and unchanged if none is |
| Images.TransformPlanes | src/zm_image.cpp:3413-3475 | every plane of the new buffer is the transformed plane of the old one; later planes leave earlier ones alone |
| Images.Image.AssignDirect | src/zm_image.cpp:915-992 | takes over any sufficient buffer in the library's layout; a missing or small buffer, or an empty size, changes nothing |
| Images.Image.Rotate | src/zm_image.cpp:3392-3478 | sample by sample: 90 turns every plane clockwise, 270 anticlockwise, 180 upside down; sizes swap for quarter turns; other angles, and quarter turns of 4:2:2, change nothing |
| Images.Image.Flip | src/zm_image.cpp:3512-3572 | every plane is mirrored, left to right or top to bottom |
| Images.Image.Crop | src/zm_image.cpp:1993-2078 | fails exactly on windows that are empty or outside; otherwise every pixel of the window, from its snapped origin on, is drawn as before |
| Images.Image.MaskPrivacy | src/zm_image.cpp:2623-2715 | masked pixels take the colour and the chroma samples they are drawn with become 128; no other sample changes, nor any byte outside the visible planes |
| Images.Image.Fill | src/zm_image.cpp:3234-3341 | the same on the image's first plane |
| Images.Image.Delta | src/zm_image.cpp:2510-2590 | fails exactly on unequal sizes, formats or byte orders; otherwise the target holds the delta of every visible pixel, whichever helper ran |
| RowDeltas.ColourDelta | src/zm_image.cpp:4353-4600 | in each of the six byte orders a delta is (2 dr + 5 dg + db) / 8, rounded down, of the pixels' channels |
| RowDeltas.GrayDelta | src/zm_image.cpp:4311-4321 | a GRAY8 delta is how far the samples are apart |
| RowDeltas.StdRow | src/zm_image.cpp:4311-4321 | one row of deltas, and no byte outside that row's stride changes |
| RowDeltas.FastRow | src/zm_image.cpp:4283-4309 | the unrolled row: the same deltas up to the end of its last group, and no byte outside that row's stride changes |
| RowDeltas.AlignedOvershootFits | src/zm_image.cpp:97-123 | with 32-byte aligned strides the unrolled overshoot stays in the row, for GRAY8 and the 32-bit orders at every width |
| RowDeltas.Overshoot24 | src/zm_image.cpp:97-123 | for the 24-bit orders it stays in the row if and only if the width modulo 32 is not 9, 10 or 21 |
| RowDeltas.DeltaRows | src/zm_image.cpp:2543-2575 | row by row, the unrolled helpers give every visible pixel the delta of the plain ones |
| Blending.BlendByte | src/zm_image.cpp:4076-4092 | the reference moves by the difference divided by 2^divider, rounded down; each result lies between its inputs and stays put exactly when the scene is less than 2^divider above |
| Blending.DividerIsNearest | src/zm_image.cpp:4052-4074 | the divider's share, 100 / 2^divider percent, is the one of the six nearest to the percentage asked for |
| Blending.EachFrameApproaches | src/zm_image.cpp:4047-4098 | the reference never crosses the scene, and comes strictly closer until it settles |
| Blending.ReferenceSettles | src/zm_image.cpp:2369-2415 | after at most 255 equal frames: exactly the scene from above, less than 2^divider short of it from below, for good |
| Blending.FastBlend.Blend | src/zm_image.cpp:4047-4098 | every byte up to the end of the last turn of sixteen is blended with the divider of the percentage, cached or not, and nothing after that changes, for every count |
| EventWriter.RowsAreInOrder | src/zm_event.cpp:583-720 | for chronological packets, rows come in strictly increasing id order at offsets that never go back |
| EventWriter.FirstRowIsFrameOne | src/zm_event.cpp:662-675 | the first row is that of frame 1 |
| EventWriter.RowDelta | src/zm_event.cpp:676-690 | a row's delta is its distance from the start |
| EventWriter.Event.WriteDbFrames | src/zm_event.cpp:533-581 | the whole queue is sent, in order |
| EventWriter.HeldBackIff | src/zm_event.cpp:692-700 | a row that is not urgent is held back below a hundred rows and up to five seconds of them |
| EventWriter.Event.QueueRow | src/zm_event.cpp:689-702 | flushes exactly when the row is urgent, the queue is full or spans five seconds; the queue stays below MAX_DB_FRAMES |
| EventWriter.Event.NoteFrame | src/zm_event.cpp:589-673 | counters, best score and pictures; exactly when a row is due, and exactly when it is urgent |
| EventWriter.Event.AddFrame | src/zm_event.cpp:583-720 | batches sent plus queue are always exactly the rows of the packets so far; counters, best frame and pictures are theirs; and exactly when the queue is flushed |
| EventWriter.Event.Close | src/zm_event.cpp:303 | all rows of the event have been sent |
| EventRows.RowsIff | src/zm_event.cpp:589-690 | a row is written for a packet if and only if it has a timestamp and scores, tops every score before it, comes in or near an alarm or falls on the interval; and what the row holds |
| EventRows.IdsCount | src/zm_event.cpp:589 | ids number the packets with a timestamp without a gap |
| EventRows.CountersAreOfRows | src/zm_event.cpp:603-612 | the alarm count and total score of an event are those of its rows |
| EventRows.BestFrameHasRow | src/zm_event.cpp:670-673 | the best frame has a row, holds the maximum score and is the first to |
| EventRows.UrgentIff | src/zm_event.cpp:614-700 | which rows are sent at once, in terms of the packets before |
| FrameTable.EventData.AddRow | src/zm_eventstream.cpp:306-349 | interpolated frames at an even step up to the row, then the row's own frame, each with that step as its window |
| FrameTable.EventData.AddRows | src/zm_eventstream.cpp:299-349 | the table is dense, every row has its own offset at index FrameId - 1, every gap is filled, and the windows are those of the gaps |
| FrameTable.TableSorted | src/zm_eventstream.cpp:313-332 | rows in order give a table in order: truncated division never oversteps the next row |
| FrameTable.EventData.PadTrailing | src/zm_eventstream.cpp:375-400 | the loop terminates; frames follow at the step for as long as they do not pass the end |
| FrameTable.EventData.PadFromStart | src/zm_eventstream.cpp:353-365 | an event without rows gets a first frame and the frames that fit after it |
| FrameTable.TrailingIsPadding | src/zm_eventstream.cpp:366-400 | m + (D mod m) / (D / m) frames are exactly those that fit, and at least m |
| FrameTable.EventData.LoadFrames | src/zm_eventstream.cpp:291-401 | the whole table: dense, rows in place, in order, the exact number of trailing frames, never past the end, at least the recorded count |
| FrameTable.StoredRowsAreGood | src/zm_event.cpp:545-551 | what an event writes, rounded to two decimals, is what the reader needs |
| FrameTable.RecordAndReload | src/zm_eventstream.cpp:201-401 | recording any chronological packets, closing and loading gives a dense, ordered table from the stored start, in which every row has its rounded offset, and its timestamp less the lost part of a second |
| FrameTable.RecoveredWithin | src/zm_time.cpp:39-48 | an offset is within 5 ms; a timestamp is up to 1.005 s early, and within 5 ms if and only if the lost part of a second is small enough |
| FrameTable.SubsecondLost | src/zm_time.cpp:39-48 | an input whose first frame comes back 0.4 s early |
| FrameTable.LoadAndSeek | src/zm_eventstream.cpp:88-98 | the whole table, loaded from rows in order, and the frame that a search by time finds in it |
| FrameTable.RecordReloadAndSeek | src/zm_event.cpp:292-340 | for an event closed as the writer does and loaded again, seeking to the time at which a recorded row comes back succeeds exactly when the row's rounded delta is within the whole seconds from start to end, and shows a frame of that time |
| FrameTable.LastRowSought | src/zm_event.cpp:331-336 | so an event's last row can be sought if and only if the end is no further into its second than the start, but for the rounding of the delta |
| FrameTable.TruncDivIs | src/zm_eventstream.cpp:314-317 | a step is the distance divided by the frames, towards zero |
| FrameTable.GapWindowsJoin | src/zm_eventstream.cpp:322-332 | the window of each frame of a gap ends where the next one begins, and the last falls short of the row by less than a microsecond a frame |
| FrameTable.SeekBetween | src/zm_eventstream.cpp:111-145 | a time between two frames belongs to the earlier one if its window reaches it and otherwise to the later |
| FrameTable.SeekInGap | src/zm_eventstream.cpp:111-145 | so on a loaded table: within a gap the earlier frame; after a row the row, as far as the step of the gap before it |
| FrameTable.SeekAroundRow | src/zm_eventstream.cpp:88-145 | an event with a gap of one frame, sought within the gap and after its last row |
| FrameTable.FirstAtOrAfter | src/zm_eventstream.cpp:111-117 | the binary search finds the first frame at or after a time |
| FrameTable.Seek | src/zm_eventstream.cpp:101-149 | succeeds if and only if the time is in the event and a frame at or after it, or one of the last two windows, reaches it; picks that frame or the one before whose window reaches |
| FrameTable.SeekOffset | src/zm_eventstream.cpp:704-733 | the last frame at or before the offset, cut to the event's length, else frame 1 |
| FrameTable.SeekTargetUnique | src/zm_eventstream.cpp:723-733 | there is only one such frame |
| FrameTable.SeekRoundTrip | src/zm_eventstream.cpp:704-733 | with strictly increasing offsets, seeking to frame i's offset gives frame i if and only if that offset is within the length or i is the first |
| FrameTable.SeekMissesLastFrame | src/zm_eventstream.cpp:704-733 | an event whose last frame lies past its length, so that seeking to its offset gives the frame before |
| SetEventMessage.DecodeSetEvent | src/zm_eventstream.cpp:474-484 | the bytes of a message as direction, target and source, without losing a bit to the shifts |
| SetEventMessage.MessageBytes | web/includes/stream_set_event.php:24-46 | each byte of a message |
| SetEventMessage.MessageRoundTrip | web/includes/stream_set_event.php:28-46 | what the page packs is what the stream reads: all 64 bits of the target, the low 48 of the source |
| StreamState.MessageAcceptedIff | src/zm_eventstream.cpp:763-768 | a page's message is kept if and only if its source and the event playing agree in the low 48 bits |
| StreamState.PageDecides | src/zm_eventstream.cpp:749-781 | in every run, after the first SET_EVENT the same-monitor query is never asked and every move goes to an event named, for that direction, for the event left |
| StreamState.RunKeepsPage | src/zm_eventstream.cpp:864-969 | the invariant behind it, kept by every step of both threads |
| StreamState.EventChangesAreRecorded | src/zm_eventstream.cpp:955-968 | the event playing changes only at a recorded departure, in the direction the stream was leaving |
| StreamState.StoredHintIsLastKept | src/zm_eventstream.cpp:759-770 | in every run the hint stored for a direction is the last one kept for it, and was kept while its source, or an event with the same low 48 bits, was playing |
| StreamState.StaleHintIgnored | src/zm_eventstream.cpp:759-767 | a hint for another event replaces nothing and wakes nothing |
| StreamState.RunPlaysLoadedEvents | src/zm_eventstream.cpp:872-967 | in every run the event playing is one that some load gave |
| StreamState.ReadsAgainIffEndIsEpoch | src/zm_eventstream.cpp:872-880 | a stream past the last frame reads its event again if and only if the recorded end is the epoch |
| StreamState.UnfinishedEventIsLeft | src/zm_eventstream.cpp:872-987 | an event without a recorded end is never read again there: it is left for another, waited or stopped at, or paused on |
| StreamState.EveryCheckSettles | src/zm_eventstream.cpp:864-987 | in every run over events with frames, after each check the frame is in range, holding and end stop exclude each other and show frame 1 going back and the last frame going forward, and no wait is ten seconds old |
| StreamState.StepKeepsEnd | src/zm_eventstream.cpp:1267-1436 | the invariant behind it, kept by commands, the loop body with the frame it sends, and checks |
| StreamState.FramelessEventWaitsWhileStopped | src/zm_eventstream.cpp:872-908 | every ended event without frames breaks it: the stream ends up both stopped and waiting |
| StreamState.WaitEndsExactly | src/zm_eventstream.cpp:507-512 | step by step, a wait ends at a command other than QUERY and SET_EVENT, or at a check exactly when the awaited hint has come, the limit is reached or the mode plays one event |
| StreamState.HintEndsWait | src/zm_eventstream.cpp:909-968 | a stream held for a hint goes on to the event it names at the next check, at the end it plays from |
| StreamState.ResumeLoadsIffManyEvents | src/zm_eventstream.cpp:771-779 | a stopped stream woken by a hint loads the event if and only if the mode plays many events; otherwise it stops again and no hint wakes it |
| StreamState.SingleModeStopsAtEnd | src/zm_eventstream.cpp:693-698 | a run that stops at an end in a mode that plays one event |
| StreamState.PressReachesCheck | src/zm_eventstream.cpp:1343-1435 | a press that a turn of the loop overtakes is still past its own end afterwards if and only if the stream is stopped, or does not loop one event and plays (next) or stands at rate 0 (previous) |
| StreamState.OvertakenPrevious | src/zm_eventstream.cpp:1343-1371 | a previous overtaken during playback goes on from frame 1, and leaves the event forwards if it skips more frames than there are |
| StreamState.PreviousIsLost | src/zm_eventstream.cpp:1066-1071 | a run in which a previous press changes nothing |
| StreamFrames.RunIsOnRightFrame | src/zm_eventstream.cpp:887-987 | in every run over events with frames: held, stopped or paused at an end the stream is on frame 1 if it went back and on the last if forward; a newly loaded event is on frame 1, or its last in reverse |
| StreamFrames.CheckReadsAgain | src/zm_eventstream.cpp:873-880 | reading an event again keeps the frame if it is still there, else goes to the last |
| StreamFrames.CheckPauses | src/zm_eventstream.cpp:977-986 | the whole new state where the mode plays one event |
| StreamFrames.CheckGoesOn | src/zm_eventstream.cpp:893-968 | goes on if and only if the page, or without it the same-monitor query, gives an event that is there; the whole new state |
| StreamFrames.CheckHoldsOrStops | src/zm_eventstream.cpp:898-976 | and the whole new state otherwise |
| StreamFrames.RestKeepsFrame | src/zm_eventstream.cpp:1273-1436 | over any number of turns a paused, stopped or waiting stream stays on its frame |
| StreamFrames.PauseAndStopRest | src/zm_eventstream.cpp:516-565 | pause and stop bring that about |
| StreamFrames.StepMovesOneFrame | src/zm_eventstream.cpp:592-610 | a single step moves one frame, not past an end, and stays there over any number of turns |
| StreamFrames.StepIsShownOnce | src/zm_eventstream.cpp:1284-1288 | a step, or a seek or change of view while paused, is shown by the next turn only |
| StreamFrames.CountdownKeepsFrame | src/zm_eventstream.cpp:1306-1338 | a countdown to the next event moves nothing |
| StreamFrames.PlayGoesOn | src/zm_eventstream.cpp:521-544 | play goes on at normal speed from its frame, or from the first at the end of a single event |
| StreamFrames.SpeedGoesOn | src/zm_eventstream.cpp:1343-1361 | other speeds go on by their sign, and a repeated event starts again at frame 1 |
| StreamFrames.FastPresses | src/zm_eventstream.cpp:566-637 | the rate after any number of presses of fast forward or reverse |
| StreamFrames.VarPlayRate | src/zm_eventstream.cpp:545-558 | a variable speed is kept up to fifty times and cut to that |
| StreamFrames.SeekGoesTo | src/zm_eventstream.cpp:699-748 | a seek goes to the last frame at or before the offset, cut to the event's length |
| StreamFrames.PressGoesOn | src/zm_eventstream.cpp:687-698 | next and previous, seen by the check, go to the neighbour in the direction of playback |
| StreamFrames.HintWakesIff | src/zm_eventstream.cpp:763-779 | which hints wake a stream stopped at an end |
| EventPlayback.EventStream.SeekTo | src/zm_eventstream.cpp:699-748 | CMD_SEEK goes to as many frames as lie at or before the offset, and shows the frame once when paused |
| EventPlayback.EventStream.SetPlayback | src/zm_eventstream.cpp:515-698 | every playback command's effect on frame, rate, pause, stop and step |
| EventPlayback.EventStream.SetNeighbourEvent | src/zm_eventstream.cpp:749-781 | the hint fields after a SET_EVENT |
| EventPlayback.EventStream.ProcessCommand | src/zm_eventstream.cpp:502-792 | the object takes exactly the machine's command step |
| EventPlayback.EventStream.ReceiveSetEvent | src/zm_eventstream.cpp:753-781 | the same from the bytes of the message |
| EventPlayback.EventStream.SendFrame | src/zm_eventstream.cpp:1058-1071 | of sending a frame, that it brings the current frame into an event that has frames |
| EventPlayback.EventStream.RunBody | src/zm_eventstream.cpp:1267-1436 | the object takes exactly the machine's loop step, frames sent included |
| EventPlayback.EventStream.ChooseOutcome | src/zm_eventstream.cpp:893-952 | what the end of an event calls for |
| EventPlayback.EventStream.CheckEventLoaded | src/zm_eventstream.cpp:864-987 | the object takes exactly the machine's check step, and reports true if and only if another event was loaded |
| ForcedAlarms.RunKeepsInv | scripts/zmalarm-server.py:87-144 | the invariant, kept by every interleaving of triggers, expiries, signals and stop |
| ForcedAlarms.OneThreadPerAlarm | scripts/zmalarm-server.py:105-129 | at most one expiry thread per monitor, started or about to be |
| ForcedAlarms.DisarmedAtMostOnce | scripts/zmalarm-server.py:118-144 | no raised alarm is disarmed twice |
| ForcedAlarms.ExpiryWaitsForLastTrigger | scripts/zmalarm-server.py:92-129 | an expiry comes no sooner than the length after every accepted trigger of that alarm |
| ForcedAlarms.StopLeavesNothingForced | scripts/zmalarm-server.py:138-144 | when stop has returned nothing is active, and every arm that succeeded or was interrupted has been followed by a disarm attempt |
| ForcedAlarms.NoArmAfterStop | scripts/zmalarm-server.py:89-91 | nothing is armed after stop has returned |
| ForcedAlarms.EveryAlarmHasThreadIff | scripts/zmalarm-server.py:105-129 | in every run each active alarm has exactly one expiry thread if and only if no signal has left one without since the last stop |
| ForcedAlarms.RaisedThreadIffArmed | scripts/zmalarm-server.py:105-116 | a raising leaves an alarm unless arm failed, and a thread for it if and only if arm succeeded |
| ForcedAlarms.ThreadLostIffSignal | scripts/zmalarm-server.py:115-129 | an alarm with its thread loses it, while it lasts, if and only if a signal comes before the thread is started |
| ForcedAlarms.OrphanStays | scripts/zmalarm-server.py:92-129 | over every run without stop, an alarm without a thread stays active and without one, as the same raising |
| ForcedAlarms.StopEndsOrphan | scripts/zmalarm-server.py:138-144 | stop disarms it |
| ForcedAlarms.InterruptedAlarmNeverExpires | scripts/zmalarm-server.py:105-115 | after a signal in the arm of a new alarm, in any run, the monitor stays in forced alarm and nothing disarms it until stop |
| AlarmExpiry.TurnEndsAlarmIffDue | scripts/zmalarm-server.py:118-129 | in every run, a turn of the thread at or past the deadline removes and disarms the alarm and ends the thread, touching no other; before it nothing changes |
| AlarmExpiry.DisarmedIff | scripts/zmalarm-server.py:118-144 | in every run, exactly those alarms have been disarmed whose thread took a turn at or past the deadline, and those that stop found |
| AlarmExpiry.OverdueAlarmIsOver | scripts/zmalarm-server.py:92-129 | in every run, an alarm whose thread takes a turn the length or more after its last trigger has been disarmed and is over for good |
| AlarmExpiry.LifeOfAnAlarm | scripts/zmalarm-server.py:87-129 | a run: raised, and disarmed when its time is up |
| AlarmExpiry.TriggerExtends | scripts/zmalarm-server.py:92-101 | a trigger of an active alarm arms again and puts the deadline off to the length from now, and nothing else |
| AlarmExpiry.TriggerArmsUnlessAlarmed | scripts/zmalarm-server.py:102-114 | any other trigger arms unless the monitor is alarmed already |
| AlarmExpiry.TriggerRaises | scripts/zmalarm-server.py:105-115 | and raises a new alarm, due the length from now, unless arming fails |
| ForcedAlarms.Alarms.Trigger | scripts/zmalarm-server.py:87-116 | the locked part of trigger is the machine's step, and tells whether a thread is to be started |
| ForcedAlarms.Alarms.Expire | scripts/zmalarm-server.py:118-129 | one locked turn of the expiry loop is the machine's step, and ends the thread exactly when there is nothing left to wait for |
| ForcedAlarms.Alarms.DisarmAll | scripts/zmalarm-server.py:142-143 | one disarm for each active alarm |
| ForcedAlarms.Alarms.Stop | scripts/zmalarm-server.py:138-144 | the locked part of stop is the machine's step |
| DbQueue.TakenInOrder | src/zm_db.cpp:381-425 | in every reachable state executed is a prefix of taken is a prefix of accepted, in order and each once |
| DbQueue.LeavesOnlyWhenEmpty | src/zm_db.cpp:384-415 | once in its loop the worker leaves only with nothing queued and everything executed |
| DbQueue.StopExecutesAllIff | src/zm_db.cpp:370-425 | in every run, with or without a signal, when stop has joined all accepted statements were executed if and only if none was pushed after the worker had left, and the worker got into its loop or nothing was pushed |
| DbQueue.StopExecutesAllIffEntered | src/zm_db.cpp:370-379 | without a signal, if and only if the worker got into its loop first or nothing was pushed |
| DbQueue.EarlyStopLosesStatement | src/zm_db.cpp:370-384 | a run in which stop loses a statement |
| DbQueue.SignalLosesStatement | src/zm_db.cpp:384-422 | a run in which a push after a signal is accepted and never executed |
| DbQueue.NoPushAfterStop | src/zm_db.cpp:418-425 | no push is accepted after stop has set its flag |
| DbQueue.StopJoins | src/zm_db.cpp:378-416 | with the flag set the worker exits within one turn per queued statement and one more |
| DbQueue.StopWakesWorker | src/zm_db.cpp:376-387 | no stop request is slept through once the notifications are out |
| DbQueue.Queue.Push | src/zm_db.cpp:418-425 | the object takes exactly the machine's push step |
| DbQueue.Queue.StopFlag | src/zm_db.cpp:370-375 | the object takes exactly the machine's stop step |
| DbQueue.Queue.Process | src/zm_db.cpp:381-416 | the nested loops between two releases of the lock are the machine's worker turn |
| ByteBuffer.Buffer.Clear | src/zm_buffer.h:80-83 | empty, same block |
| ByteBuffer.Buffer.Assign | src/zm_buffer.cpp:24-35 | the contents are the bytes given |
| ByteBuffer.Buffer.Expand | src/zm_buffer.cpp:37-70 | the contents never change; there is room for count afterwards if and only if the total is within the maximum or there was room before |
| ByteBuffer.Buffer.Tidy | src/zm_buffer.h:146-161 | the contents never change; the level-1 copy never overlaps |
| ByteBuffer.Buffer.Consume | src/zm_buffer.h:91-101 | drops a prefix |
| ByteBuffer.Buffer.Shrink | src/zm_buffer.h:103-114 | drops a suffix |
| ByteBuffer.Buffer.Extract | src/zm_buffer.h:121-131 | drops a prefix and leaves its bytes readable where they were |
| ByteBuffer.Buffer.Append | src/zm_buffer.h:133-139 | appends, and returns the new size |
| ByteBuffer.RunOps | src/zm_buffer.h:80-161 | any run of operations behaves as on a plain byte sequence, with tail = head + size <= allocation |
| LoopReader.RestartIncreasesIff | src/zm_ffmpeg_camera.cpp:157-160 | after a restart a packet comes after all delivered ones if and only if its dts is above the start time less one frame |
| LoopReader.DeliveredDtsIncrease | src/zm_ffmpeg_camera.cpp:243-418 | over any session of any inputs whose streams are in order within a pass, delivered video dts and delivered audio dts both increase strictly if and only if every pass joins on; they always do where indices do not meet across inputs |
| LoopReader.OutgoingKeepsDistance | src/zm_ffmpeg_camera.cpp:334-337 | pts - dts of a delivered packet is that of the file |
| LoopReader.OpenedInv | src/zm_ffmpeg_camera.cpp:468-471 | opening clears the offsets and seeds positive frame durations, which is a state in order |
| LoopReader.InOrderIff | src/zm_ffmpeg_camera.cpp:141-418 | for the video and for the audio of any inputs, shared indices or not: over any run delivered dts increase strictly if and only if the first packet of each pass comes after the last one that went out; a pass ends where the stream starts again or the offset it goes out with may change |
| LoopReader.RestartInOrderIff | src/zm_ffmpeg_camera.cpp:157-160 | the first video packet after a restart stays in order if and only if the remembered dts, plus one frame, less the start time, plus its own dts, is above the last dts delivered |
| LoopReader.SecondTakesOver | src/zm_ffmpeg_camera.cpp:411-416 | a delivered packet of the second input with the video's index becomes the remembered one, though no video packet went out |
| LoopReader.SharedIndexInOrderIff | src/zm_ffmpeg_camera.cpp:157-416 | for every looped pair of inputs that share the index: the order survives the next restart if and only if the second input is not too far behind |
| LoopReader.SharedIndexBreaksOrder | src/zm_ffmpeg_camera.cpp:255-415 | a run with a shared stream index, read in the order of its presentation times, in which delivered video dts go back |
| LoopReader.AudioRestartInOrderIff | src/zm_ffmpeg_camera.cpp:161-164 | with a shared index, the first audio packet after the second input's restart stays in order if and only if the last dts is below its own plus the video's offset |
| LoopReader.SharedIndexBreaksAudio | src/zm_ffmpeg_camera.cpp:255-415 | such a run in which delivered audio dts go back, without a restart of the main input |
| LoopJoins.FrameDurationsNoted | src/zm_ffmpeg_camera.cpp:323-333 | whose frame duration a packet sets, for video and audio |
| LoopJoins.DtsRemembered | src/zm_ffmpeg_camera.cpp:334-416 | at which dts a packet goes out, and that it is remembered for its stream |
| LoopJoins.VideoJoin | src/zm_ffmpeg_camera.cpp:157-160 | the first video packet of a pass goes out exactly one frame after the last of the pass before, later by as much as it lies after the start time |
| LoopJoins.AudioJoin | src/zm_ffmpeg_camera.cpp:161-164 | the same of the audio, on the input that carries it |
| LoopJoins.StartComesOneFrameLater | src/zm_ffmpeg_camera.cpp:141-177 | what a restart of either input does to both offsets, and leaves alone |
| LoopJoins.VideoJumpTurnedAway | src/zm_ffmpeg_camera.cpp:363-383 | a dts more than ten seconds back is turned away, six times without an error |
| LoopJoins.VideoPtsJumpTurnedAway | src/zm_ffmpeg_camera.cpp:340-360 | and so is such a pts |
| LoopReader.Camera.LoopSeekToStart | src/zm_ffmpeg_camera.cpp:141-177 | the offsets of the streams this input carries continue one frame after the last dts |
| LoopReader.Camera.ReadFrameWithLoop | src/zm_ffmpeg_camera.cpp:179-189 | the next packet, from the start again at the end of a looped, seekable input |
| LoopReader.Camera.CaptureOne | src/zm_ffmpeg_camera.cpp:243-418 | the object takes exactly the machine's capture step |

## Left out

- SQL text, MySQL calls, reconnects and retries: the database is a list of rows, or a map of events with the answer of the same-monitor query.
- Files, sockets, pipes, frame encoding, sleeping and pacing: input and output. Of sending a frame only what it does to the current frame is modelled; when a keepalive is due is a free choice.
- libav decoding, seeking and layout helpers: replaced by packets in read order and by rows padded to 32 bytes with ceil-sized chroma planes after the luma plane.
- The SSE, SSSE3 and NEON kernels: only the C++ forms are modelled.
- Rounding of doubles: crossings, blend percentages and frame rates are exact; offsets are exact microseconds, where the original converts text through a double and may lose one.
- Rounding of the Delta column on exact ties: always upwards here.
- Widths of the original integers: sizes, frame counts and timestamps stay below 2^31 or 2^63; only the shifts of the message decoder are modelled with their 64-bit word.
- std::sort: any ordering by the same comparison, here an insertion sort.
- Blending.FastBlend.Blend: whether every caller's buffers, such as a borrowed luma plane, hold whole turns of sixteen bytes is not modelled; the method asks for it.
- Conversion of a colour to the image's byte order: the colour is given as the bytes of one pixel.
- PolygonFill.Fill: requires the vertices inside the plane and a density other than 0, as the original's callers provide.
- Images.Image.Delta: null buffers are not modelled; where the unrolled helpers run, both images have rows padded to 32 bytes up to the last, without which the overshoot of the last row would leave the buffer.
- Images.Image.Rotate: negative angles are not modelled.
- Images.Image.AssignDirect: a held buffer, which is copied into instead of replaced, and formats the library does not know are not modelled.
- FrameTable.EventData.AddRow: rows start at frame id 1, as the writer's do; the original indexes before the table otherwise.
- FrameTable.EventData.LoadFrames: the step for an event without rows comes from the frame rate and is a parameter; a termination signal is either there for the whole call or not.
- ByteBuffer.Buffer.Append: the source does not alias the buffer and the total stays within the maximum; ByteBuffer.Buffer.Sized takes no size of 0.
- EventWriter.Event.AddFrame: pictures, statistics and audio levels are not written anywhere; the update of the Events row is not modelled.
- StreamState.PageDecides: an event that disappears between the existence check and loading ends the original process; the model loads it.
- The countdown between events in MODE_ALL: a loop step may be one that only counts down, but for how long is not modelled.
- The clock of a wait as a time point whose zero means none: an option here.
- Zoom, pan and scale values, the status reply and the stream position in wall-clock time: nothing modelled depends on them.
- Which of two inputs FfmpegCamera reads next: both choices are always allowed, instead of comparing rescaled timestamps; the two runs given as examples make the choices that comparison makes.
- Failing reads other than the end of the file, and failing seeks on a seekable input.
- Logging, paths, permissions, configuration, ComputeRealtimePace, EventMaxScoreForDb, IsAlarm, LevelWanted and Select: settled by reading a few lines.
