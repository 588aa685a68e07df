# VideoMeetApp session model

A Dafny model of the session state machine inside the `VideoMeetApp`
component of a simulated video-meeting page. The model covers the chat log
(sending, the unread watermark, the chat badge), the local participant's
mute/camera/screen-share flags, the screen-share acquire/release effect, the
per-sample active-speaker rule, the two-finger pinch interpreter, the
auto-hide timer of the floating controls, and the view derivations the
video grid reads (pinned filter, column layout, tile content, tile zoom).

Layout, one module per file:

- `optional.dfy` (`Optional`): the nullable values of the state.
- `text.dfy` (`Text`): JavaScript's `trim` (which characters it removes, and
  that a trimmed-empty draft is exactly an all-white-space one), and the
  decimal rendering of a count with its parse-back round trip.
- `roster.dfy` (`Roster`): `Participant`, the seed roster, `find`, and the
  pure `prev.map(...)` flag updates of participant "1".
- `speaker.dfy` (`Speaker`): the volume of a byte sample and the exclusive
  active-speaker update.
- `chat.dfy` (`Chat`): `Message`, the seed log, `getLastOtherMessageId`,
  `unreadCount` and the chat-button badge.
- `gesture.dfy` (`Gesture`): the zoom clamp and the pin decision of a pinch move.
- `view.dfy` (`View`): orientation, the pinned filter, `gridCols`, tile
  content priority and the pinned-only zoom transform.
- `session.dfy` (`VideoMeet`): class `Session`. Its fields are the
  component's `useState` cells and refs. Its methods are the event handlers,
  the effects, and the asynchronous events the browser delivers: a camera or
  capture request settling, a capture track ending, an audio sample, time
  advancing. `Valid()` is the invariant every method keeps:
  - roster ids are unique and "1" is present (every roster transition keeps
    each entry's id and name, so both facts carry over);
  - at most one participant is active;
  - every message id equals its position, and the counter equals the log's length;
  - while the chat is open, the watermark equals `getLastOtherMessageId(messages)`;
  - the zoom lies in [1, 3];
  - a pinned id names a roster member;
  - a pending controls timeout implies the controls are shown.
- `scenarios.dfy` (`Scenarios`): event sequences run on a fresh session,
  e.g. a capture success arriving after sharing was turned off.

Modelling choices:

- Touch distances are `real` inputs: `Math.hypot` is not modelled.
- Time is an integer clock passed to the timer methods. A pending timeout is
  a flag plus a deadline.
- A stream is an id plus the list of its track ids. "Stopping" a track adds it to
  `stoppedTracks`. Stopping a track twice, which the effect does when sharing turns
  off, is harmless in the browser and idempotent here. A granted capture is a
  new stream: its id has no listener yet and none of its tracks is stopped.
- `Math.max(...[])` is -Infinity in JavaScript. `Peak` of an empty sample is -1,
  a value below every byte, so it compares against the threshold the same way.
- JavaScript truthiness of `pinnedParticipantId` is written out: `null` and
  `""` both mean grid view (`View.IsPinned`).

Behaviours of the code worth noting, all reproduced by the model:

- The stream `toggleVideo` acquires with `getUserMedia` is discarded
  (app.tsx:777) and never stopped, so the model holds no camera stream. The
  camera tile acquires and stops a stream of its own when it mounts and
  unmounts (app.tsx:920-940); that is rendering and is not modelled.
- A capture success is never discarded as stale: one that arrives after
  sharing was turned off is stored, and its tracks are not stopped
  (app.tsx:821-822). A later "ended" event or failure does not release it
  either, because sharing is already off and the effect does not run. See
  `Scenarios.LateCaptureSuccess` and `Scenarios.LateStreamOutlivesEnded`.
- The unmount cleanup of the screen-share effect stops the held stream's tracks.
  It does not clear the reference (app.tsx:847-851).
- Ids come from a separate counter, `messageIdCount`, which starts at 3, not
  from "current maximum + 1". Given the seeds these agree; the invariant is
  `messages[i].id == i`.
- The code never appends a message from anyone other than "You". The rule that
  such a message raises the unread count by one is stated as a lemma about the log
  (`Chat.OtherMessageUnread`).
- A touch move with other than two touches is ignored. It does not end the
  pinch; only `handleTouchEnd` does.
- The badge counts every message from others (app.tsx:1208), not the unread ones.

## Model

| member | source | states |
|---|---|---|
| Text.LeadingWhite | app.tsx:601 | the count of leading characters is maximal: all of them are white space and the next one, if any, is not |
| Text.TrailingWhite | app.tsx:601 | the count of trailing characters is maximal: all of them are white space and the one before them, if any, is not |
| Text.Trim | app.tsx:601 | the trimmed text is no longer than the input and neither starts nor ends with white space |
| Text.TrimIsSlice | app.tsx:601 | `trim()` keeps the contiguous part of the input between an all-white prefix and an all-white suffix |
| Text.IsBlank | app.tsx:601 | a draft fails `newMessage.trim()` exactly when every character is JavaScript white space |
| Text.TrimEmptyIffAllWhite | app.tsx:601 | `trim()` yields the empty string iff the string is all white space (both directions) |
| Text.DecimalString | app.tsx:474 | the decimal text of a count is a non-empty digit string without a leading zero (except for 0 itself), one digit below 10 and two from 10 to 99 |
| Text.DecimalRoundTrip | app.tsx:474 | the decimal text of a count reads back as the same count |
| Roster.SeedRosterWellFormed | app.tsx:501-598 | the seed roster has unique ids, "1" first, and at most one active participant |
| Roster.SeedIdsUnique | app.tsx:501-598 | no two seed participants share an id |
| Roster.SameIdsKeepShape | app.tsx:501-598 | a roster listing the same people as one with unique ids has unique ids and every id the first one had |
| Roster.FindById | app.tsx:813 | `find` by id returns the first entry with that id, and none exactly when no entry has it |
| Roster.IsScreenSharing | app.tsx:813-815 | `me?.isScreenShareOn`: true only when "1" is on the roster, and with unique ids exactly when its entry has sharing on (a missing `me` counts as off) |
| Roster.IsVideoOn | app.tsx:773-774 | the branch `toggleVideo` takes: true only when "1" is on the roster, and with unique ids exactly when its entry has the camera on |
| Roster.FindActive | app.tsx:661 | `find(p => p.isActive)` returns the first active entry, and none exactly when no one is active |
| Roster.FindActiveUnique | app.tsx:661 | with exclusive activity, `find` returns the one active participant |
| Roster.MapSelf | app.tsx:754 | a local-flag update changes the entries with id "1" by `f` and leaves every other entry equal |
| Roster.FindSelfAfterMap | app.tsx:813-815 | after an id-preserving update of "1", `me` is the updated former `me` |
| Roster.ToggleMute | app.tsx:752-756 | only `isMuted` of participant "1" flips; all other entries and fields are unchanged |
| Roster.ToggleMuteTwice | app.tsx:752-756 | toggling mute twice restores the roster |
| Roster.ToggleScreenShareFlag | app.tsx:804-808 | only `isScreenShareOn` of participant "1" flips; nothing else changes |
| Roster.ToggleScreenShareFlipsSharing | app.tsx:804-815 | the flip inverts `me?.isScreenShareOn`, the dependency of the screen-share effect |
| Roster.SetSelfVideo | app.tsx:778-794 | sets "1".`isVideoOn`, leaves others and the sharing flag unchanged, and `me`'s camera reads the new value |
| Roster.SetSelfScreenShare | app.tsx:825-838 | sets "1".`isScreenShareOn`, leaves others and the camera unchanged, and `me`'s sharing reads the new value |
| Roster.SameActiveKeepsExclusive | app.tsx:752-756 | an update that keeps every `isActive` flag keeps exclusivity |
| Speaker.Peak | app.tsx:707 | the volume bounds every byte and is one of them (-1, i.e. -Infinity, for an empty sample) |
| Speaker.PeakAboveThresholdIff | app.tsx:707-709 | the volume exceeds 50 exactly when some byte does |
| Speaker.MarkActive | app.tsx:710-715 | afterwards exactly position `index` is active and every other field is unchanged |
| Speaker.SampleStep | app.tsx:705-716 | a sample keeps ids and names and preserves at-most-one-active |
| Speaker.SampleStepEffect | app.tsx:705-716 | a loud sample makes `index` the only active position, with nothing else changed; a quiet one changes nothing |
| Speaker.ActiveAfterLoudSample | app.tsx:710-715 | after a loud sample the active speaker a pinch sees is the sampled participant |
| Chat.PositionalIdsIncrease | app.tsx:605-611 | ids equal to positions are strictly increasing, hence unique |
| Chat.AppendKeepsPositions | app.tsx:602-611 | appending under the next counter value keeps ids equal to positions |
| Chat.LastOtherMessageId | app.tsx:737-738 | the watermark is at least 0, bounds every id from others, and is 0 or one of those ids |
| Chat.UnreadCount | app.tsx:913-915 | the count is at most the log's length and is 0 when nothing from others lies above the watermark |
| Chat.AppendedUnread | app.tsx:913-915 | appending adds one to the count exactly when the new message is from others and above the watermark |
| Chat.OwnMessageNotUnread | app.tsx:600-614 | a message sent by "You" never changes the unread count |
| Chat.OtherMessageUnread | app.tsx:913-915 | a message from others above the watermark raises the unread count by exactly one |
| Chat.NothingUnreadAboveAll | app.tsx:913-915 | with the watermark at or above every id from others, nothing is unread |
| Chat.MarkReadClearsUnread | app.tsx:906-915 | recomputing the watermark when the chat opens leaves the unread count 0 |
| Chat.OwnMessageKeepsWatermark | app.tsx:737-738 | a message from "You" does not move the watermark |
| Chat.OthersMessages | app.tsx:1208 | the filtered list holds only messages from others, and is empty exactly when the log has none |
| Chat.OthersMessagesCounts | app.tsx:1208 | the filter keeps every message from others exactly as often as it occurs in the log and drops the rest, so its length is the number of such messages |
| Chat.OthersMessagesAppend | app.tsx:1208 | the filter keeps the log's order: a new message extends the list exactly when it is from someone else |
| Chat.OthersOfThree | app.tsx:1208 | two messages from others followed by one's own filter to the first two |
| Chat.SeedBadge | app.tsx:471-474 | on the seed log the list has two messages and the badge reads "2" |
| Chat.UnreadAtMostOthers | app.tsx:1208 | the unread count never exceeds the number of others' messages the badge counts |
| Chat.BadgeLabel | app.tsx:474 | the label is "99+" iff the count is at least 99; otherwise it is the decimal numeral of the count: 1-2 digits, no leading zero, reading back as the count |
| Chat.Badge | app.tsx:471-474 | the badge shows iff some message is from others, and is labelled with their number |
| Gesture.Clamp | app.tsx:658 | the zoom lies in [1, 3], equals the ratio inside that range, and is the nearer bound outside it |
| Gesture.PinAfterMove | app.tsx:661-666 | an active speaker with ratio above 1.2 is pinned; otherwise a ratio below 0.8 unpins; otherwise the pin is kept |
| Gesture.PinningMoveZooms | app.tsx:656-666 | a move that pins also publishes a zoom above 1.2, and pins the active speaker |
| Gesture.UnpinningMoveResetsZoom | app.tsx:656-666 | a move that clears a pin leaves the zoom at 1 |
| View.OrientationOf | app.tsx:743-745 | portrait iff the height exceeds the width |
| View.WithId | app.tsx:1126 | the filter keeps exactly the entries with the pinned id, and is empty iff none has it |
| View.IsPinned | app.tsx:1125-1131 | the truthiness of `pinnedParticipantId`: null is falsy, and an id is truthy exactly when it is non-empty |
| View.VisibleTiles | app.tsx:1125-1127 | unpinned, all participants show; pinned, exactly those with the pinned id |
| View.WithIdUnique | app.tsx:1126 | with unique ids, filtering on a member's id yields exactly that member |
| View.PinnedShowsOne | app.tsx:1125-1127 | pinning a roster member shows exactly one tile, that member's |
| View.GridLayout | app.tsx:1130-1141 | 1 to 3 columns; pinned is one 16:9 column; portrait never exceeds 2; the `md` count is 4 and wider |
| View.GridColsMonotone | app.tsx:1133-1141 | more tiles never mean fewer columns |
| View.GridClassStrings | app.tsx:1130-1141 | the class string `GridClass` builds from the layout is the source's literal for each pin/orientation/count case |
| View.ContentOf | app.tsx:1067-1077 | screen share iff sharing; camera iff the camera is on and not sharing; else the name's first character |
| View.TileScale | app.tsx:1039 | only the pinned tile is scaled, by the zoom, and the scale stays in [1, 3] |
| VideoMeet.Session.constructor | app.tsx:728-745 | the mounted state: seed roster and log, counter 3, watermark of the seeds, probe result, orientation, first timeout pending at now+3000 |
| VideoMeet.Session.EditDraft | app.tsx:234 | the draft becomes the input's text |
| VideoMeet.Session.AppendDraft | app.tsx:602-612 | the draft is appended as {counter, "You", draft}, the counter rises by one, the draft clears, and the watermark and unread count are unchanged |
| VideoMeet.Session.SendMessage | app.tsx:600-614 | a blank draft changes nothing; otherwise exactly one message {counter, "You", untrimmed draft} is appended, the counter rises by one, the draft clears, the unread count is unchanged, and the log's ids still strictly increase |
| VideoMeet.Session.MessageIdsIncrease | app.tsx:600-614 | in every valid session the chat log's ids strictly increase |
| VideoMeet.Session.Unread | app.tsx:913-915 | `unreadCount` never exceeds the number of messages from others, and is 0 while the chat is open |
| VideoMeet.Session.SetChatOpen | app.tsx:906-910 | opening sets the watermark to the last id from others, so unread becomes 0 |
| VideoMeet.Session.ToggleMute | app.tsx:752-756 | the roster becomes `Roster.ToggleMute` of the old roster |
| VideoMeet.Session.ToggleVideo | app.tsx:770-799 | from off: roster unchanged and one camera request issued; from on: "1"'s camera off at once |
| VideoMeet.Session.CameraSettled | app.tsx:777-791 | only a granted request turns "1"'s camera on; a denied one changes nothing |
| VideoMeet.Session.StopTracks | app.tsx:842 | every track of the stream is stopped and nothing else is |
| VideoMeet.Session.ScreenShareEffect | app.tsx:817-852 | on a change of `me?.isScreenShareOn`: the old stream's tracks are stopped; turning on issues one capture request; turning off clears the reference |
| VideoMeet.Session.ToggleScreenShare | app.tsx:801-809 | unsupported: nothing changes; else only "1"'s sharing flips, and turning off releases the held stream |
| VideoMeet.Session.DisplayMediaGranted | app.tsx:821-831 | a granted (new) stream is stored, and gets the ended listener, whatever the flag is now |
| VideoMeet.Session.StopSharing | app.tsx:825-838 | forces "1"'s sharing off; if it was on, the stream's tracks are stopped and the reference cleared |
| VideoMeet.Session.DisplayMediaFailed | app.tsx:832-839 | a failed capture forces sharing off; if sharing was on, the held stream's tracks are stopped and the reference cleared, otherwise stream and stopped tracks are unchanged |
| VideoMeet.Session.ScreenShareEnded | app.tsx:824-830 | a track's "ended" event forces sharing off; if sharing was on, the held stream's tracks are stopped and the reference cleared, otherwise stream and stopped tracks are unchanged |
| VideoMeet.Session.SpeakerSample | app.tsx:705-716 | the roster becomes the sample step of the old one, keeping exclusivity |
| VideoMeet.Session.TouchStart | app.tsx:637-645 | two touches record the initial distance; any other count leaves the pinch as it was |
| VideoMeet.Session.TouchMove | app.tsx:648-670 | ignored unless a pinch was started and two touches move; else zoom = clamp(d/D) and the pin follows the ratio rule |
| VideoMeet.Session.TouchEnd | app.tsx:672-676 | the pinch clears, the zoom is 1 and no one is pinned |
| VideoMeet.Session.Interaction | app.tsx:870-883 | controls are shown and the single pending deadline becomes now+3000 |
| VideoMeet.Session.Tick | app.tsx:880-882 | controls hide only when a pending deadline has passed, which also ends the timeout |
| VideoMeet.Session.Resize | app.tsx:854-859 | the orientation is recomputed from the window size |
| VideoMeet.Session.Teardown | app.tsx:896-903 | the pending timeout is cancelled and the held stream's tracks are stopped |
| Scenarios.LoudThenQuietSample | app.tsx:705-716 | John's sample of 80 makes him the only speaker; a later quiet sample leaves him active |
| Scenarios.OwnMessageThenOpen | app.tsx:600-614 | sending "hi" as You leaves unread unchanged, gets id 3, and opening the chat makes unread 0 |
| Scenarios.BlankDraft | app.tsx:600-601 | a whitespace-only draft is not sent and stays in the input |
| Scenarios.CameraOnThenOff | app.tsx:770-799 | grant then toggle ends with the camera off; a denied request leaves it off |
| Scenarios.ShareThenStop | app.tsx:840-844 | turning sharing off stops the captured tracks and clears the reference |
| Scenarios.LateCaptureSuccess | app.tsx:817-831 | a capture success that arrives after sharing was turned off is stored, and its track keeps running |
| Scenarios.LateStreamOutlivesEnded | app.tsx:817-852 | a stale stream whose track then ends is still held and its track is never stopped, because sharing was already off |
| Scenarios.UnsupportedShare | app.tsx:801-802 | without the capability, toggling issues no request and does not share |
| Scenarios.PinchToPin | app.tsx:637-676 | spreading 100 to 400 zooms to 3 and pins the active speaker "2"; release unpins and resets the zoom |
| Scenarios.MoveWithoutStart | app.tsx:650 | a move with no two-finger start changes nothing |
| Scenarios.ControlsHideAfterIdle | app.tsx:870-883 | an interaction at 2000 keeps the controls through 4999, and they hide at 5000 |
| Scenarios.TeardownCancelsTimer | app.tsx:896-903 | after teardown the timeout never hides the controls |

## Left out

- JSX, styling and markup: the end-call screen and its `isCallFinished` flag, the chat panel, the floating controls, the camera and screen-share tiles' rendering, the colour palette and the `<style>` block. These are presentation, not logic.
- The top-level favicon `useEffect`: it is DOM manipulation outside any component.
- Building the Web Audio graph (`AudioContext`, `createAnalyser`, `new MediaStream()`). This is foreign API plumbing. Because the stream has no audio track, the code never installs a sampling interval. Only the per-sample rule is modelled, as an event for a remote participant's position.
- `navigator.mediaDevices`, `alert` and `console.error`. They become request counters and settle events; the user-visible error notice is not modelled.
- `Math.hypot` on touch coordinates: distances are given reals.
- The check that `videoGridRef.current` is non-null in `handleTouchMove`: the grid is always mounted while touches arrive.
- The `scale` field of the pinch ref: it is never read.
- `Message.time`, `Date` and `toLocaleString` formatting.
- Registration and removal of window listeners (resize, orientation, mouse, touch, click): their deliveries are the methods `Resize` and `Interaction`. A real `touchstart` reaches both `Interaction` and `TouchStart`.
- `document.body.style.overflow`.
- The camera tile's own `getUserMedia` request, its `srcObject` assignment and its unmount cleanup (app.tsx:920-940): rendering of the local preview, separate from the session state.
- The optional `stream`, `audioContext` and `analyser` fields of a participant: the code never sets them.
- React scheduling: update batching, effect ordering, and StrictMode's double run of the updater that issues the camera request. These are framework concurrency. Each method applies one handler's updates, and the effects they trigger, atomically.
- VideoMeet.Session.TouchStart: requires a positive distance for a two-finger start. At distance 0 the JavaScript ratio would be Infinity or NaN, which exact reals cannot express.
- A pinch started at distance 0 and moved at distance 0 gives `scale` NaN in the code (app.tsx:656-659). `Math.min(Math.max(NaN, 1), 3)` is NaN, so the code publishes `zoomScale = NaN`, outside [1, 3]. The model excludes that start, so its zoom bound does not cover this input.
- VideoMeet.Session.SpeakerSample: requires the sampled position to belong to a remote participant, because the code only wires pipelines for ids other than "1".
