/**
 * The session state of `VideoMeetApp` as one mutable object: every `useState`
 * cell and every ref the handlers use is a field, and every event handler or
 * effect is a method. Events the browser delivers asynchronously (a camera or
 * screen-capture request settling, a capture track ending, a timer firing, an
 * audio sample) are methods of their own that the environment calls.
 */
module VideoMeet {
  import opened Optional
  import opened Text
  import opened Roster
  import opened Chat
  import opened Speaker
  import opened Gesture
  import opened View

  type StreamId = nat
  type TrackId = nat

  /** A captured screen stream and the tracks `getTracks()` returns for it. */
  datatype Stream = Stream(id: StreamId, tracks: seq<TrackId>)

  /** How a `getUserMedia` request settles. */
  datatype CameraResult = CameraGranted | CameraDenied

  /** Milliseconds of inactivity after which the floating controls hide. */
  const ControlsHideDelay: int := 3000

  /** The tracks of the stream a reference holds. */
  function TracksOf(s: Option<Stream>): set<TrackId> {
    if s.Some? then (set t | t in s.value.tracks) else {}
  }

  class Session {
    // The component's state cells.
    var participants: seq<Participant>
    var messages: seq<Message>
    var messageIdCount: int
    var newMessage: string
    var pinnedParticipantId: Option<string>
    var zoomScale: real
    var isChatOpen: bool
    var showControls: bool
    var isScreenShareSupported: bool
    var lastReadOtherMessageId: int
    var orientation: Orientation

    // The component's refs.
    /** `pinchRef.current`: the initial distance of the pinch in progress. */
    var pinch: Option<real>
    /** `controlsTimeoutRef.current` holds a timeout that has neither fired nor been cleared. */
    var controlsTimerPending: bool
    /** When that timeout fires. */
    var controlsDeadline: int
    /** `screenShareStreamRef.current`. */
    var screenShareStream: Option<Stream>

    // The environment that the browser keeps and the model makes explicit.
    /** The latest time an event was delivered at. */
    var clock: int
    /** Every capture track `stop()` has been called on. */
    var stoppedTracks: set<TrackId>
    /** Streams whose first video track carries the "ended" listener. */
    var endedListeners: set<StreamId>
    /** `getUserMedia` promises that have not settled. */
    var pendingCameraRequests: nat
    /** `getDisplayMedia` promises that have not settled. */
    var pendingDisplayRequests: nat

    /** The roster keeps unique ids, "1" among them, at most one speaker, and the pin names a member. */
    ghost predicate RosterValid()
      reads this`participants, this`pinnedParticipantId
    {
      UniqueIds(participants) && HasId(participants, Self) && AtMostOneActive(participants) &&
      (pinnedParticipantId.Some? ==> HasId(participants, pinnedParticipantId.value))
    }

    /** Ids are positions, the counter is the next id, and an open chat has read everything. */
    ghost predicate ChatValid()
      reads this`messages, this`messageIdCount, this`isChatOpen, this`lastReadOtherMessageId
    {
      IdsArePositions(messages) && messageIdCount == |messages| &&
      (isChatOpen ==> lastReadOtherMessageId == LastOtherMessageId(messages))
    }

    ghost predicate GestureValid()
      reads this`zoomScale, this`pinch
    {
      MinZoom <= zoomScale <= MaxZoom && (pinch.Some? ==> pinch.value > 0.0)
    }

    ghost predicate TimerValid()
      reads this`controlsTimerPending, this`showControls
    {
      controlsTimerPending ==> showControls
    }

    ghost predicate ShareValid()
      reads this`screenShareStream, this`endedListeners
    {
      screenShareStream.Some? ==> screenShareStream.value.id in endedListeners
    }

    ghost predicate Valid()
      reads this
    {
      RosterValid() && ChatValid() && GestureValid() && TimerValid() && ShareValid()
    }

    /** The unread badge count derived from the log and the watermark. */
    function Unread(): (n: nat)
      reads this
      ensures n <= |OthersMessages(messages)|
      ensures ChatValid() && isChatOpen ==> n == 0
    {
      UnreadAtMostOthers(messages, lastReadOtherMessageId);
      MarkReadClearsUnread(messages);
      UnreadCount(messages, lastReadOtherMessageId)
    }

    /**
     * The state right after mount: the seed roster and messages, the
     * capability probe's answer, the orientation of the window, and the
     * first controls timeout started by the mount effect.
     */
    constructor (screenShareSupported: bool, width: int, height: int, now: int)
      ensures Valid()
      ensures participants == SeedRoster && messages == SeedMessages && messageIdCount == 3
      ensures newMessage == "" && pinnedParticipantId == None && zoomScale == 1.0
      ensures !isChatOpen && lastReadOtherMessageId == LastOtherMessageId(SeedMessages)
      ensures isScreenShareSupported == screenShareSupported
      ensures orientation == OrientationOf(width, height)
      ensures pinch == None && screenShareStream == None
      ensures showControls && controlsTimerPending && controlsDeadline == now + ControlsHideDelay
      ensures clock == now && stoppedTracks == {} && endedListeners == {}
      ensures pendingCameraRequests == 0 && pendingDisplayRequests == 0
    {
      participants := SeedRoster;
      messages := SeedMessages;
      messageIdCount := 3;
      newMessage := "";
      pinnedParticipantId := None;
      zoomScale := 1.0;
      isChatOpen := false;
      isScreenShareSupported := screenShareSupported;
      lastReadOtherMessageId := LastOtherMessageId(SeedMessages);
      orientation := OrientationOf(width, height);
      pinch := None;
      screenShareStream := None;
      clock := now;
      stoppedTracks := {};
      endedListeners := {};
      pendingCameraRequests := 0;
      pendingDisplayRequests := 0;
      showControls := true;
      controlsTimerPending := true;
      controlsDeadline := now + ControlsHideDelay;
      SeedRosterWellFormed();
    }

    // ---------------------------------------------------------------- chat

    /** The chat input's `onChange`. */
    method EditDraft(text: string)
      requires Valid()
      modifies this`newMessage
      ensures Valid() && newMessage == text
    {
      newMessage := text;
    }

    /**
     * The non-blank branch of `SendMessage`: appends the draft as the local
     * user's next message and clears the input. Not an event of its own; only
     * `SendMessage` calls it, after the blank test.
     */
    method AppendDraft()
      requires Valid()
      modifies this`messages, this`messageIdCount, this`newMessage, this`lastReadOtherMessageId
      ensures Valid()
      ensures messages == old(messages) + [Message(old(messageIdCount), You, old(newMessage))]
      ensures messageIdCount == old(messageIdCount) + 1 && newMessage == ""
      ensures lastReadOtherMessageId == old(lastReadOtherMessageId)
      ensures Unread() == old(Unread())
    {
      var m := Message(messageIdCount, You, newMessage);
      AppendKeepsPositions(messages, m);
      OwnMessageKeepsWatermark(messages, m);
      OwnMessageNotUnread(messages, m, lastReadOtherMessageId);
      messages := messages + [m];
      messageIdCount := messageIdCount + 1;
      newMessage := "";
      if isChatOpen {
        lastReadOtherMessageId := LastOtherMessageId(messages);
      }
    }

    /**
     * `sendMessage`, followed by the watermark effect that runs whenever the
     * log changes while the chat is open. A draft that trims to nothing is
     * ignored; otherwise it is appended unchanged (not trimmed) under the
     * next id and the input is cleared.
     */
    method SendMessage()
      requires Valid()
      modifies this`messages, this`messageIdCount, this`newMessage, this`lastReadOtherMessageId
      ensures Valid()
      ensures IsBlank(old(newMessage)) ==>
                messages == old(messages) && messageIdCount == old(messageIdCount) && newMessage == old(newMessage)
      ensures !IsBlank(old(newMessage)) ==>
                messages == old(messages) + [Message(old(messageIdCount), You, old(newMessage))] &&
                messageIdCount == old(messageIdCount) + 1 && newMessage == ""
      ensures lastReadOtherMessageId == old(lastReadOtherMessageId)
      ensures Unread() == old(Unread())
      ensures StrictlyIncreasingIds(messages)
    {
      if !IsBlank(newMessage) {
        AppendDraft();
      }
      MessageIdsIncrease();
    }

    /** In every valid session the chat log's ids strictly increase along the log. */
    lemma MessageIdsIncrease()
      requires Valid()
      ensures StrictlyIncreasingIds(messages)
    {
      PositionalIdsIncrease(messages);
    }

    /** `setIsChatOpen`; opening marks every message from others as read. */
    method SetChatOpen(open: bool)
      requires Valid()
      modifies this`isChatOpen, this`lastReadOtherMessageId
      ensures Valid() && isChatOpen == open
      ensures open ==> lastReadOtherMessageId == LastOtherMessageId(messages) && Unread() == 0
      ensures !open ==> lastReadOtherMessageId == old(lastReadOtherMessageId)
    {
      isChatOpen := open;
      if open {
        lastReadOtherMessageId := LastOtherMessageId(messages);
        MarkReadClearsUnread(messages);
      }
    }

    // ------------------------------------------------------- local flags

    /** `toggleMute`. */
    method ToggleMute()
      requires Valid()
      modifies this`participants
      ensures Valid()
      ensures participants == Roster.ToggleMute(old(participants))
    {
      SameIdsKeepShape(participants, Roster.ToggleMute(participants));
      participants := Roster.ToggleMute(participants);
    }

    /**
     * `toggleVideo`. From off it only issues a camera request and leaves the
     * roster as it is; from on it turns the camera off at once.
     */
    method ToggleVideo()
      requires Valid()
      modifies this`participants, this`pendingCameraRequests
      ensures Valid()
      ensures !old(IsVideoOn(participants)) ==>
                participants == old(participants) && pendingCameraRequests == old(pendingCameraRequests) + 1
      ensures old(IsVideoOn(participants)) ==>
                participants == SetSelfVideo(old(participants), false) && !IsVideoOn(participants) &&
                pendingCameraRequests == old(pendingCameraRequests)
    {
      if !IsVideoOn(participants) {
        pendingCameraRequests := pendingCameraRequests + 1;
      } else {
        SameIdsKeepShape(participants, SetSelfVideo(participants, false));
        participants := SetSelfVideo(participants, false);
      }
    }

    /** A camera request settles: only a grant turns the camera on. */
    method CameraSettled(result: CameraResult)
      requires Valid() && pendingCameraRequests > 0
      modifies this`participants, this`pendingCameraRequests
      ensures Valid() && pendingCameraRequests == old(pendingCameraRequests) - 1
      ensures result == CameraGranted ==> participants == SetSelfVideo(old(participants), true) && IsVideoOn(participants)
      ensures result == CameraDenied ==> participants == old(participants)
    {
      pendingCameraRequests := pendingCameraRequests - 1;
      if result == CameraGranted {
        SameIdsKeepShape(participants, SetSelfVideo(participants, true));
        participants := SetSelfVideo(participants, true);
      }
    }

    // -------------------------------------------------------- screen share

    /** `t.stop()` for every track of a stream. */
    method StopTracks(s: Stream)
      modifies this`stoppedTracks
      ensures stoppedTracks == old(stoppedTracks) + TracksOf(Some(s))
    {
      var i := 0;
      while i < |s.tracks|
        invariant 0 <= i <= |s.tracks|
        invariant stoppedTracks == old(stoppedTracks) + (set t | t in s.tracks[..i])
      {
        assert s.tracks[..i + 1] == s.tracks[..i] + [s.tracks[i]];
        stoppedTracks := stoppedTracks + {s.tracks[i]};
        i := i + 1;
      }
      assert s.tracks[..i] == s.tracks;
    }

    /**
     * The screen-share effect, re-run when `me?.isScreenShareOn` differs from
     * `was`: first the previous run's cleanup stops the held stream's tracks,
     * then turning on requests a capture, and turning off stops the held
     * stream's tracks again and clears the reference. Not an event of its
     * own: only the methods that change the local flag call it, with the
     * value the flag had before.
     */
    method ScreenShareEffect(was: bool)
      requires Valid()
      modifies this`screenShareStream, this`stoppedTracks, this`pendingDisplayRequests
      ensures Valid()
      ensures IsScreenSharing(participants) == was ==>
                screenShareStream == old(screenShareStream) && stoppedTracks == old(stoppedTracks) &&
                pendingDisplayRequests == old(pendingDisplayRequests)
      ensures IsScreenSharing(participants) && !was ==>
                screenShareStream == old(screenShareStream) &&
                stoppedTracks == old(stoppedTracks) + TracksOf(old(screenShareStream)) &&
                pendingDisplayRequests == old(pendingDisplayRequests) + 1
      ensures !IsScreenSharing(participants) && was ==>
                screenShareStream == None &&
                stoppedTracks == old(stoppedTracks) + TracksOf(old(screenShareStream)) &&
                pendingDisplayRequests == old(pendingDisplayRequests)
    {
      var sharing := IsScreenSharing(participants);
      if sharing != was {
        if screenShareStream.Some? {
          StopTracks(screenShareStream.value);
        }
        if sharing {
          pendingDisplayRequests := pendingDisplayRequests + 1;
        } else if screenShareStream.Some? {
          StopTracks(screenShareStream.value);
          screenShareStream := None;
        }
      }
    }

    /** `toggleScreenShare` and the effect it triggers; nothing happens without the capability. */
    method ToggleScreenShare()
      requires Valid()
      modifies this`participants, this`screenShareStream, this`stoppedTracks, this`pendingDisplayRequests
      ensures Valid()
      ensures !isScreenShareSupported ==>
                participants == old(participants) && screenShareStream == old(screenShareStream) &&
                stoppedTracks == old(stoppedTracks) && pendingDisplayRequests == old(pendingDisplayRequests)
      ensures isScreenShareSupported ==>
                participants == ToggleScreenShareFlag(old(participants)) &&
                IsScreenSharing(participants) == !old(IsScreenSharing(participants)) &&
                stoppedTracks == old(stoppedTracks) + TracksOf(old(screenShareStream))
      ensures isScreenShareSupported && IsScreenSharing(participants) ==>
                pendingDisplayRequests == old(pendingDisplayRequests) + 1 &&
                screenShareStream == old(screenShareStream)
      ensures isScreenShareSupported && !IsScreenSharing(participants) ==>
                screenShareStream == None &&
                pendingDisplayRequests == old(pendingDisplayRequests)
    {
      if !isScreenShareSupported {
        return;
      }
      var was := IsScreenSharing(participants);
      ToggleScreenShareFlipsSharing(participants);
      SameIdsKeepShape(participants, ToggleScreenShareFlag(participants));
      participants := ToggleScreenShareFlag(participants);
      ScreenShareEffect(was);
    }

    /**
     * A capture request succeeds: the stream is stored and its track gets the
     * "ended" listener. There is no check that sharing is still wanted, so a
     * success that arrives after sharing was turned off is stored all the same.
     */
    method DisplayMediaGranted(stream: Stream)
      requires Valid() && pendingDisplayRequests > 0
      requires stream.id !in endedListeners
      requires forall t :: t in stream.tracks ==> t !in stoppedTracks
      modifies this`screenShareStream, this`endedListeners, this`pendingDisplayRequests
      ensures Valid()
      ensures screenShareStream == Some(stream)
      ensures endedListeners == old(endedListeners) + {stream.id}
      ensures pendingDisplayRequests == old(pendingDisplayRequests) - 1
    {
      screenShareStream := Some(stream);
      endedListeners := endedListeners + {stream.id};
      pendingDisplayRequests := pendingDisplayRequests - 1;
    }

    /** Turns the local screen-share flag off and lets the effect release the stream. */
    method StopSharing()
      requires Valid()
      modifies this`participants, this`screenShareStream, this`stoppedTracks, this`pendingDisplayRequests
      ensures Valid()
      ensures participants == SetSelfScreenShare(old(participants), false) && !IsScreenSharing(participants)
      ensures pendingDisplayRequests == old(pendingDisplayRequests)
      ensures !old(IsScreenSharing(participants)) ==>
                screenShareStream == old(screenShareStream) && stoppedTracks == old(stoppedTracks)
      ensures old(IsScreenSharing(participants)) ==>
                screenShareStream == None && stoppedTracks == old(stoppedTracks) + TracksOf(old(screenShareStream))
    {
      var was := IsScreenSharing(participants);
      SameIdsKeepShape(participants, SetSelfScreenShare(participants, false));
      participants := SetSelfScreenShare(participants, false);
      ScreenShareEffect(was);
    }

    /** A capture request fails: the flag is forced off; a held stream is released only if sharing was on. */
    method DisplayMediaFailed()
      requires Valid() && pendingDisplayRequests > 0
      modifies this`participants, this`screenShareStream, this`stoppedTracks, this`pendingDisplayRequests
      ensures Valid()
      ensures participants == SetSelfScreenShare(old(participants), false) && !IsScreenSharing(participants)
      ensures pendingDisplayRequests == old(pendingDisplayRequests) - 1
      ensures !old(IsScreenSharing(participants)) ==>
                screenShareStream == old(screenShareStream) && stoppedTracks == old(stoppedTracks)
      ensures old(IsScreenSharing(participants)) ==>
                screenShareStream == None && stoppedTracks == old(stoppedTracks) + TracksOf(old(screenShareStream))
    {
      pendingDisplayRequests := pendingDisplayRequests - 1;
      StopSharing();
    }

    /** The browser ends a captured stream's track: the "ended" listener forces the flag off; a held stream is released only if sharing was on. */
    method ScreenShareEnded(id: StreamId)
      requires Valid() && id in endedListeners
      modifies this`participants, this`screenShareStream, this`stoppedTracks, this`pendingDisplayRequests
      ensures Valid()
      ensures participants == SetSelfScreenShare(old(participants), false) && !IsScreenSharing(participants)
      ensures pendingDisplayRequests == old(pendingDisplayRequests)
      ensures !old(IsScreenSharing(participants)) ==>
                screenShareStream == old(screenShareStream) && stoppedTracks == old(stoppedTracks)
      ensures old(IsScreenSharing(participants)) ==>
                screenShareStream == None && stoppedTracks == old(stoppedTracks) + TracksOf(old(screenShareStream))
    {
      StopSharing();
    }

    // ----------------------------------------------------- active speaker

    /** One audio sample of the remote participant at position `index`. */
    method SpeakerSample(index: nat, sample: seq<byte>)
      requires Valid() && index < |participants| && participants[index].id != Self
      modifies this`participants
      ensures Valid()
      ensures participants == SampleStep(old(participants), index, sample)
    {
      SameIdsKeepShape(participants, SampleStep(participants, index, sample));
      participants := SampleStep(participants, index, sample);
    }

    // ------------------------------------------------------------- pinch

    /** `handleTouchStart`: two touches start a pinch at their distance. */
    method TouchStart(touches: nat, distance: real)
      requires Valid() && (touches == 2 ==> distance > 0.0)
      modifies this`pinch
      ensures Valid()
      ensures pinch == if touches == 2 then Some(distance) else old(pinch)
    {
      if touches == 2 {
        pinch := Some(distance);
      }
    }

    /**
     * `handleTouchMove`: with a pinch started and two touches, publishes the
     * clamped ratio as the zoom and pins or unpins by the raw ratio.
     */
    method TouchMove(touches: nat, distance: real)
      requires Valid() && distance >= 0.0
      modifies this`zoomScale, this`pinnedParticipantId
      ensures Valid()
      ensures !(touches == 2 && old(pinch).Some?) ==>
                zoomScale == old(zoomScale) && pinnedParticipantId == old(pinnedParticipantId)
      ensures touches == 2 && old(pinch).Some? ==>
                var scale := distance / old(pinch).value;
                zoomScale == Clamp(scale) &&
                pinnedParticipantId == PinAfterMove(old(pinnedParticipantId), FindActive(participants), scale)
    {
      if touches == 2 && pinch.Some? {
        var scale := distance / pinch.value;
        zoomScale := Clamp(scale);
        var active := FindActive(participants);
        pinnedParticipantId := PinAfterMove(pinnedParticipantId, active, scale);
      }
    }

    /** `handleTouchEnd`: the pinch ends, the zoom resets and the pin is cleared. */
    method TouchEnd()
      requires Valid()
      modifies this`pinch, this`zoomScale, this`pinnedParticipantId
      ensures Valid()
      ensures pinch == None && zoomScale == 1.0 && pinnedParticipantId == None
    {
      pinch := None;
      zoomScale := 1.0;
      pinnedParticipantId := None;
    }

    // ------------------------------------------------- controls visibility

    /** `resetControlsTimeout`: shows the controls and replaces any pending timeout. */
    method Interaction(now: int)
      requires Valid() && now >= clock
      modifies this`clock, this`showControls, this`controlsTimerPending, this`controlsDeadline
      ensures Valid() && clock == now
      ensures showControls && controlsTimerPending && controlsDeadline == now + ControlsHideDelay
    {
      clock := now;
      showControls := true;
      controlsTimerPending := true;
      controlsDeadline := now + ControlsHideDelay;
    }

    /** Time advances to `now`; a pending timeout whose deadline has come hides the controls. */
    method Tick(now: int)
      requires Valid() && now >= clock
      modifies this`clock, this`showControls, this`controlsTimerPending
      ensures Valid() && clock == now
      ensures showControls == (old(showControls) && !(old(controlsTimerPending) && now >= controlsDeadline))
      ensures controlsTimerPending == (old(controlsTimerPending) && now < controlsDeadline)
    {
      clock := now;
      if controlsTimerPending && now >= controlsDeadline {
        showControls := false;
        controlsTimerPending := false;
      }
    }

    /** A window resize or orientation change. */
    method Resize(width: int, height: int)
      requires Valid()
      modifies this`orientation
      ensures Valid() && orientation == OrientationOf(width, height)
    {
      orientation := OrientationOf(width, height);
    }

    /**
     * Unmount: the controls timeout is cleared and the screen-share cleanup
     * stops the held stream's tracks (the reference itself is not cleared).
     */
    method Teardown()
      requires Valid()
      modifies this`controlsTimerPending, this`stoppedTracks
      ensures Valid() && !controlsTimerPending
      ensures stoppedTracks == old(stoppedTracks) + TracksOf(screenShareStream)
    {
      controlsTimerPending := false;
      if screenShareStream.Some? {
        StopTracks(screenShareStream.value);
      }
    }
  }
}
