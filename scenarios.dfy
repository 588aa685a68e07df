/**
 * Event sequences run against a fresh session, showing what the session's
 * contracts let a caller conclude.
 */
module Scenarios {
  import opened Optional
  import opened Text
  import opened Roster
  import opened Chat
  import opened Speaker
  import opened Gesture
  import opened VideoMeet

  /** John Doe (position 1) is loud, then Jane Smith (position 2) is quiet: John stays the only speaker. */
  method LoudThenQuietSample() returns (johnActive: bool, youActive: bool, janeActive: bool)
    ensures johnActive && !youActive && !janeActive
  {
    var s := new Session(true, 1280, 720, 0);
    assert Peak([12, 80, 3]) > SpeakingThreshold;
    s.SpeakerSample(1, [12, 80, 3]);
    assert s.participants[1].isActive && !s.participants[0].isActive && !s.participants[2].isActive;
    assert Peak([30]) <= SpeakingThreshold;
    s.SpeakerSample(2, [30]);
    johnActive, youActive, janeActive := s.participants[1].isActive, s.participants[0].isActive, s.participants[2].isActive;
  }

  /** Sending "hi" with the chat closed leaves the unread count alone; opening the chat clears it. */
  method OwnMessageThenOpen() returns (before: nat, afterSend: nat, afterOpen: nat, sent: Message)
    ensures afterSend == before && afterOpen == 0
    ensures sent == Message(3, You, "hi")
  {
    var s := new Session(true, 1280, 720, 0);
    before := s.Unread();
    s.EditDraft("hi");
    assert !AllWhite("hi") by { assert !IsWhite("hi"[0]); }
    s.SendMessage();
    afterSend := s.Unread();
    sent := s.messages[|s.messages| - 1];
    s.SetChatOpen(true);
    afterOpen := s.Unread();
  }

  /** A whitespace-only draft is not sent and stays in the input. */
  method BlankDraft() returns (count: nat, draft: string)
    ensures count == 3 && draft == " \t"
  {
    var s := new Session(true, 1280, 720, 0);
    s.EditDraft(" \t");
    s.SendMessage();
    count, draft := |s.messages|, s.newMessage;
  }

  /** Camera on after a granted request, then off again with the second toggle. */
  method CameraOnThenOff() returns (afterGrant: bool, afterSecondToggle: bool, deniedStaysOff: bool)
    ensures afterGrant && !afterSecondToggle && !deniedStaysOff
  {
    var s := new Session(true, 1280, 720, 0);
    SeedRosterWellFormed();
    s.ToggleVideo();
    s.CameraSettled(CameraGranted);
    afterGrant := IsVideoOn(s.participants);
    s.ToggleVideo();
    afterSecondToggle := IsVideoOn(s.participants);
    s.ToggleVideo();
    s.CameraSettled(CameraDenied);
    deniedStaysOff := IsVideoOn(s.participants);
  }

  /** Sharing on, the capture granted, then turned off: the tracks are stopped and the reference cleared. */
  method ShareThenStop() returns (released: bool, stopped: bool)
    ensures released && stopped
  {
    var s := new Session(true, 1280, 720, 0);
    SeedRosterWellFormed();
    assert !IsScreenSharing(s.participants);
    s.ToggleScreenShare();
    assert IsScreenSharing(s.participants) && s.pendingDisplayRequests == 1;
    assert s.stoppedTracks == {} && s.endedListeners == {};
    s.DisplayMediaGranted(Stream(7, [70, 71]));
    assert TracksOf(s.screenShareStream) == {70, 71} && IsScreenSharing(s.participants);
    s.ToggleScreenShare();
    assert !IsScreenSharing(s.participants);
    released := s.screenShareStream == None;
    stopped := 70 in s.stoppedTracks && 71 in s.stoppedTracks;
  }

  /**
   * Sharing is turned on and off before the capture request settles; the late
   * success is still stored, and its track is not stopped, while the flag is off.
   */
  method LateCaptureSuccess() returns (sharing: bool, holdsStream: bool, trackRunning: bool)
    ensures !sharing && holdsStream && trackRunning
  {
    var s := new Session(true, 1280, 720, 0);
    SeedRosterWellFormed();
    s.ToggleScreenShare();
    s.ToggleScreenShare();
    assert s.stoppedTracks == {} && s.endedListeners == {};
    s.DisplayMediaGranted(Stream(9, [90]));
    sharing := IsScreenSharing(s.participants);
    holdsStream := s.screenShareStream.Some?;
    trackRunning := 90 !in s.stoppedTracks;
  }

  /**
   * A late capture success is kept even when its track later ends: sharing is
   * already off, so the effect does not run and nothing is released.
   */
  method LateStreamOutlivesEnded() returns (holdsStream: bool, trackRunning: bool)
    ensures holdsStream && trackRunning
  {
    var s := new Session(true, 1280, 720, 0);
    SeedRosterWellFormed();
    s.ToggleScreenShare();
    s.ToggleScreenShare();
    assert s.stoppedTracks == {} && s.endedListeners == {};
    s.DisplayMediaGranted(Stream(9, [90]));
    assert !IsScreenSharing(s.participants) && 90 !in s.stoppedTracks;
    s.ScreenShareEnded(9);
    holdsStream := s.screenShareStream == Some(Stream(9, [90]));
    trackRunning := 90 !in s.stoppedTracks;
  }

  /** Without the capability, toggling sharing changes nothing. */
  method UnsupportedShare() returns (sharing: bool, requests: nat)
    ensures !sharing && requests == 0
  {
    var s := new Session(false, 1280, 720, 0);
    SeedRosterWellFormed();
    s.ToggleScreenShare();
    sharing, requests := IsScreenSharing(s.participants), s.pendingDisplayRequests;
  }

  /** A spreading pinch while John Doe speaks pins him at the clamped zoom; release unpins. */
  method PinchToPin() returns (pinned: Option<string>, zoom: real, released: Option<string>, zoomAfter: real)
    ensures pinned == Some("2") && zoom == 3.0
    ensures released == None && zoomAfter == 1.0
  {
    var s := new Session(true, 720, 1280, 0);
    s.TouchStart(2, 100.0);
    SeedRosterWellFormed();
    FindActiveUnique(s.participants, 1);
    s.TouchMove(2, 400.0);
    pinned, zoom := s.pinnedParticipantId, s.zoomScale;
    s.TouchEnd();
    released, zoomAfter := s.pinnedParticipantId, s.zoomScale;
  }

  /** A move without a prior two-finger start is ignored. */
  method MoveWithoutStart() returns (zoom: real, pinned: Option<string>)
    ensures zoom == 1.0 && pinned == None
  {
    var s := new Session(true, 720, 1280, 0);
    s.TouchStart(1, 0.0);
    s.TouchMove(2, 400.0);
    zoom, pinned := s.zoomScale, s.pinnedParticipantId;
  }

  /** An interaction at 2000 ms keeps the controls past the mount deadline; they hide 3000 ms after it. */
  method ControlsHideAfterIdle() returns (at3500: bool, at4999: bool, at5000: bool)
    ensures at3500 && at4999 && !at5000
  {
    var s := new Session(true, 1280, 720, 0);
    s.Interaction(2000);
    s.Tick(3500);
    at3500 := s.showControls;
    s.Tick(4999);
    at4999 := s.showControls;
    s.Tick(5000);
    at5000 := s.showControls;
  }

  /** After teardown the pending timeout never fires. */
  method TeardownCancelsTimer() returns (shown: bool)
    ensures shown
  {
    var s := new Session(true, 1280, 720, 0);
    s.Teardown();
    s.Tick(10000);
    shown := s.showControls;
  }
}
