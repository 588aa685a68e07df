/**
 * The call roster: the participants and the pure roster transitions the
 * handlers apply with `prev.map(...)`. The local participant has id "1".
 */
module Roster {
  import opened Optional

  /** The id of the local participant. */
  const Self: string := "1"

  /** A roster entry. The optional `stream`, `audioContext` and `analyser` handles are never set by the code and are left out. */
  datatype Participant = Participant(
    id: string,
    name: string,
    isActive: bool,
    isMuted: bool,
    isVideoOn: bool,
    isScreenShareOn: bool)

  function Initial(id: string, name: string, active: bool): Participant {
    Participant(id, name, active, false, false, false)
  }

  /** The fixed mock roster the session starts with; John Doe is shown speaking. */
  const SeedRoster: seq<Participant> := [
    Initial("1", "You", false),
    Initial("2", "John Doe", true),
    Initial("3", "Jane Smith", false),
    Initial("4", "Mike Johnson", false),
    Initial("5", "Sarah Wilson", false),
    Initial("6", "Alex Chen", false),
    Initial("7", "Emma Rodriguez", false),
    Initial("8", "David Kim", false),
    Initial("9", "Angelina Jolie", false),
    Initial("10", "Brad Pitt", false),
    Initial("11", "Tom Hanks", false),
    Initial("12", "Meryl Streep", false)
  ]

  /** `a` and `b` list the same people in the same order; only their flags may differ. */
  predicate SameIds(a: seq<Participant>, b: seq<Participant>) {
    |a| == |b| && forall i :: 0 <= i < |a| ==> a[i].id == b[i].id && a[i].name == b[i].name
  }

  predicate UniqueIds(ps: seq<Participant>) {
    forall i, j :: 0 <= i < j < |ps| ==> ps[i].id != ps[j].id
  }

  /** The exclusivity invariant of speaker detection. */
  predicate AtMostOneActive(ps: seq<Participant>) {
    forall i, j :: 0 <= i < |ps| && 0 <= j < |ps| && ps[i].isActive && ps[j].isActive ==> i == j
  }

  predicate HasId(ps: seq<Participant>, id: string) {
    exists i :: 0 <= i < |ps| && ps[i].id == id
  }

  lemma SeedRosterWellFormed()
    ensures UniqueIds(SeedRoster) && AtMostOneActive(SeedRoster)
    ensures SeedRoster[0].id == Self && HasId(SeedRoster, Self)
  {
    SeedIdsUnique();
    forall i | 0 <= i < |SeedRoster| && SeedRoster[i].isActive
      ensures i == 1
    {
    }
  }

  /** The seed's twelve ids are pairwise distinct (one- and two-digit ids differ in length). */
  lemma SeedIdsUnique()
    ensures UniqueIds(SeedRoster)
  {
    forall i, j | 0 <= i < j < |SeedRoster|
      ensures SeedRoster[i].id != SeedRoster[j].id
    {
      assert |SeedRoster[i].id| == (if i < 9 then 1 else 2);
    }
  }

  /** A roster with the same people as a well-formed one is well formed, and has the same ids. */
  lemma SameIdsKeepShape(a: seq<Participant>, b: seq<Participant>)
    requires SameIds(b, a) && UniqueIds(a)
    ensures UniqueIds(b)
    ensures forall id :: HasId(a, id) ==> HasId(b, id)
  {
    forall id | HasId(a, id) ensures HasId(b, id) {
      var i :| 0 <= i < |a| && a[i].id == id;
      assert b[i].id == id;
    }
  }

  /** `participants.find((p) => p.id === id)`: the first entry with that id. */
  function FindById(ps: seq<Participant>, id: string): (r: Option<Participant>)
    ensures r.None? <==> !HasId(ps, id)
    ensures r.Some? ==> exists i :: 0 <= i < |ps| && ps[i] == r.value && ps[i].id == id &&
                                    forall k :: 0 <= k < i ==> ps[k].id != id
  {
    if ps == [] then None
    else if ps[0].id == id then Some(ps[0])
    else
      var r := FindById(ps[1..], id);
      assert forall k :: 1 <= k < |ps| ==> ps[k] == ps[1..][k - 1];
      r
  }

  /** `participants.find((p) => p.isActive)`: the first active entry. */
  function FindActive(ps: seq<Participant>): (r: Option<Participant>)
    ensures r.None? <==> forall i :: 0 <= i < |ps| ==> !ps[i].isActive
    ensures r.Some? ==> exists i :: 0 <= i < |ps| && ps[i] == r.value && r.value.isActive &&
                                    forall k :: 0 <= k < i ==> !ps[k].isActive
  {
    if ps == [] then None
    else if ps[0].isActive then Some(ps[0])
    else
      var r := FindActive(ps[1..]);
      assert forall k :: 1 <= k < |ps| ==> ps[k] == ps[1..][k - 1];
      r
  }

  /** With at most one active entry, `find` returns exactly that one. */
  lemma FindActiveUnique(ps: seq<Participant>, i: nat)
    requires AtMostOneActive(ps) && i < |ps| && ps[i].isActive
    ensures FindActive(ps) == Some(ps[i])
  {
  }

  /** `me?.isScreenShareOn`, the dependency of the screen-share effect (undefined counts as off). */
  function IsScreenSharing(ps: seq<Participant>): (b: bool)
    ensures b ==> HasId(ps, Self)
    ensures UniqueIds(ps) ==> (b <==> exists i :: 0 <= i < |ps| && ps[i].id == Self && ps[i].isScreenShareOn)
  {
    var me := FindById(ps, Self);
    me.Some? && me.value.isScreenShareOn
  }

  /** Whether the local participant's camera is shown as on. */
  function IsVideoOn(ps: seq<Participant>): (b: bool)
    ensures b ==> HasId(ps, Self)
    ensures UniqueIds(ps) ==> (b <==> exists i :: 0 <= i < |ps| && ps[i].id == Self && ps[i].isVideoOn)
  {
    var me := FindById(ps, Self);
    me.Some? && me.value.isVideoOn
  }

  /** `prev.map((p) => p.id === "1" ? f(p) : p)`, the shape of every local-flag update. */
  function MapSelf(ps: seq<Participant>, f: Participant -> Participant): (r: seq<Participant>)
    ensures |r| == |ps|
    ensures forall i :: 0 <= i < |ps| && ps[i].id != Self ==> r[i] == ps[i]
    ensures forall i :: 0 <= i < |ps| && ps[i].id == Self ==> r[i] == f(ps[i])
  {
    seq(|ps|, i requires 0 <= i < |ps| => if ps[i].id == Self then f(ps[i]) else ps[i])
  }

  /** An update of the local participant that keeps its identity finds the updated entry. */
  lemma {:induction false} FindSelfAfterMap(ps: seq<Participant>, f: Participant -> Participant)
    requires forall p :: f(p).id == p.id
    ensures FindById(MapSelf(ps, f), Self) ==
              if FindById(ps, Self).Some? then Some(f(FindById(ps, Self).value)) else None
  {
    var r := MapSelf(ps, f);
    if ps != [] && ps[0].id != Self {
      assert r[1..] == MapSelf(ps[1..], f);
      FindSelfAfterMap(ps[1..], f);
    }
  }

  function FlipMuted(p: Participant): Participant { p.(isMuted := !p.isMuted) }
  function FlipScreenShare(p: Participant): Participant { p.(isScreenShareOn := !p.isScreenShareOn) }
  function WithVideo(on: bool): Participant -> Participant { (p: Participant) => p.(isVideoOn := on) }
  function WithScreenShare(on: bool): Participant -> Participant { (p: Participant) => p.(isScreenShareOn := on) }

  /** `toggleMute`: flips `isMuted` of participant "1" and changes nothing else. */
  function ToggleMute(ps: seq<Participant>): (r: seq<Participant>)
    ensures SameIds(r, ps)
    ensures forall i :: 0 <= i < |ps| && ps[i].id != Self ==> r[i] == ps[i]
    ensures forall i :: 0 <= i < |ps| && ps[i].id == Self ==>
              r[i].isMuted == !ps[i].isMuted && r[i] == ps[i].(isMuted := r[i].isMuted)
  {
    MapSelf(ps, FlipMuted)
  }

  /** Muting twice restores the roster. */
  lemma ToggleMuteTwice(ps: seq<Participant>)
    ensures ToggleMute(ToggleMute(ps)) == ps
  {
    var r := ToggleMute(ToggleMute(ps));
    assert forall i :: 0 <= i < |ps| ==> r[i] == ps[i];
  }

  /** The flip applied by `toggleScreenShare` once the capability is known to be present. */
  function ToggleScreenShareFlag(ps: seq<Participant>): (r: seq<Participant>)
    ensures SameIds(r, ps)
    ensures forall i :: 0 <= i < |ps| && ps[i].id != Self ==> r[i] == ps[i]
    ensures forall i :: 0 <= i < |ps| && ps[i].id == Self ==>
              r[i].isScreenShareOn == !ps[i].isScreenShareOn && r[i] == ps[i].(isScreenShareOn := r[i].isScreenShareOn)
  {
    MapSelf(ps, FlipScreenShare)
  }

  lemma ToggleScreenShareFlipsSharing(ps: seq<Participant>)
    requires HasId(ps, Self)
    ensures IsScreenSharing(ToggleScreenShareFlag(ps)) == !IsScreenSharing(ps)
  {
    FindSelfAfterMap(ps, FlipScreenShare);
  }

  /** Sets `isVideoOn` of participant "1"; the other entries are untouched. */
  function SetSelfVideo(ps: seq<Participant>, on: bool): (r: seq<Participant>)
    ensures SameIds(r, ps)
    ensures forall i :: 0 <= i < |ps| && ps[i].id != Self ==> r[i] == ps[i]
    ensures forall i :: 0 <= i < |ps| && ps[i].id == Self ==> r[i] == ps[i].(isVideoOn := on)
    ensures HasId(ps, Self) ==> IsVideoOn(r) == on
    ensures IsScreenSharing(r) == IsScreenSharing(ps)
  {
    FindSelfAfterMap(ps, WithVideo(on));
    MapSelf(ps, WithVideo(on))
  }

  /** Sets `isScreenShareOn` of participant "1"; the other entries are untouched. */
  function SetSelfScreenShare(ps: seq<Participant>, on: bool): (r: seq<Participant>)
    ensures SameIds(r, ps)
    ensures forall i :: 0 <= i < |ps| && ps[i].id != Self ==> r[i] == ps[i]
    ensures forall i :: 0 <= i < |ps| && ps[i].id == Self ==> r[i] == ps[i].(isScreenShareOn := on)
    ensures HasId(ps, Self) ==> IsScreenSharing(r) == on
    ensures IsVideoOn(r) == IsVideoOn(ps)
  {
    FindSelfAfterMap(ps, WithScreenShare(on));
    MapSelf(ps, WithScreenShare(on))
  }

  /** An update that leaves every `isActive` flag alone keeps exclusivity. */
  lemma SameActiveKeepsExclusive(a: seq<Participant>, b: seq<Participant>)
    requires |a| == |b| && forall i :: 0 <= i < |a| ==> a[i].isActive == b[i].isActive
    requires AtMostOneActive(a)
    ensures AtMostOneActive(b)
  {
  }
}
