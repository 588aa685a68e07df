/**
 * What the video grid shows, derived from the session state: orientation,
 * the pinned filter, the column layout, each tile's content and its zoom.
 */
module View {
  import opened Optional
  import opened Roster

  datatype Orientation = Portrait | Landscape

  /** `window.innerHeight > window.innerWidth ? "portrait" : "landscape"`. */
  function OrientationOf(width: int, height: int): (o: Orientation)
    ensures o == Portrait <==> height > width
  {
    if height > width then Portrait else Landscape
  }

  /** JavaScript truthiness of `pinnedParticipantId`: null and the empty id both mean grid view. */
  predicate IsPinned(pin: Option<string>): (b: bool)
    ensures pin.None? ==> !b
    ensures pin.Some? ==> (b <==> |pin.value| > 0)
  {
    pin.Some? && pin.value != ""
  }

  /** `participants.filter((p) => p.id === pinnedParticipantId)`. */
  function WithId(ps: seq<Participant>, id: string): (r: seq<Participant>)
    ensures |r| <= |ps|
    ensures forall p :: p in r <==> p in ps && p.id == id
    ensures r == [] <==> forall p :: p in ps ==> p.id != id
  {
    if ps == [] then []
    else
      var rest := WithId(ps[1..], id);
      assert forall p :: p in ps <==> p == ps[0] || p in ps[1..];
      (if ps[0].id == id then [ps[0]] else []) + rest
  }

  /** The tiles the grid renders. */
  function VisibleTiles(ps: seq<Participant>, pin: Option<string>): (r: seq<Participant>)
    ensures !IsPinned(pin) ==> r == ps
    ensures IsPinned(pin) ==> forall p :: p in r <==> p in ps && p.id == pin.value
  {
    if IsPinned(pin) then WithId(ps, pin.value) else ps
  }

  /** With unique ids, pinning an id of the roster shows exactly that one participant. */
  lemma {:induction false} WithIdUnique(ps: seq<Participant>, i: nat)
    requires UniqueIds(ps) && i < |ps|
    ensures WithId(ps, ps[i].id) == [ps[i]]
  {
    if i == 0 {
      assert forall p :: p in ps[1..] ==> p.id != ps[0].id;
    } else {
      assert ps[1..][i - 1] == ps[i];
      WithIdUnique(ps[1..], i - 1);
    }
  }

  lemma PinnedShowsOne(ps: seq<Participant>, pin: Option<string>)
    requires UniqueIds(ps) && IsPinned(pin) && HasId(ps, pin.value)
    ensures |VisibleTiles(ps, pin)| == 1 && VisibleTiles(ps, pin)[0].id == pin.value
  {
    var i :| 0 <= i < |ps| && ps[i].id == pin.value;
    WithIdUnique(ps, i);
  }

  /** A grid class: base column count, an optional count from the `md` breakpoint on, and whether it is held at 16:9. */
  datatype Layout = Layout(cols: nat, mdCols: Option<nat>, aspectVideo: bool)

  /** The `gridCols` choice by pin, orientation and number of tiles. */
  function GridLayout(pinned: bool, o: Orientation, tiles: nat): (g: Layout)
    ensures 1 <= g.cols <= 3
    ensures g.aspectVideo <==> pinned
    ensures pinned ==> g.cols == 1 && g.mdCols.None?
    ensures o == Portrait ==> g.cols <= 2 && g.mdCols.None?
    ensures g.mdCols.Some? ==> g.mdCols.value == 4 && g.mdCols.value > g.cols
  {
    if pinned then Layout(1, None, true)
    else if o == Portrait then
      if tiles <= 2 then Layout(1, None, false)
      else if tiles <= 4 then Layout(2, None, false)
      else Layout(2, None, false)
    else
      if tiles <= 2 then Layout(2, None, false)
      else if tiles <= 4 then Layout(2, Some(4), false)
      else Layout(3, Some(4), false)
  }

  /** More tiles never mean fewer columns. */
  lemma GridColsMonotone(pinned: bool, o: Orientation, m: nat, n: nat)
    requires m <= n
    ensures GridLayout(pinned, o, m).cols <= GridLayout(pinned, o, n).cols
  {
  }

  /** The Tailwind class string the grid element carries for a layout. */
  function GridClass(g: Layout): string {
    var base := if g.cols == 1 then "grid-cols-1" else if g.cols == 2 then "grid-cols-2" else "grid-cols-3";
    base +
    (if g.mdCols.Some? then " md:grid-cols-4" else "") +
    (if g.aspectVideo then " aspect-video" else "")
  }

  /** The classes are the source's literal strings. */
  lemma GridClassStrings(pinned: bool, o: Orientation, tiles: nat)
    ensures var c := GridClass(GridLayout(pinned, o, tiles));
            (pinned ==> c == "grid-cols-1 aspect-video") &&
            (!pinned && o == Portrait && tiles <= 2 ==> c == "grid-cols-1") &&
            (!pinned && o == Portrait && tiles > 2 ==> c == "grid-cols-2") &&
            (!pinned && o == Landscape && tiles <= 2 ==> c == "grid-cols-2") &&
            (!pinned && o == Landscape && 2 < tiles <= 4 ==> c == "grid-cols-2 md:grid-cols-4") &&
            (!pinned && o == Landscape && tiles > 4 ==> c == "grid-cols-3 md:grid-cols-4")
  {
  }

  /** What a tile shows when the participant's camera and screen share are off. */
  datatype TileContent = ScreenShareTile | CameraTile | InitialTile(initial: string)

  /** Screen share wins over camera, camera over the name's first letter (`charAt(0)`). */
  function ContentOf(p: Participant): (c: TileContent)
    ensures c == ScreenShareTile <==> p.isScreenShareOn
    ensures c == CameraTile <==> !p.isScreenShareOn && p.isVideoOn
    ensures c.InitialTile? ==> c.initial == (if p.name == "" then "" else [p.name[0]])
  {
    if p.isScreenShareOn then ScreenShareTile
    else if p.isVideoOn then CameraTile
    else InitialTile(if p.name == "" then "" else p.name[..1])
  }

  /**
   * `pinned ? scale(zoomScale) : scale(1)` with `pinned = p.id === pinnedParticipantId`:
   * only the pinned tile is zoomed, and never beyond the zoom's bounds.
   */
  function TileScale(p: Participant, pin: Option<string>, zoomScale: real): (s: real)
    ensures pin != Some(p.id) ==> s == 1.0
    ensures pin == Some(p.id) ==> s == zoomScale
    ensures 1.0 <= zoomScale <= 3.0 ==> 1.0 <= s <= 3.0
  {
    if pin == Some(p.id) then zoomScale else 1.0
  }
}
