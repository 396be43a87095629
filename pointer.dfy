/** The pointer sample shared by the two entry-canvas handlers and the frame
    loop: a flag saying whether the pointer is over the entry canvas and the
    last position seen there. Only the latest value is kept. */
module Pointer {

  /** A mousemove carries the client coordinates and the canvas's client
      rectangle offset; a mouseout carries nothing. */
  datatype Event =
    | MouseMove(clientX: real, clientY: real, rectLeft: real, rectTop: real)
    | MouseOut

  /** `isMouseInEntryCanvas`, `entryX` and `entryY`. */
  datatype Sample = Sample(active: bool, x: real, y: real)

  /** The values before any event arrives. */
  const Initial: Sample := Sample(false, 0.0, 0.0)

  /** One handler run. A mousemove sets the flag and stores the
      canvas-local position; a mouseout clears the flag and keeps the
      position. */
  function Handle(s: Sample, e: Event): (r: Sample)
    ensures r.active <==> e.MouseMove?
    ensures e.MouseMove? ==> r.x == e.clientX - e.rectLeft && r.y == e.clientY - e.rectTop
    ensures e.MouseOut? ==> r.x == s.x && r.y == s.y
  {
    match e
    case MouseMove(cx, cy, left, top) => Sample(true, cx - left, cy - top)
    case MouseOut => s.(active := false)
  }

  /** The handlers run in delivery order. */
  function HandleAll(s: Sample, es: seq<Event>): (r: Sample)
    ensures es != [] ==> r == Handle(HandleAll(s, es[..|es| - 1]), es[|es| - 1])
    decreases |es|
  {
    if es == [] then s
    else
      assert |es| > 1 ==> es[1..][..|es| - 2] == es[..|es| - 1][1..];
      HandleAll(Handle(s, es[0]), es[1..])
  }

  /** The last handler to run decides the flag. */
  lemma {:induction false} LastHandlerDecides(s: Sample, es: seq<Event>)
    requires es != []
    ensures HandleAll(s, es).active <==> es[|es| - 1].MouseMove?
    decreases |es|
  {
    if |es| > 1 {
      LastHandlerDecides(Handle(s, es[0]), es[1..]);
    }
  }

  /** Mouseouts alone never move the stored position. */
  lemma {:induction false} MouseOutsKeepPosition(s: Sample, es: seq<Event>)
    requires forall j :: 0 <= j < |es| ==> es[j].MouseOut?
    ensures HandleAll(s, es).x == s.x && HandleAll(s, es).y == s.y
    decreases |es|
  {
    if es != [] {
      MouseOutsKeepPosition(Handle(s, es[0]), es[1..]);
    }
  }

  /** The stored position is that of the last mousemove; events before it
      are coalesced away. */
  lemma {:induction false} LastMoveDecidesPosition(s: Sample, es: seq<Event>, i: nat)
    requires i < |es| && es[i].MouseMove?
    requires forall j :: i < j < |es| ==> es[j].MouseOut?
    ensures HandleAll(s, es).x == es[i].clientX - es[i].rectLeft
    ensures HandleAll(s, es).y == es[i].clientY - es[i].rectTop
    decreases |es|
  {
    if i == 0 {
      MouseOutsKeepPosition(Handle(s, es[0]), es[1..]);
    } else {
      LastMoveDecidesPosition(Handle(s, es[0]), es[1..], i - 1);
    }
  }
}
