/**
 * The pointer capture HandleField keeps in GUIUtility.hotControl (0: no
 * control holds the pointer). A mouse-down is taken only while nobody holds
 * the capture and then captures it for the field's control id; drags and the
 * mouse-up reach the field only while it holds the capture, and the mouse-up
 * releases it. An exception in a handler leaves the capture as it was.
 */
module PointerCapture {

  /** The event types HandleField tells apart (Event.GetTypeForControl). */
  datatype EventKind = MouseDown | MouseDrag | MouseUp | Repaint | OtherEvent

  /** Event.isMouse, for the event types the field sees. */
  predicate IsMouse(kind: EventKind) {
    kind == MouseDown || kind == MouseDrag || kind == MouseUp
  }

  /** The field passes the event to the tools: a down while free, a drag or up while it holds the capture. */
  predicate Forwards(hot: int, id: int, kind: EventKind) {
    match kind
    case MouseDown => hot == 0
    case MouseDrag => hot == id
    case MouseUp => hot == id
    case _ => false
  }

  /** hotControl after the field handles one event; `threw` says the tool's handler raised an exception. */
  function NextHot(hot: int, id: int, kind: EventKind, threw: bool): int {
    if !Forwards(hot, id, kind) || threw then hot
    else if kind == MouseDown then id
    else if kind == MouseUp then 0
    else hot
  }

  /** A mouse-down is forwarded exactly when nobody holds the capture, and then captures it for the field. */
  lemma DownCapturesOnlyWhenFree(hot: int, id: int)
    ensures Forwards(hot, id, MouseDown) <==> hot == 0
    ensures NextHot(hot, id, MouseDown, false) == if hot == 0 then id else hot
  {
  }

  /** A drag never changes the capture, forwarded or not. */
  lemma DragKeepsCapture(hot: int, id: int, threw: bool)
    ensures Forwards(hot, id, MouseDrag) <==> hot == id
    ensures NextHot(hot, id, MouseDrag, threw) == hot
  {
  }

  /** A mouse-up while the field holds the capture is forwarded and releases it, whatever the tool does with it. */
  lemma UpReleasesCapture(id: int)
    ensures Forwards(id, id, MouseUp)
    ensures NextHot(id, id, MouseUp, false) == 0
  {
  }

  /** The capture after a run of events none of whose handlers throws. */
  function Run(hot: int, id: int, kinds: seq<EventKind>): int
    decreases |kinds|
  {
    if kinds == [] then hot else Run(NextHot(hot, id, kinds[0], false), id, kinds[1..])
  }

  /** The events of the run that reach the tools, as positions in `kinds`. */
  function ForwardedIn(hot: int, id: int, kinds: seq<EventKind>): (r: set<nat>)
    ensures forall k :: k in r ==> k < |kinds|
    decreases |kinds|
  {
    if kinds == [] then {}
    else
      var rest := ForwardedIn(NextHot(hot, id, kinds[0], false), id, kinds[1..]);
      (if Forwards(hot, id, kinds[0]) then {0} else {}) + set k | k in rest :: k + 1
  }

  /** `n` drags. */
  function Drags(n: nat): (r: seq<EventKind>)
    ensures |r| == n && forall k :: 0 <= k < n ==> r[k] == MouseDrag
  {
    seq(n, k => MouseDrag)
  }

  /** While the field holds the capture, drags keep it and every one of them is forwarded. */
  lemma {:induction false} DragsWhileCaptured(id: int, n: nat, tail: seq<EventKind>)
    requires id != 0
    ensures Run(id, id, Drags(n) + tail) == Run(id, id, tail)
    ensures forall k :: 0 <= k < n ==> k in ForwardedIn(id, id, Drags(n) + tail)
    ensures forall k :: k in ForwardedIn(id, id, tail) ==> k + n in ForwardedIn(id, id, Drags(n) + tail)
  {
    var events := Drags(n) + tail;
    if n == 0 {
      assert events == tail;
    } else {
      var rest := Drags(n - 1) + tail;
      assert events[0] == MouseDrag;
      assert events[1..] == rest;
      DragsWhileCaptured(id, n - 1, tail);
      var later := ForwardedIn(id, id, rest);
      assert ForwardedIn(id, id, events) == {0} + set k | k in later :: k + 1;
      forall k | 0 <= k < n
        ensures k in ForwardedIn(id, id, events)
      {
        if k > 0 {
          assert k - 1 in later;
        }
      }
      forall k | k in ForwardedIn(id, id, tail)
        ensures k + n in ForwardedIn(id, id, events)
      {
        assert k + (n - 1) in later;
      }
    }
  }

  /**
   * A whole gesture (down, any number of drags, up) that starts with nobody
   * holding the capture reaches the tools event by event and leaves the
   * capture free again.
   */
  lemma GestureReleasesCapture(id: int, n: nat)
    requires id != 0
    ensures Run(0, id, [MouseDown] + Drags(n) + [MouseUp]) == 0
    ensures forall k :: 0 <= k < n + 2 ==> k in ForwardedIn(0, id, [MouseDown] + Drags(n) + [MouseUp])
  {
    var gesture := [MouseDown] + Drags(n) + [MouseUp];
    var rest := Drags(n) + [MouseUp];
    assert gesture[0] == MouseDown;
    assert gesture[1..] == rest;
    assert [MouseUp][1..] == [];
    assert Run(id, id, [MouseUp]) == 0;
    assert 0 in ForwardedIn(id, id, [MouseUp]);
    DragsWhileCaptured(id, n, [MouseUp]);
    var later := ForwardedIn(id, id, rest);
    assert ForwardedIn(0, id, gesture) == {0} + set k | k in later :: k + 1;
    forall k | 0 <= k < n + 2
      ensures k in ForwardedIn(0, id, gesture)
    {
      if k > 0 {
        assert k - 1 in later;
      }
    }
  }

  /** While another control holds the capture, no event reaches the tools and the capture stays with it. */
  lemma {:induction false} ForeignCaptureBlocksEverything(hot: int, id: int, kinds: seq<EventKind>)
    requires hot != 0 && hot != id
    ensures Run(hot, id, kinds) == hot
    ensures ForwardedIn(hot, id, kinds) == {}
    decreases |kinds|
  {
    if kinds != [] {
      ForeignCaptureBlocksEverything(hot, id, kinds[1..]);
    }
  }
}
