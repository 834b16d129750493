/** The canvas listeners as a two-phase machine. In Idle only the mousedown
    listener is attached; mousedown swaps it for the mousemove and mouseup
    listeners (Pressed), and mouseup swaps them back. The contextmenu and
    keydown listeners stay attached in both phases. */
module Interaction {
  import opened MatchModel
  import opened SceneSpec
  import opened SceneStore

  /** Key code of "R", which rotates the selected match. */
  const RKeyCode := 82

  datatype Phase = Idle | Pressed

  /** Input events, with canvas-relative cursor coordinates. */
  datatype Event =
    | MouseDown(at: Point)
    | MouseMove(at: Point)
    | MouseUp
    | KeyDown(keyCode: int)
    | ContextMenu

  /** Whether a listener for `e` is attached in phase `ph`. */
  predicate Attached(ph: Phase, e: Event) {
    match e
    case MouseDown(_) => ph == Idle
    case MouseMove(_) => ph == Pressed
    case MouseUp => ph == Pressed
    case KeyDown(_) => true
    case ContextMenu => true
  }

  /** One event: a listener that is not attached never runs. A press is
      pending afterwards exactly when the event is a mousedown or a press was
      pending and the event is not a mouseup; no event adds or removes a match. */
  function Step(ph: Phase, s: Scene, e: Event): (r: (Phase, Scene))
    ensures r.0 == Pressed <==> e.MouseDown? || (ph == Pressed && !e.MouseUp?)
    ensures |r.1| == |s|
    ensures !Attached(ph, e) ==> r.1 == s
  {
    if !Attached(ph, e) then (ph, s)
    else match e
      case MouseDown(p) => (Pressed, StartDrag(SelectAtPoint(s, p), p))
      case MouseMove(q) => (ph, MoveDragged(s, q))
      case MouseUp => (Idle, Drop(s))
      case KeyDown(code) => (ph, if code == RKeyCode then RotateSelected(s) else s)
      case ContextMenu => (ph, RotateSelected(s))
  }

  /** A trace of events, one `Step` after another; it never changes how
      many matches there are. */
  function Run(ph: Phase, s: Scene, events: seq<Event>): (r: (Phase, Scene))
    ensures |r.1| == |s|
    decreases |events|
  {
    if events == [] then (ph, s)
    else
      var next := Step(ph, s, events[0]);
      Run(next.0, next.1, events[1..])
  }

  /** A well-formed scene, and no drag outside a press. */
  predicate Consistent(ph: Phase, s: Scene) {
    WellFormed(s) && (ph == Idle ==> NoneHas(s, Dragged))
  }

  /** Selecting changes no geometry, so the hit test gives the same answer. */
  lemma {:induction false} SelectKeepsHit(s: Scene, p: Point, q: Point)
    ensures TopmostHit(SelectAtPoint(s, p), q) == TopmostHit(s, q)
  {
    var t := SelectAtPoint(s, p);
    assert forall i :: 0 <= i < |s| ==> (t[i].Contains(q) <==> s[i].Contains(q));
    match TopmostHit(s, q)
    case None =>
    case Some(k) => TopmostHitUnique(t, q, k);
  }

  /** A press from Idle leaves a well-formed scene with at most one drag. */
  lemma {:induction false} PressKeepsWellFormed(s: Scene, p: Point)
    requires Consistent(Idle, s)
    ensures WellFormed(StartDrag(SelectAtPoint(s, p), p))
  {
    var u := SelectAtPoint(s, p);
    SelectKeepsWellFormed(s, p);
    assert NoneHas(u, Dragged);
    var t := StartDrag(u, p);
    if TopmostHit(u, p).Some? {
      StartDragFindsHit(u, p);
    }
    forall i | 0 <= i < |t| ensures Has(t[i], Selected) == Has(u[i], Selected) {
    }
  }

  lemma {:induction false} StepKeepsConsistent(ph: Phase, s: Scene, e: Event)
    requires Consistent(ph, s)
    ensures Consistent(Step(ph, s, e).0, Step(ph, s, e).1)
  {
    if !Attached(ph, e) { return; }
    match e
    case MouseDown(p) => PressKeepsWellFormed(s, p);
    case MouseMove(q) => MoveDraggedKeepsWellFormed(s, q);
    case MouseUp => DropKeepsWellFormed(s);
    case KeyDown(code) => RotateSelectedKeepsWellFormed(s);
    case ContextMenu => RotateSelectedKeepsWellFormed(s);
  }

  /** However the events arrive, at most one match is ever selected or
      dragged, and none is dragged between presses. */
  lemma {:induction false} RunKeepsConsistent(ph: Phase, s: Scene, events: seq<Event>)
    requires Consistent(ph, s)
    ensures Consistent(Run(ph, s, events).0, Run(ph, s, events).1)
    decreases |events|
  {
    if events != [] {
      StepKeepsConsistent(ph, s, events[0]);
      var next := Step(ph, s, events[0]);
      RunKeepsConsistent(next.0, next.1, events[1..]);
    }
  }

  /** Press, move, release from Idle: each listener is attached in turn. */
  lemma {:induction false} ThreeSteps(s: Scene, p: Point, q: Point)
    ensures Run(Idle, s, [MouseDown(p), MouseMove(q), MouseUp]) ==
      (Idle, Drop(MoveDragged(StartDrag(SelectAtPoint(s, p), p), q)))
  {
    var es := [MouseDown(p), MouseMove(q), MouseUp];
    var t := StartDrag(SelectAtPoint(s, p), p);
    var v := MoveDragged(t, q);
    assert Run(Idle, s, es) == Run(Pressed, t, es[1..]);
    assert es[1..][1..] == [MouseUp];
    assert Run(Pressed, t, es[1..]) == Run(Pressed, v, [MouseUp]);
    assert Run(Pressed, v, [MouseUp]) == Run(Idle, Drop(v), []);
  }

  /** A press on a match selects it and drags it: the one match. */
  lemma {:induction false} PressOnMatch(s: Scene, p: Point)
    requires Consistent(Idle, s)
    requires TopmostHit(s, p).Some?
    ensures var t := Step(Idle, s, MouseDown(p));
      t.0 == Pressed &&
      FirstWith(t.1, Selected) == TopmostHit(s, p) &&
      FirstWith(t.1, Dragged) == TopmostHit(s, p) &&
      AtMostOne(t.1, Selected) && AtMostOne(t.1, Dragged)
  {
    var k := TopmostHit(s, p).value;
    var u := SelectAtPoint(s, p);
    SelectKeepsHit(s, p, p);
    assert NoneHas(u, Dragged);
    StartDragFindsHit(u, p);
    var t := StartDrag(u, p);
    assert forall i :: 0 <= i < |t| ==> t[i].selected == u[i].selected;
    assert Has(t[k], Selected);
  }

  /** A press that misses every match changes no match, and the moves and
      the release that follow change nothing either. */
  lemma {:induction false} PressOnNothing(s: Scene, p: Point, q: Point)
    requires Consistent(Idle, s)
    requires TopmostHit(s, p).None?
    ensures Step(Idle, s, MouseDown(p)) == (Pressed, s)
    ensures Run(Idle, s, [MouseDown(p), MouseMove(q), MouseUp]) == (Idle, s)
  {
    IdleMovesNothing(s, q);
    ThreeSteps(s, p, q);
  }

  /** Press on a match at `p`, move to `q`, release: the match has moved by
      `q - p`, stays selected, is no longer dragged, and its offset is reset. */
  lemma {:induction false} DragSession(s: Scene, p: Point, q: Point)
    requires Consistent(Idle, s)
    requires TopmostHit(s, p).Some?
    ensures var k := TopmostHit(s, p).value;
      var r := Run(Idle, s, [MouseDown(p), MouseMove(q), MouseUp]);
      r.0 == Idle && |r.1| == |s| &&
      r.1[k] == s[k].(x := s[k].x + (q.x - p.x), y := s[k].y + (q.y - p.y),
                      selected := true, dragged := false, dragOffset := Point(0, 0)) &&
      forall i :: 0 <= i < |s| && i != k ==> r.1[i] == s[i].(selected := false)
  {
    var k := TopmostHit(s, p).value;
    var u := SelectAtPoint(s, p);
    SelectKeepsHit(s, p, p);
    assert NoneHas(u, Dragged);
    DragFollowsCursor(u, p, q);
    StartDragFindsHit(u, p);
    var t := StartDrag(u, p);
    var v := MoveDragged(t, q);
    FirstWithAfterUpdate(t, Dragged, k, v[k]);
    ThreeSteps(s, p, q);
  }

  class CanvasController {
    const manager: MatchesManager
    var phase: Phase

    ghost predicate Valid()
      reads this, manager, manager.matches
    {
      manager.Valid() && Consistent(phase, manager.Scene())
    }

    /** An empty scene with only the mousedown listener attached. */
    constructor ()
      ensures Valid() && fresh(manager)
      ensures phase == Idle && manager.Scene() == []
    {
      manager := new MatchesManager();
      phase := Idle;
    }

    /** Dispatches `e` to its listener if that listener is attached. */
    method Handle(e: Event)
      requires Valid()
      modifies this, manager.matches
      ensures Valid() && manager.matches == old(manager.matches)
      ensures (phase, manager.Scene()) == Step(old(phase), old(manager.Scene()), e)
    {
      StepKeepsConsistent(phase, manager.Scene(), e);
      if !Attached(phase, e) {
        return;
      }
      match e
      case MouseDown(p) => MouseDown(p);
      case MouseMove(q) => MouseMove(q);
      case MouseUp => MouseUp();
      case KeyDown(code) => KeyDown(code);
      case ContextMenu => ContextMenu();
    }

    method MouseDown(p: Point)
      requires Valid() && phase == Idle
      modifies this, manager.matches
      ensures manager.Valid() && manager.matches == old(manager.matches)
      ensures phase == Pressed
      ensures manager.Scene() == StartDrag(SelectAtPoint(old(manager.Scene()), p), p)
    {
      manager.SelectMatchAtPoint(p);
      manager.DragMatchAtPoint(p);
      phase := Pressed;
    }

    /** Moves the dragged match so the grab point follows the cursor. */
    method MouseMove(q: Point)
      requires Valid() && phase == Pressed
      modifies manager.matches
      ensures manager.Valid() && manager.matches == old(manager.matches)
      ensures manager.Scene() == MoveDragged(old(manager.Scene()), q)
    {
      var m := manager.DraggedMatch();
      if m == null {
        return;
      }
      m.x := q.x - m.dragOffset.x;
      m.y := q.y - m.dragOffset.y;
    }

    method MouseUp()
      requires Valid() && phase == Pressed
      modifies this, manager.matches
      ensures manager.Valid() && manager.matches == old(manager.matches)
      ensures phase == Idle
      ensures manager.Scene() == Drop(old(manager.Scene()))
    {
      phase := Idle;
      if manager.DraggedMatch() == null {
        return;
      }
      manager.DropMatch();
    }

    method KeyDown(keyCode: int)
      requires Valid()
      modifies manager.matches
      ensures manager.Valid() && manager.matches == old(manager.matches)
      ensures manager.Scene() ==
        if keyCode == RKeyCode then RotateSelected(old(manager.Scene())) else old(manager.Scene())
    {
      if keyCode == RKeyCode {
        manager.RotateSelectedMatch();
      }
    }

    method ContextMenu()
      requires Valid()
      modifies manager.matches
      ensures manager.Valid() && manager.matches == old(manager.matches)
      ensures manager.Scene() == RotateSelected(old(manager.Scene()))
    {
      manager.RotateSelectedMatch();
    }
  }
}
