/** The touch translator of the Android loop: multi-touch motion events become egui touch events
    and a single-pointer stream. */
module Pointer {
  import opened Basics

  datatype Pos = Pos(x: real, y: real)

  datatype TouchPhase = Start | Move | End | Cancel

  datatype Event =
    | Touch(device: nat, id: nat, phase: TouchPhase, pos: Pos)
    | PointerMoved(pos: Pos)
    | PointerButton(pos: Pos, pressed: bool, modifiers: nat)
    | PointerGone
    | Keyboard(what: string)  // modifier, key and text events

  datatype Contact = Contact(id: int, pos: Pos)

  /** A native motion event, with positions already in points. */
  datatype Motion =
    | Down(device: int, contact: Contact)
    | Moves(device: int, contacts: seq<Contact>)
    | Up(device: int, contact: Contact)
    | CancelAll(device: int, contacts: seq<Contact>)
    | Unhandled

  datatype Input = Input(events: seq<Event>, primary: Option<int>, modifiers: nat, tapped: bool)

  const NO_INPUT := Input([], None, 0, false)

  // ---------------------------------------------------------------------------------------
  // Each operation as a function on values
  // ---------------------------------------------------------------------------------------

  function TouchOf(device: int, c: Contact, phase: TouchPhase): Event {
    Touch(Max(device, 0), Max(c.id, 0), phase, c.pos)
  }

  function Pushed(s: Input, more: seq<Event>): Input {
    s.(events := s.events + more)
  }

  function Pressed(s: Input, c: Contact): Input {
    Pushed(s, [PointerMoved(c.pos), PointerButton(c.pos, true, s.modifiers)]).(primary := Some(c.id), tapped := true)
  }

  function Moved(s: Input, c: Contact): Input {
    if s.primary == Some(c.id) then Pushed(s, [PointerMoved(c.pos)]) else s
  }

  function Released(s: Input, c: Contact): Input {
    if s.primary == Some(c.id)
    then Pushed(s, [PointerButton(c.pos, false, s.modifiers), PointerGone]).(primary := None)
    else s
  }

  function Cancelled(s: Input): Input {
    if s.primary.Some? then Pushed(s, [PointerGone]).(primary := None) else s
  }

  function AllMoved(s: Input, device: int, contacts: seq<Contact>): Input
    decreases |contacts|
  {
    if contacts == [] then s
    else
      var before := AllMoved(s, device, contacts[..|contacts| - 1]);
      var c := contacts[|contacts| - 1];
      Moved(Pushed(before, [TouchOf(device, c, Move)]), c)
  }

  function CancelTouches(device: int, contacts: seq<Contact>): (touches: seq<Event>)
    ensures |touches| == |contacts| && forall i :: 0 <= i < |contacts| ==>
              touches[i] == Touch(Max(device, 0), Max(contacts[i].id, 0), Cancel, contacts[i].pos)
  {
    seq(|contacts|, i requires 0 <= i < |contacts| => TouchOf(device, contacts[i], Cancel))
  }

  function OnMotion(s: Input, m: Motion): Input {
    match m
    case Down(device, c) =>
      var touched := Pushed(s, [TouchOf(device, c, Start)]);
      if s.primary.None? then Pressed(touched, c) else touched
    case Moves(device, cs) => AllMoved(s, device, cs)
    case Up(device, c) => Released(Pushed(s, [TouchOf(device, c, End)]), c)
    case CancelAll(device, cs) => Cancelled(Pushed(s, CancelTouches(device, cs)))
    case Unhandled => s
  }

  function OnKey(s: Input, modifiers: nat, more: seq<string>): Input {
    Pushed(s, Keys(more)).(modifiers := modifiers)
  }

  function Keys(more: seq<string>): seq<Event> {
    seq(|more|, i requires 0 <= i < |more| => Keyboard(more[i]))
  }

  // ---------------------------------------------------------------------------------------
  // The object
  // ---------------------------------------------------------------------------------------

  class AndroidInput {
    var events: seq<Event>
    var primaryTouchId: Option<int>
    var modifiers: nat
    var primaryPointerPressed: bool

    function View(): Input
      reads this
    {
      Input(events, primaryTouchId, modifiers, primaryPointerPressed)
    }

    constructor ()
      ensures View() == NO_INPUT
    {
      events, primaryTouchId, modifiers, primaryPointerPressed := [], None, 0, false;
    }

    method PushTouch(device: int, c: Contact, phase: TouchPhase)
      modifies this`events
      ensures View() == Pushed(old(View()), [TouchOf(device, c, phase)])
    {
      events := events + [TouchOf(device, c, phase)];
    }

    method PressPrimary(c: Contact)
      modifies this
      ensures View() == Pressed(old(View()), c)
    {
      primaryPointerPressed := true;
      primaryTouchId := Some(c.id);
      events := events + [PointerMoved(c.pos)];
      events := events + [PointerButton(c.pos, true, modifiers)];
      assert events == old(events) + [PointerMoved(c.pos), PointerButton(c.pos, true, modifiers)];
    }

    method MovePrimary(c: Contact)
      modifies this`events
      ensures View() == Moved(old(View()), c)
    {
      if primaryTouchId == Some(c.id) {
        events := events + [PointerMoved(c.pos)];
      }
    }

    method ReleasePrimary(c: Contact)
      modifies this
      ensures View() == Released(old(View()), c)
    {
      if primaryTouchId == Some(c.id) {
        events := events + [PointerButton(c.pos, false, modifiers)];
        events := events + [PointerGone];
        assert events == old(events) + [PointerButton(c.pos, false, modifiers), PointerGone];
        primaryTouchId := None;
      }
    }

    method CancelPrimary()
      modifies this
      ensures View() == Cancelled(old(View()))
    {
      if primaryTouchId.Some? {
        primaryTouchId := None;
        events := events + [PointerGone];
      }
    }

    method HandleMotion(m: Motion)
      modifies this
      ensures View() == OnMotion(old(View()), m) && modifiers == old(modifiers)
      ensures m.Down? && old(primaryTouchId) == None ==>
                && primaryTouchId == Some(m.contact.id) && primaryPointerPressed
                && events == old(events) + [Touch(Max(m.device, 0), Max(m.contact.id, 0), Start, m.contact.pos),
                                            PointerMoved(m.contact.pos), PointerButton(m.contact.pos, true, modifiers)]
      ensures m.Up? && old(primaryTouchId) == Some(m.contact.id) ==>
                && primaryTouchId == None
                && events == old(events) + [Touch(Max(m.device, 0), Max(m.contact.id, 0), End, m.contact.pos),
                                            PointerButton(m.contact.pos, false, modifiers), PointerGone]
      ensures (m.Down? && old(primaryTouchId).Some?) || (m.Up? && old(primaryTouchId) != Some(m.contact.id)) ==>
                && primaryTouchId == old(primaryTouchId)
                && events == old(events) + [Touch(Max(m.device, 0), Max(m.contact.id, 0), if m.Down? then Start else End, m.contact.pos)]
      ensures m.Moves? || m.Unhandled? ==> primaryTouchId == old(primaryTouchId)
      ensures !m.Down? || old(primaryTouchId).Some? ==> primaryPointerPressed == old(primaryPointerPressed)
      ensures m.CancelAll? ==>
                && primaryTouchId == None
                && events == old(events) + CancelTouches(m.device, m.contacts)
                             + if old(primaryTouchId).Some? then [PointerGone] else []
    {
      match m
      case Down(device, c) =>
        PushTouch(device, c, Start);
        if primaryTouchId.None? {
          PressPrimary(c);
        }
      case Moves(device, cs) =>
        for i := 0 to |cs|
          invariant View() == AllMoved(old(View()), device, cs[..i])
          invariant primaryTouchId == old(primaryTouchId) && modifiers == old(modifiers)
          invariant primaryPointerPressed == old(primaryPointerPressed)
        {
          assert cs[..i + 1][..i] == cs[..i];
          PushTouch(device, cs[i], Move);
          MovePrimary(cs[i]);
        }
        assert cs[..|cs|] == cs;
      case Up(device, c) =>
        PushTouch(device, c, End);
        ReleasePrimary(c);
      case CancelAll(device, cs) =>
        for i := 0 to |cs|
          invariant View() == Pushed(old(View()), CancelTouches(device, cs[..i]))
        {
          PushTouch(device, cs[i], Cancel);
          assert CancelTouches(device, cs[..i + 1]) == CancelTouches(device, cs[..i]) + [TouchOf(device, cs[i], Cancel)];
        }
        assert cs[..|cs|] == cs;
        CancelPrimary();
      case Unhandled =>
    }

    // A painted frame takes the tap flag and the pending events together.
    method TakeFrame() returns (tapped: bool, batch: seq<Event>)
      modifies this
      ensures tapped == old(primaryPointerPressed) && batch == old(events)
      ensures View() == old(View()).(events := [], tapped := false)
      ensures batch + events == old(events) && !primaryPointerPressed
    {
      tapped := primaryPointerPressed;
      primaryPointerPressed := false;
      batch := events;
      events := [];
    }
  }

  // ---------------------------------------------------------------------------------------
  // Frames
  // ---------------------------------------------------------------------------------------

  datatype Step = OnMotionEvent(motion: Motion) | OnKeyEvent(modifiers: nat, keys: seq<string>) | Paint

  datatype Batch = Batch(tapped: bool, events: seq<Event>)

  datatype Stream = Stream(input: Input, batches: seq<Batch>)

  function Apply(s: Stream, step: Step): Stream {
    match step
    case OnMotionEvent(m) => s.(input := OnMotion(s.input, m))
    case OnKeyEvent(mods, keys) => s.(input := OnKey(s.input, mods, keys))
    case Paint =>
      Stream(s.input.(events := [], tapped := false), s.batches + [Batch(s.input.tapped, s.input.events)])
  }

  function Run(steps: seq<Step>): Stream {
    if steps == [] then Stream(NO_INPUT, []) else Apply(Run(steps[..|steps| - 1]), steps[|steps| - 1])
  }

  function Concat(batches: seq<Batch>): seq<Event> {
    if batches == [] then [] else Concat(batches[..|batches| - 1]) + batches[|batches| - 1].events
  }

  /** Everything delivered so far and still pending, in order. */
  function AllEvents(s: Stream): seq<Event> { Concat(s.batches) + s.input.events }

  /** The same input with no frame painted in between. */
  function WithoutPaint(steps: seq<Step>): seq<Step> {
    if steps == [] then []
    else if steps[|steps| - 1].Paint? then WithoutPaint(steps[..|steps| - 1])
    else WithoutPaint(steps[..|steps| - 1]) + [steps[|steps| - 1]]
  }

  /** What an operation appends does not depend on what is already pending. */
  lemma {:induction false} AllMovedAppends(s: Input, prefix: seq<Event>, device: int, cs: seq<Contact>)
    ensures AllMoved(s.(events := prefix + s.events), device, cs)
         == var r := AllMoved(s, device, cs); r.(events := prefix + r.events)
    ensures AllMoved(s, device, cs).primary == s.primary && AllMoved(s, device, cs).modifiers == s.modifiers
    ensures AllMoved(s, device, cs).tapped == s.tapped
  {
    if cs != [] {
      AllMovedAppends(s, prefix, device, cs[..|cs| - 1]);
      var r := AllMoved(s, device, cs[..|cs| - 1]);
      var c := cs[|cs| - 1];
      AppendAssoc(prefix, r.events, [TouchOf(device, c, Move)]);
      AppendAssoc(prefix, r.events + [TouchOf(device, c, Move)], [PointerMoved(c.pos)]);
    }
  }

  lemma AppendAssoc<T>(a: seq<T>, b: seq<T>, c: seq<T>)
    ensures (a + b) + c == a + (b + c)
  {}

  lemma MotionAppends(s: Input, prefix: seq<Event>, m: Motion)
    ensures OnMotion(s.(events := prefix + s.events), m)
         == var r := OnMotion(s, m); r.(events := prefix + r.events)
  {
    match m
    case Down(device, c) =>
      AppendAssoc(prefix, s.events, [TouchOf(device, c, Start)]);
      AppendAssoc(prefix, s.events + [TouchOf(device, c, Start)], [PointerMoved(c.pos), PointerButton(c.pos, true, s.modifiers)]);
    case Moves(device, cs) =>
      AllMovedAppends(s, prefix, device, cs);
    case Up(device, c) =>
      AppendAssoc(prefix, s.events, [TouchOf(device, c, End)]);
      AppendAssoc(prefix, s.events + [TouchOf(device, c, End)], [PointerButton(c.pos, false, s.modifiers), PointerGone]);
    case CancelAll(device, cs) =>
      AppendAssoc(prefix, s.events, CancelTouches(device, cs));
      AppendAssoc(prefix, s.events + CancelTouches(device, cs), [PointerGone]);
    case Unhandled =>
  }

  /** `u` is `s` as it would be if no frame had been painted. */
  ghost predicate SameButUnpainted(s: Stream, u: Stream) {
    && u.batches == []
    && u.input == Input(AllEvents(s), s.input.primary, s.input.modifiers, u.input.tapped)
  }

  lemma StepsAgree(s: Stream, u: Stream, step: Step)
    requires SameButUnpainted(s, u) && !step.Paint?
    ensures SameButUnpainted(Apply(s, step), Apply(u, step))
  {
    var before := Concat(s.batches);
    if step.OnMotionEvent? {
      MotionAppends(s.input, before, step.motion);
      TappedIsIndependent(s.input.(events := before + s.input.events), u.input.tapped, step.motion);
    } else {
      AppendAssoc(before, s.input.events, Keys(step.keys));
    }
  }

  lemma PaintAgrees(s: Stream, u: Stream)
    requires SameButUnpainted(s, u)
    ensures SameButUnpainted(Apply(s, Paint), u)
  {
    var s' := Apply(s, Paint);
    assert s'.batches[..|s.batches|] == s.batches;
    assert AllEvents(s') == AllEvents(s);
  }

  lemma RunSnoc(steps: seq<Step>, step: Step)
    ensures Run(steps + [step]) == Apply(Run(steps), step)
  {
    assert (steps + [step])[..|steps|] == steps;
  }

  /** Nothing is lost or reordered across frames: the batches and the pending events together
      are exactly what the same input produces when no frame is painted. */
  lemma {:induction false} FramesOnlySplit(steps: seq<Step>)
    ensures SameButUnpainted(Run(steps), Run(WithoutPaint(steps)))
  {
    if steps == [] {
    } else {
      var init, step := steps[..|steps| - 1], steps[|steps| - 1];
      FramesOnlySplit(init);
      hide SameButUnpainted, Apply;
      if step.Paint? {
        PaintAgrees(Run(init), Run(WithoutPaint(init)));
      } else {
        StepsAgree(Run(init), Run(WithoutPaint(init)), step);
        RunSnoc(WithoutPaint(init), step);
      }
    }
  }

  lemma TappedIsIndependent(s: Input, tapped: bool, m: Motion)
    ensures var r := OnMotion(s.(tapped := tapped), m); r == OnMotion(s, m).(tapped := r.tapped)
  {
    if m.Moves? {
      MovesIgnoreTapped(s, tapped, m.device, m.contacts);
    }
  }

  lemma {:induction false} MovesIgnoreTapped(s: Input, tapped: bool, device: int, cs: seq<Contact>)
    ensures AllMoved(s.(tapped := tapped), device, cs) == AllMoved(s, device, cs).(tapped := tapped)
  {
    if cs != [] {
      MovesIgnoreTapped(s, tapped, device, cs[..|cs| - 1]);
    }
  }

  // ---------------------------------------------------------------------------------------
  // The pointer stream
  // ---------------------------------------------------------------------------------------

  predicate IsPointer(e: Event) { e.PointerMoved? || e.PointerButton? || e.PointerGone? }

  function PointerOnly(events: seq<Event>): seq<Event> {
    if events == [] then []
    else PointerOnly(events[..|events| - 1]) + if IsPointer(events[|events| - 1]) then [events[|events| - 1]] else []
  }

  /** A finished gesture: a press, moves, and either a release or a cancellation. */
  datatype Gesture = Gesture(down: Pos, downModifiers: nat, moves: seq<Pos>, lift: Option<Lift>)

  datatype Lift = Lift(pos: Pos, modifiers: nat)

  function MoveEvents(moves: seq<Pos>): seq<Event> {
    if moves == [] then [] else MoveEvents(moves[..|moves| - 1]) + [PointerMoved(moves[|moves| - 1])]
  }

  /** The events of a press and the moves after it. */
  function Opened(g: Gesture): seq<Event> {
    [PointerMoved(g.down), PointerButton(g.down, true, g.downModifiers)] + MoveEvents(g.moves)
  }

  function Closed(g: Gesture): seq<Event> {
    Opened(g)
    + match g.lift
      case Some(l) => [PointerButton(l.pos, false, l.modifiers), PointerGone]
      case None => [PointerGone]
  }

  function Printed(gs: seq<Gesture>): seq<Event> {
    if gs == [] then [] else Printed(gs[..|gs| - 1]) + Closed(gs[|gs| - 1])
  }

  /** The pointer events are finished gestures followed by at most one open one, and one is
      open exactly while a primary touch is held. */
  ghost predicate Bracketed(s: Input, gs: seq<Gesture>, open: Option<Gesture>) {
    && PointerOnly(s.events) == Printed(gs) + (if open.Some? then Opened(open.value) else [])
    && (open.Some? <==> s.primary.Some?)
  }

  lemma {:induction false} PointerOnlyConcat(xs: seq<Event>, ys: seq<Event>)
    ensures PointerOnly(xs + ys) == PointerOnly(xs) + PointerOnly(ys)
  {
    if ys == [] {
      assert xs + ys == xs;
    } else {
      var n, last := |ys| - 1, if IsPointer(ys[|ys| - 1]) then [ys[|ys| - 1]] else [];
      assert (xs + ys)[..|xs + ys| - 1] == xs + ys[..n];
      PointerOnlyConcat(xs, ys[..n]);
      AppendAssoc(PointerOnly(xs), PointerOnly(ys[..n]), last);
    }
  }

  lemma {:induction false} NoPointers(events: seq<Event>)
    requires forall i :: 0 <= i < |events| ==> !IsPointer(events[i])
    ensures PointerOnly(events) == []
  {
    if events != [] {
      NoPointers(events[..|events| - 1]);
    }
  }

  lemma OnePointer(e: Event)
    requires IsPointer(e)
    ensures PointerOnly([e]) == [e]
  {
    assert [e][..0] == [];
  }

  lemma TwoPointers(e: Event, f: Event)
    requires IsPointer(e) && IsPointer(f)
    ensures PointerOnly([e, f]) == [e, f]
  {
    OnePointer(e);
    assert [e, f][..1] == [e];
  }

  lemma QuietKeepsBracketed(s: Input, more: seq<Event>, gs: seq<Gesture>, open: Option<Gesture>)
    requires Bracketed(s, gs, open) && forall i :: 0 <= i < |more| ==> !IsPointer(more[i])
    ensures Bracketed(Pushed(s, more), gs, open)
  {
    PointerOnlyConcat(s.events, more);
    NoPointers(more);
  }

  lemma PressOpens(s: Input, c: Contact, gs: seq<Gesture>) returns (open: Option<Gesture>)
    requires Bracketed(s, gs, None)
    ensures open.Some? && Bracketed(Pressed(s, c), gs, open)
  {
    var press := [PointerMoved(c.pos), PointerButton(c.pos, true, s.modifiers)];
    open := Some(Gesture(c.pos, s.modifiers, [], None));
    PointerOnlyConcat(s.events, press);
    TwoPointers(press[0], press[1]);
    assert Opened(open.value) == press;
  }

  lemma MoveExtends(s: Input, c: Contact, gs: seq<Gesture>, open: Option<Gesture>) returns (open': Option<Gesture>)
    requires Bracketed(s, gs, open)
    ensures Bracketed(Moved(s, c), gs, open')
  {
    open' := open;
    if s.primary == Some(c.id) {
      var g := open.value;
      var g' := g.(moves := g.moves + [c.pos]);
      open' := Some(g');
      PointerOnlyConcat(s.events, [PointerMoved(c.pos)]);
      OnePointer(PointerMoved(c.pos));
      assert g'.moves[..|g.moves|] == g.moves;
      assert Opened(g') == Opened(g) + [PointerMoved(c.pos)];
      AppendAssoc(Printed(gs), Opened(g), [PointerMoved(c.pos)]);
    }
  }

  /** Both ways of closing the open gesture. */
  lemma CloseFinishes(s: Input, s': Input, lift: Option<Lift>, gs: seq<Gesture>, open: Option<Gesture>)
    returns (gs': seq<Gesture>)
    requires Bracketed(s, gs, open) && open.Some? && s'.primary.None?
    requires s'.events == s.events + match lift
                                     case Some(l) => [PointerButton(l.pos, false, l.modifiers), PointerGone]
                                     case None => [PointerGone]
    ensures Bracketed(s', gs', None)
  {
    var g := open.value.(lift := lift);
    var end := s'.events[|s.events|..];
    gs' := gs + [g];
    PointerOnlyConcat(s.events, end);
    if lift.Some? {
      TwoPointers(end[0], end[1]);
    } else {
      OnePointer(end[0]);
    }
    assert gs'[..|gs|] == gs;
    assert Closed(g) == Opened(open.value) + end;
    AppendAssoc(Printed(gs), Opened(open.value), end);
  }

  lemma {:induction false} MovesKeepBracketed(s: Input, device: int, cs: seq<Contact>, gs: seq<Gesture>,
                                              open: Option<Gesture>)
    returns (open': Option<Gesture>)
    requires Bracketed(s, gs, open)
    ensures Bracketed(AllMoved(s, device, cs), gs, open')
  {
    open' := open;
    if cs != [] {
      var c := cs[|cs| - 1];
      var before := AllMoved(s, device, cs[..|cs| - 1]);
      open' := MovesKeepBracketed(s, device, cs[..|cs| - 1], gs, open);
      QuietKeepsBracketed(before, [TouchOf(device, c, Move)], gs, open');
      open' := MoveExtends(Pushed(before, [TouchOf(device, c, Move)]), c, gs, open');
    }
  }

  lemma MotionKeepsBracketed(s: Input, m: Motion, gs: seq<Gesture>, open: Option<Gesture>)
    returns (gs': seq<Gesture>, open': Option<Gesture>)
    requires Bracketed(s, gs, open)
    ensures Bracketed(OnMotion(s, m), gs', open')
  {
    gs', open' := gs, open;
    match m
    case Down(device, c) =>
      QuietKeepsBracketed(s, [TouchOf(device, c, Start)], gs, open);
      if s.primary.None? {
        open' := PressOpens(Pushed(s, [TouchOf(device, c, Start)]), c, gs);
      }
    case Moves(device, cs) =>
      open' := MovesKeepBracketed(s, device, cs, gs, open);
    case Up(device, c) =>
      var touched := Pushed(s, [TouchOf(device, c, End)]);
      QuietKeepsBracketed(s, [TouchOf(device, c, End)], gs, open);
      if s.primary == Some(c.id) {
        gs' := CloseFinishes(touched, Released(touched, c), Some(Lift(c.pos, s.modifiers)), gs, open);
        open' := None;
      }
    case CancelAll(device, cs) =>
      var touched := Pushed(s, CancelTouches(device, cs));
      QuietKeepsBracketed(s, CancelTouches(device, cs), gs, open);
      if s.primary.Some? {
        gs' := CloseFinishes(touched, Cancelled(touched), None, gs, open);
        open' := None;
      }
    case Unhandled =>
  }

  lemma {:induction false} UnpaintedIsBracketed(steps: seq<Step>)
    returns (gs: seq<Gesture>, open: Option<Gesture>)
    requires forall i :: 0 <= i < |steps| ==> !steps[i].Paint?
    ensures Bracketed(Run(steps).input, gs, open)
  {
    gs, open := [], None;
    if steps != [] {
      var init, step := steps[..|steps| - 1], steps[|steps| - 1];
      gs, open := UnpaintedIsBracketed(init);
      var s := Run(init).input;
      if step.OnMotionEvent? {
        gs, open := MotionKeepsBracketed(s, step.motion, gs, open);
      } else {
        QuietKeepsBracketed(s, Keys(step.keys), gs, open);
      }
    }
  }

  lemma {:induction false} UnpaintedHasNoPaint(steps: seq<Step>)
    ensures forall i :: 0 <= i < |WithoutPaint(steps)| ==> !WithoutPaint(steps)[i].Paint?
  {
    if steps != [] {
      UnpaintedHasNoPaint(steps[..|steps| - 1]);
    }
  }

  /** For every touch sequence and every split into frames, the concatenated pointer events are
      finished gestures - move, press, moves, then release and gone or gone alone - followed by
      at most one open gesture, open exactly while a primary touch is held. */
  lemma PointerStreamIsBracketed(steps: seq<Step>) returns (gs: seq<Gesture>, open: Option<Gesture>)
    ensures PointerOnly(AllEvents(Run(steps))) == Printed(gs) + (if open.Some? then Opened(open.value) else [])
    ensures open.Some? <==> Run(steps).input.primary.Some?
  {
    FramesOnlySplit(steps);
    UnpaintedHasNoPaint(steps);
    gs, open := UnpaintedIsBracketed(WithoutPaint(steps));
  }

  /** While a primary touch is held, only that touch moves or ends the pointer; other touches
      and further presses leave it alone. */
  lemma OtherTouchesAreIgnored(s: Input, m: Motion)
    requires s.primary.Some?
    requires m.Down? || (m.Up? && m.contact.id != s.primary.value)
          || (m.Moves? && forall i :: 0 <= i < |m.contacts| ==> m.contacts[i].id != s.primary.value)
    ensures OnMotion(s, m).primary == s.primary
    ensures PointerOnly(OnMotion(s, m).events) == PointerOnly(s.events)
  {
    match m
    case Down(device, c) =>
      PointerOnlyConcat(s.events, [TouchOf(device, c, Start)]);
      NoPointers([TouchOf(device, c, Start)]);
    case Up(device, c) =>
      PointerOnlyConcat(s.events, [TouchOf(device, c, End)]);
      NoPointers([TouchOf(device, c, End)]);
    case Moves(device, cs) =>
      OtherMovesAreIgnored(s, device, cs);
  }

  /** The moves of one finger among the contacts of a motion event. */
  function MovesOf(contacts: seq<Contact>, id: int): seq<Event> {
    if contacts == [] then []
    else MovesOf(contacts[..|contacts| - 1], id)
         + if contacts[|contacts| - 1].id == id then [PointerMoved(contacts[|contacts| - 1].pos)] else []
  }

  lemma {:induction false} OneMove(contacts: seq<Contact>, id: int, k: nat)
    requires k < |contacts| && contacts[k].id == id
    requires forall i :: 0 <= i < |contacts| && i != k ==> contacts[i].id != id
    ensures MovesOf(contacts, id) == [PointerMoved(contacts[k].pos)]
  {
    if k < |contacts| - 1 {
      OneMove(contacts[..|contacts| - 1], id, k);
    } else {
      NoMove(contacts[..k], id);
    }
  }

  lemma {:induction false} NoMove(contacts: seq<Contact>, id: int)
    requires forall i :: 0 <= i < |contacts| ==> contacts[i].id != id
    ensures MovesOf(contacts, id) == []
  {
    if contacts != [] {
      NoMove(contacts[..|contacts| - 1], id);
    }
  }

  lemma {:induction false} MovesAppend(s: Input, device: int, cs: seq<Contact>)
    ensures AllMoved(s, device, cs).primary == s.primary
    ensures PointerOnly(AllMoved(s, device, cs).events)
         == PointerOnly(s.events) + if s.primary.Some? then MovesOf(cs, s.primary.value) else []
  {
    if cs != [] {
      var init, c := cs[..|cs| - 1], cs[|cs| - 1];
      MovesAppend(s, device, init);
      OneMoved(AllMoved(s, device, init), device, c);
      hide PointerOnly;
      if s.primary == Some(c.id) {
        AppendAssoc(PointerOnly(s.events), MovesOf(init, c.id), [PointerMoved(c.pos)]);
      } else {
        AppendNone(PointerOnly(s.events));
        AppendNone(PointerOnly(s.events) + if s.primary.Some? then MovesOf(init, s.primary.value) else []);
      }
    }
  }

  /** A motion event of several fingers is the motion events of each, in order; each one touches,
      and moves the pointer if it is the primary one. */
  lemma {:induction false} MovesCompose(s: Input, device: int, xs: seq<Contact>, ys: seq<Contact>)
    ensures AllMoved(s, device, xs + ys) == AllMoved(AllMoved(s, device, xs), device, ys)
    ensures forall c :: AllMoved(s, device, [c]).events
                     == s.events + [Touch(Max(device, 0), Max(c.id, 0), Move, c.pos)]
                        + if s.primary == Some(c.id) then [PointerMoved(c.pos)] else []
  {
    forall c
      ensures AllMoved(s, device, [c]).events
           == s.events + [Touch(Max(device, 0), Max(c.id, 0), Move, c.pos)]
              + if s.primary == Some(c.id) then [PointerMoved(c.pos)] else []
    {
      assert [c][..0] == [];
      AppendNone(s.events + [TouchOf(device, c, Move)]);
    }
    if ys == [] {
      assert xs + ys == xs;
    } else {
      MovesCompose(s, device, xs, ys[..|ys| - 1]);
      assert (xs + ys)[..|xs + ys| - 1] == xs + ys[..|ys| - 1];
    }
  }

  lemma OneMoved(s: Input, device: int, c: Contact)
    ensures var s' := Moved(Pushed(s, [TouchOf(device, c, Move)]), c);
      && s'.primary == s.primary
      && PointerOnly(s'.events) == PointerOnly(s.events) + if s.primary == Some(c.id) then [PointerMoved(c.pos)] else []
  {
    var touch, move := [TouchOf(device, c, Move)], [PointerMoved(c.pos)];
    NoPointers(touch);
    OnePointer(move[0]);
    hide PointerOnly;
    PointerOnlyConcat(s.events, touch);
    PointerOnlyConcat(s.events + touch, move);
  }

  /** What each motion does to the pointer stream and to the primary touch. */
  lemma MotionMeans(s: Input, m: Motion)
    ensures OnMotion(s, m).primary
         == match m
            case Down(_, c) => if s.primary == None then Some(c.id) else s.primary
            case Up(_, c) => if s.primary == Some(c.id) then None else s.primary
            case Moves(_, _) => s.primary
            case CancelAll(_, _) => None
            case Unhandled => s.primary
    ensures PointerOnly(OnMotion(s, m).events)
         == PointerOnly(s.events)
            + match m
              case Down(_, c) =>
                if s.primary == None then [PointerMoved(c.pos), PointerButton(c.pos, true, s.modifiers)] else []
              case Up(_, c) =>
                if s.primary == Some(c.id) then [PointerButton(c.pos, false, s.modifiers), PointerGone] else []
              case Moves(_, cs) => if s.primary.Some? then MovesOf(cs, s.primary.value) else []
              case CancelAll(_, _) => if s.primary.Some? then [PointerGone] else []
              case Unhandled => []
  {
    hide PointerOnly;
    match m
    case Down(device, c) =>
      var press := [PointerMoved(c.pos), PointerButton(c.pos, true, s.modifiers)];
      TouchThen(s.events, [TouchOf(device, c, Start)], if s.primary == None then press else []);
    case Up(device, c) =>
      var lift := [PointerButton(c.pos, false, s.modifiers), PointerGone];
      TouchThen(s.events, [TouchOf(device, c, End)], if s.primary == Some(c.id) then lift else []);
    case Moves(device, cs) =>
      MovesAppend(s, device, cs);
    case CancelAll(device, cs) =>
      TouchThen(s.events, CancelTouches(device, cs), if s.primary.Some? then [PointerGone] else []);
    case Unhandled =>
      TouchThen(s.events, [], []);
  }

  lemma {:induction false} OnlyPointers(events: seq<Event>)
    requires forall e <- events :: IsPointer(e)
    ensures PointerOnly(events) == events
  {
    if events != [] {
      var init, last := events[..|events| - 1], events[|events| - 1];
      assert events == init + [last];
      OnlyPointers(init);
    }
  }

  lemma TouchThen(events: seq<Event>, touches: seq<Event>, pointers: seq<Event>)
    requires (forall i :: 0 <= i < |touches| ==> !IsPointer(touches[i])) && forall e <- pointers :: IsPointer(e)
    ensures PointerOnly(events + touches + pointers) == PointerOnly(events) + pointers
    ensures pointers == [] ==> events + touches + pointers == events + touches
    ensures touches == [] ==> events + touches == events
  {
    NoPointers(touches);
    OnlyPointers(pointers);
    hide PointerOnly, IsPointer;
    PointerOnlyConcat(events, touches);
    AppendNone(PointerOnly(events));
    PointerOnlyConcat(events + touches, pointers);
    AppendNone(events + touches);
    AppendNone(events);
  }

  lemma AppendNone<T>(xs: seq<T>)
    ensures xs + [] == xs
  {}

  /** The step presses the finger `id` while no other is the primary one. */
  ghost predicate OpensAt(steps: seq<Step>, k: nat, id: int) {
    && k < |steps| && steps[k].OnMotionEvent? && steps[k].motion.Down? && steps[k].motion.contact.id == id
    && Run(steps[..k]).input.primary == None
  }

  /** It lifts that finger or cancels all. */
  predicate EndsTouch(step: Step, id: int) {
    step.OnMotionEvent? && (step.motion.CancelAll? || (step.motion.Up? && step.motion.contact.id == id))
  }

  ghost predicate HeldSince(steps: seq<Step>, k: nat, id: int) {
    OpensAt(steps, k, id) && forall j :: k < j < |steps| ==> !EndsTouch(steps[j], id)
  }

  lemma StepMeans(s: Stream, step: Step, id: int)
    ensures Apply(s, step).input.primary == Some(id) <==>
            if s.input.primary == None then step.OnMotionEvent? && step.motion.Down? && step.motion.contact.id == id
            else s.input.primary == Some(id) && !EndsTouch(step, id)
  {
    if step.OnMotionEvent? {
      MotionMeans(s.input, step.motion);
    }
  }

  /** A finger is the primary one exactly since a press that found none, if it has not been lifted
      and nothing has been cancelled since. */
  lemma {:induction false} PrimaryHistory(steps: seq<Step>, id: int)
    ensures Run(steps).input.primary == Some(id) <==> exists k: nat :: HeldSince(steps, k, id)
  {
    if steps != [] {
      var n := |steps| - 1;
      var init, step := steps[..n], steps[n];
      PrimaryHistory(init, id);
      StepMeans(Run(init), step, id);
      assert forall k: nat | k < n :: init[..k] == steps[..k];
      hide Apply, EndsTouch;
      if Run(steps).input.primary == Some(id) {
        if Run(init).input.primary == None {
          assert HeldSince(steps, n, id);
        } else {
          var k: nat :| HeldSince(init, k, id);
          assert HeldSince(steps, k, id);
        }
      }
      if k: nat :| HeldSince(steps, k, id) {
        if k < n {
          assert HeldSince(init, k, id);
        }
      }
    }
  }

  lemma {:induction false} OtherMovesAreIgnored(s: Input, device: int, cs: seq<Contact>)
    requires s.primary.Some? && forall i :: 0 <= i < |cs| ==> cs[i].id != s.primary.value
    ensures AllMoved(s, device, cs).primary == s.primary
    ensures PointerOnly(AllMoved(s, device, cs).events) == PointerOnly(s.events)
  {
    if cs != [] {
      OtherMovesAreIgnored(s, device, cs[..|cs| - 1]);
      var touch := [TouchOf(device, cs[|cs| - 1], Move)];
      PointerOnlyConcat(AllMoved(s, device, cs[..|cs| - 1]).events, touch);
      NoPointers(touch);
    }
  }

  // ---------------------------------------------------------------------------------------
  // The tap flag
  // ---------------------------------------------------------------------------------------

  predicate HasPress(events: seq<Event>) {
    exists i :: 0 <= i < |events| && events[i].PointerButton? && events[i].pressed
  }

  lemma PushKeepsTap(events: seq<Event>, more: seq<Event>)
    ensures HasPress(events + more) <==> HasPress(events) || HasPress(more)
  {
    if HasPress(events) {
      var i :| 0 <= i < |events| && events[i].PointerButton? && events[i].pressed;
      assert (events + more)[i] == events[i];
    }
    if HasPress(more) {
      var i :| 0 <= i < |more| && more[i].PointerButton? && more[i].pressed;
      assert (events + more)[|events| + i] == more[i];
    }
  }

  lemma {:induction false} MovesKeepTap(s: Input, device: int, cs: seq<Contact>)
    requires s.tapped <==> HasPress(s.events)
    ensures AllMoved(s, device, cs).tapped <==> HasPress(AllMoved(s, device, cs).events)
  {
    if cs != [] {
      MovesKeepTap(s, device, cs[..|cs| - 1]);
      var before := AllMoved(s, device, cs[..|cs| - 1]);
      var c := cs[|cs| - 1];
      PushKeepsTap(before.events, [TouchOf(device, c, Move)]);
      PushKeepsTap(before.events + [TouchOf(device, c, Move)], [PointerMoved(c.pos)]);
    }
  }

  lemma MotionKeepsTap(s: Input, m: Motion)
    requires s.tapped <==> HasPress(s.events)
    ensures OnMotion(s, m).tapped <==> HasPress(OnMotion(s, m).events)
  {
    match m
    case Down(device, c) =>
      var press := [PointerMoved(c.pos), PointerButton(c.pos, true, s.modifiers)];
      PushKeepsTap(s.events, [TouchOf(device, c, Start)]);
      PushKeepsTap(s.events + [TouchOf(device, c, Start)], press);
      assert press[1].pressed;
    case Moves(device, cs) =>
      MovesKeepTap(s, device, cs);
    case Up(device, c) =>
      PushKeepsTap(s.events, [TouchOf(device, c, End)]);
      PushKeepsTap(s.events + [TouchOf(device, c, End)], [PointerButton(c.pos, false, s.modifiers), PointerGone]);
    case CancelAll(device, cs) =>
      PushKeepsTap(s.events, CancelTouches(device, cs));
      PushKeepsTap(s.events + CancelTouches(device, cs), [PointerGone]);
    case Unhandled =>
  }

  /** A frame is told that the user tapped exactly when its own batch contains a press. */
  lemma {:induction false} TapBelongsToBatch(steps: seq<Step>)
    ensures Run(steps).input.tapped <==> HasPress(Run(steps).input.events)
    ensures forall k :: 0 <= k < |Run(steps).batches| ==>
              (Run(steps).batches[k].tapped <==> HasPress(Run(steps).batches[k].events))
  {
    if steps != [] {
      var init, step := steps[..|steps| - 1], steps[|steps| - 1];
      TapBelongsToBatch(init);
      if step.OnMotionEvent? {
        MotionKeepsTap(Run(init).input, step.motion);
      } else if step.OnKeyEvent? {
        PushKeepsTap(Run(init).input.events, Keys(step.keys));
      }
    }
  }
}
