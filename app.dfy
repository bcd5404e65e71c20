/** The render loop of `main`: focus starts on Status, the four outputs are
    bound once, and each iteration draws the screen and then handles one
    input, until `q` is pressed or an I/O error is propagated. */
module App {
  import opened Io
  import opened Ui
  import opened Events

  /** What the terminal does in one iteration of the loop: the draw fails,
      or the draw succeeds and `handle_events` then meets `input`. */
  datatype Tick = DrawFails | Drawn(input: Input)

  /** How the loop ended: `q` was pressed, an error was propagated with `?`,
      or the given ticks ran out while the loop was still going. */
  datatype Exit = QuitPressed | Failed(error: IoError) | Running

  /** A run of the loop: the focus each successful draw used, in order, and
      how the loop ended. */
  datatype Trace = Trace(drawn: seq<ActiveFrame>, exit: Exit)

  /** The loop from focus `active` over `ticks`. */
  function Session(active: ActiveFrame, ticks: seq<Tick>): Trace
    decreases |ticks|
  {
    if ticks == [] then Trace([], Running)
    else match ticks[0]
      case DrawFails => Trace([], Failed(DrawError))
      case Drawn(input) =>
        match Reply(input)
        case Err(e) => Trace([active], Failed(e))
        case Ok(quit) =>
          if quit then Trace([active], QuitPressed)
          else
            var rest := Session(NextFocus(active, input), ticks[1..]);
            Trace([active] + rest.drawn, rest.exit)
  }

  /** A tick after which the loop goes on: the draw succeeds and the input
      is neither `q` nor an I/O error. */
  predicate Continues(tick: Tick)
  {
    tick.Drawn? && Reply(tick.input) == Ok(false)
  }

  /** The index of the first tick after which the loop stops, or the number
      of ticks if it never stops. */
  function StopIndex(ticks: seq<Tick>): (k: nat)
    ensures k <= |ticks|
    ensures forall j :: 0 <= j < k ==> Continues(ticks[j])
    ensures k < |ticks| ==> !Continues(ticks[k])
    decreases |ticks|
  {
    if ticks == [] || !Continues(ticks[0]) then 0 else 1 + StopIndex(ticks[1..])
  }

  /** How the loop ends at a tick that stops it. */
  function StopExit(tick: Tick): Exit
  {
    match tick
    case DrawFails => Failed(DrawError)
    case Drawn(input) => if Reply(input).Err? then Failed(Reply(input).error) else QuitPressed
  }

  /** The inputs the loop handled, in order. */
  function Inputs(ticks: seq<Tick>): seq<Input>
    decreases |ticks|
  {
    if ticks == [] then []
    else (if ticks[0].Drawn? then [ticks[0].input] else []) + Inputs(ticks[1..])
  }

  // ---------------------------------------------------------- the method

  /** The trace of a loop that has drawn with `drawn` so far and goes on
      from focus `active` over `ticks`. */
  function Resume(drawn: seq<ActiveFrame>, active: ActiveFrame, ticks: seq<Tick>): Trace
  {
    var rest := Session(active, ticks);
    Trace(drawn + rest.drawn, rest.exit)
  }

  /** One iteration of the loop, seen from the trace: a successful draw adds
      the current focus to what was drawn, and the input decides whether the
      loop goes on from the next focus or ends. */
  lemma ResumeStep(drawn: seq<ActiveFrame>, active: ActiveFrame, ticks: seq<Tick>)
    requires ticks != [] && ticks[0].Drawn?
    ensures Reply(ticks[0].input).Err? ==>
      Resume(drawn, active, ticks) == Trace(drawn + [active], Failed(Reply(ticks[0].input).error))
    ensures Reply(ticks[0].input) == Ok(true) ==>
      Resume(drawn, active, ticks) == Trace(drawn + [active], QuitPressed)
    ensures Reply(ticks[0].input) == Ok(false) ==>
      Resume(drawn, active, ticks) == Resume(drawn + [active], NextFocus(active, ticks[0].input), ticks[1..])
  {
  }

  /** The body of `main` from the initial focus to the end of the loop.
      Each frame drawn is returned as the contents of its frame buffer. */
  method Run(outputs: Outputs, ticks: seq<Tick>) returns (frames: seq<map<Rect, Paragraph>>, exit: Exit)
    ensures exit == Session(Status, ticks).exit
    ensures |frames| == |Session(Status, ticks).drawn|
    ensures forall i :: 0 <= i < |frames| ==> frames[i] == Screen(Session(Status, ticks).drawn[i], outputs)
  {
    var shouldQuit := false;
    var activeFrame := new FocusCell(Status);
    frames := [];
    exit := Running;
    var i := 0;
    ghost var focuses: seq<ActiveFrame> := [];

    while !shouldQuit
      invariant 0 <= i <= |ticks|
      invariant |frames| == |focuses|
      invariant forall k :: 0 <= k < |frames| ==> frames[k] == Screen(focuses[k], outputs)
      invariant !shouldQuit ==> Session(Status, ticks) == Resume(focuses, activeFrame.active, ticks[i..])
      invariant shouldQuit ==> Session(Status, ticks) == Trace(focuses, QuitPressed)
      decreases |ticks| - i, !shouldQuit
    {
      if i == |ticks| {
        assert ticks[i..] == [];
        return frames, Running;
      }
      if ticks[i] == DrawFails {
        return frames, Failed(DrawError);
      }
      var frame := new Frame();
      DrawUi(frame, activeFrame.active, outputs);
      assert frame.widgets == Screen(activeFrame.active, outputs);
      frames := frames + [frame.widgets];
      ghost var before := activeFrame.active;
      ResumeStep(focuses, before, ticks[i..]);
      assert ticks[i..][1..] == ticks[i + 1..];
      focuses := focuses + [before];

      var r := HandleEvents(activeFrame, ticks[i].input);
      if r.Err? {
        return frames, Failed(r.error);
      }
      shouldQuit := r.value;
      i := i + 1;
    }
    exit := QuitPressed;
  }

  // ---------------------------------------------------------- properties

  /** The loop runs exactly up to the first tick that stops it: every tick
      before it draws and continues, the stopping tick draws unless its draw
      fails, and it decides how the loop ends. */
  lemma {:induction false} SessionStopsAtFirstStop(active: ActiveFrame, ticks: seq<Tick>)
    ensures Session(active, ticks).exit ==
      if StopIndex(ticks) == |ticks| then Running else StopExit(ticks[StopIndex(ticks)])
    ensures |Session(active, ticks).drawn| ==
      if StopIndex(ticks) < |ticks| && ticks[StopIndex(ticks)].Drawn? then StopIndex(ticks) + 1 else StopIndex(ticks)
    decreases |ticks|
  {
    if ticks != [] && Continues(ticks[0]) {
      SessionStopsAtFirstStop(NextFocus(active, ticks[0].input), ticks[1..]);
    }
  }

  /** Quitting happens exactly when the first stopping tick is a press of
      `q`; no-input and non-quit inputs alone never end the loop. */
  lemma {:induction false} QuitsExactlyOnFirstQ(active: ActiveFrame, ticks: seq<Tick>)
    ensures Session(active, ticks).exit == QuitPressed <==>
      StopIndex(ticks) < |ticks| && ticks[StopIndex(ticks)] == Drawn(Pressed('q'))
    ensures (forall j :: 0 <= j < |ticks| ==> Continues(ticks[j])) ==>
      Session(active, ticks).exit == Running && |Session(active, ticks).drawn| == |ticks|
  {
    SessionStopsAtFirstStop(active, ticks);
    var k := StopIndex(ticks);
    if k < |ticks| && ticks[k].Drawn? {
      QuitOnlyOnQ(ticks[k].input);
    }
  }

  /** An I/O error ends the loop at once: the failing tick is the last one
      the loop looks at, and the error is the one the draw, poll or read
      raised. */
  lemma {:induction false} ErrorsEndTheLoop(active: ActiveFrame, ticks: seq<Tick>)
    ensures Session(active, ticks).exit.Failed? <==>
      StopIndex(ticks) < |ticks| &&
      (ticks[StopIndex(ticks)] == DrawFails || Reply(ticks[StopIndex(ticks)].input).Err?)
  {
    SessionStopsAtFirstStop(active, ticks);
  }

  /** Each iteration draws with the focus the previous iteration's event
      handling produced, and the first one with the initial focus. */
  lemma {:induction false} DrawsFollowHandling(active: ActiveFrame, ticks: seq<Tick>, i: nat)
    requires i < |Session(active, ticks).drawn|
    ensures i < |ticks| && ticks[i].Drawn?
    ensures i == 0 ==> Session(active, ticks).drawn[i] == active
    ensures i > 0 ==> Continues(ticks[i - 1])
    ensures i > 0 ==>
      Session(active, ticks).drawn[i] == NextFocus(Session(active, ticks).drawn[i - 1], ticks[i - 1].input)
    decreases i
  {
    var next := NextFocus(active, ticks[0].input);
    if i > 0 {
      assert Continues(ticks[0]);
      DrawsFollowHandling(next, ticks[1..], i - 1);
      if i > 1 {
        assert Session(active, ticks).drawn[i - 1] == Session(next, ticks[1..]).drawn[i - 2];
      }
    }
  }

  /** The focus of the `i`-th draw is the focus after replaying every input
      handled before it from the initial focus. */
  lemma {:induction false} DrawnFocusIsReplay(active: ActiveFrame, ticks: seq<Tick>, i: nat)
    requires i < |Session(active, ticks).drawn|
    ensures i <= |ticks|
    ensures Session(active, ticks).drawn[i] == Replay(active, Inputs(ticks[..i]))
    decreases i
  {
    DrawsFollowHandling(active, ticks, i);
    if i == 0 {
      assert ticks[..0] == [];
    } else {
      var next := NextFocus(active, ticks[0].input);
      assert Continues(ticks[0]);
      DrawnFocusIsReplay(next, ticks[1..], i - 1);
      assert ticks[..i] == [ticks[0]] + ticks[1..][..i - 1];
      assert Inputs(ticks[..i]) == [ticks[0].input] + Inputs(ticks[1..][..i - 1]);
    }
  }

  /** Every frame the loop draws shows the four outputs bound before the
      loop, each in its own region under its fixed title, and highlights
      exactly one region: the one of the focus it was drawn with. */
  lemma FramesShowBoundOutputs(outputs: Outputs, ticks: seq<Tick>, frames: seq<map<Rect, Paragraph>>)
    requires |frames| == |Session(Status, ticks).drawn|
    requires forall i :: 0 <= i < |frames| ==> frames[i] == Screen(Session(Status, ticks).drawn[i], outputs)
    ensures forall i, p :: 0 <= i < |frames| ==>
      Area(p) in frames[i] && frames[i][Area(p)].text == outputs.Of(p) && frames[i][Area(p)].block.title == Title(p)
    ensures forall i :: 0 <= i < |frames| ==>
      HighlightedAreas(frames[i]) == {Area(Session(Status, ticks).drawn[i])}
  {
  }

  /** The walk-through of a session: start on Status, press `b`, `b`, `s`
      and `q`; the frames are drawn with Status, Branches, Bookmarks and
      Status, and the loop quits. */
  lemma Walkthrough()
    ensures Session(Status, [Drawn(Pressed('b')), Drawn(Pressed('b')), Drawn(Pressed('s')), Drawn(Pressed('q'))])
      == Trace([Status, Branches, Bookmarks, Status], QuitPressed)
  {
  }
}
