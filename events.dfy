/** Key handling (`handle_events`): one bounded poll of the terminal, the
    key-press filter, the key-code dispatch and the focus state machine. */
module Events {
  import opened Io
  import opened Ui

  datatype KeyEventKind = Press | Repeat | Release

  /** A key code: a character key, or any other key (arrows, Enter,
      function keys, ...), none of which the dashboard reacts to. */
  datatype KeyCode = Char(ch: char) | NonChar

  datatype KeyEvent = KeyEvent(code: KeyCode, kind: KeyEventKind)

  /** A terminal event: a key event, or any other kind (mouse, resize,
      focus, paste), none of which the dashboard reacts to. */
  datatype Event = Key(key: KeyEvent) | NonKey

  /** What reading the pending event gives. */
  datatype ReadOutcome = ReadFailed | Read(event: Event)

  /** What one call of `handle_events` meets: the poll fails, the poll
      times out with no event pending, or an event is pending and is read. */
  datatype Input = PollFailed | NoEvent | Ready(read: ReadOutcome)

  /** A key press of the character `c`. */
  function Pressed(c: char): Input
  {
    Ready(Read(Key(KeyEvent(Char(c), Press))))
  }

  // ---------------------------------------------------- the state machine

  /** The meaning of an input for the dashboard. */
  datatype Command = Quit | FocusStatus | FocusLog | ToggleBranchesBookmarks | NoOp

  /** The command of a pressed key: `q`, `s`, `l` and `b`; nothing else. */
  function KeyCommand(code: KeyCode): Command
  {
    match code
    case NonChar => NoOp
    case Char(c) =>
      if c == 'q' then Quit
      else if c == 's' then FocusStatus
      else if c == 'b' then ToggleBranchesBookmarks
      else if c == 'l' then FocusLog
      else NoOp
  }

  /** The command an input stands for, or the I/O error met on the way. */
  function CommandOf(input: Input): Result<Command>
  {
    match input
    case PollFailed => Err(PollError)
    case NoEvent => Ok(NoOp)
    case Ready(ReadFailed) => Err(ReadError)
    case Ready(Read(NonKey)) => Ok(NoOp)
    case Ready(Read(Key(key))) => if key.kind == Press then Ok(KeyCommand(key.code)) else Ok(NoOp)
  }

  /** The focus state machine. */
  function Transition(active: ActiveFrame, command: Command): ActiveFrame
  {
    match command
    case FocusStatus => Status
    case FocusLog => Log
    case ToggleBranchesBookmarks => if active == Branches then Bookmarks else Branches
    case Quit => active
    case NoOp => active
  }

  /** The focus after `handle_events` has handled `input`. */
  function NextFocus(active: ActiveFrame, input: Input): ActiveFrame
  {
    match CommandOf(input)
    case Err(_) => active
    case Ok(command) => Transition(active, command)
  }

  /** What `handle_events` returns for `input`: whether to quit, or the
      error. */
  function Reply(input: Input): Result<bool>
  {
    match CommandOf(input)
    case Err(e) => Err(e)
    case Ok(command) => Ok(command == Quit)
  }

  /** The focus after handling each input of `inputs` in turn. */
  function Replay(active: ActiveFrame, inputs: seq<Input>): ActiveFrame
    decreases |inputs|
  {
    if inputs == [] then active else Replay(NextFocus(active, inputs[0]), inputs[1..])
  }

  /** `n` presses of the character `c`. */
  function Presses(c: char, n: nat): (r: seq<Input>)
    ensures |r| == n && forall i :: 0 <= i < n ==> r[i] == Pressed(c)
  {
    seq(n, _ => Pressed(c))
  }

  // ---------------------------------------------------------- the method

  /** The `&mut ActiveFrame` place `handle_events` writes through. */
  class FocusCell {
    var active: ActiveFrame

    constructor (initial: ActiveFrame)
      ensures active == initial
    {
      active := initial;
    }
  }

  /** `handle_events`: poll once; on a pending key press, quit on `q` or
      move the focus on `s`, `b` and `l`; propagate a failed poll or read. */
  method HandleEvents(focus: FocusCell, input: Input) returns (r: Result<bool>)
    modifies focus
    ensures r == Reply(input)
    ensures focus.active == NextFocus(old(focus.active), input)
  {
    if input == PollFailed {
      return Err(PollError);
    }
    if input.Ready? {
      if input.read == ReadFailed {
        return Err(ReadError);
      }
      var event := input.read.event;
      if event.Key? {
        var key := event.key;
        if key.kind == Press {
          if key.code == Char('q') {
            return Ok(true);
          } else if key.code == Char('s') {
            focus.active := Status;
          } else if key.code == Char('b') {
            focus.active := if focus.active == Branches then Bookmarks else Branches;
          } else if key.code == Char('l') {
            focus.active := Log;
          }
        }
      }
    }
    return Ok(false);
  }

  // ---------------------------------------------------------- properties

  /** `s` moves the focus to Status from anywhere and does not quit. */
  lemma PressStatus(active: ActiveFrame)
    ensures NextFocus(active, Pressed('s')) == Status
    ensures Reply(Pressed('s')) == Ok(false)
  {
  }

  /** `l` moves the focus to Log from anywhere, does not quit, and pressing
      it again changes nothing. */
  lemma PressLog(active: ActiveFrame)
    ensures NextFocus(active, Pressed('l')) == Log
    ensures NextFocus(NextFocus(active, Pressed('l')), Pressed('l')) == NextFocus(active, Pressed('l'))
    ensures Reply(Pressed('l')) == Ok(false)
  {
  }

  /** `b` moves Branches to Bookmarks and every other panel to Branches;
      from Branches two presses come back to Branches. */
  lemma PressToggle(active: ActiveFrame)
    ensures NextFocus(active, Pressed('b')) == if active == Branches then Bookmarks else Branches
    ensures NextFocus(NextFocus(Branches, Pressed('b')), Pressed('b')) == Branches
    ensures Reply(Pressed('b')) == Ok(false)
  {
  }

  /** `q` asks to quit and leaves the focus where it is. */
  lemma PressQuit(active: ActiveFrame)
    ensures NextFocus(active, Pressed('q')) == active
    ensures Reply(Pressed('q')) == Ok(true)
  {
  }

  /** A press of `q` is the one input that asks to quit. */
  lemma QuitOnlyOnQ(input: Input)
    ensures Reply(input) == Ok(true) <==> input == Pressed('q')
  {
  }

  /** Inputs the dashboard ignores. */
  predicate Ignored(input: Input)
  {
    || input == NoEvent
    || input == Ready(Read(NonKey))
    || (input.Ready? && input.read.Read? && input.read.event.Key?
        && (input.read.event.key.kind != Press
            || input.read.event.key.code !in {Char('q'), Char('s'), Char('b'), Char('l')}))
  }

  /** No pending event, a non-key event, a key release or repeat and any
      other key leave the focus unchanged and do not quit; every input
      that is neither ignored nor an I/O error is a press of `q`, `s`, `b`
      or `l`. */
  lemma IgnoredInputs(active: ActiveFrame, input: Input)
    ensures Ignored(input) ==> NextFocus(active, input) == active && Reply(input) == Ok(false)
    ensures !Ignored(input) && Reply(input).Ok? ==>
      input in {Pressed('q'), Pressed('s'), Pressed('b'), Pressed('l')}
  {
  }

  /** A failed poll or read is reported before the focus is touched, and
      these are the only failures. */
  lemma IoFailures(active: ActiveFrame, input: Input)
    ensures Reply(input).Err? <==> input == PollFailed || input == Ready(ReadFailed)
    ensures input == PollFailed ==> Reply(input) == Err(PollError)
    ensures input == Ready(ReadFailed) ==> Reply(input) == Err(ReadError)
    ensures Reply(input).Err? ==> NextFocus(active, input) == active
  {
  }

  /** Repeated `b` presses: from Branches the focus alternates Bookmarks,
      Branches, ...; from any other panel the first press gives Branches and
      then it alternates. */
  lemma {:induction false} TogglePresses(start: ActiveFrame, n: nat)
    requires n > 0
    ensures Replay(start, Presses('b', n)) ==
      if (start == Branches) == (n % 2 == 0) then Branches else Bookmarks
    decreases n
  {
    var next := NextFocus(start, Pressed('b'));
    assert Presses('b', n)[1..] == Presses('b', n - 1);
    if n > 1 {
      TogglePresses(next, n - 1);
    }
  }

  /** Handling `first` and then `rest` is handling `first + rest`. */
  lemma {:induction false} ReplayConcat(start: ActiveFrame, first: seq<Input>, rest: seq<Input>)
    ensures Replay(start, first + rest) == Replay(Replay(start, first), rest)
    decreases |first|
  {
    if first == [] {
      assert first + rest == rest;
    } else {
      assert (first + rest)[1..] == first[1..] + rest;
      ReplayConcat(NextFocus(start, first[0]), first[1..], rest);
    }
  }

  /** `s` and `l` are absolute: after any history, one or more presses of
      either one leave the focus on its panel. */
  lemma {:induction false} AbsoluteKeys(start: ActiveFrame, history: seq<Input>, n: nat)
    requires n > 0
    ensures Replay(start, history + Presses('s', n)) == Status
    ensures Replay(start, history + Presses('l', n)) == Log
    decreases n
  {
    ReplayConcat(start, history, Presses('s', n));
    ReplayConcat(start, history, Presses('l', n));
    var before := Replay(start, history);
    assert Presses('s', n)[1..] == Presses('s', n - 1);
    assert Presses('l', n)[1..] == Presses('l', n - 1);
    if n > 1 {
      AbsoluteKeys(Status, [], n - 1);
      AbsoluteKeys(Log, [], n - 1);
      assert [] + Presses('s', n - 1) == Presses('s', n - 1);
      assert [] + Presses('l', n - 1) == Presses('l', n - 1);
    }
  }
}
