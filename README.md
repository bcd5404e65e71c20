# lazyhg dashboard: focus state machine and render loop

lazyhg is a terminal dashboard for Mercurial. At startup it captures the
output of `hg status`, `hg branches`, `hg bookmarks` and `hg log`. It then
shows each output in its own bordered panel. One panel has focus and is drawn
highlighted. Single key presses move the focus: `s` selects Status, `l`
selects Log, `b` toggles between Branches and Bookmarks, and `q` quits.

This Dafny project models that core. It has four modules:

- `Io` (io.dfy): the I/O errors the loop can propagate, and `Result`.
- `Ui` (ui.dfy): the panel identities (`ActiveFrame`), the two-level layout,
  and `draw_ui`. Layout rectangles are abstract names (`Rect`): the whole
  frame area, or the i-th chunk of a split. The pure function `Screen` is what
  one frame shows. The `Frame` class is the frame buffer, written in place by
  `RenderWidget`. `DrawUi` is proved to leave `Screen(active, outputs)` in the
  buffer and to render each region exactly once.
- `Events` (events.dfy): `handle_events`. One input is the outcome of one
  bounded poll: the poll fails, no event arrives, or an event is read (or the
  read fails). `HandleEvents` updates a `FocusCell` in place; this cell is the
  `&mut ActiveFrame` of the source. The pure functions `CommandOf`,
  `Transition`, `NextFocus` and `Reply` specify it, and lemmas prove the key
  bindings against them.
- `App` (app.dfy): the loop in `main`. `Run` starts with focus on Status and
  takes the four outputs bound once. It consumes a finite sequence of ticks.
  In each tick the draw fails, or the draw succeeds and `handle_events` meets
  one input. `Run` is proved equal to the recursive specification `Session`.
  Lemmas say when the loop stops, which focus each frame is drawn with, and
  what every frame shows.

## Model

| member | source | states |
|---|---|---|
| `Ui.LayoutsShareWholeArea` | src/ui.rs:23-39 | The column percentages (40, 60) and the row percentages of the left column (60, 20, 20) each add up to 100. |
| `Ui.Split` | src/ui.rs:23-39 | A split gives one region per constraint, and no two of them are the same region. |
| `Ui.PanelRegions` | src/ui.rs:71-74 | Status, Branches and Bookmarks get chunks 0, 1 and 2 of the split of the left column; Log gets chunk 1 of the column split. |
| `Ui.AreasDistinct` | src/ui.rs:71-74 | Two panels share a region exactly when they are the same panel. |
| `Ui.RenderOrderWritesEachAreaOnce` | src/ui.rs:71-74 | The four render calls of one draw target four different regions, and together they cover the region of every panel. |
| `Ui.ScreenShowsPanel` | src/ui.rs:41-69 | Each panel's region shows that panel's own output and its fixed title. It is highlighted if and only if that panel is the active one. |
| `Ui.ScreenRegions` | src/ui.rs:71-74 | A drawn screen holds exactly the four panel regions. |
| `Ui.ExactlyOneHighlighted` | src/ui.rs:41-64 | For every focus value, exactly one region is highlighted, and it is the active panel's region. |
| `Ui.FocusChangesOnlyHighlight` | src/ui.rs:41-69 | Under any two focus values, every region has the same title and the same text. |
| `Ui.Frame.RenderWidget` | src/ui.rs:71-74 | Rendering a widget puts it into its region of the frame buffer and appends the region to the render log, a ghost record that the real frame does not keep. Nothing else changes. |
| `Ui.DrawUi` | src/ui.rs:15-75 | After a draw, the buffer holds the screen for the current focus and outputs. The regions were rendered in the order Status, Branches, Bookmarks, Log, each once. |
| `Events.HandleEvents` | src/events.rs:6-26 | The method returns `Reply(input)` and leaves `NextFocus(old focus, input)` in the focus cell. |
| `Events.PressStatus` | src/events.rs:10-25 | `s` sets the focus to Status from any panel and does not quit. |
| `Events.PressLog` | src/events.rs:19-25 | `l` sets the focus to Log from any panel and does not quit. Pressing it twice is the same as pressing it once. |
| `Events.PressToggle` | src/events.rs:13-18 | `b` sends Branches to Bookmarks and every other panel to Branches. From Branches, two presses come back to Branches. |
| `Events.PressQuit` | src/events.rs:11 | `q` returns true and leaves the focus unchanged. |
| `Events.QuitOnlyOnQ` | src/events.rs:9-25 | `handle_events` returns `Ok(true)` if and only if the input is a press of `q`. |
| `Events.IgnoredInputs` | src/events.rs:7-25 | These inputs leave the focus unchanged and return `Ok(false)`: no event within the poll, a non-key event, a release or repeat, or any other key. Every other successful input is a press of `q`, `s`, `b` or `l`. |
| `Events.IoFailures` | src/events.rs:7-8 | A failed poll or a failed read is the only way to get an error. Each returns its own error and leaves the focus as it was. |
| `Events.TogglePresses` | src/events.rs:13-18 | After n ≥ 1 presses of `b`, the focus is Branches if and only if the start was Branches and n is even, or the start was not Branches and n is odd. Otherwise it is Bookmarks. |
| `Events.AbsoluteKeys` | src/events.rs:12-19 | After any earlier inputs, one or more presses of `s` leave the focus on Status. The same holds for `l` and Log. |
| `App.StopIndex` | src/main.rs:32-43 | The loop continues through every tick before the stop index. The tick at the stop index, if there is one, stops the loop. |
| `App.ResumeStep` | src/main.rs:33-43 | Proof helper for `Run`: it unfolds one step of `Session`. In one iteration, a successful draw records the current focus. An error or a `q` then ends the loop; any other input resumes it from the next focus. |
| `App.Run` | src/main.rs:25-44 | The loop starts on Status and draws with the captured outputs. Its exit and its frames are those of `Session`: frame i is the screen for the i-th drawn focus. |
| `App.SessionStopsAtFirstStop` | src/main.rs:32-43 | The loop ends at the first tick that is not a successful non-quit iteration. That tick decides the exit. It adds a frame unless its own draw failed. |
| `App.QuitsExactlyOnFirstQ` | src/main.rs:32-43 | The loop quits if and only if the first stopping tick is a press of `q`. If every tick is a no-input or non-quit input, the loop never ends and draws once per tick. |
| `App.ErrorsEndTheLoop` | src/main.rs:42-43 | The loop ends with an error if and only if the first stopping tick is a failed draw, or a failed poll or read. |
| `App.DrawsFollowHandling` | src/main.rs:26-43 | The first frame is drawn with the initial focus. Each later frame uses the focus that the previous iteration's `handle_events` produced. |
| `App.DrawnFocusIsReplay` | src/main.rs:26-43 | The focus of the i-th frame is the initial focus after replaying every input handled before that frame. |
| `App.FramesShowBoundOutputs` | src/main.rs:27-42 | Every frame the loop draws shows the four outputs captured before the loop, each in its own region under its fixed title. Each frame highlights exactly one region: the one for its focus. |
| `App.Walkthrough` | src/main.rs:25-44 | Starting on Status, the presses `b`, `b`, `s`, `q` give frames drawn with Status, Branches, Bookmarks and Status. The loop then quits. |

## Left out

- src/commands.rs is not part of this model. It spawns `hg` and decodes its standard output lossily. The four outputs are given strings.
- Entering and leaving raw mode and the alternate screen (src/main.rs:21-23, 46-47) are not modelled. They are terminal I/O. The code does not restore the terminal when an error leaves the loop through `?` (src/main.rs:42-43). It also runs the `hg` commands after entering raw mode (src/main.rs:21-30). No restoration property is claimed.
- The 50 ms poll timeout is not modelled. A poll is an input that either carries an event or is `NoEvent`.
- The rectangle arithmetic of the layout library (margin, rounding, terminal size) is not modelled. Regions are abstract names; only the percentages and which chunk goes to which panel are kept. The model's regions are distinct slot names, so `Split`, `AreasDistinct`, `RenderOrderWritesEachAreaOnce` and `ExactlyOneHighlighted` hold of slots. A degenerate terminal size can give equal empty rectangles: with at most 2 rows the margin leaves no height, and the three left rows are then the same zero-height rectangle.
- Style is reduced to a boolean "highlighted" flag. Yellow foreground and default style are not distinguished further.
- Key modifiers and key state are not modelled. The source never reads them: Ctrl+`q` quits like `q`.
- App.Run: the real loop runs until `q` or an error. The model consumes a finite sequence of ticks and reports `Running` when the sequence runs out first.
- `Run` returns the contents of each frame buffer in place of writing to a terminal. Flushing a frame to the screen is not modelled, apart from the chance that the draw fails.
