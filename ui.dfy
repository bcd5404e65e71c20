/** The four panels, the layout that places them and the projection of the
    focus onto the screen (`draw_ui`). */
module Ui {

  /** The panel that has focus; also the identity of each panel. */
  datatype ActiveFrame = Status | Branches | Bookmarks | Log

  /** The captured output of the four version-control commands, bound once
      before the render loop starts. */
  datatype Outputs = Outputs(status: string, branches: string, bookmarks: string, log: string)
  {
    /** The text the given panel displays. */
    function Of(panel: ActiveFrame): string
    {
      match panel
      case Status => status
      case Branches => branches
      case Bookmarks => bookmarks
      case Log => log
    }
  }

  // ---------------------------------------------------------------- layout

  /** A rectangle of the terminal, named by how it was obtained: the whole
      frame area, or the `index`-th piece a split of `parent` produced. The
      rectangle arithmetic of the layout library is not modelled. */
  datatype Rect = FrameArea | Chunk(parent: Rect, index: nat)

  datatype Direction = Horizontal | Vertical
  datatype Constraint = Percentage(percent: nat)
  datatype Layout = Layout(direction: Direction, margin: nat, constraints: seq<Constraint>)

  /** Two columns, 40% and 60% of the width, inside a margin of one cell. */
  function Columns(): Layout
  {
    Layout(Horizontal, 1, [Percentage(40), Percentage(60)])
  }

  /** The left column cut into three rows: 60%, 20% and 20% of its height. */
  function LeftRows(): Layout
  {
    Layout(Vertical, 0, [Percentage(60), Percentage(20), Percentage(20)])
  }

  /** Sum of the percentages of a list of constraints. */
  function PercentTotal(cs: seq<Constraint>): nat
  {
    if cs == [] then 0 else cs[0].percent + PercentTotal(cs[1..])
  }

  /** Both levels of the layout share out exactly the whole of their area. */
  lemma LayoutsShareWholeArea()
    ensures PercentTotal(Columns().constraints) == 100
    ensures PercentTotal(LeftRows().constraints) == 100
  {
  }

  /** `Layout::split`: one rectangle per constraint, all of them different. */
  function Split(layout: Layout, area: Rect): (parts: seq<Rect>)
    ensures |parts| == |layout.constraints|
    ensures forall i, j :: 0 <= i < j < |parts| ==> parts[i] != parts[j]
  {
    seq(|layout.constraints|, i requires 0 <= i => Chunk(area, i))
  }

  /** The region each panel is drawn into: Status, Branches and Bookmarks in
      rows 0, 1 and 2 of the left column, Log in the whole right column. */
  function Area(panel: ActiveFrame): Rect
  {
    var chunks := Split(Columns(), FrameArea);
    var leftChunks := Split(LeftRows(), chunks[0]);
    match panel
    case Status => leftChunks[0]
    case Branches => leftChunks[1]
    case Bookmarks => leftChunks[2]
    case Log => chunks[1]
  }

  /** The regions in the order `draw_ui` renders into them. */
  function RenderOrder(): seq<Rect>
  {
    [Area(Status), Area(Branches), Area(Bookmarks), Area(Log)]
  }

  /** The fixed placement of the panels: Status, Branches and Bookmarks in
      rows 0, 1 and 2 of the left column, Log in the right column. */
  lemma PanelRegions()
    ensures Area(Status) == Split(LeftRows(), Split(Columns(), FrameArea)[0])[0] == Chunk(Chunk(FrameArea, 0), 0)
    ensures Area(Branches) == Split(LeftRows(), Split(Columns(), FrameArea)[0])[1] == Chunk(Chunk(FrameArea, 0), 1)
    ensures Area(Bookmarks) == Split(LeftRows(), Split(Columns(), FrameArea)[0])[2] == Chunk(Chunk(FrameArea, 0), 2)
    ensures Area(Log) == Split(Columns(), FrameArea)[1] == Chunk(FrameArea, 1)
  {
  }

  /** The assignment of panels to regions is one to one. */
  lemma AreasDistinct(p: ActiveFrame, q: ActiveFrame)
    ensures Area(p) == Area(q) <==> p == q
  {
  }

  /** Every render call of one frame writes a different region, and together
      they cover the region of every panel: each region is written once. */
  lemma RenderOrderWritesEachAreaOnce()
    ensures |RenderOrder()| == 4
    ensures forall i, j :: 0 <= i < j < |RenderOrder()| ==> RenderOrder()[i] != RenderOrder()[j]
    ensures forall p :: Area(p) in RenderOrder()
  {
  }

  // ---------------------------------------------------------------- widgets

  /** A bordered block: its title and whether it carries the attention
      style (yellow foreground). */
  datatype Block = Block(title: string, highlighted: bool)

  /** A paragraph of text framed by a block. */
  datatype Paragraph = Paragraph(text: string, block: Block)

  /** The fixed title of each panel. */
  function Title(panel: ActiveFrame): string
  {
    match panel
    case Status => "Status"
    case Branches => "Branches"
    case Bookmarks => "Bookmarks"
    case Log => "Log"
  }

  /** The block of `panel` while `active` has focus. */
  function PanelBlock(panel: ActiveFrame, active: ActiveFrame): Block
  {
    if active == panel then Block(Title(panel), true) else Block(Title(panel), false)
  }

  /** What `draw_ui` puts on the screen: for each panel, its paragraph in
      its region. */
  function Screen(active: ActiveFrame, outputs: Outputs): map<Rect, Paragraph>
  {
    map[
      Area(Status) := Paragraph(outputs.status, PanelBlock(Status, active)),
      Area(Branches) := Paragraph(outputs.branches, PanelBlock(Branches, active)),
      Area(Bookmarks) := Paragraph(outputs.bookmarks, PanelBlock(Bookmarks, active)),
      Area(Log) := Paragraph(outputs.log, PanelBlock(Log, active))
    ]
  }

  /** The regions of a screen whose block is highlighted. */
  function HighlightedAreas(screen: map<Rect, Paragraph>): set<Rect>
  {
    set r | r in screen && screen[r].block.highlighted
  }

  /** Each panel sits in its own region, with its own fixed title and its own
      output text, whatever has focus; it is highlighted exactly when it is
      the active one. */
  lemma ScreenShowsPanel(active: ActiveFrame, outputs: Outputs, panel: ActiveFrame)
    ensures Area(panel) in Screen(active, outputs)
    ensures Screen(active, outputs)[Area(panel)].text == outputs.Of(panel)
    ensures Screen(active, outputs)[Area(panel)].block.title == Title(panel)
    ensures Screen(active, outputs)[Area(panel)].block.highlighted <==> panel == active
  {
  }

  /** The screen holds the four panel regions and nothing else. */
  lemma ScreenRegions(active: ActiveFrame, outputs: Outputs)
    ensures Screen(active, outputs).Keys == {Area(Status), Area(Branches), Area(Bookmarks), Area(Log)}
  {
  }

  /** Exactly one region is highlighted, and it is the active panel's. */
  lemma ExactlyOneHighlighted(active: ActiveFrame, outputs: Outputs)
    ensures HighlightedAreas(Screen(active, outputs)) == {Area(active)}
    ensures |HighlightedAreas(Screen(active, outputs))| == 1
  {
  }

  /** Switching focus changes highlighting only: the titles and texts of
      every region are the same under any two focus values. */
  lemma FocusChangesOnlyHighlight(a: ActiveFrame, b: ActiveFrame, outputs: Outputs, panel: ActiveFrame)
    ensures Area(panel) in Screen(a, outputs) && Area(panel) in Screen(b, outputs)
    ensures Screen(a, outputs)[Area(panel)].text == Screen(b, outputs)[Area(panel)].text
    ensures Screen(a, outputs)[Area(panel)].block.title == Screen(b, outputs)[Area(panel)].block.title
  {
  }

  // ---------------------------------------------------------------- frame

  /** The frame buffer of one draw: the widget rendered into each region,
      and the regions in the order they were rendered. */
  class Frame {
    var widgets: map<Rect, Paragraph>
    ghost var rendered: seq<Rect>

    constructor ()
      ensures widgets == map[] && rendered == []
    {
      widgets := map[];
      rendered := [];
    }

    /** `Frame::render_widget`: the widget now occupies `area`. */
    method RenderWidget(widget: Paragraph, area: Rect)
      modifies this
      ensures widgets == old(widgets)[area := widget]
      ensures rendered == old(rendered) + [area]
    {
      widgets := widgets[area := widget];
      rendered := rendered + [area];
    }
  }

  /** `draw_ui`: splits the frame, builds the four blocks and paragraphs,
      and renders each into its region. */
  method DrawUi(frame: Frame, active: ActiveFrame, outputs: Outputs)
    modifies frame
    ensures frame.widgets == old(frame.widgets) + Screen(active, outputs)
    ensures frame.rendered == old(frame.rendered) + RenderOrder()
  {
    var chunks := Split(Columns(), FrameArea);
    var leftChunks := Split(LeftRows(), chunks[0]);

    var statusBlock := if active == Status then Block("Status", true) else Block("Status", false);
    var branchesBlock := if active == Branches then Block("Branches", true) else Block("Branches", false);
    var bookmarksBlock := if active == Bookmarks then Block("Bookmarks", true) else Block("Bookmarks", false);
    var logBlock := if active == Log then Block("Log", true) else Block("Log", false);

    var statusParagraph := Paragraph(outputs.status, statusBlock);
    var branchesParagraph := Paragraph(outputs.branches, branchesBlock);
    var bookmarksParagraph := Paragraph(outputs.bookmarks, bookmarksBlock);
    var logParagraph := Paragraph(outputs.log, logBlock);

    frame.RenderWidget(statusParagraph, leftChunks[0]);
    frame.RenderWidget(branchesParagraph, leftChunks[1]);
    frame.RenderWidget(bookmarksParagraph, leftChunks[2]);
    frame.RenderWidget(logParagraph, chunks[1]);
  }
}
