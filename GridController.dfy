/**
 * The grid controller's bookkeeping: a fixed-capacity table of control ids,
 * input values and light values indexed by column and row, the layout that
 * fills it, colour quantisation for the lights, and the messages it sends.
 * Outbound MIDI and listener notifications are an appended event log.
 */
module GridControl {
  datatype MessageType = NoteMessage | ControlMessage | OtherMessage

  /** A device layout: its size, its control ids in row-major order, and how lights are addressed. */
  datatype GridLayout = GridLayout(rows: nat, cols: nat, controls: seq<int>, messageType: MessageType)

  datatype Cell = Cell(col: nat, row: nat)

  datatype GridEvent =
    | NoteSent(page: int, control: int, value: int)
    | ControlSent(page: int, control: int, value: int)
    | ButtonNotified(col: nat, row: nat, velocity: real)
    | InputRecorded(time: real, hasInput: bool)

  /** The "off" colour index every device has at index 0. */
  const GridColorOff: nat := 0
  /** Pixels per cell side in the module's on-screen size. */
  const CellPixels := 20
  /** The raw colours SetUp installs: off, then on. */
  const InstalledColors: seq<int> := [0, 127]

  /**
   * The colour index SetLight uses for `idx` on a device with `n` colours: an
   * index beyond the list steps back by two until it fits, keeping its parity
   * (dim or bright), and a result of zero becomes one.
   */
  function QuantizedColorIndex(idx: nat, n: nat): (r: nat)
    requires n >= 2
    ensures r < n
    ensures idx < n ==> r == idx
    ensures idx >= n ==> 1 <= r && n - 2 <= r
    ensures idx >= n && n >= 3 ==> (idx - r) % 2 == 0
    ensures idx > 0 ==> r > 0
  {
    if idx < n then idx
    else
      var stepped := if (idx - n) % 2 == 0 then n - 2 else n - 1;
      if stepped <= 0 then 1 else stepped
  }

  /** With the colours SetUp installs, off stays off and every other index lights fully. */
  lemma InstalledColorsAreOffOrFull(idx: nat)
    ensures InstalledColors[QuantizedColorIndex(idx, |InstalledColors|)] == if idx == GridColorOff then 0 else 127
  {
  }

  /** SetUp's row-major index of a cell lies inside a layout of `rows` by `cols`. */
  lemma RowMajorIndexInRange(col: nat, row: nat, cols: nat, rows: nat)
    requires col < cols && row < rows
    ensures col + row * cols < rows * cols
  {
    assert (row + 1) * cols <= rows * cols by {
      MultiplyMonotone(row + 1, rows, cols);
    }
  }

  /** The control id a row-major layout gives the cell at `col`, `row`. */
  function LayoutControl(layout: GridLayout, col: nat, row: nat): (id: int)
    requires col < layout.cols && row < layout.rows
    requires |layout.controls| >= layout.rows * layout.cols
    ensures id in layout.controls
  {
    RowMajorIndexInRange(col, row, layout.cols, layout.rows);
    layout.controls[col + row * layout.cols]
  }

  /** Multiplying by the same factor keeps the order of two naturals. */
  lemma MultiplyMonotone(a: nat, b: nat, c: nat)
    requires a <= b
    ensures a * c <= b * c
  {
  }

  /** Different cells have different row-major indices. */
  lemma RowMajorIndexInjective(c1: nat, r1: nat, c2: nat, r2: nat, cols: nat)
    requires c1 < cols && c2 < cols
    requires c1 + r1 * cols == c2 + r2 * cols
    ensures c1 == c2 && r1 == r2
  {
    if r1 < r2 {
      MultiplyMonotone(r1 + 1, r2, cols);
      assert false;
    } else if r2 < r1 {
      MultiplyMonotone(r2 + 1, r1, cols);
      assert false;
    }
  }

  /** The step-back loop of SetLight, on the index alone. */
  method QuantizeColor(color: nat, n: nat) returns (idx: nat)
    requires n >= 2
    ensures idx == QuantizedColorIndex(color, n)
  {
    var i: int := color;
    if i >= n {
      while i >= n
        invariant i >= n - 2
        invariant (color - i) % 2 == 0
        decreases i
      {
        i := i - 2;
      }
      if i <= 0 {
        i := 1;
      }
    }
    idx := i;
  }

  class GridController {
    /** mControls, mInput and mLights, indexed [col, row]; their dimensions are the device capacity. */
    const controls: array2<int>
    const input: array2<real>
    const lights: array2<int>
    var rows: nat
    var cols: nat
    var colors: seq<int>
    var messageType: MessageType
    var hasController: bool
    var page: int
    var clicked: bool
    var clickedCell: Cell
    var events: seq<GridEvent>

    predicate Valid()
      reads this
    {
      && controls != lights
      && input.Length0 == controls.Length0 == lights.Length0
      && input.Length1 == controls.Length1 == lights.Length1
      && cols <= controls.Length0 && rows <= controls.Length1
      && (colors == [] || colors == InstalledColors)
      && clickedCell.col < controls.Length0 && clickedCell.row < controls.Length1
    }

    /** A controller with room for `maxCols` by `maxRows` cells, all zero, and no layout yet. */
    constructor (maxCols: nat, maxRows: nat)
      requires maxCols >= 1 && maxRows >= 1
      ensures Valid() && fresh(controls) && fresh(input) && fresh(lights)
      ensures controls.Length0 == maxCols && controls.Length1 == maxRows
      ensures forall c, r :: 0 <= c < maxCols && 0 <= r < maxRows ==>
        controls[c, r] == 0 && input[c, r] == 0.0 && lights[c, r] == 0
      ensures rows == 0 && cols == 0 && colors == [] && messageType == NoteMessage
      ensures !hasController && page == 0 && !clicked && clickedCell == Cell(0, 0) && events == []
    {
      controls := new int[maxCols, maxRows]((_, _) => 0);
      input := new real[maxCols, maxRows]((_, _) => 0.0);
      lights := new int[maxCols, maxRows]((_, _) => 0);
      rows := 0;
      cols := 0;
      colors := [];
      messageType := NoteMessage;
      hasController := false;
      page := 0;
      clicked := false;
      clickedCell := Cell(0, 0);
      events := [];
    }

    /** Some cell inside the layout holds a positive input. */
    predicate AnyInput()
      reads this, input
    {
      exists c, r :: 0 <= c < cols && 0 <= r < rows && c < input.Length0 && r < input.Length1 && input[c, r] > 0.0
    }

    /** (x, y) is the first cell holding `control` when columns are scanned outer and rows inner. */
    predicate IsFirstMatch(control: int, x: nat, y: nat)
      reads this, controls
    {
      && cols <= controls.Length0 && rows <= controls.Length1
      && x < cols && y < rows
      && controls[x, y] == control
      && forall c, r :: 0 <= c < cols && 0 <= r < rows && (c < x || (c == x && r < y)) ==> controls[c, r] != control
    }

    /** No cell inside the layout holds `control`. */
    predicate NoMatch(control: int)
      reads this, controls
    {
      forall c, r :: 0 <= c < cols && 0 <= r < rows && c < controls.Length0 && r < controls.Length1 ==> controls[c, r] != control
    }

    /** The first match, when there is one, is the only cell that is a first match. */
    lemma FirstMatchIsUnique(control: int, x1: nat, y1: nat, x2: nat, y2: nat)
      requires IsFirstMatch(control, x1, y1) && IsFirstMatch(control, x2, y2)
      ensures x1 == x2 && y1 == y2
    {
    }

    /** OnInput's scan for the cell of a control id. */
    method FindControl(control: int) returns (found: bool, x: nat, y: nat)
      requires Valid()
      ensures found ==> IsFirstMatch(control, x, y)
      ensures !found ==> NoMatch(control)
    {
      x := 0;
      y := 0;
      found := false;
      while x < cols
        invariant x <= cols
        invariant forall c, r :: 0 <= c < x && 0 <= r < rows ==> controls[c, r] != control
      {
        y := 0;
        while y < rows
          invariant y <= rows
          invariant forall r :: 0 <= r < y ==> controls[x, r] != control
        {
          if controls[x, y] == control {
            found := true;
            return;
          }
          y := y + 1;
        }
        x := x + 1;
      }
    }

    /** HasInput: scan the layout for a positive input. */
    method HasInput() returns (b: bool)
      requires Valid()
      ensures b == AnyInput()
    {
      for c := 0 to cols
        invariant forall c', r :: 0 <= c' < c && 0 <= r < rows ==> input[c', r] <= 0.0
      {
        for r := 0 to rows
          invariant forall r' :: 0 <= r' < r ==> input[c, r'] <= 0.0
        {
          if input[c, r] > 0.0 {
            return true;
          }
        }
      }
      return false;
    }

    /** OnInput's effect for `control`: when a cell holds it, the first such cell takes `velocity`, listeners hear of it and the input history records the new state. */
    twostate predicate InputFed(control: int, velocity: real, time: real)
      reads this, controls, input
    {
      && (old(NoMatch(control)) ==>
            && (forall c, r :: 0 <= c < input.Length0 && 0 <= r < input.Length1 ==> input[c, r] == old(input[c, r]))
            && events == old(events))
      && forall x: nat, y: nat :: old(IsFirstMatch(control, x, y)) && x < input.Length0 && y < input.Length1 ==>
           && input[x, y] == velocity
           && (forall c, r :: 0 <= c < input.Length0 && 0 <= r < input.Length1 && (c != x || r != y) ==> input[c, r] == old(input[c, r]))
           && events == old(events) + [ButtonNotified(x, y, velocity), InputRecorded(time, AnyInput())]
    }
  
    /** No input value and no event has changed. */
    twostate predicate InputKept()
      reads this, input
    {
      && (forall c, r :: 0 <= c < input.Length0 && 0 <= r < input.Length1 ==> input[c, r] == old(input[c, r]))
      && events == old(events)
    }

    /** OnInput: the first cell holding `control` takes `velocity`; listeners are told and the input history records whether any input is now held. */
    method OnInput(control: int, velocity: real, time: real)
      requires Valid()
      modifies input, this`events
      ensures Valid()
      ensures InputFed(control, velocity, time)
    {
      var found, x, y := FindControl(control);
      if found {
        input[x, y] := velocity;
        events := events + [ButtonNotified(x, y, velocity)];
        var held := HasInput();
        events := events + [InputRecorded(time, held)];
        forall x': nat, y': nat | old(IsFirstMatch(control, x', y')) && x' < input.Length0 && y' < input.Length1
          ensures x' == x && y' == y
        {
          FirstMatchIsUnique(control, x, y, x', y');
        }
      }
    }

    /** OnClicked: a click below the title bar feeds input 1 to the clicked cell's control and remembers the cell. */
    method OnClicked(y: int, cell: Cell, time: real)
      requires Valid()
      requires cell.col < controls.Length0 && cell.row < controls.Length1
      modifies input, this`events, this`clicked, this`clickedCell
      ensures Valid()
      ensures y > 0 ==> clicked && clickedCell == cell && InputFed(controls[cell.col, cell.row], 1.0, time)
      ensures y <= 0 ==> clicked == old(clicked) && clickedCell == old(clickedCell) && InputKept()
    {
      if y > 0 {
        OnInput(controls[cell.col, cell.row], 1.0, time);
        clicked := true;
        clickedCell := cell;
      }
    }
  
    /** MouseReleased: a click that was fed in is released with input 0 on the same cell; the click is over either way. */
    method MouseReleased(time: real)
      requires Valid()
      modifies input, this`events, this`clicked
      ensures Valid()
      ensures !clicked
      ensures old(clicked) ==> InputFed(controls[clickedCell.col, clickedCell.row], 0.0, time)
      ensures !old(clicked) ==> InputKept()
    {
      if clicked {
        OnInput(controls[clickedCell.col, clickedCell.row], 0.0, time);
      }
      clicked := false;
    }

    /** The messages that set one light: a note or a controller change on the current page, when a controller is attached. */
    function LightMessages(control: int, color: int): (m: seq<GridEvent>)
      reads this`hasController, this`messageType, this`page
      ensures |m| <= 1
      ensures |m| == 1 <==> hasController && messageType != OtherMessage
      ensures forall e :: e in m ==> (e.NoteSent? || e.ControlSent?) && e.page == page && e.control == control && e.value == color
    {
      if !hasController then []
      else match messageType
        case NoteMessage => [NoteSent(page, control, color)]
        case ControlMessage => [ControlSent(page, control, color)]
        case OtherMessage => []
    }

    /** SetLightDirect: a light changes, and is sent, only when its value differs or the send is forced. */
    method SetLightDirect(x: nat, y: nat, color: int, force: bool)
      requires Valid() && x < lights.Length0 && y < lights.Length1
      modifies lights, this`events
      ensures Valid()
      ensures lights[x, y] == color || (!force && lights[x, y] == old(lights[x, y]))
      ensures old(lights[x, y]) == color && !force ==> events == old(events) && lights[x, y] == old(lights[x, y])
      ensures old(lights[x, y]) != color || force ==>
        lights[x, y] == color && events == old(events) + LightMessages(controls[x, y], color)
      ensures forall c, r :: 0 <= c < lights.Length0 && 0 <= r < lights.Length1 && (c != x || r != y) ==> lights[c, r] == old(lights[c, r])
    {
      if lights[x, y] != color || force {
        events := events + LightMessages(controls[x, y], color);
        lights[x, y] := color;
      }
    }

    /** The raw value SetLight sends for a colour index: the quantised entry of the colour list, or 0 when there is none. */
    function RawColor(color: nat): (raw: int)
      reads this`colors
      requires colors == [] || colors == InstalledColors
      ensures colors == [] ==> raw == 0
      ensures colors == InstalledColors ==> raw == if color == GridColorOff then 0 else 127
    {
      if colors == [] then 0
      else
        InstalledColorsAreOffOrFull(color);
        colors[QuantizedColorIndex(color, |colors|)]
    }

    /** SetLight: outside the layout nothing happens; inside, the colour is quantised and set directly. */
    method SetLight(x: int, y: int, color: nat, force: bool)
      requires Valid() && x >= 0 && y >= 0
      modifies lights, this`events
      ensures Valid()
      ensures x >= cols || y >= rows ==>
        events == old(events) && forall c, r :: 0 <= c < lights.Length0 && 0 <= r < lights.Length1 ==> lights[c, r] == old(lights[c, r])
      ensures x < cols && y < rows ==>
        && (old(lights[x, y]) == RawColor(color) && !force ==> events == old(events) && lights[x, y] == old(lights[x, y]))
        && (old(lights[x, y]) != RawColor(color) || force ==>
              lights[x, y] == RawColor(color) && events == old(events) + LightMessages(controls[x, y], RawColor(color)))
        && forall c, r :: 0 <= c < lights.Length0 && 0 <= r < lights.Length1 && (c != x || r != y) ==> lights[c, r] == old(lights[c, r])
    {
      if x >= cols || y >= rows {
        return;
      }
      var rawColor := 0;
      if |colors| > 0 {
        var colorIdx := QuantizeColor(color, |colors|);
        rawColor := colors[colorIdx];
      }
      SetLightDirect(x, y, rawColor, force);
    }

    /** The raw value of "off" on this device. */
    function OffRaw(): int
      reads this`colors
    {
      if colors == [] then 0 else colors[0]
    }

    /** What resetting cell (c, r) sends: the off value to its control, unless its light is already off. */
    function CellReset(c: nat, r: nat): (m: seq<GridEvent>)
      requires c < lights.Length0 && r < lights.Length1
      requires controls.Length0 == lights.Length0 && controls.Length1 == lights.Length1
      reads this`colors, this`hasController, this`messageType, this`page, controls, lights
    {
      if lights[c, r] == OffRaw() then [] else LightMessages(controls[c, r], OffRaw())
    }

    /** What ResetLights sends for rows 0 .. r-1 of column `c`, in row order. */
    function ColumnResets(c: nat, r: nat): (m: seq<GridEvent>)
      requires c < lights.Length0 && r <= lights.Length1
      requires controls.Length0 == lights.Length0 && controls.Length1 == lights.Length1
      reads this`colors, this`hasController, this`messageType, this`page, controls, lights
    {
      if r == 0 then [] else ColumnResets(c, r - 1) + CellReset(c, r - 1)
    }

    /** What ResetLights sends for columns 0 .. c-1 of the layout: columns outer, rows inner. */
    function ResetMessages(c: nat): (m: seq<GridEvent>)
      requires c <= lights.Length0 && rows <= lights.Length1
      requires controls.Length0 == lights.Length0 && controls.Length1 == lights.Length1
      reads this`colors, this`hasController, this`messageType, this`page, this`rows, controls, lights
    {
      if c == 0 then [] else ResetMessages(c - 1) + ColumnResets(c - 1, rows)
    }

    /** ResetLights: every light inside the layout is set to off; only lights that were not already off are sent. */
    method ResetLights()
      requires Valid()
      modifies lights, this`events
      ensures Valid()
      ensures forall c, r :: 0 <= c < cols && 0 <= r < rows ==> lights[c, r] == OffRaw()
      ensures forall c, r :: 0 <= c < lights.Length0 && 0 <= r < lights.Length1 && (c >= cols || r >= rows) ==> lights[c, r] == old(lights[c, r])
      ensures events == old(events) + old(ResetMessages(cols))
    {
      assert RawColor(GridColorOff) == OffRaw();
      for c := 0 to cols
        invariant forall c', r :: 0 <= c' < c && 0 <= r < rows ==> lights[c', r] == OffRaw()
        invariant forall c', r :: 0 <= c' < lights.Length0 && 0 <= r < lights.Length1 && (c' >= c || r >= rows) ==> lights[c', r] == old(lights[c', r])
        invariant events == old(events) + old(ResetMessages(c))
      {
        for r := 0 to rows
          invariant forall c', r' :: 0 <= c' < c && 0 <= r' < rows ==> lights[c', r'] == OffRaw()
          invariant forall r' :: 0 <= r' < r ==> lights[c, r'] == OffRaw()
          invariant forall c', r' :: 0 <= c' < lights.Length0 && 0 <= r' < lights.Length1 && (c' > c || (c' == c && r' >= r) || r' >= rows) ==> lights[c', r'] == old(lights[c', r'])
          invariant events == old(events) + old(ResetMessages(c)) + old(ColumnResets(c, r))
        {
          assert old(CellReset(c, r)) == if lights[c, r] == OffRaw() then [] else LightMessages(controls[c, r], OffRaw());
          SetLight(c, r, GridColorOff, false);
          assert old(ColumnResets(c, r + 1)) == old(ColumnResets(c, r)) + old(CellReset(c, r));
        }
        assert old(ResetMessages(c + 1)) == old(ResetMessages(c)) + old(ColumnResets(c, rows));
      }
    }

    /** Every message ResetLights sends for a column is a note or controller change carrying the off value. */
    lemma {:induction false} ColumnResetsSendOff(c: nat, r: nat)
      requires c < lights.Length0 && r <= lights.Length1
      requires controls.Length0 == lights.Length0 && controls.Length1 == lights.Length1
      ensures forall e :: e in ColumnResets(c, r) ==> (e.NoteSent? || e.ControlSent?) && e.value == OffRaw()
    {
      if r > 0 {
        ColumnResetsSendOff(c, r - 1);
      }
    }

    /** Every message ResetLights sends is a note or controller change carrying the off value. */
    lemma {:induction false} ResetMessagesSendOff(c: nat)
      requires c <= lights.Length0 && rows <= lights.Length1
      requires controls.Length0 == lights.Length0 && controls.Length1 == lights.Length1
      ensures forall e :: e in ResetMessages(c) ==> (e.NoteSent? || e.ControlSent?) && e.value == OffRaw()
    {
      if c > 0 {
        ResetMessagesSendOff(c - 1);
        ColumnResetsSendOff(c - 1, rows);
      }
    }

    /** A column whose lights are all off already sends nothing. */
    lemma {:induction false} DarkColumnSendsNothing(c: nat, r: nat)
      requires c < lights.Length0 && r <= lights.Length1
      requires controls.Length0 == lights.Length0 && controls.Length1 == lights.Length1
      requires forall k :: 0 <= k < r ==> lights[c, k] == OffRaw()
      ensures ColumnResets(c, r) == []
    {
      if r > 0 {
        DarkColumnSendsNothing(c, r - 1);
      }
    }

    /** Resetting a layout whose lights are all off already sends nothing. */
    lemma {:induction false} DarkGridSendsNothing(c: nat)
      requires c <= lights.Length0 && rows <= lights.Length1
      requires controls.Length0 == lights.Length0 && controls.Length1 == lights.Length1
      requires forall k, r :: 0 <= k < c && 0 <= r < rows ==> lights[k, r] == OffRaw()
      ensures ResetMessages(c) == []
    {
      if c > 0 {
        DarkGridSendsNothing(c - 1);
        DarkColumnSendsNothing(c - 1, rows);
      }
    }

    /** A light that is on is sent: with a controller attached, each lit cell adds one message. */
    lemma {:induction false} LitCellsAreSent(c: nat, r: nat)
      requires c < lights.Length0 && r <= lights.Length1
      requires controls.Length0 == lights.Length0 && controls.Length1 == lights.Length1
      requires hasController && messageType != OtherMessage
      ensures |ColumnResets(c, r)| == |set k | 0 <= k < r && lights[c, k] != OffRaw()|
    {
      if r > 0 {
        LitCellsAreSent(c, r - 1);
        var before := set k | 0 <= k < r - 1 && lights[c, k] != OffRaw();
        var after := set k | 0 <= k < r && lights[c, k] != OffRaw();
        if lights[c, r - 1] == OffRaw() {
          assert after == before;
        } else {
          assert after == before + {r - 1};
        }
      }
    }

    /** GetModuleDimensions: one CellPixels square per cell. */
    function ModuleDimensions(): (d: (int, int))
      reads this`cols, this`rows
      ensures d.0 % CellPixels == 0 && d.0 / CellPixels == cols
      ensures d.1 % CellPixels == 0 && d.1 / CellPixels == rows
    {
      (cols * CellPixels, rows * CellPixels)
    }

    /** SetUp: take the layout's size, its control ids (row-major), its message type and the controller; install the two colours off and on. */
    method SetUp(layout: GridLayout, controller: bool)
      requires Valid()
      requires layout.cols <= controls.Length0 && layout.rows <= controls.Length1
      requires |layout.controls| >= layout.rows * layout.cols
      modifies controls, this`rows, this`cols, this`colors, this`messageType, this`hasController
      ensures Valid()
      ensures rows == layout.rows && cols == layout.cols
      ensures forall c, r :: 0 <= c < cols && 0 <= r < rows ==> controls[c, r] == LayoutControl(layout, c, r)
      ensures forall c, r :: 0 <= c < controls.Length0 && 0 <= r < controls.Length1 && (c >= cols || r >= rows) ==> controls[c, r] == old(controls[c, r])
      ensures colors == InstalledColors
      ensures messageType == layout.messageType && hasController == controller
    {
      rows := layout.rows;
      cols := layout.cols;
      FillControls(layout);
      colors := [];
      for i := 0 to 2
        modifies this`colors
        invariant colors == seq(i, k => k * 127)
      {
        colors := colors + [i * 127];
      }
      messageType := layout.messageType;
      hasController := controller;
    }

    /** SetUp's nested loop: rows outer, columns inner, each cell from its row-major index. */
    method FillControls(layout: GridLayout)
      requires layout.cols <= controls.Length0 && layout.rows <= controls.Length1
      requires |layout.controls| >= layout.rows * layout.cols
      modifies controls
      ensures forall c, r :: 0 <= c < layout.cols && 0 <= r < layout.rows ==> controls[c, r] == LayoutControl(layout, c, r)
      ensures forall c, r :: 0 <= c < controls.Length0 && 0 <= r < controls.Length1 && (c >= layout.cols || r >= layout.rows) ==> controls[c, r] == old(controls[c, r])
    {
      for r := 0 to layout.rows
        invariant forall c', r' :: 0 <= c' < layout.cols && 0 <= r' < r ==> controls[c', r'] == LayoutControl(layout, c', r')
        invariant forall c', r' :: 0 <= c' < controls.Length0 && 0 <= r' < controls.Length1 && (c' >= layout.cols || r' >= r) ==> controls[c', r'] == old(controls[c', r'])
      {
        for c := 0 to layout.cols
          invariant forall c', r' :: 0 <= c' < layout.cols && 0 <= r' < r ==> controls[c', r'] == LayoutControl(layout, c', r')
          invariant forall c' :: 0 <= c' < c ==> controls[c', r] == LayoutControl(layout, c', r)
          invariant forall c', r' :: 0 <= c' < controls.Length0 && 0 <= r' < controls.Length1 && (c' >= layout.cols || r' > r || (r' == r && c' >= c)) ==> controls[c', r'] == old(controls[c', r'])
        {
          controls[c, r] := LayoutControl(layout, c, r);
        }
      }
    }
  }

  /** How a grid controller comes to serve a layout: built with every cell zero, then set up from the layout. */
  method NewForLayout(layout: GridLayout, controller: bool) returns (g: GridController)
    requires layout.cols >= 1 && layout.rows >= 1
    requires |layout.controls| >= layout.rows * layout.cols
    ensures g.Valid() && g.cols == layout.cols && g.rows == layout.rows
    ensures g.colors == InstalledColors && g.messageType == layout.messageType && g.hasController == controller
    ensures forall c, r :: 0 <= c < g.cols && 0 <= r < g.rows ==> g.controls[c, r] == LayoutControl(layout, c, r) && g.lights[c, r] == g.OffRaw()
    ensures g.ModuleDimensions() == (layout.cols * CellPixels, layout.rows * CellPixels)
    ensures g.events == []
  {
    g := new GridController(layout.cols, layout.rows);
    g.SetUp(layout, controller);
  }
}
