/** The floating notepad of the home page: it is dragged by its title bar
    and resized from any of its eight edges and corners, never below
    200 x 150. Coordinates are reals, as `window.innerWidth / 2` may be. */
module ToolsBox {
  import opened Wrappers

  datatype Point = Point(x: real, y: real)
  datatype Size = Size(width: real, height: real)

  /** The resize handles, by the compass point they sit on. */
  datatype Direction = N | S | E | W | NE | NW | SE | SW

  const MinWidth: real := 200.0
  const MinHeight: real := 150.0
  const DefaultSize := Size(400.0, 300.0)

  /** The handle's name, as the handler receives it. */
  function Label(d: Direction): string
  {
    match d
    case N => "n"
    case S => "s"
    case E => "e"
    case W => "w"
    case NE => "ne"
    case NW => "nw"
    case SE => "se"
    case SW => "sw"
  }

  /** `direction.includes('w')`: the handle moves the left edge. */
  predicate HasW(d: Direction)
  {
    'w' in Label(d)
  }

  /** `direction.includes('n')`: the handle moves the top edge. */
  predicate HasN(d: Direction)
  {
    'n' in Label(d)
  }

  /** The handle moves the right edge. */
  predicate HasE(d: Direction)
  {
    'e' in Label(d)
  }

  /** The handle moves the bottom edge. */
  predicate HasS(d: Direction)
  {
    's' in Label(d)
  }

  function Max(a: real, b: real): real
  {
    if a >= b then a else b
  }

  /** How far the pointer has moved since the press. */
  function Delta(start: Point, client: Point): Point
  {
    Point(client.x - start.x, client.y - start.y)
  }

  /** The outcome of a resize move, edge by edge: the edges the handle
      holds follow the pointer, the others stay where they are, and
      each dimension is held at its minimum. */
  function Resized(d: Direction, initialSize: Size, initialPos: Point, dx: real, dy: real): (r: (Size, Point))
    ensures r.0.width >= MinWidth && r.0.height >= MinHeight
  {
    var dw := if HasE(d) then dx else if HasW(d) then -dx else 0.0;
    var dh := if HasS(d) then dy else if HasN(d) then -dy else 0.0;
    (Size(Max(MinWidth, initialSize.width + dw), Max(MinHeight, initialSize.height + dh)),
     Point(initialPos.x + (if HasW(d) then dx else 0.0), initialPos.y + (if HasN(d) then dy else 0.0)))
  }

  /** The resize branch of `handleMouseMove`: the `switch` on the handle,
      then the block that raises a dimension left below its minimum.
      `corrected` records whether that block changed anything: it does
      only for a dimension the handle does not touch and that was already
      below its minimum when the resize started. */
  method ResizeMove(d: Direction, initialSize: Size, initialPos: Point, dx: real, dy: real)
    returns (newSize: Size, newPos: Point, ghost corrected: bool)
    ensures (newSize, newPos) == Resized(d, initialSize, initialPos, dx, dy)
    ensures corrected <==> (!HasE(d) && !HasW(d) && initialSize.width < MinWidth)
                           || (!HasS(d) && !HasN(d) && initialSize.height < MinHeight)
    ensures corrected ==> initialSize.width < MinWidth || initialSize.height < MinHeight
  {
    var newWidth := initialSize.width;
    var newHeight := initialSize.height;
    var newX := initialPos.x;
    var newY := initialPos.y;
    match d {
      case SE =>
        newWidth := Max(MinWidth, initialSize.width + dx);
        newHeight := Max(MinHeight, initialSize.height + dy);
      case S =>
        newHeight := Max(MinHeight, initialSize.height + dy);
      case E =>
        newWidth := Max(MinWidth, initialSize.width + dx);
      case SW =>
        newWidth := Max(MinWidth, initialSize.width - dx);
        newHeight := Max(MinHeight, initialSize.height + dy);
        newX := initialPos.x + dx;
      case NW =>
        newWidth := Max(MinWidth, initialSize.width - dx);
        newHeight := Max(MinHeight, initialSize.height - dy);
        newX := initialPos.x + dx;
        newY := initialPos.y + dy;
      case N =>
        newHeight := Max(MinHeight, initialSize.height - dy);
        newY := initialPos.y + dy;
      case W =>
        newWidth := Max(MinWidth, initialSize.width - dx);
        newX := initialPos.x + dx;
      case NE =>
        newWidth := Max(MinWidth, initialSize.width + dx);
        newHeight := Max(MinHeight, initialSize.height - dy);
        newY := initialPos.y + dy;
    }
    corrected := false;
    if newWidth < MinWidth {
      newWidth := MinWidth;
      corrected := true;
      if HasW(d) {
        newX := initialPos.x + (initialSize.width - MinWidth);
      }
    }
    if newHeight < MinHeight {
      newHeight := MinHeight;
      corrected := true;
      if HasN(d) {
        newY := initialPos.y + (initialSize.height - MinHeight);
      }
    }
    newSize := Size(newWidth, newHeight);
    newPos := Point(newX, newY);
  }

  /** Resizing from the right, the bottom or the bottom-right corner
      leaves the notepad where it is; from a size at least the minimum,
      the right handle changes only the width and the bottom one only the
      height. */
  lemma EastSouthKeepPosition(d: Direction, initialSize: Size, initialPos: Point, dx: real, dy: real)
    requires d == E || d == S || d == SE
    ensures Resized(d, initialSize, initialPos, dx, dy).1 == initialPos
    ensures initialSize.height >= MinHeight && d == E ==>
      Resized(d, initialSize, initialPos, dx, dy).0 == Size(Max(MinWidth, initialSize.width + dx), initialSize.height)
    ensures initialSize.width >= MinWidth && d == S ==>
      Resized(d, initialSize, initialPos, dx, dy).0 == Size(initialSize.width, Max(MinHeight, initialSize.height + dy))
  {
    assert !HasW(d) && !HasN(d);
  }

  /** The handles on the left edge move the notepad's left side with the
      pointer, those on the top edge its top side; no other handle moves
      that coordinate. */
  lemma WestNorthFollowPointer(d: Direction, initialSize: Size, initialPos: Point, dx: real, dy: real)
    ensures var p := Resized(d, initialSize, initialPos, dx, dy).1;
      && (d in {W, SW, NW} ==> p.x == initialPos.x + dx)
      && (d !in {W, SW, NW} ==> p.x == initialPos.x)
      && (d in {N, NW, NE} ==> p.y == initialPos.y + dy)
      && (d !in {N, NW, NE} ==> p.y == initialPos.y)
  {
    assert HasW(d) <==> d in {W, SW, NW};
    assert HasN(d) <==> d in {N, NW, NE};
  }

  /** While a dimension stays above its minimum, the edge opposite the
      handle does not move: the right edge for a left handle, the bottom
      edge for a top handle. */
  lemma OppositeEdgeStays(d: Direction, initialSize: Size, initialPos: Point, dx: real, dy: real)
    ensures var (s, p) := Resized(d, initialSize, initialPos, dx, dy);
      && (HasW(d) && initialSize.width - dx >= MinWidth ==> p.x + s.width == initialPos.x + initialSize.width)
      && (HasN(d) && initialSize.height - dy >= MinHeight ==> p.y + s.height == initialPos.y + initialSize.height)
  {
    assert HasW(d) ==> !HasE(d);
    assert HasN(d) ==> !HasS(d);
  }

  /** Past the minimum width a left handle keeps moving the notepad with
      the pointer at width 200, so its right edge moves too. */
  lemma WestPastMinimumSlides(d: Direction, initialSize: Size, initialPos: Point, dx: real, dy: real)
    requires HasW(d) && initialSize.width - dx < MinWidth
    ensures var (s, p) := Resized(d, initialSize, initialPos, dx, dy);
      && s.width == MinWidth
      && p.x + s.width == initialPos.x + initialSize.width + (dx - (initialSize.width - MinWidth))
  {
    assert !HasE(d);
  }

  /** The notepad window: where it is, how big, and what the pointer
      pressed on last. */
  class Notepad {
    var position: Point
    var size: Size
    var isDragging: bool
    var isResizing: Option<Direction>
    var dragStart: Point
    var initialPos: Point
    var initialSize: Size

    /** Position and size come from storage when present there; otherwise
        the notepad is centred near the middle of the window at 400 x 300. */
    constructor(storedPosition: Option<Point>, storedSize: Option<Size>, innerWidth: real, innerHeight: real)
      ensures position == (if storedPosition.Some? then storedPosition.value
                           else Point(innerWidth / 2.0 - 150.0, innerHeight / 2.0 - 100.0))
      ensures size == (if storedSize.Some? then storedSize.value else DefaultSize)
      ensures !isDragging && isResizing == None
    {
      position := if storedPosition.Some? then storedPosition.value
                  else Point(innerWidth / 2.0 - 150.0, innerHeight / 2.0 - 100.0);
      size := if storedSize.Some? then storedSize.value else DefaultSize;
      isDragging := false;
      isResizing := None;
      dragStart := Point(0.0, 0.0);
      initialPos := Point(0.0, 0.0);
      initialSize := Size(0.0, 0.0);
    }

    /** `handleMouseDown`: a press on the title bar starts a drag from the
        current position; a press anywhere else does nothing. */
    method HandleMouseDown(onHandle: bool, client: Point)
      modifies this
      ensures onHandle ==> isDragging && dragStart == client && initialPos == old(position)
      ensures !onHandle ==> isDragging == old(isDragging) && dragStart == old(dragStart) && initialPos == old(initialPos)
      ensures position == old(position) && size == old(size)
      ensures isResizing == old(isResizing) && initialSize == old(initialSize)
    {
      if onHandle {
        isDragging := true;
        dragStart := client;
        initialPos := position;
      }
    }

    /** `handleResizeMouseDown`: a press on a resize handle starts a resize
        from the current position and size. */
    method HandleResizeMouseDown(d: Direction, client: Point)
      modifies this
      ensures isResizing == Some(d) && dragStart == client
      ensures initialSize == old(size) && initialPos == old(position)
      ensures position == old(position) && size == old(size) && isDragging == old(isDragging)
    {
      isResizing := Some(d);
      dragStart := client;
      initialSize := size;
      initialPos := position;
    }

    /** `handleMouseMove`: a drag moves the notepad by the pointer's
        displacement; otherwise a resize reshapes it from where the resize
        started; with neither under way nothing changes. */
    method HandleMouseMove(client: Point)
      modifies this
      ensures var delta := Delta(dragStart, client);
        old(isDragging) ==> position == Point(initialPos.x + delta.x, initialPos.y + delta.y) && size == old(size)
      ensures var delta := Delta(dragStart, client);
        !old(isDragging) && isResizing.Some? ==>
          (size, position) == Resized(isResizing.value, initialSize, initialPos, delta.x, delta.y)
      ensures !old(isDragging) && isResizing.None? ==> position == old(position) && size == old(size)
      ensures isDragging == old(isDragging) && isResizing == old(isResizing)
      ensures dragStart == old(dragStart) && initialPos == old(initialPos) && initialSize == old(initialSize)
    {
      var delta := Delta(dragStart, client);
      if isDragging {
        position := Point(initialPos.x + delta.x, initialPos.y + delta.y);
      } else if isResizing.Some? {
        var newSize, newPos, _ := ResizeMove(isResizing.value, initialSize, initialPos, delta.x, delta.y);
        size := newSize;
        position := newPos;
      }
    }

    /** `handleMouseUp`: releasing the button ends any drag or resize and
        leaves the notepad where it is. */
    method HandleMouseUp()
      modifies this
      ensures !isDragging && isResizing == None
      ensures position == old(position) && size == old(size)
      ensures dragStart == old(dragStart) && initialPos == old(initialPos) && initialSize == old(initialSize)
    {
      isDragging := false;
      isResizing := None;
    }
  }

  /** Once the button is released, moving the pointer changes nothing. */
  method ReleasedMoveIsInert(pad: Notepad, client: Point)
    modifies pad
    ensures pad.position == old(pad.position) && pad.size == old(pad.size)
  {
    pad.HandleMouseUp();
    pad.HandleMouseMove(client);
  }
}
