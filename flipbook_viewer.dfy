/** src/components/FlipbookViewer.tsx: which pages a spread shows, and how drag, mouse and touch
    gestures decide between turning the page and snapping back.

    The viewport-width test (`window.innerWidth < 640`) is the parameter `narrow`. A page turn is
    requested by calling the `onPageChange` prop; here the gesture methods return the page they
    would pass to it. */
module FlipbookViewer {
  import opened Common
  import opened Types

  /** `displayText`: "p/N" for a single page, "a-b/N" for a two-page spread. */
  datatype PageLabel = Single(page: nat, total: nat) | Span(first: nat, last: nat, total: nat)
  {
    function Text(): string {
      match this
      case Single(p, n) => NatToString(p) + "/" + NatToString(n)
      case Span(a, b, n) => NatToString(a) + "-" + NatToString(b) + "/" + NatToString(n)
    }
  }

  /** Page indices are 0-based; -1 leaves the slot empty. */
  datatype DisplayPlan = DisplayPlan(leftPageIndex: int, rightPageIndex: int, caption: PageLabel)

  /** `getDisplayedPages`: page 1 and the last page stand alone, the others pair up as (2,3),
      (4,5), ...; a narrow viewport always shows one page. The caller has clamped `currentPage`. */
  function GetDisplayedPages(currentPage: int, pageCount: nat, narrow: bool): (plan: DisplayPlan)
    requires currentPage >= 1
    ensures currentPage <= pageCount ==>
      && plan.rightPageIndex != -1
      && (plan.leftPageIndex == -1 || 0 <= plan.leftPageIndex < pageCount)
      && 0 <= plan.rightPageIndex < pageCount
      && (plan.leftPageIndex == currentPage - 1 || plan.rightPageIndex == currentPage - 1)
  {
    if narrow then
      DisplayPlan(-1, currentPage - 1, Single(currentPage, pageCount))
    else if currentPage == 1 then
      DisplayPlan(-1, 0, Single(1, pageCount))
    else if currentPage == pageCount then
      DisplayPlan(-1, currentPage - 1, Single(currentPage, pageCount))
    else if currentPage % 2 == 0 then
      var left := currentPage - 1;
      var right := if currentPage < pageCount then currentPage else -1;
      DisplayPlan(left, right, if right >= 0 then Span(left + 1, right + 1, pageCount) else Single(left + 1, pageCount))
    else
      DisplayPlan(currentPage - 2, currentPage - 1, Span(currentPage - 1, currentPage, pageCount))
  }

  /** The layout rules case by case, for pages in range. */
  lemma DisplayPlanCases(currentPage: int, pageCount: nat, narrow: bool)
    requires 1 <= currentPage <= pageCount
    ensures var plan := GetDisplayedPages(currentPage, pageCount, narrow);
      && (narrow ==> plan == DisplayPlan(-1, currentPage - 1, Single(currentPage, pageCount)))
      && (!narrow && currentPage == 1 ==> plan == DisplayPlan(-1, 0, Single(1, pageCount)))
      && (!narrow && currentPage == pageCount ==>
            plan == DisplayPlan(-1, pageCount - 1, Single(pageCount, pageCount)))
      && (!narrow && 1 < currentPage < pageCount && currentPage % 2 == 0 ==>
            plan == DisplayPlan(currentPage - 1, currentPage, Span(currentPage, currentPage + 1, pageCount)))
      && (!narrow && 1 < currentPage < pageCount && currentPage % 2 == 1 ==>
            plan == DisplayPlan(currentPage - 2, currentPage - 1, Span(currentPage - 1, currentPage, pageCount)))
  {
  }

  /** The label always names exactly the pages in the two slots (1-based). */
  lemma LabelNamesDisplayedPages(currentPage: int, pageCount: nat, narrow: bool)
    requires 1 <= currentPage <= pageCount
    ensures var plan := GetDisplayedPages(currentPage, pageCount, narrow);
      && plan.caption.total == pageCount
      && (plan.caption.Single? <==> plan.leftPageIndex == -1)
      && (plan.caption.Single? ==> plan.caption.page == plan.rightPageIndex + 1)
      && (plan.caption.Span? ==>
            plan.caption.first == plan.leftPageIndex + 1 && plan.caption.last == plan.rightPageIndex + 1
            && plan.caption.last == plan.caption.first + 1)
  {
  }

  /** The two pages of a spread resolve to the same plan whichever of them is current. */
  lemma SpreadPartnersShareAPlan(evenPage: int, pageCount: nat)
    requires 2 <= evenPage && evenPage + 1 < pageCount && evenPage % 2 == 0
    ensures GetDisplayedPages(evenPage, pageCount, false) == GetDisplayedPages(evenPage + 1, pageCount, false)
  {
  }

  /** A rendered label is a range ("a-b/N") exactly when it holds a '-'. */
  lemma {:induction false} SpanTextHasDash(lbl: PageLabel)
    ensures lbl.Span? <==> '-' in lbl.Text()
  {
    match lbl
    case Single(p, n) =>
      var a, b := NatToString(p), NatToString(n);
      assert lbl.Text() == a + "/" + b;
      forall i | 0 <= i < |lbl.Text()| ensures lbl.Text()[i] != '-' {
        if i < |a| { assert lbl.Text()[i] == a[i]; }
        else if i > |a| { assert lbl.Text()[i] == b[i - |a| - 1]; }
      }
    case Span(x, y, n) =>
      var a := NatToString(x);
      assert lbl.Text()[|a|] == '-';
  }

  /** `isSinglePageView`. */
  predicate IsSinglePageView(pageNumber: int, pageCount: nat, narrow: bool) {
    narrow || pageNumber == 1 || pageNumber == pageCount
  }

  /** The single-page container style is chosen exactly when the plan leaves the left slot empty. */
  lemma SingleViewIffNoLeftPage(currentPage: int, pageCount: nat, narrow: bool)
    requires 1 <= currentPage <= pageCount
    ensures IsSinglePageView(currentPage, pageCount, narrow)
        <==> GetDisplayedPages(currentPage, pageCount, narrow).leftPageIndex == -1
  {
  }

  const DragCommitDistance := 100
  const MinSwipeDistance := 50
  const MaxSwipeTime := 500

  /** The partial flip shown while dragging: `Math.min(Math.abs(dx) / 300, 0.4) * 100`. */
  function DragProgress(dragX: int): (r: real)
    ensures 0.0 <= r <= 40.0
    ensures r == 40.0 <==> Abs(dragX) >= 120
    ensures r == 0.0 <==> dragX == 0
  {
    var ratio := Abs(dragX) as real / 300.0;
    (if ratio < 0.4 then ratio else 0.4) * 100.0
  }

  /** A longer drag never shows less progress. */
  lemma DragProgressMonotone(a: int, b: int)
    requires Abs(a) <= Abs(b)
    ensures DragProgress(a) <= DragProgress(b)
  {
  }

  datatype Release = SnapBack | Turn(target: int)

  /** What `handleDragEnd` does with a finished drag of `dragX` pixels. */
  function ReleaseOf(dragX: int, currentPage: int, pageCount: int): (r: Release)
    ensures r.Turn? <==> Abs(dragX) > DragCommitDistance
                         && ((dragX > 0 && currentPage > 1) || (dragX < 0 && currentPage < pageCount))
    ensures r.Turn? && dragX > 0 ==> r.target == currentPage - 1
    ensures r.Turn? && dragX < 0 ==> r.target == currentPage + 1
    ensures r.Turn? && 1 <= currentPage <= pageCount ==> 1 <= r.target <= pageCount && r.target != currentPage
  {
    if Abs(dragX) > DragCommitDistance then
      if dragX > 0 && currentPage > 1 then Turn(currentPage - 1)
      else if dragX < 0 && currentPage < pageCount then Turn(currentPage + 1)
      else SnapBack
    else SnapBack
  }

  /** The page a finished single-finger swipe asks for, if any (`handleTouchEnd`). */
  function SwipeTarget(dx: int, dy: int, elapsed: int, currentPage: int, pageCount: int): (r: Option<int>)
    ensures r.Some? <==> Abs(dx) > Abs(dy) && Abs(dx) > MinSwipeDistance && elapsed < MaxSwipeTime
                         && ((dx > 0 && currentPage > 1) || (dx < 0 && currentPage < pageCount))
    ensures r.Some? ==> r.value == (if dx > 0 then currentPage - 1 else currentPage + 1)
    ensures r.Some? && 1 <= currentPage <= pageCount ==> 1 <= r.value <= pageCount
  {
    if Abs(dx) > Abs(dy) && Abs(dx) > MinSwipeDistance && elapsed < MaxSwipeTime then
      if dx > 0 then (if currentPage > 1 then Some(currentPage - 1) else None)
      else (if currentPage < pageCount then Some(currentPage + 1) else None)
    else None
  }

  datatype Point = Point(x: int, y: int)

  datatype TouchPosition = TouchPosition(startX: int, startY: int, startTime: int)

  /** The viewer's gesture and flip state. Pinch zoom is reduced to whether a pinch is under way
      (`pinchStart !== null`); its distances and the zoom it requests are not modelled. */
  class Gestures {
    var isFlipping: bool
    var flipDirection: Option<FlipDirection>
    var flipProgress: real
    var prevPage: int
    var isDragging: bool
    var dragX: int
    var dragStartX: int
    var canDrag: bool
    var position: Point
    var panStart: Option<Point>
    var touchStart: Option<TouchPosition>
    var touchEnd: Option<TouchPosition>
    var pinching: bool
    var swipeIndicator: Option<FlipDirection>

    /** Only drags set the progress; the eased animation curve is not modelled. */
    ghost predicate Valid()
      reads this
    {
      0.0 <= flipProgress <= 40.0
    }

    constructor (currentPage: int)
      ensures Valid()
      ensures prevPage == currentPage && !isFlipping && flipDirection == None && flipProgress == 0.0
      ensures !isDragging && dragX == 0 && dragStartX == 0 && canDrag
      ensures position == Point(0, 0) && panStart == None && touchStart == None && touchEnd == None
      ensures !pinching && swipeIndicator == None
    {
      isFlipping, flipDirection, flipProgress, prevPage := false, None, 0.0, currentPage;
      isDragging, dragX, dragStartX, canDrag := false, 0, 0, true;
      position, panStart, touchStart, touchEnd := Point(0, 0), None, None, None;
      pinching, swipeIndicator := false, None;
    }

    /** `handleDragStart`: ignored while a flip runs or dragging is disabled. */
    method DragStart(clientX: int)
      modifies this`isDragging, this`dragStartX, this`dragX
      ensures old(isFlipping || !canDrag) ==> unchanged(this)
      ensures old(!isFlipping && canDrag) ==> isDragging && dragStartX == clientX && dragX == 0
    {
      if isFlipping || !canDrag {
        return;
      }
      isDragging, dragStartX, dragX := true, clientX, 0;
    }

    /** `handleDragMove`: the offset from the start, its direction and the partial progress. */
    method DragMove(clientX: int)
      requires Valid()
      modifies this`dragX, this`flipDirection, this`flipProgress
      ensures Valid()
      ensures old(!isDragging || isFlipping) ==> unchanged(this)
      ensures old(isDragging && !isFlipping) ==>
        && dragX == clientX - dragStartX
        && flipDirection == Some(if dragX > 0 then Backward else Forward)
        && flipProgress == DragProgress(dragX)
    {
      if !isDragging || isFlipping {
        return;
      }
      var newDragX := clientX - dragStartX;
      dragX := newDragX;
      flipDirection := Some(if newDragX > 0 then Backward else Forward);
      flipProgress := DragProgress(newDragX);
    }

    /** `handleDragEnd`, with dragging disabled only when a page turn is requested (the flip that
        follows re-enables it). Returns the page passed to `onPageChange`, if any. */
    method DragEnd(currentPage: int, pageCount: int) returns (request: Option<int>)
      requires Valid()
      modifies this`canDrag, this`isDragging, this`dragX, this`flipProgress, this`flipDirection
      ensures Valid()
      ensures old(!isDragging || isFlipping) ==> unchanged(this) && request == None
      ensures old(isDragging && !isFlipping) ==>
        match ReleaseOf(old(dragX), currentPage, pageCount)
        case Turn(target) =>
          request == Some(target) && !canDrag && isDragging && dragX == old(dragX)
          && flipProgress == old(flipProgress) && flipDirection == old(flipDirection)
        case SnapBack =>
          request == None && canDrag == old(canDrag)
          && !isDragging && dragX == 0 && flipProgress == 0.0 && flipDirection == None
      ensures !canDrag ==> request.Some? || !old(canDrag)
    {
      request := None;
      if !isDragging || isFlipping {
        return;
      }
      match ReleaseOf(dragX, currentPage, pageCount)
      case Turn(target) =>
        canDrag := false;
        request := Some(target);
      case SnapBack =>
        isDragging, dragX, flipProgress, flipDirection := false, 0, 0.0, None;
    }

    /** `handleDragEnd` as the source writes it: dragging is disabled for every release past
        the threshold, even one that snaps back at the first or last page. */
    method DragEndAsWritten(currentPage: int, pageCount: int) returns (request: Option<int>)
      requires Valid()
      modifies this`canDrag, this`isDragging, this`dragX, this`flipProgress, this`flipDirection
      ensures Valid()
      ensures old(!isDragging || isFlipping) ==> unchanged(this) && request == None
      ensures old(isDragging && !isFlipping) ==>
        canDrag == (old(canDrag) && Abs(old(dragX)) <= DragCommitDistance)
      ensures old(isDragging && !isFlipping) && ReleaseOf(old(dragX), currentPage, pageCount).SnapBack? ==>
        !isDragging && dragX == 0 && flipProgress == 0.0 && flipDirection == None
      ensures old(isDragging && !isFlipping) && ReleaseOf(old(dragX), currentPage, pageCount).Turn? ==>
        isDragging && dragX == old(dragX) && flipProgress == old(flipProgress) && flipDirection == old(flipDirection)
      ensures old(isDragging && !isFlipping) ==> request == match ReleaseOf(old(dragX), currentPage, pageCount)
                                                            case Turn(target) => Some(target)
                                                            case SnapBack => None
    {
      request := None;
      if !isDragging || isFlipping {
        return;
      }
      if Abs(dragX) > DragCommitDistance {
        canDrag := false;
        if dragX > 0 && currentPage > 1 {
          request := Some(currentPage - 1);
        } else if dragX < 0 && currentPage < pageCount {
          request := Some(currentPage + 1);
        } else {
          isDragging, dragX, flipProgress, flipDirection := false, 0, 0.0, None;
        }
      } else {
        isDragging, dragX, flipProgress, flipDirection := false, 0, 0.0, None;
      }
    }

    /** `handleMouseDown`: when zoomed in the mouse pans the page, otherwise it starts a drag. */
    method MouseDown(x: int, y: int, zoomLevel: real)
      modifies this`panStart, this`isDragging, this`dragStartX, this`dragX
      ensures zoomLevel > 1.0 ==>
        && panStart == Some(Point(x, y))
        && isDragging == old(isDragging) && dragStartX == old(dragStartX) && dragX == old(dragX)
      ensures zoomLevel <= 1.0 ==>
        && panStart == old(panStart)
        && (old(isFlipping || !canDrag) ==> unchanged(this))
        && (old(!isFlipping && canDrag) ==> isDragging && dragStartX == x && dragX == 0)
    {
      if zoomLevel > 1.0 {
        panStart := Some(Point(x, y));
      } else {
        DragStart(x);
      }
    }

    /** `handleMouseMove`: pans by the mouse's movement while zoomed with a pan under way,
        otherwise moves the drag. */
    method MouseMove(x: int, y: int, zoomLevel: real)
      requires Valid()
      modifies this`position, this`panStart, this`dragX, this`flipDirection, this`flipProgress
      ensures Valid()
      ensures zoomLevel > 1.0 && old(panStart).Some? ==>
        && position == Point(old(position).x + x - old(panStart).value.x, old(position).y + y - old(panStart).value.y)
        && panStart == Some(Point(x, y))
        && dragX == old(dragX) && flipDirection == old(flipDirection) && flipProgress == old(flipProgress)
      ensures !(zoomLevel > 1.0 && old(panStart).Some?) ==>
        && position == old(position) && panStart == old(panStart)
        && (old(!isDragging || isFlipping) ==> unchanged(this))
        && (old(isDragging && !isFlipping) ==>
              dragX == x - dragStartX && flipProgress == DragProgress(dragX)
              && flipDirection == Some(if dragX > 0 then Backward else Forward))
    {
      if zoomLevel > 1.0 && panStart.Some? {
        var start := panStart.value;
        position := Point(position.x + (x - start.x), position.y + (y - start.y));
        panStart := Some(Point(x, y));
      } else {
        DragMove(x);
      }
    }

    /** `handleMouseUp` (also bound to mouse-leave): ends a pan when zoomed, otherwise releases
        the drag. */
    method MouseUp(zoomLevel: real, currentPage: int, pageCount: int) returns (request: Option<int>)
      requires Valid()
      modifies this`panStart, this`canDrag, this`isDragging, this`dragX, this`flipProgress, this`flipDirection
      ensures Valid()
      ensures zoomLevel > 1.0 ==>
        && panStart == None && request == None
        && canDrag == old(canDrag) && isDragging == old(isDragging) && dragX == old(dragX)
        && flipProgress == old(flipProgress) && flipDirection == old(flipDirection)
      ensures zoomLevel <= 1.0 ==>
        && panStart == old(panStart)
        && (old(!isDragging || isFlipping) ==> unchanged(this) && request == None)
        && (old(isDragging && !isFlipping) ==>
              match ReleaseOf(old(dragX), currentPage, pageCount)
              case Turn(target) =>
                request == Some(target) && !canDrag && isDragging && dragX == old(dragX)
                && flipProgress == old(flipProgress) && flipDirection == old(flipDirection)
              case SnapBack =>
                request == None && canDrag == old(canDrag)
                && !isDragging && dragX == 0 && flipProgress == 0.0 && flipDirection == None)
    {
      request := None;
      if zoomLevel > 1.0 {
        panStart := None;
      } else {
        request := DragEnd(currentPage, pageCount);
      }
    }

    /** `handleTouchStart`: records where and when the touch began, starts a drag, and notes
        whether two fingers are down. */
    method TouchStart(x: int, y: int, now: int, touchCount: nat)
      modifies this`touchStart, this`touchEnd, this`pinching, this`isDragging, this`dragStartX, this`dragX
      ensures touchStart == Some(TouchPosition(x, y, now)) && touchEnd == None
      ensures pinching == (touchCount == 2)
      ensures old(isFlipping || !canDrag) ==>
        isDragging == old(isDragging) && dragStartX == old(dragStartX) && dragX == old(dragX)
      ensures old(!isFlipping && canDrag) ==> isDragging && dragStartX == x && dragX == 0
    {
      touchStart := Some(TouchPosition(x, y, now));
      DragStart(x);
      pinching := touchCount == 2;
      touchEnd := None;
    }

    /** `handleTouchMove`: moves the drag; then a pinch (not modelled further) ends the handler,
        a zoomed single finger pans, an unzoomed one shows the swipe hint past 20 pixels. */
    method TouchMove(x: int, y: int, touchCount: nat, zoomLevel: real, canZoom: bool)
      requires Valid()
      modifies this`dragX, this`flipDirection, this`flipProgress, this`position, this`touchStart, this`swipeIndicator
      ensures Valid()
      ensures old(isDragging && !isFlipping) ==>
        dragX == x - dragStartX && flipProgress == DragProgress(dragX)
        && flipDirection == Some(if dragX > 0 then Backward else Forward)
      ensures old(!isDragging || isFlipping) ==>
        dragX == old(dragX) && flipProgress == old(flipProgress) && flipDirection == old(flipDirection)
      ensures touchCount == 2 && pinching && canZoom ==>
        position == old(position) && touchStart == old(touchStart) && swipeIndicator == old(swipeIndicator)
      ensures !(touchCount == 2 && pinching && canZoom) && touchCount == 1 && zoomLevel > 1.0 && old(touchStart).Some? ==>
        var t := old(touchStart).value;
        && position == Point(old(position).x + x - t.startX, old(position).y + y - t.startY)
        && touchStart == Some(TouchPosition(x, y, t.startTime))
        && swipeIndicator == old(swipeIndicator)
      ensures !(touchCount == 2 && pinching && canZoom) && touchCount == 1 && zoomLevel <= 1.0 && old(touchStart).Some? ==>
        var dx := x - old(touchStart).value.startX;
        && position == old(position) && touchStart == old(touchStart)
        && swipeIndicator == (if Abs(dx) > 20 then Some(if dx > 0 then Backward else Forward) else None)
      ensures !(touchCount == 2 && pinching && canZoom) && (touchCount != 1 || old(touchStart).None?) ==>
        position == old(position) && touchStart == old(touchStart) && swipeIndicator == old(swipeIndicator)
    {
      DragMove(x);
      if touchCount == 2 && pinching && canZoom {
        return;
      }
      var start := touchStart;
      if touchCount == 1 && zoomLevel > 1.0 && start.Some? {
        var t := start.value;
        position := Point(position.x + (x - t.startX), position.y + (y - t.startY));
        touchStart := Some(TouchPosition(x, y, t.startTime));
      }
      if touchCount == 1 && start.Some? && zoomLevel <= 1.0 {
        var dx := x - start.value.startX;
        swipeIndicator := if Abs(dx) > 20 then Some(if dx > 0 then Backward else Forward) else None;
      }
    }

    /** `handleTouchEnd`: releases the drag, then (without a pinch and unzoomed) classifies the
        touch as a swipe. Returns the pages the drag release and the swipe pass to
        `onPageChange`; the source may call it twice for one gesture. */
    method TouchEnd(endX: int, endY: int, now: int, currentPage: int, pageCount: int, zoomLevel: real)
      returns (dragRequest: Option<int>, swipeRequest: Option<int>)
      requires Valid()
      modifies this`canDrag, this`isDragging, this`dragX, this`flipProgress, this`flipDirection
      modifies this`touchStart, this`touchEnd, this`pinching, this`swipeIndicator
      ensures Valid()
      ensures old(!isDragging || isFlipping) ==>
        && dragRequest == None && canDrag == old(canDrag) && isDragging == old(isDragging)
        && dragX == old(dragX) && flipProgress == old(flipProgress) && flipDirection == old(flipDirection)
      ensures old(isDragging && !isFlipping) ==>
        match ReleaseOf(old(dragX), currentPage, pageCount)
        case Turn(target) =>
          dragRequest == Some(target) && !canDrag && isDragging && dragX == old(dragX)
          && flipProgress == old(flipProgress) && flipDirection == old(flipDirection)
        case SnapBack =>
          dragRequest == None && canDrag == old(canDrag)
          && !isDragging && dragX == 0 && flipProgress == 0.0 && flipDirection == None
      ensures old(touchStart).None? ==>
        swipeRequest == None && touchStart == None && touchEnd == old(touchEnd)
        && pinching == old(pinching) && swipeIndicator == old(swipeIndicator)
      ensures old(touchStart).Some? ==> swipeIndicator == None
      ensures old(touchStart).Some? && old(pinching) ==>
        !pinching && swipeRequest == None && touchStart == old(touchStart) && touchEnd == old(touchEnd)
      ensures old(touchStart).Some? && !old(pinching) && zoomLevel > 1.0 ==>
        swipeRequest == None && touchStart == None && touchEnd == old(touchEnd) && !pinching
      ensures old(touchStart).Some? && !old(pinching) && zoomLevel <= 1.0 ==>
        var t := old(touchStart).value;
        && swipeRequest == SwipeTarget(endX - t.startX, endY - t.startY, now - t.startTime, currentPage, pageCount)
        && touchStart == None && touchEnd == Some(TouchPosition(endX, endY, now)) && !pinching
    {
      dragRequest := DragEnd(currentPage, pageCount);
      swipeRequest := None;
      if touchStart.None? {
        return;
      }
      var t := touchStart.value;
      swipeIndicator := None;
      if pinching {
        pinching := false;
        return;
      }
      if zoomLevel > 1.0 {
        touchStart := None;
        return;
      }
      touchEnd := Some(TouchPosition(endX, endY, now));
      swipeRequest := SwipeTarget(endX - t.startX, endY - t.startY, now - t.startTime, currentPage, pageCount);
      touchStart := None;
    }

    /** The effect run when `currentPage` changes: starts the flip in the direction of travel and
        resets the pan offset. */
    method OnPageChange(currentPage: int)
      modifies this`flipDirection, this`isFlipping, this`prevPage, this`position
      ensures currentPage == old(prevPage) ==> unchanged(this)
      ensures currentPage != old(prevPage) ==>
        && flipDirection == Some(if currentPage > old(prevPage) then Forward else Backward)
        && isFlipping && prevPage == currentPage && position == Point(0, 0)
    {
      if currentPage != prevPage {
        flipDirection := Some(if currentPage > prevPage then Forward else Backward);
        isFlipping := true;
        prevPage := currentPage;
        position := Point(0, 0);
      }
    }

    /** The last frame of the flip animation: back to idle with dragging re-enabled. */
    method FinishFlip()
      modifies this`isFlipping, this`flipDirection, this`flipProgress, this`isDragging, this`dragX, this`canDrag
      ensures Valid()
      ensures !isFlipping && flipDirection == None && flipProgress == 0.0
      ensures !isDragging && dragX == 0 && canDrag
    {
      isFlipping, flipDirection, flipProgress := false, None, 0.0;
      isDragging, dragX, canDrag := false, 0, true;
    }
  }

  /** Over-dragging backward on page 1 with the source's release handler leaves the viewer
      refusing every later drag: no page turn is requested, so no flip ever re-enables it. */
  method DragLockOnFirstPage() returns (nextDragStarted: bool)
    ensures !nextDragStarted
  {
    var g := new Gestures(1);
    g.DragStart(0);
    g.DragMove(150);
    var request := g.DragEndAsWritten(1, 5);
    assert request == None && !g.isFlipping;
    g.DragStart(0);
    nextDragStarted := g.isDragging;
  }

  /** The same gesture with the corrected release handler leaves the next drag free to start. */
  method DragAfterSnapBackOnFirstPage() returns (nextDragStarted: bool)
    ensures nextDragStarted
  {
    var g := new Gestures(1);
    g.DragStart(0);
    g.DragMove(150);
    var request := g.DragEnd(1, 5);
    assert request == None;
    g.DragStart(0);
    nextDragStarted := g.isDragging;
  }
}
