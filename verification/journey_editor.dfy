/** The journey editor (views/JourneyEditorView.tsx): a status machine over
    idle, the add-record menu, voice recording and title editing; an editable
    title with a clear button; and a timeline slider whose position, in whole
    percent, names a time of day. */
module JourneyEditor {
  import opened Types
  import opened Text

  datatype Status = Idle | Menu | Recording | EditingTitle

  /** The slider position: whole percent, or NaN after a press on a slider of
      zero width (`0 / 0`). */
  datatype Progress = Percent(value: int) | NotANumber

  /** What `getBoundingClientRect()` tells about the slider track. */
  datatype Rect = Rect(left: real, width: real)

  /** The screen's state. `focused` says whether the title input holds the
      keyboard focus: the status names the wrapper's styling, not the focus,
      since a tap on the wrapper's padding sets editing_title without focusing
      the input, and focus can come back to the input while idle. */
  datatype Editor = Editor(status: Status, title: string, progress: Progress, isDragging: bool, focused: bool)

  const INITIAL_TITLE: string := "在大理的洱海边骑行"

  const INITIAL: Editor := Editor(Idle, INITIAL_TITLE, Percent(65), false, false)

  /** `Math.round`: the nearest integer, halves rounded up. */
  function Round(v: real): (n: int)
    ensures n as real - 0.5 <= v < n as real + 0.5
  {
    (v + 0.5).Floor
  }

  /** `Math.max(0, Math.min(d, width))`. */
  function Clamp(d: real, width: real): (x: real)
    ensures x >= 0.0 && (width >= 0.0 ==> x <= width)
    ensures 0.0 <= d <= width ==> x == d
    ensures d < 0.0 ==> x == 0.0
    ensures d > width && width >= 0.0 ==> x == width
  {
    var m := if d < width then d else width;
    if m > 0.0 then m else 0.0
  }

  /** The percentage a pointer at `clientX` sets: the offset into the track,
      clamped to the track, as a rounded share of its width. A track of zero
      width gives NaN; a positive width gives a whole percent from 0 to 100,
      0 left of the track and 100 right of it. */
  function SliderPercent(clientX: real, rect: Rect): (p: Progress)
    ensures rect.width == 0.0 <==> p.NotANumber?
    ensures p.Percent? ==> 0 <= p.value <= 100
    ensures rect.width > 0.0 && clientX <= rect.left ==> p == Percent(0)
    ensures rect.width > 0.0 && clientX >= rect.left + rect.width ==> p == Percent(100)
  {
    var x := Clamp(clientX - rect.left, rect.width);
    if rect.width == 0.0 then NotANumber
    else
      var share := x / rect.width * 100.0;
      assert 0.0 <= share <= 100.0 && (x == rect.width ==> share == 100.0) by {
        if rect.width > 0.0 {
          ShareAtMostOne(x, rect.width);
        } else {
          assert x == 0.0 && share == 0.0;
        }
      }
      Percent(Round(share))
  }

  lemma ShareAtMostOne(x: real, w: real)
    requires 0.0 <= x <= w && w > 0.0
    ensures 0.0 <= x / w <= 1.0
    ensures x == w ==> x / w == 1.0
  {
    assert x / w * w == x;
  }

  /** Inside the track the percentage is the pointer's share of the width to
      within half a percent. */
  lemma SliderTracksPointer(clientX: real, rect: Rect)
    requires rect.width > 0.0 && rect.left <= clientX <= rect.left + rect.width
    ensures var v := (clientX - rect.left) / rect.width * 100.0;
      SliderPercent(clientX, rect).value as real - 0.5 <= v < SliderPercent(clientX, rect).value as real + 0.5
  {
  }

  /** Moving the pointer right never moves the slider left. */
  lemma SliderMonotone(c1: real, c2: real, rect: Rect)
    requires rect.width > 0.0 && c1 <= c2
    ensures SliderPercent(c1, rect).value <= SliderPercent(c2, rect).value
  {
    var x1 := Clamp(c1 - rect.left, rect.width);
    var x2 := Clamp(c2 - rect.left, rect.width);
    assert x1 <= x2;
    var s1 := x1 / rect.width * 100.0;
    var s2 := x2 / rect.width * 100.0;
    assert s1 <= s2 by {
      assert x1 / rect.width <= x2 / rect.width;
    }
    assert (s1 + 0.5).Floor <= (s2 + 0.5).Floor;
  }

  /** The half of the day the slider's badge names. */
  function Meridiem(p: int): string {
    if p < 50 then "上午" else "下午"
  }

  /** The hour the badge shows: `Math.floor(p / 100 * 12) + 1`. */
  function Hour(p: int): (h: int)
    ensures 0 <= p <= 100 ==> 1 <= h <= 13
  {
    (p as real / 100.0 * 12.0).Floor + 1
  }

  /** The badge's hours grow with the slider: the morning runs from 1 to 6,
      the afternoon from 7 to 13, and 13 is shown only at the right end. */
  lemma HourRanges(p: int, q: int)
    requires 0 <= p <= q <= 100
    ensures Hour(p) <= Hour(q)
    ensures Meridiem(p) == "上午" <==> p < 50
    ensures p < 50 ==> 1 <= Hour(p) <= 6
    ensures p >= 50 ==> 7 <= Hour(p) <= 13
    ensures Hour(p) == 13 <==> p == 100
  {
    assert p as real / 100.0 * 12.0 <= q as real / 100.0 * 12.0;
    if p < 50 {
      assert p as real / 100.0 * 12.0 < 6.0;
    } else {
      assert p as real / 100.0 * 12.0 >= 6.0;
    }
    if p < 100 {
      assert p as real / 100.0 * 12.0 < 12.0;
    }
  }

  /** The badge text, `上午 8:30` and the like; NaN fails `< 50` and prints as `NaN`. */
  function TimeLabel(p: Progress): (text: string)
    ensures p.Percent? ==> text == Meridiem(p.value) + " " + IntToString(Hour(p.value)) + ":30"
    ensures p.NotANumber? ==> text == "下午 NaN:30"
  {
    match p
    case Percent(v) => Meridiem(v) + " " + IntToString(Hour(v)) + ":30"
    case NotANumber => "下午 NaN:30"
  }

  /** The opening badge: 65% reads 下午 8:30. */
  lemma InitialLabel()
    ensures TimeLabel(INITIAL.progress) == "下午 8:30"
  {
    assert Hour(65) == 8;
  }

  /** What the user can do with the pointer. The menu and the recording
      overlay cover the whole screen, so while one is open only its own
      controls respond to a press (keyboard focus, which reaches the page
      under them, is not modelled).
      `TapTitle(onInput)` is a click on the title wrapper, on the input itself
      or on the wrapper's padding; `BlurTitle` is the input losing focus
      without a press on the page (the window losing focus), and
      `RefocusTitle` the focus returning to it without a click (the window
      regaining focus). */
  datatype Event =
    | TapPlus | TapBackdrop | TapMic | CloseOverlay | StopOverlay
    | TapTitle(onInput: bool) | TypeTitle(text: string) | ClearTitle | BlurTitle | RefocusTitle
    | PressSlider(clientX: real, rect: Option<Rect>) | PressHandle
    | Move(clientX: real, rect: Option<Rect>) | Release

  /** The page under the header is not covered by the menu or the overlay. */
  predicate PageReachable(e: Editor) {
    e.status == Idle || e.status == EditingTitle
  }

  /** Whether the control an event acts on can be reached. Typing and a blur
      need the focused input; the clear button is drawn only while editing;
      pointer moves and the release reach the page through window listeners
      at any time. */
  predicate Available(e: Editor, ev: Event) {
    match ev
    case TapBackdrop | TapMic => e.status == Menu
    case CloseOverlay | StopOverlay => e.status == Recording
    case TypeTitle(_) | BlurTitle => e.focused
    case RefocusTitle => !e.focused && PageReachable(e)
    case ClearTitle => e.status == EditingTitle
    case Move(_, _) | Release => true
    case TapPlus | TapTitle(_) | PressSlider(_, _) | PressHandle => PageReachable(e)
  }

  /** A press anywhere but on the input (or on the clear button, whose
      mouse-down is cancelled) takes the focus from the input; when it had
      the focus, its blur handler sets the status to idle before the press's
      own handler runs. */
  function Blurred(e: Editor): (r: Editor)
    ensures !r.focused
    ensures r.status == (if e.focused then Idle else e.status)
    ensures r.(status := e.status, focused := e.focused) == e
  {
    if e.focused then e.(status := Idle, focused := false) else e
  }

  /** One event. An event whose control is covered or not drawn changes
      nothing; a slider press on an unmounted slider still starts the drag;
      a move while not dragging is ignored. */
  function Step(e: Editor, ev: Event): (r: Editor)
    ensures !Available(e, ev) ==> r == e
    ensures Available(e, ev) && (ev.PressSlider? || ev.PressHandle?) ==>
      r.status == (if e.focused then Idle else e.status) && !r.focused && r.isDragging
    ensures Available(e, ev) && ev.TapTitle? ==> r.status == EditingTitle && (r.focused <==> ev.onInput)
  {
    if !Available(e, ev) then e
    else match ev
      case TapPlus => Blurred(e).(status := Menu)
      case TapBackdrop => Blurred(e).(status := Idle)
      case TapMic => Blurred(e).(status := Recording)
      case CloseOverlay => Blurred(e).(status := Idle)
      case StopOverlay => Blurred(e).(status := Idle)
      case TapTitle(onInput) =>
        if onInput then e.(status := EditingTitle, focused := true)
        else Blurred(e).(status := EditingTitle)
      case TypeTitle(t) => e.(title := t)
      case ClearTitle => e.(title := "", status := EditingTitle)
      case BlurTitle => e.(status := Idle, focused := false)
      case RefocusTitle => e.(focused := true)
      case PressSlider(x, rect) =>
        var p := if rect.Some? then SliderPercent(x, rect.value) else e.progress;
        Blurred(e).(progress := p, isDragging := true)
      case PressHandle => Blurred(e).(isDragging := true)
      case Move(x, rect) =>
        if e.isDragging && rect.Some? then e.(progress := SliderPercent(x, rect.value)) else e
      case Release => e.(isDragging := false)
  }

  /** Every status handler sets a fixed status whatever the status before it. */
  lemma FixedTargets(e: Editor, ev: Event)
    requires Available(e, ev)
    ensures ev.TapPlus? ==> Step(e, ev).status == Menu
    ensures ev.TapBackdrop? || ev.CloseOverlay? || ev.StopOverlay? || ev.BlurTitle? ==> Step(e, ev).status == Idle
    ensures ev.TapMic? ==> Step(e, ev).status == Recording
    ensures ev.TapTitle? ==> Step(e, ev).status == EditingTitle
  {
  }

  /** Whenever the slider holds a number it is a whole percent from 0 to 100,
      and the input holds the focus only while the page is not covered: with
      the pointer, every press that opens the menu or the overlay takes the
      focus away first. */
  predicate Invariant(e: Editor) {
    && (e.progress.Percent? ==> 0 <= e.progress.value <= 100)
    && (e.focused ==> PageReachable(e))
  }

  /** With pointer input, recording starts only from the menu's microphone,
      and the overlay's two buttons are the only way out of it, both back to
      idle. */
  lemma RecordingEntryAndExit(e: Editor, ev: Event)
    requires Invariant(e)
    ensures Step(e, ev).status == Recording && e.status != Recording <==> e.status == Menu && ev.TapMic?
    ensures e.status == Recording && Step(e, ev).status != Recording <==> (ev.CloseOverlay? || ev.StopOverlay?) && e.status == Recording
    ensures e.status == Recording ==> Step(e, ev).status in {Recording, Idle}
  {
  }

  /** The editing style is switched on only by a tap on the title. */
  lemma EditingEntry(e: Editor, ev: Event)
    ensures Step(e, ev).status == EditingTitle && e.status != EditingTitle <==> e.status == Idle && ev.TapTitle?
  {
  }

  /** A slider press blurs a focused input, which returns the status to idle;
      after a tap on the wrapper's padding the input has no focus, so the
      press leaves the status in editing_title. */
  lemma PaddingTapThenSlider(e: Editor, x: real, rect: Option<Rect>)
    requires PageReachable(e)
    ensures var t := Step(e, TapTitle(false));
      t.status == EditingTitle && !t.focused && Step(t, PressSlider(x, rect)).status == EditingTitle
    ensures var t := Step(e, TapTitle(true));
      t.status == EditingTitle && t.focused && Step(t, PressSlider(x, rect)).status == Idle
  {
  }

  /** The title changes only by typing into the focused input, whatever the
      status, or by the clear button while editing. The clear button empties
      the title and leaves the status and the focus as they were (its
      mouse-down keeps the focus). */
  lemma TitleChanges(e: Editor, ev: Event)
    ensures Step(e, ev).title != e.title ==> (ev.TypeTitle? && e.focused) || (ev.ClearTitle? && e.status == EditingTitle)
    ensures ev.TypeTitle? && e.focused ==> Step(e, ev) == e.(title := ev.text)
    ensures e.status == EditingTitle && ev.ClearTitle? ==>
      Step(e, ev).title == "" && Step(e, ev).status == EditingTitle && Step(e, ev).focused == e.focused
  {
  }

  /** Typing in status idle happens: tap the input, let the window take the
      focus away (the blur handler sets idle), give it back, and type. */
  lemma TypingWhileIdle(text: string)
    ensures var e := Step(Step(Step(INITIAL, TapTitle(true)), BlurTitle), RefocusTitle);
      e.status == Idle && e.focused && Step(e, TypeTitle(text)).title == text && Step(e, TypeTitle(text)).status == Idle
  {
  }

  /** The slider moves only under a press on the track or a move while
      dragging, and only when the track can be measured. */
  lemma ProgressChanges(e: Editor, ev: Event)
    ensures Step(e, ev).progress != e.progress ==>
      ((ev.PressSlider? && Available(e, ev)) || (ev.Move? && e.isDragging)) && ev.rect.Some?
  {
  }

  /** The invariant holds after every event; with tracks of positive width
      the slider never becomes NaN. */
  lemma StepPreserves(e: Editor, ev: Event)
    requires Invariant(e)
    ensures Invariant(Step(e, ev))
    ensures e.progress.Percent? && (ev.PressSlider? || ev.Move?) && (ev.rect.Some? ==> ev.rect.value.width > 0.0) ==>
      Step(e, ev).progress.Percent?
  {
  }

  lemma InitialInvariant()
    ensures Invariant(INITIAL) && INITIAL.status == Idle && !INITIAL.focused
  {
  }
}
