/** The tracking screen (views/TrackView.tsx): ready, draft and recording
    statuses, the draft dialog that leads into recording, a voice overlay
    opened from the recording controls, and a status handed over in the
    navigation state. */
module Track {
  import opened Types

  /** The status is whatever string the navigation state carried; the screen
      only ever compares it with "draft" and "recording". */
  type Status = string

  const READY: Status := "ready"
  const DRAFT: Status := "draft"
  const RECORDING: Status := "recording"

  datatype Screen = Screen(status: Status, isRecordingVoice: bool)

  /** `location.state?.status || 'ready'`: a non-empty status from the
      navigation state, else ready. */
  function FromNav(nav: Option<string>, fallback: Status): (s: Status)
    ensures nav.Some? && nav.value != "" ==> s == nav.value
    ensures nav.None? || nav.value == "" ==> s == fallback
  {
    if nav.Some? && nav.value != "" then nav.value else fallback
  }

  /** The screen as it mounts; the voice overlay starts closed. */
  function Opened(nav: Option<string>): (s: Screen)
    ensures s.status == READY <==> nav.None? || nav.value == "" || nav.value == READY
    ensures !s.isRecordingVoice
  {
    Screen(FromNav(nav, READY), false)
  }

  /** The effect on a new navigation state: a non-empty status replaces the
      current one, anything else keeps it. */
  function NavChanged(s: Screen, nav: Option<string>): (r: Screen)
    ensures r.isRecordingVoice == s.isRecordingVoice
    ensures nav.None? || nav.value == "" ==> r == s
  {
    s.(status := FromNav(nav, s.status))
  }

  /** The mount effect runs once with the state the screen opened with, and
      leaves the screen as it opened. */
  lemma MountEffectIsIdle(nav: Option<string>)
    ensures NavChanged(Opened(nav), nav) == Opened(nav)
  {
  }

  /** What is drawn: the recording controls exactly in the recording status,
      the ready panel otherwise; the draft dialog in the draft status; the
      page is blurred behind the dialog or the voice overlay. */
  predicate ShowsRecordingUI(s: Screen) {
    s.status == RECORDING
  }

  predicate ShowsDraftDialog(s: Screen) {
    s.status == DRAFT
  }

  predicate Blurred(s: Screen) {
    s.status == DRAFT || s.isRecordingVoice
  }

  datatype Event =
    | PressStart        // the play button of the ready panel
    | LoadDraft         // the dialog's 加载草稿
    | NewRecord         // the dialog's 开启新记录
    | PressMic          // the microphone of the recording controls
    | CloseVoice        // the overlay's backdrop or close button
    | StopVoice         // the overlay's stop button

  /** Whether the control is drawn and not covered. The dialog and the voice
      overlay each cover the whole page. */
  predicate Available(s: Screen, ev: Event) {
    match ev
    case PressStart => !ShowsRecordingUI(s) && !ShowsDraftDialog(s) && !s.isRecordingVoice
    case LoadDraft | NewRecord => ShowsDraftDialog(s) && !s.isRecordingVoice
    case PressMic => ShowsRecordingUI(s) && !s.isRecordingVoice
    case CloseVoice | StopVoice => s.isRecordingVoice
  }

  function Step(s: Screen, ev: Event): (r: Screen)
    ensures !Available(s, ev) ==> r == s
  {
    if !Available(s, ev) then s
    else match ev
      case PressStart => s.(status := DRAFT)
      case LoadDraft => s.(status := RECORDING)
      case NewRecord => s.(status := RECORDING)
      case PressMic => s.(isRecordingVoice := true)
      case CloseVoice => s.(isRecordingVoice := false)
      case StopVoice => s.(isRecordingVoice := false)
  }

  /** Through the screen's own controls recording is entered only from the
      draft dialog (either button), the draft dialog only from the play
      button, and the voice overlay only from the recording controls. */
  lemma Transitions(s: Screen, ev: Event)
    ensures Step(s, ev).status == RECORDING && s.status != RECORDING <==>
      s.status == DRAFT && !s.isRecordingVoice && (ev.LoadDraft? || ev.NewRecord?)
    ensures Step(s, ev).status == DRAFT && s.status != DRAFT <==> Available(s, ev) && ev.PressStart?
    ensures Step(s, ev).isRecordingVoice && !s.isRecordingVoice <==> ShowsRecordingUI(s) && !s.isRecordingVoice && ev.PressMic?
    ensures s.status == RECORDING ==> Step(s, ev).status == RECORDING
    ensures s.isRecordingVoice && (ev.CloseVoice? || ev.StopVoice?) ==> !Step(s, ev).isRecordingVoice && Step(s, ev).status == s.status
  {
  }

  /** The voice overlay is only ever open over the recording controls. */
  predicate Invariant(s: Screen) {
    s.isRecordingVoice ==> s.status == RECORDING
  }

  lemma OpenedInvariant(nav: Option<string>)
    ensures Invariant(Opened(nav))
  {
  }

  lemma StepPreserves(s: Screen, ev: Event)
    requires Invariant(s)
    ensures Invariant(Step(s, ev))
  {
  }

  /** A navigation state keeps the invariant unless it names another status
      while the overlay is open: then the overlay stays open over the ready
      panel. */
  lemma NavChangedPreserves(s: Screen, nav: Option<string>)
    requires Invariant(s)
    ensures Invariant(NavChanged(s, nav)) <==>
      !s.isRecordingVoice || nav.None? || nav.value == "" || nav.value == RECORDING
  {
  }

  /** The screen after a run of events. */
  function Run(s: Screen, es: seq<Event>): Screen
    decreases |es|
  {
    if |es| == 0 then s else Run(Step(s, es[0]), es[1..])
  }

  /** Some step of the run starts from the draft dialog. */
  ghost predicate PassesDraft(s: Screen, es: seq<Event>)
    decreases |es|
  {
    |es| > 0 && (s.status == DRAFT || PassesDraft(Step(s, es[0]), es[1..]))
  }

  /** A run that starts outside recording and ends in it shows the draft
      dialog at some step. */
  lemma {:induction false} RecordingNeedsDraft(s: Screen, es: seq<Event>)
    requires s.status != RECORDING
    ensures Run(s, es).status == RECORDING ==> PassesDraft(s, es)
    decreases |es|
  {
    if |es| > 0 && s.status != DRAFT {
      var t := Step(s, es[0]);
      Transitions(s, es[0]);
      assert t.status != RECORDING;
      RecordingNeedsDraft(t, es[1..]);
    }
  }

  /** From a screen opened without a navigation status, any run of events
      reaches recording only by way of the draft dialog. */
  lemma FreshStartRecordsOnlyAfterDraft(es: seq<Event>)
    ensures Run(Opened(None), es).status == RECORDING ==> PassesDraft(Opened(None), es)
  {
    RecordingNeedsDraft(Opened(None), es);
  }
}
