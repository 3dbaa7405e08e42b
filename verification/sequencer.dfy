/**
 * The quiz sequencer as a state machine over values: the session state of
 * maobi/quiz.js, the events the page can deliver to it (button clicks,
 * widget callbacks, expiring timers), and the state each event leads to.
 * The class in quiz.dfy is proved to follow these functions step by step.
 */
module Sequencer {
  import opened Seqs
  import opened Dom
  import opened Layout
  import opened Widget

  /** The note's data and the page settings, fixed for the life of the page. */
  datatype Config = Config(
    characters: seq<string>,
    charactersData: seq<StrokeData>,
    tones: seq<ToneKey>,
    toneColors: map<ToneKey, Color>,
    size: int,
    nightMode: bool)

  /** The `animation` argument of `quizNextCharacter`: 'none', 'default' or 'opacity'. */
  datatype Animation = NoAnimation | DefaultAnimation | OpacityAnimation

  /** A continuation the page has scheduled and will run later. */
  datatype Pending =
    | RepositionTimer              // 50 ms: repositionDivs()
    | AdvanceTimer                 // 200 ms after completion: quizNextCharacter('default')
    | FullRestartTimer             // 300 ms: tear everything down and start over
    | PartialRestartTimer          // 300 ms: redisplay the current character
    | RevealAnimation(writer: WriterId)  // the widget is animating the revealed character
    | ResumeTimer(writer: WriterId)      // 1000 ms after the reveal animation: quiz again

  /** The page's global state, plus the element store, the widget calls made so far and the pending continuations. */
  datatype Session = Session(
    index: int,                    // curCharacterIdx
    current: Option<ElemId>,       // curQuizDiv
    writer: Option<WriterId>,      // curWriter
    history: seq<ElemId>,          // prevCharacterDivs, most recent first
    completedStrokes: nat,         // completedStrokes
    restartInProgress: bool,       // restartQuizAnimationInProgress
    elements: seq<Element>,
    writersCreated: nat,
    widgetCalls: seq<WidgetCall>,
    pending: multiset<Pending>)

  /** Something the page delivers to the quiz. */
  datatype Event =
    | RevealClicked
    | RestartClicked
    | CorrectStroke(source: WriterId, strokeNum: nat)
    | QuizCompleted(source: WriterId)
    | RevealAnimationEnded(source: WriterId, canceled: bool)
    | Fire(task: Pending)

  /** The globals before the init code runs. */
  const Start := Session(-1, None, None, [], 0, false, [], 0, [], multiset{})

  /** Every character div the quiz still holds: the current one, then the trail. */
  function AllDivs(s: Session): seq<ElemId> {
    (if s.current.Some? then [s.current.value] else []) + s.history
  }

  /**
   * Structural invariant, also true between the statements of the restart
   * continuations: the index stays in [-1, length-1], the trail holds one div
   * per completed character, and every div is a distinct existing element.
   */
  ghost predicate Shape(c: Config, s: Session) {
    && -1 <= s.index < |c.characters|
    && |s.history| == (if s.current.Some? then s.index else s.index + 1)
    && (s.current.Some? ==> s.current.value < |s.elements| && s.current.value !in s.history)
    && (forall i :: 0 <= i < |s.history| ==> s.history[i] < |s.elements|)
    && Distinct(s.history)
    && (s.writer.Some? ==> s.writer.value < s.writersCreated)
    && (s.writersCreated > 0 ==> |c.characters| > 0)
  }

  /**
   * Invariant between events: a character is on display exactly when there is
   * one to show, and the restart flag is set exactly while one restart
   * continuation is pending.
   */
  ghost predicate Inv(c: Config, s: Session) {
    && Shape(c, s)
    && (s.current.Some? <==> |c.characters| > 0)
    && (s.completedStrokes > 0 ==> |c.characters| > 0)
    && (RepositionTimer in s.pending ==> |c.characters| > 0)
    && (PartialRestartTimer in s.pending ==> |c.characters| > 0)
    && s.pending[FullRestartTimer] + s.pending[PartialRestartTimer] == (if s.restartInProgress then 1 else 0)
  }

  /** Which events can happen: callbacks come from existing widgets, continuations only when scheduled. */
  ghost predicate Enabled(s: Session, e: Event) {
    match e
    case RevealClicked => true
    case RestartClicked => true
    case CorrectStroke(w, _) => w < s.writersCreated
    case QuizCompleted(w) => w < s.writersCreated
    case RevealAnimationEnded(w, _) => RevealAnimation(w) in s.pending
    case Fire(p) => p in s.pending && !p.RevealAnimation?
  }

  /** The div a new character is drawn in, as `quizNextCharacter` leaves it. */
  function EnteringElement(size: int, animation: Animation, idx: int): Element {
    var placed := Blank.(attached := true, marginLeft := RestingOffset(size));
    if animation == NoAnimation then placed
    else if idx > 0 && animation == DefaultAnimation then placed.(opacity := Transparent, marginLeft := EntryOffset(size))
    else placed.(opacity := Transparent)
  }

  /**
   * `quizNextCharacter(animation)`: unless the last character is showing, push
   * the current div onto the trail, create the next character's div and
   * widget, and schedule the reposition unless the animation is 'none'.
   */
  function Advance(c: Config, s: Session, animation: Animation): Session
    requires -1 <= s.index
  {
    if s.index < |c.characters| - 1 then
      var idx := s.index + 1;
      var div := |s.elements|;
      var w := s.writersCreated;
      s.(index := idx,
         history := if s.current.Some? then [s.current.value] + s.history else s.history,
         current := Some(div),
         elements := s.elements + [EnteringElement(c.size, animation, idx)],
         writer := Some(w),
         writersCreated := w + 1,
         widgetCalls := s.widgetCalls +
           [Create(w, div, c.characters[idx], Lookup(c.charactersData, idx),
                   StrokeColor(c.tones, c.toneColors, idx), DrawingColor(c.nightMode)),
            StartQuiz(w)],
         completedStrokes := 0,
         pending := if animation == NoAnimation then s.pending else s.pending + multiset{RepositionTimer})
    else
      s
  }

  /** Advancing, field by field: a state with these fields is the one `Advance` gives. */
  lemma AdvanceByFields(c: Config, s: Session, animation: Animation, r: Session)
    requires -1 <= s.index < |c.characters| - 1
    requires r.index == s.index + 1 && r.current == Some(|s.elements|)
    requires r.history == (if s.current.Some? then [s.current.value] + s.history else s.history)
    requires r.elements == s.elements + [EnteringElement(c.size, animation, r.index)]
    requires r.writer == Some(s.writersCreated) && r.writersCreated == s.writersCreated + 1
    requires r.widgetCalls == s.widgetCalls +
      [Create(s.writersCreated, |s.elements|, c.characters[r.index], Lookup(c.charactersData, r.index),
              StrokeColor(c.tones, c.toneColors, r.index), DrawingColor(c.nightMode)),
       StartQuiz(s.writersCreated)]
    requires r.completedStrokes == 0 && r.restartInProgress == s.restartInProgress
    requires r.pending == if animation == NoAnimation then s.pending else s.pending + multiset{RepositionTimer}
    ensures r == Advance(c, s, animation)
  {
  }

  /** The page after the init code: `quizNextCharacter('none')` on the initial globals. */
  function Init(c: Config): Session {
    Advance(c, Start, NoAnimation)
  }

  /** `repositionDivs()`: lay out the trail and bring the current div to rest. */
  function Reposition(c: Config, s: Session): Session
    requires s.current.Some? && s.current.value < |s.elements|
  {
    s.(elements := Repositioned(s.elements, s.history, s.current.value, c.size))
  }

  /** `revealCurrentCharacter()`: only with a live widget and no restart running. */
  function Reveal(s: Session): Session {
    if s.writer.Some? && !s.restartInProgress then
      var w := s.writer.value;
      s.(widgetCalls := s.widgetCalls + [ShowOutline(w), CancelQuiz(w), AnimateCharacter(w)],
         completedStrokes := 0,
         pending := s.pending + multiset{RevealAnimation(w)})
    else
      s
  }

  /**
   * `restartQuiz()`: unless a restart is running, cancel the widget's quiz,
   * set the flag, fade every div (no stroke drawn yet) or only the current
   * one (some strokes drawn), and schedule the matching continuation.
   */
  function Restart(s: Session): Session
    requires s.completedStrokes > 0 ==> s.current.Some? && s.current.value < |s.elements|
  {
    if s.restartInProgress then s
    else
      var flagged := s.(widgetCalls := if s.writer.Some? then s.widgetCalls + [CancelQuiz(s.writer.value)] else s.widgetCalls,
                        restartInProgress := true);
      if s.completedStrokes == 0 then
        flagged.(elements := Restyled(s.elements, AllDivs(s), Fade),
                 pending := s.pending + multiset{FullRestartTimer})
      else
        var d := s.current.value;
        flagged.(elements := s.elements[d := Fade(s.elements[d])],
                 pending := s.pending + multiset{PartialRestartTimer})
  }

  /**
   * The full-restart continuation: detach every div the quiz holds now, reset
   * the globals to their initial values and start again with 'default'.
   */
  function FinishFullRestart(c: Config, s: Session): Session {
    Advance(c, TornDown(s), DefaultAnimation)
  }

  /** The full-restart continuation before its final advance: every held div detached, the globals reset. */
  function TornDown(s: Session): Session {
    s.(elements := Restyled(s.elements, AllDivs(s), Detach),
       index := -1, writer := None, current := None, completedStrokes := 0,
       history := [], restartInProgress := false)
  }

  /**
   * The partial-restart continuation: detach the current div, step the index
   * back by one and show the same character again with 'opacity'.
   */
  function FinishPartialRestart(c: Config, s: Session): Session
    requires s.current.Some? && s.current.value < |s.elements| && 0 <= s.index
  {
    Advance(c, SteppedBack(s), OpacityAnimation)
  }

  /** The partial-restart continuation before its final advance: the current div detached, the index one back. */
  function SteppedBack(s: Session): Session
    requires s.current.Some? && s.current.value < |s.elements|
  {
    var d := s.current.value;
    s.(elements := s.elements[d := Detach(s.elements[d])],
       index := s.index - 1, current := None, completedStrokes := 0,
       restartInProgress := false)
  }

  /** The state after event `e`. */
  function Step(c: Config, s: Session, e: Event): Session
    requires Inv(c, s) && Enabled(s, e)
  {
    match e
    case RevealClicked => Reveal(s)
    case RestartClicked => Restart(s)
    case CorrectStroke(_, n) => s.(completedStrokes := n + 1)
    case QuizCompleted(_) => s.(writer := None, pending := s.pending + multiset{AdvanceTimer})
    case RevealAnimationEnded(w, canceled) =>
      var rest := s.pending - multiset{RevealAnimation(w)};
      s.(pending := if canceled then rest else rest + multiset{ResumeTimer(w)})
    case Fire(p) =>
      var t := s.(pending := s.pending - multiset{p});
      match p
      case RepositionTimer => Reposition(c, t)
      case AdvanceTimer => Advance(c, t, DefaultAnimation)
      case FullRestartTimer => FinishFullRestart(c, t)
      case PartialRestartTimer => FinishPartialRestart(c, t)
      case ResumeTimer(w) => t.(widgetCalls := t.widgetCalls + [HideCharacter(w), StartQuiz(w)])
  }

  // ---------------------------------------------------------------------
  // Properties
  // ---------------------------------------------------------------------

  /** Once the last character is showing, advancing changes nothing at all. */
  lemma AdvanceAtLastIsNoOp(c: Config, s: Session, animation: Animation)
    requires Shape(c, s) && s.index == |c.characters| - 1
    ensures Advance(c, s, animation) == s
  {
  }

  /**
   * Before the last character, advancing moves the index up by exactly one,
   * puts the previous current div (if any) in front of an otherwise unchanged
   * trail, shows a new div and widget for the next character with no strokes
   * drawn, and leaves every existing element alone.
   */
  lemma AdvanceMovesOn(c: Config, s: Session, animation: Animation)
    requires Shape(c, s) && s.index < |c.characters| - 1
    ensures var r := Advance(c, s, animation);
      && r.index == s.index + 1
      && r.history == (if s.current.Some? then [s.current.value] + s.history else s.history)
      && r.current == Some(|s.elements|)
      && r.elements[..|s.elements|] == s.elements
      && r.writer == Some(s.writersCreated)
      && r.completedStrokes == 0
      && r.restartInProgress == s.restartInProgress
      && r.widgetCalls[|s.widgetCalls|].Create?
      && r.widgetCalls[|s.widgetCalls|].character == c.characters[s.index + 1]
  {
  }

  /**
   * Where the new character's div starts: at rest and untouched for 'none';
   * transparent otherwise; for 'default' after the first character, to the
   * right of rest. The reposition is scheduled exactly when the animation is
   * not 'none'.
   */
  lemma AdvancePlacesNewCharacter(c: Config, s: Session, animation: Animation)
    requires Shape(c, s) && s.index < |c.characters| - 1
    ensures var r := Advance(c, s, animation); var e := r.elements[|s.elements|];
      && e.attached && e.display == DisplayDefault
      && e.opacity == (if animation == NoAnimation then OpacityUnset else Transparent)
      && e.marginLeft == (if animation == DefaultAnimation && s.index + 1 > 0 then EntryOffset(c.size) else RestingOffset(c.size))
      && r.pending[RepositionTimer] == s.pending[RepositionTimer] + (if animation == NoAnimation then 0 else 1)
  {
  }

  /** Advancing keeps the structural invariant and, before the last character, always leaves a current div. */
  lemma AdvanceKeepsShape(c: Config, s: Session, animation: Animation)
    requires Shape(c, s)
    ensures Shape(c, Advance(c, s, animation))
    ensures s.index < |c.characters| - 1 ==> Advance(c, s, animation).current.Some?
  {
    if s.index < |c.characters| - 1 {
      var r := Advance(c, s, animation);
      if s.current.Some? {
        var h := r.history;
        assert h == [s.current.value] + s.history;
        forall i, j | 0 <= i < j < |h| ensures h[i] != h[j] {
          if i > 0 {
            assert h[i] == s.history[i - 1] && h[j] == s.history[j - 1];
          } else {
            assert h[j] == s.history[j - 1];
          }
        }
      }
      forall i | 0 <= i < |r.history| ensures r.history[i] < |r.elements| {
        if s.current.Some? && i > 0 {
          assert r.history[i] == s.history[i - 1];
        }
      }
    }
  }

  /**
   * The page after loading satisfies the invariant, with the first character
   * on display (index 0, empty trail) when there is one, and nothing scheduled.
   */
  lemma InitState(c: Config)
    ensures Inv(c, Init(c))
    ensures |c.characters| > 0 ==> Init(c).index == 0 && Init(c).history == [] && Init(c).current == Some(0)
    ensures |c.characters| == 0 ==> Init(c) == Start
    ensures Init(c).pending == multiset{}
  {
    AdvanceKeepsShape(c, Start, NoAnimation);
  }

  /** The divs the quiz holds are distinct existing elements. */
  lemma AllDivsDistinct(c: Config, s: Session)
    requires Shape(c, s)
    ensures Distinct(AllDivs(s))
    ensures forall i :: 0 <= i < |AllDivs(s)| ==> AllDivs(s)[i] < |s.elements|
  {
    var a := AllDivs(s);
    if s.current.Some? {
      forall i, j | 0 <= i < j < |a| ensures a[i] != a[j] {
        assert a[j] == s.history[j - 1];
        if i > 0 { assert a[i] == s.history[i - 1]; }
      }
      forall i | 0 <= i < |a| ensures a[i] < |s.elements| {
        if i > 0 { assert a[i] == s.history[i - 1]; }
      }
    } else {
      assert a == s.history;
    }
  }

  /** Every event keeps the invariant: it holds in every state the page can reach. */
  lemma StepKeepsInv(c: Config, s: Session, e: Event)
    requires Inv(c, s) && Enabled(s, e)
    ensures Inv(c, Step(c, s, e))
  {
    match e
    case RevealClicked => RevealKeepsInv(c, s);
    case RestartClicked => RestartKeepsInv(c, s);
    case CorrectStroke(w, n) => CorrectStrokeKeepsInv(c, s, w, n);
    case QuizCompleted(w) => CompletionKeepsInv(c, s, w);
    case RevealAnimationEnded(w, canceled) => AnimationEndKeepsInv(c, s, w, canceled);
    case Fire(p) => FireKeepsInv(c, s, p);
  }

  lemma FireKeepsInv(c: Config, s: Session, p: Pending)
    requires Inv(c, s) && Enabled(s, Fire(p))
    ensures Inv(c, Step(c, s, Fire(p)))
  {
    match p
    case RepositionTimer => RepositionKeepsInv(c, s);
    case AdvanceTimer => AdvanceTimerKeepsInv(c, s);
    case FullRestartTimer => FullRestartKeepsInv(c, s);
    case PartialRestartTimer => PartialRestartKeepsInv(c, s);
    case ResumeTimer(w) => ResumeKeepsInv(c, s, w);
  }

  lemma CorrectStrokeKeepsInv(c: Config, s: Session, w: WriterId, n: nat)
    requires Inv(c, s) && w < s.writersCreated
    ensures Inv(c, Step(c, s, CorrectStroke(w, n)))
  {
  }

  lemma CompletionKeepsInv(c: Config, s: Session, w: WriterId)
    requires Inv(c, s) && w < s.writersCreated
    ensures Inv(c, Step(c, s, QuizCompleted(w)))
  {
  }

  lemma RepositionKeepsInv(c: Config, s: Session)
    requires Inv(c, s) && RepositionTimer in s.pending
    ensures Inv(c, Step(c, s, Fire(RepositionTimer)))
  {
  }

  lemma ResumeKeepsInv(c: Config, s: Session, w: WriterId)
    requires Inv(c, s) && ResumeTimer(w) in s.pending
    ensures Inv(c, Step(c, s, Fire(ResumeTimer(w))))
  {
  }

  lemma RevealKeepsInv(c: Config, s: Session)
    requires Inv(c, s)
    ensures Inv(c, Reveal(s))
  {
  }

  lemma RestartKeepsInv(c: Config, s: Session)
    requires Inv(c, s)
    ensures Inv(c, Restart(s))
  {
  }

  lemma AnimationEndKeepsInv(c: Config, s: Session, w: WriterId, canceled: bool)
    requires Inv(c, s) && RevealAnimation(w) in s.pending
    ensures Inv(c, Step(c, s, RevealAnimationEnded(w, canceled)))
  {
  }

  lemma AdvanceTimerKeepsInv(c: Config, s: Session)
    requires Inv(c, s) && AdvanceTimer in s.pending
    ensures Inv(c, Step(c, s, Fire(AdvanceTimer)))
  {
    var t := s.(pending := s.pending - multiset{AdvanceTimer});
    AdvanceKeepsShape(c, t, DefaultAnimation);
  }

  lemma FullRestartKeepsInv(c: Config, s: Session)
    requires Inv(c, s) && FullRestartTimer in s.pending
    ensures Inv(c, Step(c, s, Fire(FullRestartTimer)))
  {
    var t := s.(pending := s.pending - multiset{FullRestartTimer});
    AdvanceKeepsShape(c, TornDown(t), DefaultAnimation);
  }

  lemma PartialRestartKeepsInv(c: Config, s: Session)
    requires Inv(c, s) && PartialRestartTimer in s.pending
    ensures Inv(c, Step(c, s, Fire(PartialRestartTimer)))
  {
    var t := s.(pending := s.pending - multiset{PartialRestartTimer});
    AdvanceKeepsShape(c, SteppedBack(t), OpacityAnimation);
  }

  /** `repositionDivs` applied to a state of the page lays out the trail as Layout describes, and touches nothing but elements. */
  lemma RepositionLaysOutTrail(c: Config, s: Session)
    requires Inv(c, s) && |c.characters| > 0
    ensures var r := Reposition(c, s); var cur := s.current.value;
      && r == s.(elements := r.elements)
      && r.elements[cur] == s.elements[cur].(marginLeft := RestingOffset(c.size), opacity := Opaque)
      && (forall i :: 0 <= i < |s.history| && i < TRAIL_LENGTH ==>
            r.elements[s.history[i]] == s.elements[s.history[i]].(marginLeft := TrailOffset(c.size, i)))
      && (forall i :: TRAIL_LENGTH <= i < |s.history| ==>
            r.elements[s.history[i]] == s.elements[s.history[i]].(display := DisplayNone))
      && (forall d :: 0 <= d < |s.elements| && d != cur && d !in s.history ==> r.elements[d] == s.elements[d])
  {
    RepositionedLayout(s.elements, s.history, s.current.value, c.size);
  }

  /** A live widget reports a correct stroke: the count becomes the stroke number plus one. */
  lemma CorrectStrokeCounts(c: Config, s: Session, w: WriterId, n: nat)
    requires Inv(c, s) && w < s.writersCreated
    ensures Step(c, s, CorrectStroke(w, n)) == s.(completedStrokes := n + 1)
    ensures Step(c, s, CorrectStroke(w, n)).completedStrokes > 0
  {
  }

  /** Completion drops the widget handle and schedules the advance; nothing else changes. */
  lemma CompletionSchedulesAdvance(c: Config, s: Session, w: WriterId)
    requires Inv(c, s) && w < s.writersCreated
    ensures var r := Step(c, s, QuizCompleted(w));
      && r.writer == None
      && r.pending == s.pending + multiset{AdvanceTimer}
      && r.index == s.index && r.history == s.history && r.current == s.current && r.elements == s.elements
  {
  }

  /** Reveal does nothing without a live widget or while a restart is running. */
  lemma RevealGuarded(s: Session)
    requires s.writer.None? || s.restartInProgress
    ensures Reveal(s) == s
  {
  }

  /**
   * Otherwise reveal shows the outline, cancels the quiz, resets the stroke
   * count and starts the animation, without touching the sequencing state.
   */
  lemma RevealStartsAnimation(s: Session)
    requires s.writer.Some? && !s.restartInProgress
    ensures var r := Reveal(s); var w := s.writer.value;
      && r.completedStrokes == 0
      && r.widgetCalls == s.widgetCalls + [ShowOutline(w), CancelQuiz(w), AnimateCharacter(w)]
      && r.pending == s.pending + multiset{RevealAnimation(w)}
      && r.index == s.index && r.current == s.current && r.history == s.history && r.elements == s.elements
  {
  }

  /** A canceled reveal animation never resumes the quiz; an uncanceled one schedules exactly one resume. */
  lemma RevealResumesUnlessCanceled(c: Config, s: Session, w: WriterId, canceled: bool)
    requires Inv(c, s) && RevealAnimation(w) in s.pending
    ensures var r := Step(c, s, RevealAnimationEnded(w, canceled));
      && r.pending[ResumeTimer(w)] == s.pending[ResumeTimer(w)] + (if canceled then 0 else 1)
      && r.widgetCalls == s.widgetCalls
  {
  }

  /** While a restart is running, a second restart changes nothing. */
  lemma RestartGuarded(c: Config, s: Session)
    requires Inv(c, s) && s.restartInProgress
    ensures Restart(s) == s
  {
  }

  /** Two restarts in immediate succession schedule only one reset. */
  lemma RestartTwice(c: Config, s: Session)
    requires Inv(c, s)
    ensures var r := Step(c, s, RestartClicked);
      && Inv(c, r)
      && Step(c, r, RestartClicked) == r
      && r.pending[FullRestartTimer] + r.pending[PartialRestartTimer] == 1
  {
    StepKeepsInv(c, s, RestartClicked);
  }

  /** Only the restart continuations clear the restart flag. */
  lemma RestartFlagClearedOnlyByContinuation(c: Config, s: Session, e: Event)
    requires Inv(c, s) && Enabled(s, e) && s.restartInProgress
    requires e != Fire(FullRestartTimer) && e != Fire(PartialRestartTimer)
    ensures Step(c, s, e).restartInProgress
  {
    match e
    case Fire(p) => {
      match p
      case AdvanceTimer =>
      case RepositionTimer =>
      case ResumeTimer(_) =>
    }
    case _ =>
  }

  /**
   * One second after an uncanceled reveal animation, the same widget that
   * animated hides its character and starts its quiz again; nothing else
   * changes.
   */
  lemma ResumeQuizzesSameWidget(c: Config, s: Session, w: WriterId)
    requires Inv(c, s) && ResumeTimer(w) in s.pending
    ensures Step(c, s, Fire(ResumeTimer(w)))
      == s.(pending := s.pending - multiset{ResumeTimer(w)},
            widgetCalls := s.widgetCalls + [HideCharacter(w), StartQuiz(w)])
  {
  }

  /**
   * Restart with no stroke of the current character drawn: the live widget's
   * quiz is cancelled, the flag is set, every div held (current and trail) is
   * faded, one full-restart continuation is scheduled, and index, trail,
   * current div, writer and stroke count stay as they are.
   */
  lemma FullRestartBegins(c: Config, s: Session)
    requires Inv(c, s) && !s.restartInProgress && s.completedStrokes == 0
    ensures var r := Restart(s);
      && r.restartInProgress
      && r.pending == s.pending + multiset{FullRestartTimer}
      && (forall d :: d in AllDivs(s) ==> d < |r.elements| && r.elements[d] == s.elements[d].(opacity := Transparent))
      && (forall d :: 0 <= d < |s.elements| && d !in AllDivs(s) ==> r.elements[d] == s.elements[d])
      && r.index == s.index && r.history == s.history && r.current == s.current
      && r.widgetCalls == s.widgetCalls + (if s.writer.Some? then [CancelQuiz(s.writer.value)] else [])
      && r.writer == s.writer && r.completedStrokes == s.completedStrokes
  {
    AllDivsDistinct(c, s);
  }

  /**
   * The full-restart continuation: every div held when it runs is detached;
   * the quiz starts again from the first character with an empty trail, one
   * new current div, a newly created widget, no strokes and the flag cleared.
   */
  lemma FullRestartFinishes(c: Config, s: Session)
    requires Inv(c, s) && FullRestartTimer in s.pending
    ensures var r := Step(c, s, Fire(FullRestartTimer));
      && Inv(c, r)
      && !r.restartInProgress
      && (forall d :: d in AllDivs(s) ==> d < |r.elements| && !r.elements[d].attached)
      && (|c.characters| > 0 ==> r.index == 0 && r.history == [] && r.current == Some(|s.elements|))
      && (|c.characters| > 0 ==> r.completedStrokes == 0 && r.writer == Some(s.writersCreated))
      && (|c.characters| == 0 ==> r.index == -1 && r.history == [] && r.current == None)
      && (forall d :: 0 <= d < |s.elements| && d !in AllDivs(s) ==> r.elements[d] == s.elements[d])
      && (|c.characters| > 0 ==>
            && |r.elements| == |s.elements| + 1
            && r.elements[|s.elements|] == EnteringElement(c.size, DefaultAnimation, 0)
            && r.pending == s.pending - multiset{FullRestartTimer} + multiset{RepositionTimer})
  {
    AllDivsDistinct(c, s);
    StepKeepsInv(c, s, Fire(FullRestartTimer));
  }

  /**
   * Between the click and the full-restart continuation no div is let go:
   * every other event keeps the continuation pending and keeps each held div
   * held (an advance only moves the current div onto the trail). So every div
   * faded at the click is among those the continuation detaches.
   */
  lemma FullRestartKeepsHeldDivs(c: Config, s: Session, e: Event)
    requires Inv(c, s) && FullRestartTimer in s.pending
    requires Enabled(s, e) && e != Fire(FullRestartTimer)
    ensures var r := Step(c, s, e);
      && FullRestartTimer in r.pending
      && (forall d :: d in AllDivs(s) ==> d in AllDivs(r))
  {
  }

  /**
   * Restart with some strokes drawn: the live widget's quiz is cancelled, the
   * flag is set, only the current div is faded, one partial-restart
   * continuation is scheduled, and writer and stroke count stay as they are.
   */
  lemma PartialRestartBegins(c: Config, s: Session)
    requires Inv(c, s) && !s.restartInProgress && s.completedStrokes > 0
    ensures var r := Restart(s); var cur := s.current.value;
      && r.restartInProgress
      && r.pending == s.pending + multiset{PartialRestartTimer}
      && r.elements[cur] == s.elements[cur].(opacity := Transparent)
      && (forall d :: 0 <= d < |s.elements| && d != cur ==> r.elements[d] == s.elements[d])
      && r.index == s.index && r.history == s.history && r.current == s.current
      && r.widgetCalls == s.widgetCalls + (if s.writer.Some? then [CancelQuiz(s.writer.value)] else [])
      && r.writer == s.writer && r.completedStrokes == s.completedStrokes
  {
  }

  /**
   * The stroke count is not reset when a widget completes: a restart after
   * the last stroke of a character takes the partial branch. For the last
   * character that redoes it; for any other character the pending advance
   * runs first (`RestartRacingAdvance`).
   */
  lemma RestartAfterCompletionIsPartial(c: Config, s: Session, w: WriterId, n: nat)
    requires Inv(c, s) && w < s.writersCreated && !s.restartInProgress
    ensures var s1 := Step(c, s, CorrectStroke(w, n));
      Inv(c, s1) &&
      var s2 := Step(c, s1, QuizCompleted(w));
      && s2.writer == None && s2.completedStrokes == n + 1
      && Restart(s2).pending == s2.pending + multiset{PartialRestartTimer}
  {
    StepKeepsInv(c, s, CorrectStroke(w, n));
  }

  /**
   * A restart clicked after a character other than the last was completed,
   * while the 200 ms advance is still pending: the advance fires first and
   * pushes the faded div onto the trail, and the partial continuation then
   * replaces the NEXT character's div. The quiz ends one character further on,
   * and the completed character's div stays in the trail, attached but transparent.
   * `r`, `a` and `f` are what `Step` gives for RestartClicked, Fire(AdvanceTimer)
   * and Fire(PartialRestartTimer) in turn.
   */
  lemma RestartRacingAdvance(c: Config, s: Session)
    requires Inv(c, s) && !s.restartInProgress && s.completedStrokes > 0
    requires AdvanceTimer in s.pending && s.index < |c.characters| - 1
    ensures var r := Restart(s);
      var a := Advance(c, r.(pending := r.pending - multiset{AdvanceTimer}), DefaultAnimation);
      && PartialRestartTimer in a.pending
      && a.current.Some? && a.current.value < |a.elements| && 0 <= a.index
      && var f := FinishPartialRestart(c, a.(pending := a.pending - multiset{PartialRestartTimer}));
      var done := s.current.value;
      && f.index == s.index + 1
      && f.history == [done] + s.history
      && f.elements[done] == s.elements[done].(opacity := Transparent)
      && !f.elements[|s.elements|].attached
  {
    var r := Restart(s);
    PartialRestartBegins(c, s);
    RestartKeepsInv(c, s);
    var r' := r.(pending := r.pending - multiset{AdvanceTimer});
    AdvanceMovesOn(c, r', DefaultAnimation);
    AdvanceKeepsShape(c, r', DefaultAnimation);
  }

  /**
   * The partial-restart continuation: the current div is detached and the
   * same character is shown again in a new, transparent div at rest; index
   * and trail end up as they were, the flag is cleared.
   */
  lemma PartialRestartFinishes(c: Config, s: Session)
    requires Inv(c, s) && PartialRestartTimer in s.pending
    ensures var r := Step(c, s, Fire(PartialRestartTimer));
      && Inv(c, r)
      && !r.restartInProgress
      && r.index == s.index && r.history == s.history
      && s.current.Some? && !r.elements[s.current.value].attached
      && r.current == Some(|s.elements|)
      && r.elements[|s.elements|].opacity == Transparent
      && r.elements[|s.elements|].marginLeft == RestingOffset(c.size)
      && r.completedStrokes == 0
      && |r.elements| == |s.elements| + 1
      && (forall d :: 0 <= d < |s.elements| && d != s.current.value ==> r.elements[d] == s.elements[d])
  {
    StepKeepsInv(c, s, Fire(PartialRestartTimer));
  }
}
