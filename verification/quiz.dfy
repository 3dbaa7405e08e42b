/**
 * maobi/quiz.js as an object: its globals are the fields of QuizSession, its
 * functions and the bodies of its timers and widget callbacks are methods
 * that update those fields in place. The methods that handle an event (a
 * click, a widget callback, a timer body) are proved to take the session from
 * state `s` to `Sequencer.Step` of `s` and to keep Sequencer.Inv; the methods
 * they call state only their own effect on the fields.
 */
module Quiz {
  import opened Seqs
  import opened Dom
  import opened Layout
  import opened Widget
  import opened Sequencer

  class QuizSession {
    const config: Config

    var curCharacterIdx: int
    var curQuizDiv: Option<ElemId>
    var curWriter: Option<WriterId>
    var prevCharacterDivs: seq<ElemId>
    var completedStrokes: nat
    var restartQuizAnimationInProgress: bool

    // The rendering surface and the collaborators, as far as the quiz can observe them.
    var elements: seq<Element>
    var writersCreated: nat
    var widgetCalls: seq<WidgetCall>
    var pending: multiset<Pending>

    /** The session as a value. */
    function Abs(): Session
      reads this
    {
      Session(curCharacterIdx, curQuizDiv, curWriter, prevCharacterDivs, completedStrokes,
              restartQuizAnimationInProgress, elements, writersCreated, widgetCalls, pending)
    }

    ghost predicate Valid()
      reads this
    {
      Inv(config, Abs())
    }

    /** Script load with the quiz container present: the globals' initial values, then `quizNextCharacter('none')`. */
    constructor (c: Config)
      ensures config == c && Valid() && Abs() == Init(c)
    {
      config := c;
      curCharacterIdx := -1;
      curQuizDiv := None;
      curWriter := None;
      prevCharacterDivs := [];
      completedStrokes := 0;
      restartQuizAnimationInProgress := false;
      elements := [];
      writersCreated := 0;
      widgetCalls := [];
      pending := multiset{};
      new;
      QuizNextCharacter(NoAnimation);
      InitState(c);
    }

    /** `document.createElement("div")` */
    method CreateElement() returns (d: ElemId)
      modifies this`elements
      ensures d == |old(elements)| && elements == old(elements) + [Blank]
    {
      d := |elements|;
      elements := elements + [Blank];
    }

    /** `quizCharacter`: create the widget for `target`, start its quiz, reset the stroke count. */
    method QuizCharacter(character: string, characterData: Option<StrokeData>, toneColor: Option<Color>,
                         drawingColor: Color, target: ElemId)
      modifies this`curWriter, this`writersCreated, this`widgetCalls, this`completedStrokes
      ensures curWriter == Some(old(writersCreated)) && writersCreated == old(writersCreated) + 1
      ensures widgetCalls == old(widgetCalls) +
        [Create(old(writersCreated), target, character, characterData, toneColor, drawingColor),
         StartQuiz(old(writersCreated))]
      ensures completedStrokes == 0
    {
      var w := writersCreated;
      writersCreated := writersCreated + 1;
      widgetCalls := widgetCalls + [Create(w, target, character, characterData, toneColor, drawingColor)];
      curWriter := Some(w);
      widgetCalls := widgetCalls + [StartQuiz(w)];
      completedStrokes := 0;
    }

    /** `quizNextCharacter(animation)` */
    method QuizNextCharacter(animation: Animation)
      requires -1 <= curCharacterIdx
      modifies this
      ensures Abs() == Advance(config, old(Abs()), animation)
    {
      if curCharacterIdx < |config.characters| - 1 {
        ShowNextCharacter(animation);
      }
    }

    /** The body of `quizNextCharacter` when a next character exists. */
    method ShowNextCharacter(animation: Animation)
      requires -1 <= curCharacterIdx < |config.characters| - 1
      modifies this
      ensures Abs() == Advance(config, old(Abs()), animation)
    {
      ghost var s := Abs();
      if curQuizDiv.Some? {
        prevCharacterDivs := [curQuizDiv.value] + prevCharacterDivs;
      }
      curCharacterIdx := curCharacterIdx + 1;
      var div := AppendCharacterDiv();
      curQuizDiv := Some(div);

      var idx := curCharacterIdx;
      var character := config.characters[idx];
      var characterData := Lookup(config.charactersData, idx);
      var toneColor := StrokeColor(config.tones, config.toneColors, idx);
      var drawingColor := DrawingColor(config.nightMode);
      QuizCharacter(character, characterData, toneColor, drawingColor, div);

      PrepareEntrance(div, animation);
      ghost var r := Session(curCharacterIdx, curQuizDiv, curWriter, prevCharacterDivs, completedStrokes,
                             restartQuizAnimationInProgress, elements, writersCreated, widgetCalls, pending);
      AdvanceByFields(config, s, animation, r);
    }

    /** Create the new character's div, append it to the quiz container and centre it. */
    method AppendCharacterDiv() returns (div: ElemId)
      modifies this`elements
      ensures div == |old(elements)|
      ensures elements == old(elements) + [Blank.(attached := true, marginLeft := RestingOffset(config.size))]
    {
      div := CreateElement();
      elements := elements[div := elements[div].(attached := true)];
      elements := elements[div := elements[div].(marginLeft := RestingOffset(config.size))];
    }

    /**
     * Unless the animation is 'none': hide the new div, move it to the right
     * for 'default' after the first character, and schedule the reposition.
     */
    method PrepareEntrance(div: ElemId, animation: Animation)
      requires div == |elements| - 1 && 0 <= curCharacterIdx
      requires elements[div] == Blank.(attached := true, marginLeft := RestingOffset(config.size))
      modifies this`elements, this`pending
      ensures elements == old(elements)[..div] + [EnteringElement(config.size, animation, curCharacterIdx)]
      ensures pending == if animation == NoAnimation then old(pending) else old(pending) + multiset{RepositionTimer}
    {
      if animation != NoAnimation {
        elements := elements[div := elements[div].(opacity := Transparent)];
        if curCharacterIdx > 0 && animation == DefaultAnimation {
          elements := elements[div := elements[div].(marginLeft := EntryOffset(config.size))];
        }
        pending := pending + multiset{RepositionTimer};
      }
    }

    /** `repositionDivs()`: the trail in its slots (hidden past TRAIL_LENGTH), the current div at rest and visible. */
    method RepositionDivs()
      requires Shape(config, Abs()) && curQuizDiv.Some?
      modifies this`elements
      ensures Abs() == Reposition(config, old(Abs()))
    {
      var trail, size := prevCharacterDivs, config.size;
      ghost var orig := elements;
      var els := elements;
      var i := 0;
      while i < |trail|
        invariant 0 <= i <= |trail|
        invariant |els| == |orig|
        invariant forall j :: 0 <= j < i ==> els[trail[j]] == TrailSlot(orig[trail[j]], j, size)
        invariant forall d :: 0 <= d < |els| && d !in trail[..i] ==> els[d] == orig[d]
      {
        var div := trail[i];
        assert trail[..i + 1] == trail[..i] + [div];
        if i < TRAIL_LENGTH {
          els := els[div := els[div].(marginLeft := TrailOffset(size, i))];
        } else {
          els := els[div := els[div].(display := DisplayNone)];
        }
        i := i + 1;
      }
      assert trail[..i] == trail;
      var cur := curQuizDiv.value;
      SlotsThenRest(orig, els, trail, cur, size);
      els := els[cur := els[cur].(marginLeft := RestingOffset(size), opacity := Opaque)];
      elements := els;
    }

    /** `applyAll(fn)` of `restartQuiz`: apply `f` to the current div and to every div of the trail. */
    method ApplyAll(f: Element -> Element)
      requires Distinct(AllDivs(Abs()))
      requires forall i :: 0 <= i < |AllDivs(Abs())| ==> AllDivs(Abs())[i] < |elements|
      modifies this`elements
      ensures elements == Restyled(old(elements), AllDivs(old(Abs())), f)
    {
      var divs := (if curQuizDiv.Some? then [curQuizDiv.value] else []) + prevCharacterDivs;
      ghost var orig := elements;
      var els := elements;
      var i := 0;
      while i < |divs|
        invariant 0 <= i <= |divs|
        invariant |els| == |orig|
        invariant forall d :: 0 <= d < |els| ==> els[d] == if d in divs[..i] then f(orig[d]) else orig[d]
      {
        var div := divs[i];
        assert divs[..i + 1] == divs[..i] + [div];
        els := els[div := f(els[div])];
        i := i + 1;
      }
      assert divs[..i] == divs;
      elements := els;
    }

    /** The 50 ms timer scheduled by `quizNextCharacter`. */
    method RepositionTimerFired()
      requires Valid() && RepositionTimer in pending
      modifies this
      ensures Valid() && Abs() == Step(config, old(Abs()), Fire(RepositionTimer))
    {
      ghost var s := Abs();
      pending := pending - multiset{RepositionTimer};
      RepositionDivs();
      StepKeepsInv(config, s, Fire(RepositionTimer));
    }

    /** The widget's `onCorrectStroke` callback. */
    method OnCorrectStroke(source: WriterId, strokeNum: nat)
      requires Valid() && source < writersCreated
      modifies this
      ensures Valid() && Abs() == Step(config, old(Abs()), CorrectStroke(source, strokeNum))
    {
      ghost var s := Abs();
      completedStrokes := strokeNum + 1;
      StepKeepsInv(config, s, CorrectStroke(source, strokeNum));
    }

    /** The widget's `onComplete` callback: drop the widget, advance 200 ms later. */
    method OnComplete(source: WriterId)
      requires Valid() && source < writersCreated
      modifies this
      ensures Valid() && Abs() == Step(config, old(Abs()), QuizCompleted(source))
    {
      ghost var s := Abs();
      curWriter := None;
      pending := pending + multiset{AdvanceTimer};
      StepKeepsInv(config, s, QuizCompleted(source));
    }

    /** The 200 ms timer scheduled by `onComplete`. */
    method AdvanceTimerFired()
      requires Valid() && AdvanceTimer in pending
      modifies this
      ensures Valid() && Abs() == Step(config, old(Abs()), Fire(AdvanceTimer))
    {
      ghost var s := Abs();
      pending := pending - multiset{AdvanceTimer};
      QuizNextCharacter(DefaultAnimation);
      StepKeepsInv(config, s, Fire(AdvanceTimer));
    }

    /** `revealCurrentCharacter()` */
    method RevealCurrentCharacter()
      requires Valid()
      modifies this
      ensures Valid() && Abs() == Step(config, old(Abs()), RevealClicked)
    {
      ghost var s := Abs();
      if curWriter.Some? && !restartQuizAnimationInProgress {
        var writer := curWriter.value;
        widgetCalls := widgetCalls + [ShowOutline(writer)];
        widgetCalls := widgetCalls + [CancelQuiz(writer)];
        completedStrokes := 0;
        widgetCalls := widgetCalls + [AnimateCharacter(writer)];
        pending := pending + multiset{RevealAnimation(writer)};
      }
      StepKeepsInv(config, s, RevealClicked);
    }

    /** The `onComplete` of the reveal animation: resume 1000 ms later unless canceled. */
    method OnRevealAnimationComplete(writer: WriterId, canceled: bool)
      requires Valid() && RevealAnimation(writer) in pending
      modifies this
      ensures Valid() && Abs() == Step(config, old(Abs()), RevealAnimationEnded(writer, canceled))
    {
      ghost var s := Abs();
      pending := pending - multiset{RevealAnimation(writer)};
      if !canceled {
        pending := pending + multiset{ResumeTimer(writer)};
      }
      StepKeepsInv(config, s, RevealAnimationEnded(writer, canceled));
    }

    /** The 1000 ms timer after a reveal: hide the character and quiz again on the same widget. */
    method ResumeTimerFired(writer: WriterId)
      requires Valid() && ResumeTimer(writer) in pending
      modifies this
      ensures Valid() && Abs() == Step(config, old(Abs()), Fire(ResumeTimer(writer)))
    {
      ghost var s := Abs();
      pending := pending - multiset{ResumeTimer(writer)};
      widgetCalls := widgetCalls + [HideCharacter(writer)];
      widgetCalls := widgetCalls + [StartQuiz(writer)];
      StepKeepsInv(config, s, Fire(ResumeTimer(writer)));
    }

    /** `restartQuiz()`: the synchronous part. */
    method RestartQuiz()
      requires Valid()
      modifies this
      ensures Valid() && Abs() == Step(config, old(Abs()), RestartClicked)
    {
      ghost var s := Abs();
      if !restartQuizAnimationInProgress {
        if curWriter.Some? {
          widgetCalls := widgetCalls + [CancelQuiz(curWriter.value)];
        }
        restartQuizAnimationInProgress := true;
        if completedStrokes == 0 {
          AllDivsDistinct(config, Abs());
          ApplyAll(Fade);
          pending := pending + multiset{FullRestartTimer};
        } else {
          var d := curQuizDiv.value;
          elements := elements[d := Fade(elements[d])];
          pending := pending + multiset{PartialRestartTimer};
        }
      }
      StepKeepsInv(config, s, RestartClicked);
    }

    /** The 300 ms continuation of a full restart. */
    method FullRestartTimerFired()
      requires Valid() && FullRestartTimer in pending
      modifies this
      ensures Valid() && Abs() == Step(config, old(Abs()), Fire(FullRestartTimer))
    {
      ghost var s := Abs();
      pending := pending - multiset{FullRestartTimer};
      AllDivsDistinct(config, Abs());
      StartOver();
      FullRestartKeepsInv(config, s);
    }

    /** The body of the full-restart continuation: detach every div, reset every global, show the first character. */
    method StartOver()
      requires Distinct(AllDivs(Abs()))
      requires forall i :: 0 <= i < |AllDivs(Abs())| ==> AllDivs(Abs())[i] < |elements|
      modifies this
      ensures Abs() == FinishFullRestart(config, old(Abs()))
    {
      ghost var s := Abs();
      ApplyAll(Detach);
      curCharacterIdx := -1;
      curWriter := None;
      curQuizDiv := None;
      completedStrokes := 0;
      prevCharacterDivs := [];
      restartQuizAnimationInProgress := false;
      assert Abs() == TornDown(s);
      QuizNextCharacter(DefaultAnimation);
    }

    /** The 300 ms continuation of a partial restart. */
    method PartialRestartTimerFired()
      requires Valid() && PartialRestartTimer in pending
      modifies this
      ensures Valid() && Abs() == Step(config, old(Abs()), Fire(PartialRestartTimer))
    {
      ghost var s := Abs();
      pending := pending - multiset{PartialRestartTimer};
      RedisplayCurrent();
      PartialRestartKeepsInv(config, s);
    }

    /** The body of the partial-restart continuation: detach the current div, step back, show the same character again. */
    method RedisplayCurrent()
      requires curQuizDiv.Some? && curQuizDiv.value < |elements| && 0 <= curCharacterIdx
      modifies this
      ensures Abs() == FinishPartialRestart(config, old(Abs()))
    {
      ghost var s := Abs();
      var d := curQuizDiv.value;
      elements := elements[d := Detach(elements[d])];
      curCharacterIdx := curCharacterIdx - 1;
      curQuizDiv := None;
      completedStrokes := 0;
      restartQuizAnimationInProgress := false;
      assert Abs() == SteppedBack(s);
      QuizNextCharacter(OpacityAnimation);
    }
  }

  /** The init code: without the quiz container nothing starts; with it, the first character is shown. */
  method Load(c: Config, targetPresent: bool) returns (q: QuizSession?)
    ensures q != null <==> targetPresent
    ensures q != null ==> fresh(q) && q.config == c && q.Valid() && q.Abs() == Init(c)
  {
    if targetPresent {
      q := new QuizSession(c);
    } else {
      q := null;
    }
  }

  /**
   * Three characters: after loading, the first widget completes; a reveal
   * while no widget is live changes nothing; when the advance timer fires the
   * second character shows with the first div in the trail; two restart
   * clicks schedule a single full restart, after which the first character
   * shows again with an empty trail.
   */
  method ThreeCharacterRun(c: Config)
    returns (revealIgnored: bool, indexAfterAdvance: int, trailAfterAdvance: seq<ElemId>,
             restartsScheduled: nat, indexAfterRestart: int, trailAfterRestart: seq<ElemId>)
    requires |c.characters| == 3
    ensures revealIgnored
    ensures indexAfterAdvance == 1 && trailAfterAdvance == [0]
    ensures restartsScheduled == 1
    ensures indexAfterRestart == 0 && trailAfterRestart == []
  {
    var q := new QuizSession(c);
    revealIgnored := CompleteFirstCharacter(q);
    indexAfterAdvance, trailAfterAdvance := q.curCharacterIdx, q.prevCharacterDivs;
    restartsScheduled := RestartTwiceAndWait(q);
    indexAfterRestart, trailAfterRestart := q.curCharacterIdx, q.prevCharacterDivs;
  }

  /**
   * On a freshly loaded three-character quiz: the first widget completes, a
   * reveal click while no widget is live is ignored, and the advance timer
   * shows the second character with the first div in the trail.
   */
  method CompleteFirstCharacter(q: QuizSession) returns (revealIgnored: bool)
    requires |q.config.characters| == 3 && q.Abs() == Init(q.config)
    modifies q
    ensures q.Valid() && revealIgnored
    ensures q.curCharacterIdx == 1 && q.prevCharacterDivs == [0]
    ensures q.completedStrokes == 0 && !q.restartQuizAnimationInProgress
  {
    InitState(q.config);
    assert q.curCharacterIdx == 0 && q.curQuizDiv == Some(0) && q.prevCharacterDivs == [];
    assert q.curWriter == Some(0) && q.writersCreated == 1 && q.completedStrokes == 0;
    q.OnComplete(0);
    assert q.curCharacterIdx == 0 && q.curQuizDiv == Some(0) && q.prevCharacterDivs == [];
    assert q.curWriter == None && q.pending == multiset{AdvanceTimer};
    var before := q.Abs();
    q.RevealCurrentCharacter();
    revealIgnored := q.Abs() == before;
    assert q.curCharacterIdx == 0 && q.curQuizDiv == Some(0) && q.prevCharacterDivs == [];
    ghost var s := q.Abs();
    q.AdvanceTimerFired();
    AdvanceMovesOn(q.config, s.(pending := s.pending - multiset{AdvanceTimer}), DefaultAnimation);
  }

  /**
   * With no stroke drawn and no restart running: two restart clicks schedule
   * one continuation, and once it has run the quiz is back at its first
   * character with an empty trail.
   */
  method RestartTwiceAndWait(q: QuizSession) returns (restartsScheduled: nat)
    requires q.Valid() && |q.config.characters| > 0
    requires q.completedStrokes == 0 && !q.restartQuizAnimationInProgress
    modifies q
    ensures q.Valid() && restartsScheduled == 1
    ensures q.curCharacterIdx == 0 && q.prevCharacterDivs == []
  {
    ghost var s := q.Abs();
    q.RestartQuiz();
    RestartTwice(q.config, s);
    q.RestartQuiz();
    restartsScheduled := q.pending[FullRestartTimer] + q.pending[PartialRestartTimer];
    FullRestartBegins(q.config, s);
    ghost var t := q.Abs();
    q.FullRestartTimerFired();
    FullRestartFinishes(q.config, t);
  }
}
