# Maobi stroke-order quiz sequencer, in Dafny

Maobi adds a stroke-order quiz to Anki note templates. The page script
`maobi/quiz.js` shows the characters of a note one at a time. Each character gets
its own div and its own HanziWriter widget. Completed characters slide to the
left into a trail, and only the last five of them stay visible. The **Reveal**
button animates the current character and then lets the user try again. The
**Restart Quiz** button does one of two things. With no stroke of the current
character drawn yet, it fades every character div and then starts again from
the first character. Otherwise it fades only the current div and then redoes
that character.

This project models that sequencer and proves properties of it.

- `seqs.dfy` (module `Seqs`): `Option`, a bounds-checked sequence lookup (the
  script reads arrays past their end as `undefined`), distinctness, and the
  position of an element in a sequence.
- `dom.dfy` (module `Dom`): the rendering surface. It is a store of elements,
  each with a left margin, an opacity, a display mode and whether it is
  attached. It also holds the style changes the script makes.
- `layout.dfy` (module `Layout`): the pixel offsets of the resting, entering
  and trailing characters, and the layout that `repositionDivs` produces.
- `widget.dfy` (module `Widget`): the calls made on HanziWriter, and the
  stroke and drawing colours handed to it.
- `sequencer.dfy` (module `Sequencer`): the session as a value.
  - `Session` holds the script's globals, the element store, the log of widget
    calls and the multiset of pending continuations. A continuation is a
    50/200/300/1000 ms timer or a running reveal animation.
  - `Step` gives the state after each event the page can deliver: a button
    click, a widget callback, or a continuation firing.
  - `Inv` is the invariant every reachable state keeps.
  - The module ends with the lemmas about these functions.
- `quiz.dfy` (module `Quiz`): the script itself. The class `QuizSession` has
  one field per global. Its methods are the script's functions and callback
  bodies, and they update those fields in place. `repositionDivs` and
  `applyAll` are loops.
  - The methods that handle an event (a click, a widget callback, a timer
    body) are proved to reach `Step` of the old state and to keep `Inv`.
  - `QuizNextCharacter`, `RepositionDivs`, `StartOver` and `RedisplayCurrent`
    are proved to reach, respectively, `Advance`, `Reposition`,
    `FinishFullRestart` and `FinishPartialRestart` of the old state.
  - `ApplyAll` is proved equal to `Dom.Restyled`.
  - The other helpers (`CreateElement`, `QuizCharacter`,
    `AppendCharacterDiv`, `PrepareEntrance`) state only their effect on the
    fields.

Pixel offsets are integers. Dafny's `/` by 2 rounds down, like `Math.floor`,
so `-Math.floor(size / 2)` is `-(size / 2)` and
`Math.floor(-size / 2 - …)` is `(-size) / 2 - …`.

Facts about the code that the model makes explicit:

- The trail length equals the index only while a current div exists
  (`Shape`). Between the two halves of the partial-restart continuation,
  after the current div is dropped, the trail is one longer than the index.
- `onComplete` clears the widget handle but leaves `completedStrokes`
  unchanged (`RestartAfterCompletionIsPartial`). So a restart clicked after a
  character has been completed takes the partial branch. Then:
  - After the last character, the continuation redoes that last character.
  - After any other character, the click can only land in the 200 ms before
    the advance timer fires, because after it the new character has no strokes
    and the restart would be a full one. In that window the advance timer fires
    before the 300 ms continuation.
  - The advance pushes the faded div onto the trail. The continuation then
    detaches the next character's div and shows that next character again.
  - The quiz ends one character further on. The completed character's div
    stays in the trail, attached but transparent, and `repositionDivs` never
    restores a trail div's opacity (`RestartRacingAdvance`,
    `RepositionLaysOutTrail`).
- The partial-restart continuation decrements the index, and the
  `quizNextCharacter` call that ends it increments the index again. So after
  the continuation the index and the trail are as they were when the
  continuation fired (`PartialRestartFinishes`). They are as they were at the
  click only when no advance ran in between.
- For an odd `size`, the current div rests at `-floor(size/2)` while the
  trail uses `floor(-size/2)`. The first gap in the trail is therefore one
  pixel wider than the others (`CurrentToTrailGap`, `TrailSpacing`).

## Model

| member | source | states |
|---|---|---|
| `Seqs.Lookup` | maobi/quiz.js:34 | definition of reading `a[i]`: the element, or `None` (the script's `undefined`) past the end; its ensures only unfolds the definition |
| `Seqs.IndexOf` | maobi/quiz.js:59 | the index `forEach` passes for a div: a position holding it, and its first occurrence |
| `Seqs.IndexOfDistinct` | maobi/quiz.js:59-65 | in a trail without repeats, the position found for the `i`-th div is `i` |
| `Dom.Restyled` | maobi/quiz.js:164-169 | definition of the store after `applyAll(fn)`: `fn` applied to each listed element; its ensures only unfolds the definition, and the loop in `ApplyAll` is proved equal to it |
| `Dom.Fade` | maobi/quiz.js:172 | definition: opacity set to `'0'` |
| `Dom.Detach` | maobi/quiz.js:178 | definition: the element is removed from its parent, if it has one |
| `Widget.StrokeColor` | maobi/quiz.js:35 | definition of the stroke colour: neutral `#555555` for a note without tones, otherwise the colour-map entry for the character's tone (`undefined` when there is none); its ensures only unfolds the definition |
| `Widget.DrawingColor` | maobi/quiz.js:36 | definition: `#FFF` in night mode, `#333` otherwise |
| `Layout.RestingOffset` | maobi/quiz.js:31 | definition: `-Math.floor(size / 2)`, where a character div rests |
| `Layout.EntryOffset` | maobi/quiz.js:43 | definition: `Math.floor(size / 2) + 20`, where a new character enters from |
| `Layout.TrailOffset` | maobi/quiz.js:61 | definition: the margin of trail position `i` |
| `Layout.TrailSlot` | maobi/quiz.js:60-64 | definition: what `repositionDivs` does to the div at trail position `i` (move it, or hide it from position 5 on) |
| `Layout.AtRest` | maobi/quiz.js:67-68 | definition: the current div centred and opaque |
| `Layout.Repositioned` | maobi/quiz.js:58-69 | definition of the store after `repositionDivs`; its properties are `RepositionedLayout` |
| `Layout.SlotsThenRest` | maobi/quiz.js:58-69 | the loop order of `repositionDivs` (every trail div placed, then the current div put at rest) yields `Repositioned` |
| `Layout.RepositionedLayout` | maobi/quiz.js:58-69 | trail position `i < 5` moves to its offset; later positions are hidden and not moved; the current div rests with opacity 1; nothing else changes |
| `Layout.TrailSpacing` | maobi/quiz.js:61 | neighbouring trail divs are `size + 20` pixels apart |
| `Layout.CurrentToTrailGap` | maobi/quiz.js:61-67 | the resting current div is `size + 20` pixels from the first trail div, plus one for odd `size` |
| `Layout.EntryDistance` | maobi/quiz.js:31-43 | a sliding-in character starts `size + 20` pixels right of rest, less one for odd `size` |
| `Sequencer.AllDivs` | maobi/quiz.js:164-169 | definition: the divs `applyAll` visits, the current one first and then the trail |
| `Sequencer.Shape` | maobi/quiz.js:23-28 | the structural invariant: index in range, trail length tied to the index, the divs distinct and existing, the writer one already created |
| `Sequencer.Inv` | maobi/quiz.js:156-204 | the invariant between events: `Shape`, a current div exactly when the note has characters, and the restart flag set exactly while one restart continuation is pending |
| `Sequencer.Enabled` | maobi/quiz.js:98-131 | definition of which events can occur: callbacks come from widgets already created, and continuations fire only once scheduled |
| `Sequencer.EnteringElement` | maobi/quiz.js:29-44 | definition: the new div appended and centred; transparent unless the animation is 'none'; moved right for 'default' after the first character |
| `Sequencer.Advance` | maobi/quiz.js:23-53 | definition of `quizNextCharacter`; its properties are `AdvanceAtLastIsNoOp`, `AdvanceMovesOn`, `AdvancePlacesNewCharacter` and `AdvanceKeepsShape` |
| `Sequencer.AdvanceByFields` | maobi/quiz.js:23-53 | a state whose fields are those of an advance is `Advance`'s result (used by `ShowNextCharacter`) |
| `Sequencer.Init` | maobi/quiz.js:207-210 | definition: `quizNextCharacter('none')` on the initial globals; its properties are `InitState` |
| `Sequencer.Reposition` | maobi/quiz.js:58-69 | definition of `repositionDivs`; its properties are `RepositionLaysOutTrail` |
| `Sequencer.Reveal` | maobi/quiz.js:116-133 | definition of `revealCurrentCharacter`; its properties are `RevealGuarded` and `RevealStartsAnimation` |
| `Sequencer.Restart` | maobi/quiz.js:156-192 | definition of the synchronous part of `restartQuiz`; its properties are `RestartGuarded`, `FullRestartBegins` and `PartialRestartBegins` |
| `Sequencer.FinishFullRestart` | maobi/quiz.js:176-189 | definition of the full-restart continuation; its properties are `FullRestartFinishes` |
| `Sequencer.TornDown` | maobi/quiz.js:177-187 | definition: the continuation's state before its final `quizNextCharacter('default')` |
| `Sequencer.FinishPartialRestart` | maobi/quiz.js:193-201 | definition of the partial-restart continuation; its properties are `PartialRestartFinishes` |
| `Sequencer.SteppedBack` | maobi/quiz.js:194-199 | definition: the continuation's state before its final `quizNextCharacter('opacity')` |
| `Sequencer.Step` | maobi/quiz.js:23-204 | definition of the state after each click, widget callback or continuation; `StepKeepsInv` proves it keeps `Inv` |
| `Sequencer.AdvanceAtLastIsNoOp` | maobi/quiz.js:24 | with the last character showing, `quizNextCharacter` changes nothing |
| `Sequencer.AdvanceMovesOn` | maobi/quiz.js:24-38 | otherwise: index up by one; the old current div goes to the front of the trail; a new current div; a widget for `characters[index]`; stroke count 0; old elements kept |
| `Sequencer.AdvancePlacesNewCharacter` | maobi/quiz.js:40-51 | the new div is attached and centred; it is transparent unless the animation is 'none'; it is moved right for 'default' after the first character; one reposition is scheduled exactly when the animation is not 'none' |
| `Sequencer.AdvanceKeepsShape` | maobi/quiz.js:23-53 | advancing keeps the index in range, the trail length tied to the index, and the divs distinct and existing |
| `Sequencer.InitState` | maobi/quiz.js:207-210 | after loading: the invariant holds, nothing is scheduled, and character 0 shows with an empty trail (an empty note leaves the initial globals) |
| `Sequencer.AllDivsDistinct` | maobi/quiz.js:164-169 | the current div and the trail divs are distinct existing elements |
| `Sequencer.StepKeepsInv` | maobi/quiz.js:23-204 | every click, callback and continuation keeps the invariant |
| `Sequencer.FireKeepsInv` | maobi/quiz.js:48-201 | every scheduled continuation keeps the invariant when it fires |
| `Sequencer.CorrectStrokeKeepsInv` | maobi/quiz.js:105-107 | `onCorrectStroke` keeps the invariant |
| `Sequencer.CompletionKeepsInv` | maobi/quiz.js:98-104 | `onComplete` keeps the invariant |
| `Sequencer.RepositionKeepsInv` | maobi/quiz.js:48-50 | the 50 ms reposition keeps the invariant |
| `Sequencer.ResumeKeepsInv` | maobi/quiz.js:126-129 | the 1000 ms resume keeps the invariant |
| `Sequencer.ResumeQuizzesSameWidget` | maobi/quiz.js:126-129 | the 1000 ms resume calls `hideCharacter` and then `quiz` on the widget that animated, and changes nothing else |
| `Sequencer.RevealKeepsInv` | maobi/quiz.js:116-134 | reveal keeps the invariant |
| `Sequencer.RestartKeepsInv` | maobi/quiz.js:156-192 | the synchronous part of restart keeps the invariant |
| `Sequencer.AnimationEndKeepsInv` | maobi/quiz.js:123-131 | the end of the reveal animation keeps the invariant |
| `Sequencer.AdvanceTimerKeepsInv` | maobi/quiz.js:101-103 | the 200 ms advance keeps the invariant |
| `Sequencer.FullRestartKeepsInv` | maobi/quiz.js:176-189 | the full-restart continuation keeps the invariant |
| `Sequencer.PartialRestartKeepsInv` | maobi/quiz.js:193-201 | the partial-restart continuation keeps the invariant |
| `Sequencer.RepositionLaysOutTrail` | maobi/quiz.js:58-69 | on a reachable state, `repositionDivs` lays out the trail slot by slot and changes nothing but elements |
| `Sequencer.CorrectStrokeCounts` | maobi/quiz.js:105-107 | the stroke count becomes the stroke number plus one, and nothing else changes |
| `Sequencer.CompletionSchedulesAdvance` | maobi/quiz.js:98-104 | completion drops the widget handle and schedules one advance; index, trail, current div and elements are unchanged |
| `Sequencer.RevealGuarded` | maobi/quiz.js:117 | reveal is a no-op with no live widget or during a restart |
| `Sequencer.RevealStartsAnimation` | maobi/quiz.js:117-122 | otherwise it calls outline, cancel and animate on the widget in that order, resets the stroke count and starts the animation |
| `Sequencer.RevealResumesUnlessCanceled` | maobi/quiz.js:123-131 | a canceled animation schedules no resume; an uncanceled one schedules exactly one |
| `Sequencer.RestartGuarded` | maobi/quiz.js:157 | a restart during a restart changes nothing |
| `Sequencer.RestartTwice` | maobi/quiz.js:156-204 | two restart clicks in a row schedule exactly one continuation |
| `Sequencer.RestartFlagClearedOnlyByContinuation` | maobi/quiz.js:156-204 | no event except the two restart continuations clears the restart flag |
| `Sequencer.FullRestartBegins` | maobi/quiz.js:157-173 | with no stroke drawn: the live widget's quiz is cancelled, writer and stroke count are kept, the flag is set, every held div fades, other elements stay, and one full-restart continuation is scheduled |
| `Sequencer.FullRestartFinishes` | maobi/quiz.js:176-189 | the continuation detaches every div held at that time and leaves every other element as it was; the quiz restarts at character 0 with an empty trail, one new div in its 'default' entering style, a newly created widget, no strokes and one reposition scheduled; the flag is cleared |
| `Sequencer.FullRestartKeepsHeldDivs` | maobi/quiz.js:160-189 | while the full-restart continuation is pending, every other event keeps it pending and keeps every held div held, so each div faded at the click is detached when it fires |
| `Sequencer.PartialRestartBegins` | maobi/quiz.js:157-192 | with strokes drawn: the live widget's quiz is cancelled, writer and stroke count are kept, the flag is set, only the current div fades, and one partial-restart continuation is scheduled |
| `Sequencer.PartialRestartFinishes` | maobi/quiz.js:193-201 | the continuation detaches the current div, appends one new div and leaves every other element as it was; the same index and trail return with a new transparent, centred div; the flag and stroke count are cleared |
| `Sequencer.RestartAfterCompletionIsPartial` | maobi/quiz.js:98-111 | after a stroke and then completion, the widget is gone but the stroke count is not 0, so a restart schedules the partial continuation |
| `Sequencer.RestartRacingAdvance` | maobi/quiz.js:98-201 | a partial restart clicked while the advance is pending, before the last character: the advance fires first, and after the continuation the index is one higher, the trail has the faded completed div in front, and the next character's first div is detached |
| `Quiz.QuizSession.constructor` | maobi/quiz.js:1-11 | the globals' initial values followed by `quizNextCharacter('none')` give `Init`, which satisfies the invariant |
| `Quiz.Load` | maobi/quiz.js:207-233 | a session is created exactly when the quiz container exists, and it is in the initial state |
| `Quiz.QuizSession.CreateElement` | maobi/quiz.js:29 | a new blank, unattached element is appended to the store |
| `Quiz.QuizSession.QuizCharacter` | maobi/quiz.js:80-111 | a new widget is created on the target, its quiz is started, it becomes the current writer, and the stroke count is 0 |
| `Quiz.QuizSession.QuizNextCharacter` | maobi/quiz.js:23-53 | the new state is `Advance` of the old one |
| `Quiz.QuizSession.ShowNextCharacter` | maobi/quiz.js:25-51 | the body under the guard gives the state of `Advance` |
| `Quiz.QuizSession.AppendCharacterDiv` | maobi/quiz.js:29-31 | the new div is attached and centred at the end of the store |
| `Quiz.QuizSession.PrepareEntrance` | maobi/quiz.js:40-51 | the new div is styled for the animation; the reposition is scheduled unless the animation is 'none' |
| `Quiz.QuizSession.RepositionDivs` | maobi/quiz.js:58-69 | the loop over the trail followed by the current div gives `Reposition` |
| `Quiz.QuizSession.ApplyAll` | maobi/quiz.js:164-169 | the loop applies `f` to the current div and every trail div (`Restyled`) |
| `Quiz.QuizSession.RepositionTimerFired` | maobi/quiz.js:48-50 | the 50 ms timer body follows `Step` and keeps the invariant |
| `Quiz.QuizSession.OnCorrectStroke` | maobi/quiz.js:105-107 | the callback follows `Step` and keeps the invariant |
| `Quiz.QuizSession.OnComplete` | maobi/quiz.js:98-104 | the callback follows `Step` and keeps the invariant |
| `Quiz.QuizSession.AdvanceTimerFired` | maobi/quiz.js:101-103 | the 200 ms timer body follows `Step` and keeps the invariant |
| `Quiz.QuizSession.RevealCurrentCharacter` | maobi/quiz.js:116-134 | follows `Step` and keeps the invariant |
| `Quiz.QuizSession.OnRevealAnimationComplete` | maobi/quiz.js:123-131 | follows `Step` and keeps the invariant |
| `Quiz.QuizSession.ResumeTimerFired` | maobi/quiz.js:126-129 | the 1000 ms timer body follows `Step` and keeps the invariant |
| `Quiz.QuizSession.RestartQuiz` | maobi/quiz.js:156-192 | the synchronous part of `restartQuiz` follows `Step` and keeps the invariant |
| `Quiz.QuizSession.FullRestartTimerFired` | maobi/quiz.js:176-189 | the 300 ms full-restart body follows `Step` and keeps the invariant |
| `Quiz.QuizSession.StartOver` | maobi/quiz.js:177-188 | detach, reset and advance give `FinishFullRestart` |
| `Quiz.QuizSession.PartialRestartTimerFired` | maobi/quiz.js:193-201 | the 300 ms partial-restart body follows `Step` and keeps the invariant |
| `Quiz.QuizSession.RedisplayCurrent` | maobi/quiz.js:194-200 | detach, step back and advance with 'opacity' give `FinishPartialRestart` |
| `Quiz.CompleteFirstCharacter` | maobi/quiz.js:98-134 | on a freshly loaded three-character quiz: completion; then a reveal that leaves the whole state unchanged; then the advance timer, which leaves index 1 and trail `[0]` |
| `Quiz.RestartTwiceAndWait` | maobi/quiz.js:156-189 | with no stroke drawn, two restart clicks schedule one continuation, and after it fires the quiz is at index 0 with an empty trail |
| `Quiz.ThreeCharacterRun` | maobi/quiz.js:23-204 | three characters: load, complete the first, reveal with no widget (ignored), advance to index 1 with trail `[0]`, restart twice (one continuation), fire it, and end at index 0 with an empty trail |

## Left out

- `maobi/quiz.py` (`draw_quiz`) and the note template that supplies `config`
  and `data` are not part of this model. Their values enter as the `Config`
  parameter.
- `getToneColors` reads colours computed by the browser's style sheet. The
  tone-to-colour map is an input, `Config.toneColors`, and tones are opaque
  keys.
- HanziWriter is not modelled. Its calls are recorded in `widgetCalls`.
  `onCorrectStroke` and `onComplete` are events that any widget created so
  far may deliver at any time. The end of a reveal animation can occur only
  while that widget's animation is pending. Options that are the same for every widget (width, height, leniency,
  padding, hint threshold) are not recorded.
- Timer delays are not modelled. A scheduled continuation may fire at any
  later point, in any order relative to the others. Every real timing is one
  such order.
- Creating the buttons and their labels, the click listeners themselves, and
  the console message for a missing container are left out. Clicks are the
  `RevealClicked` and `RestartClicked` events.
- The night-mode class of the page body is read on each advance in the
  script. In the model it is the fixed `Config.nightMode`.
- `config.size` is an integer in the model. The script would accept any
  number.
- The model follows only inline styles that the script writes: margin,
  opacity and display. CSS transitions are not modelled.
