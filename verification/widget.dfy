/**
 * The external stroke-quiz widget (HanziWriter), seen only through the calls
 * the quiz makes on it. Stroke recognition and animation are the widget's own.
 */
module Widget {
  import opened Seqs
  import opened Dom

  /** A widget instance, numbered in order of creation. */
  type WriterId = nat

  type Color = string

  /** A tone identifier as it appears in the note's tone list; the tone colour map is keyed by these. */
  type ToneKey = string

  /** The stroke-definition payload handed to the widget's data loader, uninterpreted. */
  type StrokeData = string

  const NEUTRAL_STROKE_COLOR: Color := "#555555"
  const STROKE_COLOR_DAY: Color := "#333"
  const STROKE_COLOR_NIGHT: Color := "#FFF"

  /** One call made on the widget library. */
  datatype WidgetCall =
    | Create(writer: WriterId, target: ElemId, character: string, strokeData: Option<StrokeData>,
             strokeColor: Option<Color>, drawingColor: Color)
    | StartQuiz(writer: WriterId)
    | CancelQuiz(writer: WriterId)
    | ShowOutline(writer: WriterId)
    | AnimateCharacter(writer: WriterId)
    | HideCharacter(writer: WriterId)

  /**
   * Stroke colour of character `idx`: the neutral colour when the note has no
   * tones, otherwise the colour of its tone, `undefined` when the tone list or
   * the colour map has no entry for it.
   */
  function StrokeColor(tones: seq<ToneKey>, toneColors: map<ToneKey, Color>, idx: int): (r: Option<Color>)
    ensures |tones| == 0 ==> r == Some(NEUTRAL_STROKE_COLOR)
    ensures |tones| > 0 ==> (r.Some? <==> 0 <= idx < |tones| && tones[idx] in toneColors)
    ensures |tones| > 0 && r.Some? ==> r.value == toneColors[tones[idx]]
  {
    if |tones| > 0 then
      match Lookup(tones, idx)
      case Some(t) => if t in toneColors then Some(toneColors[t]) else None
      case None => None
    else
      Some(NEUTRAL_STROKE_COLOR)
  }

  /** Colour of the user's own strokes, by page theme. */
  function DrawingColor(nightMode: bool): Color {
    if nightMode then STROKE_COLOR_NIGHT else STROKE_COLOR_DAY
  }
}
