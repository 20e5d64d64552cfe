/** The closed vocabulary of stage markers and the colour each is shown in. */
module Markers {
  import opened Sheet

  /** The markers that make a document row match, in the tool's order. */
  const Vocabulary: seq<string> := ["DR", "D", "U", "X,D"]

  datatype Colour = Grey | Orange | Green

  /** The HTML colour code of each colour: grey, orange and green, each
      code belonging to one colour only. */
  function Hex(c: Colour): (code: string)
    ensures |code| == 7 && code[0] == '#'
    ensures code == "#808080" <==> c == Grey
    ensures code == "#FFA500" <==> c == Orange
    ensures code == "#008000" <==> c == Green
  {
    match c
    case Grey => "#808080"
    case Orange => "#FFA500"
    case Green => "#008000"
  }

  /** The colour table, keyed by marker text. */
  const MarkerColours: map<string, Colour> :=
    map["DR" := Grey, "U" := Orange, "D" := Green, "X,D" := Green]

  /** A stage cell matches when it is exactly one of the markers: no trimming,
      no case folding, and a number or a missing value never matches. */
  predicate IsMarker(c: Cell) {
    c.Text? && c.s in Vocabulary
  }

  /** What a stage cell shows in a result row. */
  datatype Indicator = Dot(colour: Colour) | Blank

  /** The indicator of one stage cell: a dot in the marker's colour when the
      cell is a marker that has a colour, blank otherwise. */
  function IndicatorOf(c: Cell): (i: Indicator)
    ensures i == Dot(Grey) <==> c == Text("DR")
    ensures i == Dot(Orange) <==> c == Text("U")
    ensures i == Dot(Green) <==> c == Text("D") || c == Text("X,D")
    ensures i == Blank <==> !IsMarker(c)
  {
    if IsMarker(c) && c.s in MarkerColours then Dot(MarkerColours[c.s]) else Blank
  }

  /** Every marker has a colour, so a marker never shows as a blank. */
  lemma ColoursCoverVocabulary()
    ensures forall m :: m in Vocabulary <==> m in MarkerColours
  {
  }
}
