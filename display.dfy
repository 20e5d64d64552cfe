/** The result table the answer is shown in: three leading columns, the
    detail headers and one column per selected stage. */
module Display {
  import opened Sheet
  import opened Extraction
  import opened Choices
  import opened QueryProperties
  import opened Scenario

  /** The number of columns of the result table. */
  function TableWidth(g: Grid, selected: seq<string>): (w: nat)
    requires WellFormed(g)
    ensures w == 3 + (DetailLast - DetailFirst + 1) + |selected|
  {
    3 + |DetailHeaders(g)| + |selected|
  }

  /** Every row has exactly as many cells as the table has columns, which is
      what building the table from the rows demands. */
  predicate FitsTable(rows: seq<seq<Field>>, width: nat) {
    forall i :: 0 <= i < |rows| ==> |rows[i]| == width
  }

  /** As written, a message row (function not found, no match, extraction
      error) has one cell more than the table has columns. */
  lemma MessageRowOverflows(g: Grid, text: string, selected: seq<string>)
    requires WellFormed(g)
    ensures |Sentinel(text, SentinelPadding(g, selected))| == TableWidth(g, selected) + 1
    ensures !FitsTable([Sentinel(text, SentinelPadding(g, selected))], TableWidth(g, selected))
  {
    assert |[Sentinel(text, SentinelPadding(g, selected))][0]| == TableWidth(g, selected) + 1;
  }

  /** The example sheet's "PUMP02" block is empty; the tool offers that name
      and the stage "Design", and the answer to that choice does not fit
      the table. */
  lemma ExampleMessageOverflows()
    ensures "PUMP02" in FunctionNames(Loaded(Example()))[1..]
    ensures "Design" in StageNames(Loaded(Example()))
    ensures !FitsTable(MatchingDocuments(Loaded(Example()), "PUMP02", ["Design"]),
                       TableWidth(Example(), ["Design"]))
  {
    var g := Example();
    ExamplePump02Offered();
    ExampleDesignOffered();
    ExamplePump02Answer();
    MessageRowOverflows(g, NoMatchText, ["Design"]);
  }

  /** Row 6 is a function heading offering "PUMP02". */
  lemma ExamplePump02Offered()
    ensures "PUMP02" in FunctionNames(Loaded(Example()))[1..]
  {
    var g := Example();
    StripUnpadded("PUMP02");
    assert g[6][0] == Num("2", Int) && g[6][1] == Empty && g[6][2] == Empty;
    assert g[6][KeyCol] == Text("PUMP02");
    assert Offers(g, 6, "PUMP02");
  }

  /** The first stage label is "Design". */
  lemma ExampleDesignOffered()
    ensures "Design" in StageNames(Loaded(Example()))
  {
    var g := Example();
    var h := StageHeaders(g);
    assert h[0] == Text("Design");
    assert Filled(h[0]);
  }

  /** "PUMP02" heads the last row, so its block is empty and the answer is
      the no-match row. */
  lemma ExamplePump02Answer()
    ensures MatchingDocuments(Loaded(Example()), "PUMP02", ["Design"]) ==
      [Sentinel(NoMatchText, SentinelPadding(Example(), ["Design"]))]
  {
    var g := Example();
    ExamplePump02Key();
    assert BlockEnd(g, 6) == 7;
    assert Block(g, 6) == [];
  }

  /** "PUMP02" is found at row 6. */
  lemma ExamplePump02Key()
    ensures FirstKeyRow(Example(), "PUMP02") == Some(6)
  {
    var g := Example();
    StripUnpadded("nan");
    StripUnpadded("PUMP01");
    StripUnpadded("Pump datasheet");
    StripUnpadded("PUMP02");
    forall k | 0 <= k < 6 ensures !KeyMatches(g[k][KeyCol], "PUMP02") {
      assert g[k][KeyCol] in {Empty, Text("PUMP01"), Text("Pump datasheet")};
    }
    assert KeyMatches(g[6][KeyCol], "PUMP02");
  }

  /** Each row one cell wider than the table cut to the table's width; the
      other rows kept. Every fitted row is a prefix of its row. */
  function Fit(rows: seq<seq<Field>>, w: nat): (r: seq<seq<Field>>)
    ensures |r| == |rows|
    ensures forall i :: 0 <= i < |r| ==>
      (|rows[i]| == w || |rows[i]| == w + 1 ==> |r[i]| == w) &&
      |r[i]| <= |rows[i]| && r[i] == rows[i][..|r[i]|]
  {
    seq(|rows|, i requires 0 <= i < |rows| => if |rows[i]| == w + 1 then rows[i][..w] else rows[i])
  }

  /** The answer as the table can show it: the message row cut to the
      table's width, document rows unchanged. */
  function FittedMatchingDocuments(g: Grid, key: string, selected: seq<string>): seq<seq<Field>>
    requires WellFormed(g)
  {
    Fit(MatchingDocuments(Loaded(g), key, selected), TableWidth(g, selected))
  }

  /** When every selected stage resolves to a column, as it does for the
      stages the tool offers when no stage label is a number, every row of
      the fitted answer has exactly the table's width, and the fitted answer
      differs from the tool's only by the blank dropped from a message row. */
  lemma FittedAnswerFitsTable(g: Grid, key: string, selected: seq<string>)
    requires WellFormed(g)
    requires |StageIndices(StageHeaders(g), selected)| == |selected|
    ensures FitsTable(FittedMatchingDocuments(g, key, selected), TableWidth(g, selected))
    ensures var m := MatchingDocuments(Loaded(g), key, selected);
            var r := FittedMatchingDocuments(g, key, selected);
            |r| == |m| &&
            forall i :: 0 <= i < |m| ==>
              r[i] == m[i] || (|m[i]| == |r[i]| + 1 && m[i] == r[i] + [Pad])
  {
    var m := MatchingDocuments(Loaded(g), key, selected);
    var w := TableWidth(g, selected);
    AnswerWidth(Loaded(g), key, selected);
    MessageRowEndsInPad(g, key, selected);
    if |m[0]| == w + 1 {
      assert |m| == 1 && m[0][w] == Pad;
      assert FullOrPadded(m, w) by {
        forall i | 0 <= i < |m| ensures |m[i]| == w || (|m[i]| == w + 1 && m[i][w] == Pad) {
          assert i == 0;
        }
      }
    } else {
      assert FullOrPadded(m, w);
    }
    FitDropsTrailingPad(m, w);
  }

  /** Every row has the table's width, or one cell more and ends in a blank. */
  predicate FullOrPadded(rows: seq<seq<Field>>, w: nat) {
    forall i :: 0 <= i < |rows| ==> |rows[i]| == w || (|rows[i]| == w + 1 && rows[i][w] == Pad)
  }

  /** Rows of the table's width, or one wider and ending in a blank, fit the
      table once cut, and each lost only that blank. */
  lemma FitDropsTrailingPad(rows: seq<seq<Field>>, w: nat)
    requires FullOrPadded(rows, w)
    ensures FitsTable(Fit(rows, w), w)
    ensures forall i :: 0 <= i < |rows| ==>
      Fit(rows, w)[i] == rows[i] ||
      (|rows[i]| == |Fit(rows, w)[i]| + 1 && rows[i] == Fit(rows, w)[i] + [Pad])
  {
    var r := Fit(rows, w);
    forall i | 0 <= i < |rows|
      ensures r[i] == rows[i] || (|rows[i]| == |r[i]| + 1 && rows[i] == r[i] + [Pad])
    {
      if |rows[i]| == w + 1 {
        assert rows[i] == rows[i][..w] + [rows[i][w]];
      }
    }
  }

  /** A message row ends in a blank. */
  lemma MessageRowEndsInPad(g: Grid, key: string, selected: seq<string>)
    requires WellFormed(g)
    ensures var m := MatchingDocuments(Loaded(g), key, selected);
            |m[0]| == TableWidth(g, selected) + 1 ==>
              |m| == 1 && m[0][TableWidth(g, selected)] == Pad
  {
    var m := MatchingDocuments(Loaded(g), key, selected);
    AnswerWidth(Loaded(g), key, selected);
    if |m[0]| == TableWidth(g, selected) + 1 {
      MessageAnswerIsSentinel(g, key, selected);
    }
  }

  /** An answer whose first row is a message row is that one row. */
  lemma MessageAnswerIsSentinel(g: Grid, key: string, selected: seq<string>)
    requires WellFormed(g)
    ensures var m := MatchingDocuments(Loaded(g), key, selected);
            |m[0]| == TableWidth(g, selected) + 1 ==>
              exists text :: m == [Sentinel(text, SentinelPadding(g, selected))]
  {
    var m := MatchingDocuments(Loaded(g), key, selected);
    var pad := SentinelPadding(g, selected);
    match FirstKeyRow(g, key)
    case None =>
      assert m == [Sentinel(NotFoundText, pad)];
    case Some(start) =>
      FoundAnswer(g, key, selected, start);
      var c := Collect(Block(g, start), StageIndices(StageHeaders(g), selected));
      if c.Err? {
        assert m == [Sentinel(ErrorPrefix + StripErrorMessage(c.error), pad)];
      } else if c.value == [] {
        assert m == [Sentinel(NoMatchText, pad)];
      } else {
        DocumentRowNarrower(g, selected, m[0]);
      }
  }
}
