/** A worked example: a sheet with one function block holding one document
    that carries the "DR" marker on the selected stage. */
module Scenario {
  import opened Sheet
  import opened Markers
  import opened Extraction
  import opened QueryProperties

  /** A row with the given first, second, key and first-stage cells, and
      nothing elsewhere. */
  function SheetRow(c0: Cell, c1: Cell, key: Cell, stage: Cell): (row: Row)
    ensures |row| == StageLast + 1
    ensures row[0] == c0 && row[1] == c1 && row[KeyCol] == key && row[StageFirst] == stage
  {
    [c0, c1, Empty, key] + seq(StageFirst - KeyCol - 1, _ => Empty) + [stage] +
    seq(StageLast - StageFirst, _ => Empty)
  }

  /** Rows 0 to 2 are blank, row 3 holds the stage label "Design", row 4
      heads the "PUMP01" block, row 5 is its one document, row 6 heads the
      next block. */
  function Example(): (g: Grid)
    ensures WellFormed(g)
  {
    var blank := SheetRow(Empty, Empty, Empty, Empty);
    [blank, blank, blank,
     SheetRow(Empty, Empty, Empty, Text("Design")),
     SheetRow(Num("1", Int), Empty, Text("PUMP01"), Empty),
     SheetRow(Text("1.1"), Text("DOC-7"), Text("Pump datasheet"), Text("DR")),
     SheetRow(Num("2", Int), Empty, Text("PUMP02"), Empty)]
  }

  /** A string with no whitespace at either end strips to itself. */
  lemma StripUnpadded(s: string)
    requires s != [] && !IsSpace(s[0]) && !IsSpace(s[|s| - 1])
    ensures Strip(s) == s
  {
    assert TrimLeft(s) == s;
  }

  /** "PUMP01" is found at row 4. */
  lemma ExampleKeyRow()
    ensures FirstKeyRow(Example(), "PUMP01") == Some(4)
  {
    var g := Example();
    StripUnpadded("nan");
    StripUnpadded("PUMP01");
    assert forall k :: 0 <= k < 4 ==> g[k][KeyCol] == Empty;
    assert g[4][KeyCol] == Text("PUMP01");
    assert KeyMatches(g[4][KeyCol], "PUMP01");
  }

  /** A document title with lower-case letters continues a block. */
  lemma TitleContinues()
    ensures !EndsBlock(Text("Pump datasheet"))
  {
    StripUnpadded("Pump datasheet");
    assert IsAsciiLower("Pump datasheet"[1]);
  }

  /** An upper-case group name closes a block. */
  lemma HeadingCloses()
    ensures EndsBlock(Text("PUMP02"))
  {
    StripUnpadded("PUMP02");
    assert IsAsciiUpper("PUMP02"[0]);
  }

  /** The block of row 4 ends at the upper-case heading "PUMP02". */
  lemma ExampleBlockEnd()
    ensures BlockEnd(Example(), 4) == 6
  {
    var g := Example();
    assert g[5][KeyCol] == Text("Pump datasheet") && g[6][KeyCol] == Text("PUMP02");
    TitleContinues();
    HeadingCloses();
  }

  /** The block of row 4 is row 5 alone. */
  lemma ExampleBlockRows()
    ensures Block(Example(), 4) == [Example()[5]]
  {
    ExampleBlockEnd();
  }

  /** Row 5 is a detail row named "Pump datasheet" with "DR" on the first
      stage. */
  lemma ExampleDocument()
    ensures var row := Example()[5];
            IsDetail(row) && !NumericName(row) &&
            row[KeyCol] == Text("Pump datasheet") && row[StageFirst] == Text("DR")
  {
    var row := Example()[5];
    assert row[0] == Text("1.1") && row[1] == Text("DOC-7");
  }

  /** A one-row block without a numeric name yields that row, projected,
      when it is kept, and nothing otherwise. */
  lemma CollectOne(row: Row, idx: seq<nat>)
    requires Wide(row) && ValidIndices(idx) && !NumericName(row)
    ensures Collect([row], idx) == if IsKept(row, idx) then Ok([Project(row, idx)]) else Ok([])
  {
    var none: seq<Row> := [];
    var noRows: seq<seq<Field>> := [];
    assert [row][..0] == none;
    assert Collect([row][..0], idx) == Ok(noRows);
    assert noRows + [Project(row, idx)] == [Project(row, idx)];
  }

  /** The block keeps its one document, projected onto the first stage. */
  lemma ExampleBlock()
    ensures Collect(Block(Example(), 4), [StageFirst]) == Ok([Project(Example()[5], [StageFirst])])
  {
    var row := Example()[5];
    ExampleBlockRows();
    ExampleDocument();
    var idx := [StageFirst];
    assert IsMarker(row[idx[0]]);
    CollectOne(row, idx);
  }

  /** Selecting "PUMP01" and the stage "Design" yields exactly the one
      document row, whose stage indicator is the grey dot. */
  lemma ExampleQuery()
    ensures var r := MatchingDocuments(Loaded(Example()), "PUMP01", ["Design"]);
            |r| == 1 && |r[0]| == 10 &&
            r[0][0] == Value(Text("Pump datasheet")) && r[0][9] == Mark(Dot(Grey))
  {
    var g := Example();
    var h := StageHeaders(g);
    assert h[0] == Text("Design");
    assert StageIndices(h, ["Design"]) == [StageFirst] by {
      assert ["Design"][..0] == [];
    }
    ExampleKeyRow();
    ExampleBlock();
  }

  /** A function name that heads no block is answered with the not-found
      row: the message, three blanks, one blank for the selected stage and
      six for the detail headers. */
  lemma ExampleUnknownName()
    ensures MatchingDocuments(Loaded(Example()), "VALVE01", ["Design"]) ==
      [[Value(Text("Function name not found."))] + Pads(10)]
  {
    var g := Example();
    StripUnpadded("nan");
    StripUnpadded("PUMP01");
    StripUnpadded("Pump datasheet");
    StripUnpadded("PUMP02");
    forall k | 0 <= k < |g| ensures !KeyMatches(g[k][KeyCol], "VALVE01") {
      assert g[k][KeyCol] in {Empty, Text("PUMP01"), Text("Pump datasheet"), Text("PUMP02")};
    }
    KeyNotFoundIff(g, "VALVE01", ["Design"]);
  }

  /** With no stage selected, no row carries a selected marker, so the
      answer is the no-match row. */
  lemma ExampleNoStage()
    ensures MatchingDocuments(Loaded(Example()), "PUMP01", []) ==
      [[Value(Text("No matching documents found."))] + Pads(9)]
  {
    var g := Example();
    ExampleKeyRow();
    ExampleBlockRows();
    ExampleDocument();
    assert StageIndices(StageHeaders(g), []) == [];
    CollectOne(g[5], []);
  }
}
