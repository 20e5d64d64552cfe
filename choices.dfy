/** The two lists the tool offers for selection: the function names and the
    stage names, both read from the sheet. */
module Choices {
  import opened Sheet
  import opened Ordering
  import opened Extraction

  /** A function heading row: a number in column 0, nothing in columns 1
      and 2. */
  predicate IsFunctionHeading(row: Row)
    requires |row| > KeyCol
  {
    row[0].Num? && row[1].Empty? && row[2].Empty?
  }

  /** Row `r` is a function heading that offers the name `n`: its key cell
      is present and not blank, and trimmed it is `n`. */
  predicate Offers(g: Grid, r: nat, n: string)
    requires WellFormed(g) && r < |g|
  {
    IsFunctionHeading(g[r]) && Filled(g[r][KeyCol]) && n == Strip(Str(g[r][KeyCol]))
  }

  /** The names offered by the first `m` rows, in row order, repeats kept. */
  function HeadingNames(g: Grid, m: nat): (names: seq<string>)
    requires WellFormed(g) && m <= |g|
    ensures forall n :: n in names <==> exists r :: 0 <= r < m && Offers(g, r, n)
  {
    if m == 0 then []
    else
      var r := m - 1;
      var cell := g[r][KeyCol];
      var own := if IsFunctionHeading(g[r]) && Filled(cell)
                 then [Strip(Str(cell))] else [];
      assert forall n :: n in own <==> Offers(g, r, n);
      HeadingNames(g, r) + own
  }

  /** The function-name choices: "" (no selection) first, then every offered
      name once, in increasing order; only "" when the sheet did not load. */
  function FunctionNames(src: Source): (names: seq<string>)
    requires src.Loaded? ==> WellFormed(src.grid)
    ensures names != [] && names[0] == ""
    ensures StrictlySorted(names)
    ensures src.LoadError? ==> names == [""]
    ensures src.Loaded? ==> forall n :: n in names[1..] <==>
      exists r :: 0 <= r < |src.grid| && Offers(src.grid, r, n)
  {
    match src
    case LoadError(_) => [""]
    case Loaded(g) =>
      var sorted := SortedSet(HeadingNames(g, |g|));
      assert forall i :: 0 <= i < |sorted| ==> Below("", sorted[i]) by {
        forall i | 0 <= i < |sorted| ensures Below("", sorted[i]) {
          assert sorted[i] in HeadingNames(g, |g|);
          var r :| 0 <= r < |g| && Offers(g, r, sorted[i]);
          BlankIffStripsEmpty(Str(g[r][KeyCol]));
          EmptyFirst(sorted[i]);
        }
      }
      assert ([""] + sorted)[1..] == sorted;
      [""] + sorted
  }

  /** Choosing a listed function name never gives "Function name not found.":
      the heading row that offers it matches it. */
  lemma ListedFunctionIsFound(g: Grid, n: string)
    requires WellFormed(g) && n in FunctionNames(Loaded(g))[1..]
    ensures FirstKeyRow(g, n).Some?
  {
    var r :| 0 <= r < |g| && Offers(g, r, n);
    assert KeyMatches(g[r][KeyCol], n);
  }

  /** The positions of the filled cells, in increasing order. */
  function FilledPositions(h: seq<Cell>): (ks: seq<nat>)
    ensures |ks| <= |h|
    ensures forall j :: 0 <= j < |ks| ==> ks[j] < |h| && Filled(h[ks[j]])
    ensures forall i, j :: 0 <= i < j < |ks| ==> ks[i] < ks[j]
  {
    if h == [] then []
    else
      var n := |h| - 1;
      var front := FilledPositions(h[..n]);
      assert forall j :: 0 <= j < |front| ==> h[..n][front[j]] == h[front[j]];
      front + (if Filled(h[n]) then [n] else [])
  }

  /** A position is listed exactly when its cell is filled. */
  lemma {:induction false} FilledPositionsExactly(h: seq<Cell>)
    ensures forall k :: k in FilledPositions(h) <==> 0 <= k < |h| && Filled(h[k])
  {
    if h != [] {
      var n := |h| - 1;
      FilledPositionsExactly(h[..n]);
      var front := FilledPositions(h[..n]);
      var ks := FilledPositions(h);
      assert ks == front + (if Filled(h[n]) then [n] else []);
      forall k | 0 <= k < |h| && Filled(h[k]) ensures k in ks {
        if k < n {
          assert h[..n][k] == h[k];
          assert k in front;
        } else {
          assert ks[|ks| - 1] == n;
        }
      }
    } else {
      assert forall k :: k !in FilledPositions(h);
    }
  }

  /** The labels among the cells: Python's `str` of every cell that is
      present and not blank, in cell order, without trimming. */
  function Labels(h: seq<Cell>): (names: seq<string>)
    ensures |names| <= |h|
    ensures forall n :: n in names <==> exists k :: 0 <= k < |h| && Filled(h[k]) && n == Str(h[k])
  {
    if h == [] then []
    else
      var last := h[|h| - 1];
      assert forall k :: 0 <= k < |h| - 1 ==> h[..|h| - 1][k] == h[k];
      Labels(h[..|h| - 1]) + (if Filled(last) then [Str(last)] else [])
  }

  /** One label per filled cell, in cell order, repeats kept. */
  lemma {:induction false} LabelsInOrder(h: seq<Cell>)
    ensures |Labels(h)| == |FilledPositions(h)|
    ensures forall j :: 0 <= j < |Labels(h)| ==> Labels(h)[j] == Str(h[FilledPositions(h)[j]])
  {
    if h != [] {
      var n := |h| - 1;
      LabelsInOrder(h[..n]);
      var front := FilledPositions(h[..n]);
      var names := Labels(h[..n]);
      assert Labels(h) == names + (if Filled(h[n]) then [Str(h[n])] else []);
      assert FilledPositions(h) == front + (if Filled(h[n]) then [n] else []);
      forall j | 0 <= j < |names| ensures Labels(h)[j] == Str(h[FilledPositions(h)[j]]) {
        assert h[..n][front[j]] == h[front[j]];
      }
    }
  }

  /** The stage-name choices: the labels of the stage columns of the header
      row, in column order; none when the sheet did not load. */
  function StageNames(src: Source): (names: seq<string>)
    requires src.Loaded? ==> WellFormed(src.grid)
    ensures src.LoadError? ==> names == []
    ensures |names| <= StageLast - StageFirst + 1
    ensures src.Loaded? ==> forall n :: n in names <==>
      exists k :: 0 <= k < |StageHeaders(src.grid)| &&
                  Filled(StageHeaders(src.grid)[k]) && n == Str(StageHeaders(src.grid)[k])
    ensures src.Loaded? ==>
      var h := StageHeaders(src.grid);
      |names| == |FilledPositions(h)| &&
      forall j :: 0 <= j < |names| ==> names[j] == Str(h[FilledPositions(h)[j]])
  {
    match src
    case LoadError(_) => []
    case Loaded(g) =>
      LabelsInOrder(StageHeaders(g));
      Labels(StageHeaders(g))
  }

  /** When no stage label is a number, any selection made from the offered
      stage names resolves completely: one column per selected name. */
  lemma SelectedStagesResolve(g: Grid, selected: seq<string>)
    requires WellFormed(g)
    requires forall k :: 0 <= k < |StageHeaders(g)| ==> !StageHeaders(g)[k].Num?
    requires forall j :: 0 <= j < |selected| ==> selected[j] in StageNames(Loaded(g))
    ensures |StageIndices(StageHeaders(g), selected)| == |selected|
  {
    var h := StageHeaders(g);
    forall j | 0 <= j < |selected| ensures Text(selected[j]) in h {
      var k :| 0 <= k < |h| && Filled(h[k]) && selected[j] == Str(h[k]);
      assert h[k] == Text(selected[j]);
    }
    StageIndicesAllResolve(h, selected);
  }

  /** A numeric stage label is offered (as its `str`) but never resolves to a
      column, since the label cell is a number and the name is text. */
  lemma NumericStageLabelDropped(g: Grid, k: nat)
    requires WellFormed(g) && k < |StageHeaders(g)|
    requires StageHeaders(g)[k].Num? && Filled(StageHeaders(g)[k])
    requires Text(Str(StageHeaders(g)[k])) !in StageHeaders(g)
    ensures Str(StageHeaders(g)[k]) in StageNames(Loaded(g))
    ensures StageIndices(StageHeaders(g), [Str(StageHeaders(g)[k])]) == []
  {
    var h := StageHeaders(g);
    assert [Str(h[k])][..0] == [];
  }
}
