/** What a query answers, case by case: a load failure, an unknown function
    name, a numeric document name, no matching document, or the matching
    documents themselves. */
module QueryProperties {
  import opened Sheet
  import opened Markers
  import opened Extraction

  /** A sheet that failed to load answers every query with one row carrying
      the loader's message, padded for the selected stages only. */
  lemma LoadFailureAnswer(msg: string, key: string, selected: seq<string>)
    ensures |MatchingDocuments(LoadError(msg), key, selected)| == 1
    ensures |MatchingDocuments(LoadError(msg), key, selected)[0]| == 4 + |selected|
    ensures MatchingDocuments(LoadError(msg), key, selected)[0][0] ==
      Value(Text("Excel file could not be loaded: " + msg))
    ensures MatchingDocuments(LoadError(msg), key, selected)[0] ==
      [Value(Text(LoadErrorPrefix + msg))] + Pads(3 + |selected|)
  {
  }

  /** The four message texts differ from one another. */
  lemma MessagesDiffer(kind: NumKind)
    ensures NotFoundText != NoMatchText
    ensures NotFoundText != ErrorPrefix + StripErrorMessage(kind)
    ensures NoMatchText != ErrorPrefix + StripErrorMessage(kind)
  {
    assert NotFoundText[0] == 'F' && NoMatchText[0] == 'N';
    assert |ErrorPrefix| > |NotFoundText| && |ErrorPrefix| > |NoMatchText|;
  }

  /** Once the function name is found, the answer is never the not-found row. */
  lemma FoundIsNotNotFound(g: Grid, key: string, selected: seq<string>, start: nat)
    requires WellFormed(g) && FirstKeyRow(g, key) == Some(start)
    ensures MatchingDocuments(Loaded(g), key, selected)[0][0] != Value(Text(NotFoundText)) ||
            |MatchingDocuments(Loaded(g), key, selected)[0]| != 1 + SentinelPadding(g, selected)
  {
    var idx := StageIndices(StageHeaders(g), selected);
    var c := Collect(Block(g, start), idx);
    MessagesDiffer(if c.Err? then c.error else Int);
  }

  /** The answer is "Function name not found." exactly when no key cell of
      the sheet, trimmed, equals the function name. */
  lemma KeyNotFoundIff(g: Grid, key: string, selected: seq<string>)
    requires WellFormed(g)
    ensures MatchingDocuments(Loaded(g), key, selected) == [Sentinel(NotFoundText, SentinelPadding(g, selected))]
      <==> forall k :: 0 <= k < |g| ==> !KeyMatches(g[k][KeyCol], key)
  {
    if FirstKeyRow(g, key).Some? {
      FoundIsNotNotFound(g, key, selected, FirstKeyRow(g, key).value);
    }
  }

  /** Once the function name is found at row `start`, the answer depends
      only on what the block yields. */
  lemma FoundAnswer(g: Grid, key: string, selected: seq<string>, start: nat)
    requires WellFormed(g) && FirstKeyRow(g, key) == Some(start)
    ensures var c := Collect(Block(g, start), StageIndices(StageHeaders(g), selected));
            var pad := SentinelPadding(g, selected);
            MatchingDocuments(Loaded(g), key, selected) ==
              if c.Err? then [Sentinel(ErrorPrefix + StripErrorMessage(c.error), pad)]
              else if c.value == [] then [Sentinel(NoMatchText, pad)]
              else c.value
  {
  }

  /** The block's rows are the sheet's rows after `start`, up to the end. */
  lemma BlockRows(g: Grid, start: nat)
    requires WellFormed(g) && start < |g|
    ensures |Block(g, start)| == BlockEnd(g, start) - start - 1
    ensures forall k :: 0 <= k < |Block(g, start)| ==> Block(g, start)[k] == g[start + 1 + k]
  {
  }

  /** A document row is narrower than every message row. */
  lemma DocumentRowNarrower(g: Grid, selected: seq<string>, row: seq<Field>)
    requires WellFormed(g)
    requires |row| == 9 + |StageIndices(StageHeaders(g), selected)|
    ensures |row| < 1 + SentinelPadding(g, selected)
  {
  }

  /** The block's rows with a numeric document name are exactly the sheet's. */
  lemma NumericNameInBlock(g: Grid, start: nat)
    requires WellFormed(g) && start < |g|
    ensures (exists k :: 0 <= k < |Block(g, start)| && NumericName(Block(g, start)[k]))
      <==> exists k :: start < k < BlockEnd(g, start) && NumericName(g[k])
  {
    BlockRows(g, start);
    var b := Block(g, start);
    if exists k :: start < k < BlockEnd(g, start) && NumericName(g[k]) {
      var k :| start < k < BlockEnd(g, start) && NumericName(g[k]);
      assert NumericName(b[k - start - 1]);
    }
  }

  /** When the sheet's rows in the block have no numeric document name,
      neither have the block's. */
  lemma NoNumericInBlock(g: Grid, start: nat)
    requires WellFormed(g) && start < |g|
    requires forall k :: start < k < BlockEnd(g, start) ==> !NumericName(g[k])
    ensures forall k :: 0 <= k < |Block(g, start)| ==> !NumericName(Block(g, start)[k])
  {
    BlockRows(g, start);
  }

  /** Once the function name is found at row `start`, the query fails with
      the extraction error exactly when a detail row of the block has a
      numeric document name. */
  lemma ExtractionErrorIff(g: Grid, key: string, selected: seq<string>, start: nat)
    requires WellFormed(g) && FirstKeyRow(g, key) == Some(start)
    ensures (exists kind :: MatchingDocuments(Loaded(g), key, selected) ==
               [Sentinel(ErrorPrefix + StripErrorMessage(kind), SentinelPadding(g, selected))])
      <==> exists k :: start < k < BlockEnd(g, start) && NumericName(g[k])
  {
    var b := Block(g, start);
    var idx := StageIndices(StageHeaders(g), selected);
    var c := Collect(b, idx);
    var r := MatchingDocuments(Loaded(g), key, selected);
    var pad := SentinelPadding(g, selected);
    FoundAnswer(g, key, selected, start);
    CollectErrIff(b, idx);
    NumericNameInBlock(g, start);
    if c.Ok? {
      forall kind ensures r != [Sentinel(ErrorPrefix + StripErrorMessage(kind), pad)] {
        MessagesDiffer(kind);
        if c.value != [] {
          DocumentRowNarrower(g, selected, r[0]);
        }
      }
    }
  }

  /** The extraction error names the type of the first numeric document
      name of the block. */
  lemma ExtractionErrorNamesFirst(g: Grid, key: string, selected: seq<string>, start: nat, k: nat)
    requires WellFormed(g) && FirstKeyRow(g, key) == Some(start)
    requires start < k < BlockEnd(g, start) && NumericName(g[k])
    requires forall i :: start < i < k ==> !NumericName(g[i])
    ensures MatchingDocuments(Loaded(g), key, selected) ==
      [Sentinel(ErrorPrefix + StripErrorMessage(g[k][KeyCol].kind), SentinelPadding(g, selected))]
  {
    var idx := StageIndices(StageHeaders(g), selected);
    FirstNumericOfSheet(g, start, idx, k);
    FoundAnswer(g, key, selected, start);
  }

  /** The block fails with the type of the sheet's first numeric document
      name after `start`. */
  lemma FirstNumericOfSheet(g: Grid, start: nat, idx: seq<nat>, k: nat)
    requires WellFormed(g) && start < |g| && ValidIndices(idx)
    requires start < k < BlockEnd(g, start) && NumericName(g[k])
    requires forall i :: start < i < k ==> !NumericName(g[i])
    ensures Collect(Block(g, start), idx) == Err(g[k][KeyCol].kind)
  {
    FirstNumericOfSlice(g, start + 1, BlockEnd(g, start), idx, k);
  }

  /** The rows `lo` to `hi` of a sheet fail with the type of the first
      numeric document name among them. */
  lemma FirstNumericOfSlice(g: Grid, lo: nat, hi: nat, idx: seq<nat>, k: nat)
    requires lo <= k < hi <= |g| && AllWide(g[lo..hi]) && ValidIndices(idx)
    requires Wide(g[k]) && NumericName(g[k])
    requires forall i :: lo <= i < k ==> Wide(g[i]) && !NumericName(g[i])
    ensures Collect(g[lo..hi], idx) == Err(g[k][KeyCol].kind)
  {
    var b := g[lo..hi];
    var kb := k - lo;
    assert b[kb] == g[k];
    assert forall i :: 0 <= i < kb ==> !NumericName(b[i]) by {
      forall i | 0 <= i < kb ensures !NumericName(b[i]) {
        assert b[i] == g[lo + i];
      }
    }
    FirstNumericOfBlock(b, idx, kb);
  }

  /** A block fails with the type of its first numeric document name. */
  lemma FirstNumericOfBlock(b: seq<Row>, idx: seq<nat>, kb: nat)
    requires AllWide(b) && ValidIndices(idx) && kb < |b|
    requires NumericName(b[kb]) && forall i :: 0 <= i < kb ==> !NumericName(b[i])
    ensures Collect(b, idx) == Err(b[kb][KeyCol].kind)
  {
    CollectErrIff(b, idx);
    CollectErrFirst(b, idx);
    var j :| 0 <= j < |b| && NumericName(b[j]) && Collect(b, idx).error == b[j][KeyCol].kind &&
              forall i :: 0 <= i < j ==> !NumericName(b[i]);
    FirstIsUnique(b, j, kb);
  }

  /** Two rows that are each the first with a numeric name are the same row. */
  lemma FirstIsUnique(b: seq<Row>, j: nat, k: nat)
    requires AllWide(b) && j < |b| && k < |b|
    requires NumericName(b[j]) && forall i :: 0 <= i < j ==> !NumericName(b[i])
    requires NumericName(b[k]) && forall i :: 0 <= i < k ==> !NumericName(b[i])
    ensures j == k
  {
  }

  /** Once the function name is found and no document name is numeric, the
      answer is "No matching documents found." exactly when no row of the
      block is kept. */
  lemma NoMatchIff(g: Grid, key: string, selected: seq<string>, start: nat)
    requires WellFormed(g) && FirstKeyRow(g, key) == Some(start)
    requires forall k :: start < k < BlockEnd(g, start) ==> !NumericName(g[k])
    ensures MatchingDocuments(Loaded(g), key, selected) == [Sentinel(NoMatchText, SentinelPadding(g, selected))]
      <==> forall k :: start < k < BlockEnd(g, start) ==>
             !IsKept(g[k], StageIndices(StageHeaders(g), selected))
  {
    var b := Block(g, start);
    var idx := StageIndices(StageHeaders(g), selected);
    FoundAnswer(g, key, selected, start);
    NoNumericInBlock(g, start);
    EmptyYieldIff(b, idx);
    KeptInBlock(g, start, idx);
    var c := Collect(b, idx);
    if c.value != [] {
      DocumentRowNarrower(g, selected, c.value[0]);
    }
  }

  /** A block without numeric document names yields no row exactly when
      none of its rows is kept. */
  lemma EmptyYieldIff(b: seq<Row>, idx: seq<nat>)
    requires AllWide(b) && ValidIndices(idx)
    requires forall k :: 0 <= k < |b| ==> !NumericName(b[k])
    ensures Collect(b, idx).Ok?
    ensures Collect(b, idx).value == [] <==> forall k :: 0 <= k < |b| ==> !IsKept(b[k], idx)
  {
    CollectOk(b, idx);
    KeptIndicesExactly(b, idx);
    var ks := KeptIndices(b, idx);
    if ks != [] {
      assert IsKept(b[ks[0]], idx);
    }
  }

  /** The block's kept rows are the sheet's kept rows after `start`. */
  lemma KeptInBlock(g: Grid, start: nat, idx: seq<nat>)
    requires WellFormed(g) && start < |g| && ValidIndices(idx)
    ensures (forall k :: 0 <= k < |Block(g, start)| ==> !IsKept(Block(g, start)[k], idx))
      <==> forall k :: start < k < BlockEnd(g, start) ==> !IsKept(g[k], idx)
  {
    var b := Block(g, start);
    BlockRows(g, start);
    if exists k :: start < k < BlockEnd(g, start) && IsKept(g[k], idx) {
      var k :| start < k < BlockEnd(g, start) && IsKept(g[k], idx);
      assert IsKept(b[k - start - 1], idx);
    }
  }

  /** `rows` are the sheet's rows at `start + 1 + ks[j]`, each projected, in
      the order of `ks`. */
  predicate ProjectedRows(rows: seq<seq<Field>>, g: Grid, start: nat, ks: seq<nat>, idx: seq<nat>)
    requires WellFormed(g) && ValidIndices(idx)
    requires forall j :: 0 <= j < |ks| ==> start + 1 + ks[j] < |g|
  {
    |rows| == |ks| && forall j :: 0 <= j < |ks| ==> rows[j] == Project(g[start + 1 + ks[j]], idx)
  }

  /** Once the function name is found, no document name is numeric and some
      row is kept, the answer is exactly the kept rows of the block, in block
      order, each projected; a row is kept exactly when it is a detail row
      named by non-blank text with a marker on a selected stage. */
  lemma DocumentRows(g: Grid, key: string, selected: seq<string>, start: nat)
    requires WellFormed(g) && FirstKeyRow(g, key) == Some(start)
    requires forall k :: start < k < BlockEnd(g, start) ==> !NumericName(g[k])
    ensures var idx := StageIndices(StageHeaders(g), selected);
            var ks := KeptIndices(Block(g, start), idx);
            ks != [] ==> ProjectedRows(MatchingDocuments(Loaded(g), key, selected), g, start, ks, idx)
  {
    var idx := StageIndices(StageHeaders(g), selected);
    var c := Collect(Block(g, start), idx);
    KeptRowsOfSheet(g, start, idx);
    if c.value != [] {
      FoundAnswer(g, key, selected, start);
    }
  }

  /** The rows a block without numeric document names yields, stated in
      terms of the sheet's rows. */
  lemma KeptRowsOfSheet(g: Grid, start: nat, idx: seq<nat>)
    requires WellFormed(g) && start < |g| && ValidIndices(idx)
    requires forall k :: start < k < BlockEnd(g, start) ==> !NumericName(g[k])
    ensures Collect(Block(g, start), idx).Ok?
    ensures ProjectedRows(Collect(Block(g, start), idx).value, g, start, KeptIndices(Block(g, start), idx), idx)
  {
    var b := Block(g, start);
    BlockRows(g, start);
    NoNumericInBlock(g, start);
    CollectOk(b, idx);
    var ks := KeptIndices(b, idx);
    forall j | 0 <= j < |ks| ensures b[ks[j]] == g[start + 1 + ks[j]] {
    }
  }

  /** All rows of one answer have the same width: four cells plus one per
      selected stage for a load failure, ten plus one per selected stage for
      the other messages, and nine plus one per resolved stage for document
      rows, which is always narrower than a message row. */
  lemma AnswerWidth(src: Source, key: string, selected: seq<string>)
    requires src.Loaded? ==> WellFormed(src.grid)
    ensures var r := MatchingDocuments(src, key, selected);
            forall i :: 0 <= i < |r| ==> |r[i]| == |r[0]|
    ensures var r := MatchingDocuments(src, key, selected);
            src.LoadError? ==> |r[0]| == 4 + |selected|
    ensures var r := MatchingDocuments(src, key, selected);
            src.Loaded? && |r[0]| == 10 + |selected| ==> |r| == 1
    ensures var r := MatchingDocuments(src, key, selected);
            src.Loaded? ==>
              |r[0]| == 10 + |selected| ||
              |r[0]| == 9 + |StageIndices(StageHeaders(src.grid), selected)| <= 9 + |selected|
  {
    if src.Loaded? && FirstKeyRow(src.grid, key).Some? {
      var g := src.grid;
      var start := FirstKeyRow(g, key).value;
      FoundAnswer(g, key, selected, start);
    }
  }
}
