/** The document query: given a function name and the selected stage names,
    find the function's block of rows, keep the document rows that carry a
    marker on a selected stage, and project each into a result row. */
module Extraction {
  import opened Sheet
  import opened Markers

  datatype Option<T> = None | Some(value: T)
  datatype Result<T, E> = Ok(value: T) | Err(error: E)

  /** One cell of a result row: a value copied or written as text, or a
      stage indicator. */
  datatype Field = Value(cell: Cell) | Mark(indicator: Indicator)

  /** The empty string the tool pads rows with. */
  const Pad: Field := Value(Text(""))

  function Pads(n: nat): (r: seq<Field>)
    ensures |r| == n && forall k :: 0 <= k < n ==> r[k] == Pad
  {
    seq(n, _ => Pad)
  }

  // ---------------------------------------------------------------------
  // Header labels and stage columns

  /** The stage labels: the header row, columns 12 to 18. */
  function StageHeaders(g: Grid): (h: seq<Cell>)
    requires WellFormed(g)
    ensures |h| == StageLast - StageFirst + 1
    ensures forall k :: 0 <= k < |h| ==> h[k] == g[HeaderRow][StageFirst + k]
  {
    Header(g)[StageFirst..StageLast + 1]
  }

  /** The detail-column labels: the header row, columns 5 to 10. */
  function DetailHeaders(g: Grid): (h: seq<Cell>)
    requires WellFormed(g)
    ensures |h| == DetailLast - DetailFirst + 1
    ensures forall k :: 0 <= k < |h| ==> h[k] == g[HeaderRow][DetailFirst + k]
  {
    Header(g)[DetailFirst..DetailLast + 1]
  }

  /** Python's `list.index`: the first position holding the stage name. */
  function FirstIndex(h: seq<Cell>, name: string): (i: nat)
    requires Text(name) in h
    ensures i < |h| && h[i] == Text(name)
    ensures forall k :: 0 <= k < i ==> h[k] != Text(name)
  {
    if h[0] == Text(name) then 0 else 1 + FirstIndex(h[1..], name)
  }

  /** No earlier label equals the one at position `i`. */
  predicate FirstOccurrence(h: seq<Cell>, i: nat)
    requires i < |h|
  {
    forall k :: 0 <= k < i ==> h[k] != h[i]
  }

  /** Every index names a stage column whose label is text and is the
      first occurrence of that label. */
  predicate Resolved(h: seq<Cell>, r: seq<nat>) {
    forall j :: 0 <= j < |r| ==>
      StageFirst <= r[j] < StageFirst + |h| &&
      h[r[j] - StageFirst].Text? && FirstOccurrence(h, r[j] - StageFirst)
  }

  /** The sheet column of each selected stage, in the caller's order; a name
      that is not a label is dropped. */
  function StageIndices(h: seq<Cell>, selected: seq<string>): (r: seq<nat>)
    ensures |r| <= |selected|
    ensures Resolved(h, r)
  {
    if selected == [] then []
    else
      var name := selected[|selected| - 1];
      StageIndices(h, selected[..|selected| - 1]) +
      (if Text(name) in h then [StageFirst + FirstIndex(h, name)] else [])
  }

  /** Resolution works name by name, so a selection resolves piecewise. */
  lemma {:induction false} StageIndicesAppend(h: seq<Cell>, a: seq<string>, b: seq<string>)
    ensures StageIndices(h, a + b) == StageIndices(h, a) + StageIndices(h, b)
    decreases |b|
  {
    if b == [] {
      assert a + b == a;
    } else {
      var b', name := b[..|b| - 1], b[|b| - 1];
      var last := if Text(name) in h then [StageFirst + FirstIndex(h, name)] else [];
      assert (a + b)[..|a + b| - 1] == a + b';
      assert (a + b)[|a + b| - 1] == name;
      assert StageIndices(h, a + b) == StageIndices(h, a + b') + last;
      assert StageIndices(h, b) == StageIndices(h, b') + last;
      StageIndicesAppend(h, a, b');
    }
  }

  /** A name that is not a stage label contributes nothing. */
  lemma StageIndicesDropsAbsent(h: seq<Cell>, a: seq<string>, name: string, b: seq<string>)
    requires Text(name) !in h
    ensures StageIndices(h, a + [name] + b) == StageIndices(h, a + b)
  {
    StageIndicesAppend(h, a + [name], b);
    StageIndicesAppend(h, a, [name]);
    StageIndicesAppend(h, a, b);
    assert [name][..0] == [];
  }

  /** A single name that is a label resolves to its first occurrence. */
  lemma StageIndicesOne(h: seq<Cell>, name: string)
    requires Text(name) in h
    ensures StageIndices(h, [name]) == [StageFirst + FirstIndex(h, name)]
  {
    assert [name][..0] == [];
  }

  /** When every selected name is a label, each resolves, in order, to the
      column of its first occurrence. */
  lemma {:induction false} StageIndicesAllResolve(h: seq<Cell>, selected: seq<string>)
    requires forall j :: 0 <= j < |selected| ==> Text(selected[j]) in h
    ensures |StageIndices(h, selected)| == |selected|
    ensures forall j :: 0 <= j < |selected| ==>
      StageIndices(h, selected)[j] == StageFirst + FirstIndex(h, selected[j])
  {
    if selected != [] {
      var n := |selected| - 1;
      var init, name := selected[..n], selected[n];
      forall j | 0 <= j < n ensures Text(init[j]) in h {
        assert init[j] == selected[j];
      }
      StageIndicesAllResolve(h, init);
      var front := StageIndices(h, init);
      var r := front + [StageFirst + FirstIndex(h, name)];
      assert selected == init + [name];
      StageIndicesAppend(h, init, [name]);
      StageIndicesOne(h, name);
      forall j | 0 <= j < |selected|
        ensures r[j] == StageFirst + FirstIndex(h, selected[j])
      {
        if j < n {
          assert r[j] == front[j] && selected[j] == init[j];
        }
      }
    }
  }

  /** Every resolved column is a stage column. */
  predicate ValidIndices(idx: seq<nat>) {
    forall j :: 0 <= j < |idx| ==> StageFirst <= idx[j] <= StageLast
  }

  // ---------------------------------------------------------------------
  // The block of a function name

  /** The scan for the function name from row `from` on. */
  function FindKeyFrom(g: Grid, key: string, from: nat): (o: Option<nat>)
    requires WellFormed(g) && from <= |g|
    ensures o.Some? ==> from <= o.value < |g| && KeyMatches(g[o.value][KeyCol], key)
    ensures forall k :: from <= k < |g| && (o.None? || k < o.value) ==>
      !KeyMatches(g[k][KeyCol], key)
    decreases |g| - from
  {
    if from == |g| then None
    else if KeyMatches(g[from][KeyCol], key) then Some(from)
    else FindKeyFrom(g, key, from + 1)
  }

  /** The first row whose trimmed key cell equals the function name, if any. */
  function FirstKeyRow(g: Grid, key: string): (o: Option<nat>)
    requires WellFormed(g)
    ensures o.None? <==> forall k :: 0 <= k < |g| ==> !KeyMatches(g[k][KeyCol], key)
    ensures o.Some? ==> o.value < |g| && KeyMatches(g[o.value][KeyCol], key) &&
                        forall k :: 0 <= k < o.value ==> !KeyMatches(g[k][KeyCol], key)
  {
    FindKeyFrom(g, key, 0)
  }

  /** The scan for the end of a block from row `from` on. */
  function ScanEnd(g: Grid, from: nat): (e: nat)
    requires WellFormed(g) && from <= |g|
    ensures from <= e <= |g|
    ensures forall k :: from <= k < e ==> !EndsBlock(g[k][KeyCol])
    ensures e < |g| ==> EndsBlock(g[e][KeyCol])
    decreases |g| - from
  {
    if from == |g| || EndsBlock(g[from][KeyCol]) then from else ScanEnd(g, from + 1)
  }

  /** The end of the block that starts at row `start`: the first later row
      whose key cell closes a block, or the end of the sheet. */
  function BlockEnd(g: Grid, start: nat): (e: nat)
    requires WellFormed(g) && start < |g|
    ensures start < e <= |g|
    ensures forall k :: start < k < e ==> !EndsBlock(g[k][KeyCol])
    ensures e < |g| ==> EndsBlock(g[e][KeyCol])
  {
    ScanEnd(g, start + 1)
  }

  // ---------------------------------------------------------------------
  // Filtering and projecting the rows of a block

  predicate Wide(row: Row) {
    |row| > StageLast
  }

  predicate AllWide(rows: seq<Row>) {
    forall k :: 0 <= k < |rows| ==> Wide(rows[k])
  }

  /** Some selected stage of the row holds a marker. */
  predicate AnyMarker(row: Row, idx: seq<nat>)
    requires Wide(row) && ValidIndices(idx)
  {
    exists j :: 0 <= j < |idx| && IsMarker(row[idx[j]])
  }

  /** A row that becomes a result row: a detail row named by non-blank text
      with a marker on a selected stage. */
  predicate IsKept(row: Row, idx: seq<nat>)
    requires Wide(row) && ValidIndices(idx)
  {
    IsDetail(row) && row[KeyCol].Text? && !IsBlank(row[KeyCol].s) && AnyMarker(row, idx)
  }

  /** A detail row whose document name is a number: `.strip()` on it raises. */
  predicate NumericName(row: Row)
    requires Wide(row)
  {
    IsDetail(row) && row[KeyCol].Num?
  }

  function DetailValues(row: Row): seq<Field>
    requires Wide(row)
  {
    seq(DetailLast - DetailFirst + 1, c requires 0 <= c <= DetailLast - DetailFirst =>
      Value(row[DetailFirst + c]))
  }

  function Indicators(row: Row, idx: seq<nat>): seq<Field>
    requires Wide(row) && ValidIndices(idx)
  {
    seq(|idx|, j requires 0 <= j < |idx| => Mark(IndicatorOf(row[idx[j]])))
  }

  /** The result row of a kept row. */
  function Project(row: Row, idx: seq<nat>): (r: seq<Field>)
    requires Wide(row) && ValidIndices(idx)
    ensures |r| == 3 + (DetailLast - DetailFirst + 1) + |idx|
    ensures r[0] == Value(row[KeyCol]) && r[1] == Pad && r[2] == Pad
    ensures forall c :: DetailFirst <= c <= DetailLast ==> r[c - 2] == Value(row[c])
    ensures forall j :: 0 <= j < |idx| ==> r[9 + j] == Mark(IndicatorOf(row[idx[j]]))
  {
    [Value(row[KeyCol]), Pad, Pad] + DetailValues(row) + Indicators(row, idx)
  }

  /** The rows a block yields, in block order, or the type of the first
      numeric document name met in a detail row. */
  function Collect(block: seq<Row>, idx: seq<nat>): (r: Result<seq<seq<Field>>, NumKind>)
    requires AllWide(block) && ValidIndices(idx)
    ensures r.Ok? ==> forall k :: 0 <= k < |r.value| ==> |r.value[k]| == 9 + |idx|
    ensures r.Ok? ==> |r.value| <= |block|
    decreases |block|
  {
    if block == [] then Ok([])
    else
      var row := block[|block| - 1];
      match Collect(block[..|block| - 1], idx)
      case Err(kind) => Err(kind)
      case Ok(rows) =>
        if NumericName(row) then Err(row[KeyCol].kind)
        else if IsKept(row, idx) then Ok(rows + [Project(row, idx)])
        else Ok(rows)
  }

  /** The positions of the kept rows of a block, in increasing order. */
  function KeptIndices(block: seq<Row>, idx: seq<nat>): (ks: seq<nat>)
    requires AllWide(block) && ValidIndices(idx)
    ensures forall j :: 0 <= j < |ks| ==> ks[j] < |block| && IsKept(block[ks[j]], idx)
    ensures forall i, j :: 0 <= i < j < |ks| ==> ks[i] < ks[j]
    decreases |block|
  {
    if block == [] then []
    else
      var n := |block| - 1;
      var init := block[..n];
      var front := KeptIndices(init, idx);
      forall j | 0 <= j < |front| ensures IsKept(block[front[j]], idx) {
        assert init[front[j]] == block[front[j]];
      }
      front + (if IsKept(block[n], idx) then [n] else [])
  }

  /** A position is listed exactly when its row is kept. */
  lemma {:induction false} KeptIndicesExactly(block: seq<Row>, idx: seq<nat>)
    requires AllWide(block) && ValidIndices(idx)
    ensures forall k :: k in KeptIndices(block, idx) <==> 0 <= k < |block| && IsKept(block[k], idx)
    decreases |block|
  {
    if block != [] {
      var n := |block| - 1;
      var init := block[..n];
      KeptIndicesExactly(init, idx);
      var front := KeptIndices(init, idx);
      var ks := KeptIndices(block, idx);
      assert ks == front + (if IsKept(block[n], idx) then [n] else []);
      forall k | 0 <= k < |block| && IsKept(block[k], idx) ensures k in ks {
        if k < n {
          assert init[k] == block[k];
          assert k in front;
        } else {
          assert ks[|ks| - 1] == n;
        }
      }
      forall k | k in ks ensures 0 <= k < |block| && IsKept(block[k], idx) {
        var j :| 0 <= j < |ks| && ks[j] == k;
      }
    } else {
      assert forall k :: k !in KeptIndices(block, idx);
    }
  }

  /** A block fails exactly when one of its detail rows has a numeric
      document name. */
  lemma {:induction false} CollectErrIff(block: seq<Row>, idx: seq<nat>)
    requires AllWide(block) && ValidIndices(idx)
    ensures Collect(block, idx).Err? <==> exists k :: 0 <= k < |block| && NumericName(block[k])
    decreases |block|
  {
    if block != [] {
      var n := |block| - 1;
      var init, row := block[..n], block[n];
      CollectErrIff(init, idx);
      forall k | 0 <= k < n ensures init[k] == block[k] {
      }
      if Collect(init, idx).Err? {
        assert Collect(block, idx).Err?;
        var k :| 0 <= k < n && NumericName(init[k]);
        assert NumericName(block[k]);
      } else if NumericName(row) {
        assert Collect(block, idx).Err?;
      } else {
        assert Collect(block, idx).Ok?;
        forall k | 0 <= k < |block| ensures !NumericName(block[k]) {
          if k < n {
            assert !NumericName(init[k]);
          }
        }
      }
    }
  }

  /** A failing block names the type of its first numeric document name. */
  lemma {:induction false} CollectErrFirst(block: seq<Row>, idx: seq<nat>)
    requires AllWide(block) && ValidIndices(idx) && Collect(block, idx).Err?
    ensures exists k :: 0 <= k < |block| && NumericName(block[k]) &&
                        Collect(block, idx).error == block[k][KeyCol].kind &&
                        forall i :: 0 <= i < k ==> !NumericName(block[i])
    decreases |block|
  {
    var n := |block| - 1;
    var init, row := block[..n], block[n];
    forall k | 0 <= k < n ensures init[k] == block[k] {
    }
    if Collect(init, idx).Err? {
      CollectErrFirst(init, idx);
      assert Collect(block, idx) == Collect(init, idx);
      var k :| 0 <= k < n && NumericName(init[k]) &&
        Collect(init, idx).error == init[k][KeyCol].kind &&
        forall i :: 0 <= i < k ==> !NumericName(init[i]);
      assert NumericName(block[k]);
    } else {
      CollectErrIff(init, idx);
      assert NumericName(row) && Collect(block, idx).error == row[KeyCol].kind;
      assert forall i :: 0 <= i < n ==> !NumericName(init[i]);
    }
  }

  /** A block without numeric document names yields exactly its kept rows,
      projected, in block order. */
  lemma {:induction false} CollectOk(block: seq<Row>, idx: seq<nat>)
    requires AllWide(block) && ValidIndices(idx)
    requires forall k :: 0 <= k < |block| ==> !NumericName(block[k])
    ensures Collect(block, idx).Ok?
    ensures |Collect(block, idx).value| == |KeptIndices(block, idx)|
    ensures forall j :: 0 <= j < |KeptIndices(block, idx)| ==>
      Collect(block, idx).value[j] == Project(block[KeptIndices(block, idx)[j]], idx)
    decreases |block|
  {
    if block != [] {
      var n := |block| - 1;
      var init := block[..n];
      assert forall k :: 0 <= k < n ==> init[k] == block[k];
      CollectOk(init, idx);
      var ks, rows := KeptIndices(init, idx), Collect(init, idx).value;
      assert !NumericName(block[n]);
      if IsKept(block[n], idx) {
        assert Collect(block, idx) == Ok(rows + [Project(block[n], idx)]);
      } else {
        assert Collect(block, idx) == Ok(rows);
      }
      assert KeptIndices(block, idx) == ks + (if IsKept(block[n], idx) then [n] else []);
      forall j | 0 <= j < |ks| ensures rows[j] == Project(block[ks[j]], idx) {
        assert init[ks[j]] == block[ks[j]];
      }
    }
  }

  /** Once a prefix of a block has failed, the whole block fails alike. */
  lemma {:induction false} CollectErrPersists(block: seq<Row>, n: nat, idx: seq<nat>)
    requires AllWide(block) && ValidIndices(idx)
    requires n <= |block| && Collect(block[..n], idx).Err?
    ensures Collect(block, idx) == Collect(block[..n], idx)
    decreases |block|
  {
    if n < |block| {
      var init := block[..|block| - 1];
      assert init[..n] == block[..n];
      CollectErrPersists(init, n, idx);
    } else {
      assert block[..n] == block;
    }
  }

  // ---------------------------------------------------------------------
  // The result of a query

  const LoadErrorPrefix := "Excel file could not be loaded: "
  const NotFoundText := "Function name not found."
  const NoMatchText := "No matching documents found."
  const ErrorPrefix := "An error occurred during document extraction: "

  /** A one-row answer: a message followed by padding. */
  function Sentinel(text: string, padding: nat): (r: seq<Field>)
    ensures |r| == 1 + padding && r[0] == Value(Text(text))
    ensures forall k :: 1 <= k < |r| ==> r[k] == Pad
  {
    [Value(Text(text))] + Pads(padding)
  }

  function TypeName(kind: NumKind): string {
    match kind
    case Int => "int"
    case Float => "float"
  }

  /** The text of the `AttributeError` that `.strip()` on a number raises. */
  function StripErrorMessage(kind: NumKind): string {
    "'" + TypeName(kind) + "' object has no attribute 'strip'"
  }

  /** The padding of the not-found, no-match and error rows: three blanks,
      one per selected stage and one per detail header. */
  function SentinelPadding(g: Grid, selected: seq<string>): nat
    requires WellFormed(g)
  {
    3 + |selected| + |DetailHeaders(g)|
  }

  /** The rows of the block of a function name: the block is the rows after
      `start` up to its end. */
  function Block(g: Grid, start: nat): (b: seq<Row>)
    requires WellFormed(g) && start < |g|
    ensures AllWide(b)
  {
    g[start + 1..BlockEnd(g, start)]
  }

  /** What a query answers. */
  function MatchingDocuments(src: Source, key: string, selected: seq<string>): (r: seq<seq<Field>>)
    requires src.Loaded? ==> WellFormed(src.grid)
    ensures |r| >= 1
  {
    match src
    case LoadError(msg) => [Sentinel(LoadErrorPrefix + msg, 3 + |selected|)]
    case Loaded(g) =>
      var idx := StageIndices(StageHeaders(g), selected);
      match FirstKeyRow(g, key)
      case None => [Sentinel(NotFoundText, SentinelPadding(g, selected))]
      case Some(start) =>
        match Collect(Block(g, start), idx)
        case Err(kind) => [Sentinel(ErrorPrefix + StripErrorMessage(kind), SentinelPadding(g, selected))]
        case Ok(rows) => if rows == [] then [Sentinel(NoMatchText, SentinelPadding(g, selected))] else rows
  }

  /** The scan for the end of the block: advance past every row whose key
      cell does not close the block. */
  method FindBlockEnd(g: Grid, start: nat) returns (end: nat)
    requires WellFormed(g) && start < |g|
    ensures start < end <= |g|
    ensures forall k :: start < k < end ==> !EndsBlock(g[k][KeyCol])
    ensures end < |g| ==> EndsBlock(g[end][KeyCol])
  {
    end := start + 1;
    while end < |g|
      invariant start < end <= |g|
      invariant forall k :: start < k < end ==> !EndsBlock(g[k][KeyCol])
    {
      if EndsBlock(g[end][KeyCol]) {
        break;
      }
      end := end + 1;
    }
  }

  /** The result row of a kept row, cell by cell: the document name, two
      blanks, the detail columns, then one indicator per stage. */
  method BuildRow(row: Row, stageIndices: seq<nat>) returns (documentRow: seq<Field>)
    requires Wide(row) && ValidIndices(stageIndices)
    ensures documentRow == Project(row, stageIndices)
  {
    documentRow := [Value(row[KeyCol]), Pad, Pad];
    for c := DetailFirst to DetailLast + 1
      invariant documentRow == [Value(row[KeyCol]), Pad, Pad] + DetailValues(row)[..c - DetailFirst]
    {
      documentRow := documentRow + [Value(row[c])];
    }
    for j := 0 to |stageIndices|
      invariant documentRow ==
        [Value(row[KeyCol]), Pad, Pad] + DetailValues(row) + Indicators(row, stageIndices)[..j]
    {
      var marker := row[stageIndices[j]];
      if IsMarker(marker) {
        if marker.s in MarkerColours {
          documentRow := documentRow + [Mark(Dot(MarkerColours[marker.s]))];
        } else {
          documentRow := documentRow + [Mark(Blank)];
        }
      } else {
        documentRow := documentRow + [Mark(Blank)];
      }
    }
  }

  /** The pass over the rows of a block: skip rows that are not detail rows,
      fail on a numeric document name, keep named rows with a marker. */
  method CollectRows(block: seq<Row>, stageIndices: seq<nat>)
    returns (result: Result<seq<seq<Field>>, NumKind>)
    requires AllWide(block) && ValidIndices(stageIndices)
    ensures result == Collect(block, stageIndices)
  {
    var rows := [];
    for i := 0 to |block|
      invariant Collect(block[..i], stageIndices) == Ok(rows)
    {
      var row := block[i];
      ghost var prefix := block[..i + 1];
      assert prefix[..i] == block[..i] && prefix[i] == row;
      if IsDetail(row) {
        var documentName := row[KeyCol];
        if documentName.Num? {
          assert NumericName(row) && Collect(prefix, stageIndices).Err?;
          CollectErrPersists(block, i + 1, stageIndices);
          return Err(documentName.kind);
        }
        assert !NumericName(row);
        if documentName.Text? && !IsBlank(documentName.s) {
          var markers := seq(|stageIndices|, j requires 0 <= j < |stageIndices| => row[stageIndices[j]]);
          if exists j :: 0 <= j < |markers| && IsMarker(markers[j]) {
            assert IsKept(row, stageIndices);
            var documentRow := BuildRow(row, stageIndices);
            rows := rows + [documentRow];
          } else {
            assert !AnyMarker(row, stageIndices) by {
              forall j | 0 <= j < |stageIndices| ensures !IsMarker(row[stageIndices[j]]) {
                assert markers[j] == row[stageIndices[j]];
              }
            }
          }
        } else {
          assert !IsKept(row, stageIndices);
        }
      } else {
        assert !NumericName(row) && !IsKept(row, stageIndices);
      }
    }
    assert block[..|block|] == block;
    return Ok(rows);
  }

  /** The query, step by step as the tool runs it. */
  method GetMatchingDocuments(src: Source, key: string, selected: seq<string>)
    returns (rows: seq<seq<Field>>)
    requires src.Loaded? ==> WellFormed(src.grid)
    ensures rows == MatchingDocuments(src, key, selected)
  {
    if src.LoadError? {
      return [Sentinel(LoadErrorPrefix + src.msg, 3 + |selected|)];
    }
    var g := src.grid;
    var stageIndices := StageIndices(StageHeaders(g), selected);
    var padding := 3 + |selected| + |DetailHeaders(g)|;
    var functionRow := FirstKeyRow(g, key);
    if functionRow.None? {
      return [Sentinel(NotFoundText, padding)];
    }
    var start := functionRow.value;
    var end := FindBlockEnd(g, start);
    assert end == BlockEnd(g, start);
    var collected := CollectRows(g[start + 1..end], stageIndices);
    match collected
    case Err(kind) =>
      rows := [Sentinel(ErrorPrefix + StripErrorMessage(kind), padding)];
    case Ok(documentRows) =>
      rows := documentRows;
      if rows == [] {
        rows := [Sentinel(NoMatchText, padding)];
      }
  }
}
