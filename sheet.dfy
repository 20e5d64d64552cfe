/** The sheet as the extraction tool reads it: a grid of raw cells indexed by
    position (pandas `read_excel(..., header=None)`), the fixed layout
    convention, and the Python string operations the tool applies to cells. */
module Sheet {

  /** The Python type of a numeric cell; only its name is ever observable. */
  datatype NumKind = Int | Float

  /** One cell. `Empty` stands for a missing value (NaN); a number keeps the
      text that Python's `str` gives for it. */
  datatype Cell =
    | Empty
    | Text(s: string)
    | Num(shown: string, kind: NumKind)

  type Row = seq<Cell>
  type Grid = seq<Row>

  /** The grid, or the message of the exception that loading raised. */
  datatype Source = Loaded(grid: Grid) | LoadError(msg: string)

  // The layout convention of the sheet.
  const HeaderRow: nat := 3
  const KeyCol: nat := 3
  const StageFirst: nat := 12
  const StageLast: nat := 18
  const DetailFirst: nat := 5
  const DetailLast: nat := 10

  /** The sheet has its header row and every column the layout uses. */
  predicate WellFormed(g: Grid) {
    |g| > HeaderRow && forall r :: 0 <= r < |g| ==> |g[r]| > StageLast
  }

  /** Python's `str` of a cell (`astype(str)` gives "nan" for a missing value). */
  function Str(c: Cell): string {
    match c
    case Empty => "nan"
    case Text(s) => s
    case Num(shown, _) => shown
  }

  /** Python's `str.isspace` on one ASCII character: tab to carriage return,
      the four separators 0x1C..0x1F, and the space. */
  predicate IsSpace(ch: char) {
    (9 <= ch as int <= 13) || (28 <= ch as int <= 32)
  }

  predicate AllSpace(s: string) {
    forall k :: 0 <= k < |s| ==> IsSpace(s[k])
  }

  /** Leading whitespace removed. */
  function TrimLeft(s: string): (r: string)
    ensures |r| <= |s|
    ensures r == [] || !IsSpace(r[0])
  {
    if s != [] && IsSpace(s[0]) then TrimLeft(s[1..]) else s
  }

  /** Trailing whitespace removed. */
  function TrimRight(s: string): (r: string)
    ensures |r| <= |s|
    ensures r == [] || !IsSpace(r[|r| - 1])
  {
    if s != [] && IsSpace(s[|s| - 1]) then TrimRight(s[..|s| - 1]) else s
  }

  /** Trimming on the left keeps a suffix and drops only whitespace. */
  lemma {:induction false} TrimLeftIsSuffix(s: string)
    ensures var r := TrimLeft(s);
            r == s[|s| - |r|..] && AllSpace(s[..|s| - |r|])
  {
    if s != [] && IsSpace(s[0]) {
      var r := TrimLeft(s[1..]);
      TrimLeftIsSuffix(s[1..]);
      assert s[1..][..|s| - 1 - |r|] == s[1..|s| - |r|];
      assert forall k :: 1 <= k < |s| - |r| ==> s[k] == s[1..|s| - |r|][k - 1];
    }
  }

  /** Trimming on the right keeps a prefix and drops only whitespace. */
  lemma {:induction false} TrimRightIsPrefix(s: string)
    ensures var r := TrimRight(s);
            r == s[..|r|] && AllSpace(s[|r|..])
  {
    if s != [] && IsSpace(s[|s| - 1]) {
      var r := TrimRight(s[..|s| - 1]);
      TrimRightIsPrefix(s[..|s| - 1]);
      assert s[..|s| - 1][|r|..] == s[|r|..|s| - 1];
      assert forall k :: |r| <= k < |s| - 1 ==> s[k] == s[|r|..|s| - 1][k - |r|];
    }
  }

  /** Python's `str.strip()` with no argument. */
  function Strip(s: string): (r: string)
    ensures |r| <= |s|
    ensures r == [] || (!IsSpace(r[0]) && !IsSpace(r[|r| - 1]))
  {
    TrimRightIsPrefix(TrimLeft(s));
    TrimRight(TrimLeft(s))
  }

  /** `strip()` gives the text between its leading and its trailing
      whitespace; with the ends of the result not whitespace, this fixes
      the result. */
  lemma StripIsInner(s: string)
    ensures exists i, j :: 0 <= i <= j <= |s| && Strip(s) == s[i..j] &&
                           AllSpace(s[..i]) && AllSpace(s[j..])
  {
    var t := TrimLeft(s);
    var r := TrimRight(t);
    TrimLeftIsSuffix(s);
    TrimRightIsPrefix(t);
    var i := |s| - |t|;
    var j := i + |r|;
    assert r == s[i..j];
    assert t[|r|..] == s[j..];
  }

  lemma {:induction false} TrimLeftAllSpace(s: string)
    requires AllSpace(s)
    ensures TrimLeft(s) == []
  {
    if s != [] {
      TrimLeftAllSpace(s[1..]);
    }
  }

  lemma {:induction false} TrimLeftKeeps(s: string, k: nat)
    requires k < |s| && !IsSpace(s[k])
    ensures TrimLeft(s) != []
  {
    if IsSpace(s[0]) {
      TrimLeftKeeps(s[1..], k - 1);
    }
  }

  lemma {:induction false} TrimRightKeeps(s: string)
    requires s != [] && !IsSpace(s[0])
    ensures TrimRight(s) != []
  {
    if |s| > 1 {
      TrimRightKeeps(s[..|s| - 1]);
    }
  }

  /** A string strips to "" exactly when it is all whitespace. */
  lemma StripEmptyIff(s: string)
    ensures Strip(s) == [] <==> AllSpace(s)
  {
    if AllSpace(s) {
      TrimLeftAllSpace(s);
    } else {
      var k :| 0 <= k < |s| && !IsSpace(s[k]);
      TrimLeftKeeps(s, k);
      TrimRightKeeps(TrimLeft(s));
    }
  }

  predicate IsAsciiUpper(ch: char) { 'A' <= ch <= 'Z' }
  predicate IsAsciiLower(ch: char) { 'a' <= ch <= 'z' }

  /** Python's `str.isupper()` on ASCII text: at least one cased character,
      and none of them lower-case. */
  predicate IsUpper(s: string) {
    (exists k :: 0 <= k < |s| && IsAsciiUpper(s[k])) &&
    (forall k :: 0 <= k < |s| ==> !IsAsciiLower(s[k]))
  }

  /** Nothing but whitespace: the test `s.strip() == ''` (see BlankIffStripsEmpty). */
  predicate IsBlank(s: string) {
    s == [] || (IsSpace(s[0]) && IsBlank(s[1..]))
  }

  lemma {:induction false} BlankIffAllSpace(s: string)
    ensures IsBlank(s) <==> AllSpace(s)
  {
    if s != [] {
      BlankIffAllSpace(s[1..]);
      assert AllSpace(s) <==> IsSpace(s[0]) && AllSpace(s[1..]) by {
        assert forall k :: 1 <= k < |s| ==> s[1..][k - 1] == s[k];
      }
    }
  }

  /** The blank test agrees with Python's `s.strip() == ''`. */
  lemma BlankIffStripsEmpty(s: string)
    ensures IsBlank(s) <==> Strip(s) == ""
  {
    BlankIffAllSpace(s);
    StripEmptyIff(s);
  }

  /** The cell is present and holds something other than whitespace. */
  predicate Filled(c: Cell) {
    c != Empty && !IsBlank(Str(c))
  }

  /** A detail row (a document entry) has both of its first two columns filled. */
  predicate IsDetail(row: Row)
    requires |row| > 1
  {
    Filled(row[0]) && Filled(row[1])
  }

  /** The key cell matches a function name when its trimmed `str` equals it. */
  predicate KeyMatches(c: Cell, key: string) {
    Strip(Str(c)) == key
  }

  /** A key cell that closes a block: missing, or upper-case once trimmed
      (the heading of the next group). */
  predicate EndsBlock(c: Cell) {
    c.Empty? || IsUpper(Strip(Str(c)))
  }

  /** The row of a grid that the header labels live in. */
  function Header(g: Grid): (h: Row)
    requires WellFormed(g)
    ensures |h| > StageLast
  {
    g[HeaderRow]
  }
}
