/** The A1-notation range string that `InsertRows` builds (common.py:79-82),
    `"A<first row>:<column letters><last row>"`, and the reading of such a
    string that the sheet client performs when cells are fetched by range.
    The reading is the partner of the formatting: a formatted range reads
    back as itself exactly when its rows are positive and its columns are
    letter labels. */
module A1 {
  import opened Wrappers

  predicate IsDigit(c: char) { '0' <= c <= '9' }

  predicate IsLetter(c: char) { 'A' <= c <= 'Z' || 'a' <= c <= 'z' }

  predicate AllDigits(s: string) { forall k :: 0 <= k < |s| ==> IsDigit(s[k]) }

  /** A column label: one or more letters. */
  predicate IsColumn(s: string) { |s| > 0 && forall k :: 0 <= k < |s| ==> IsLetter(s[k]) }

  function DigitChar(d: nat): (c: char)
    requires d < 10
    ensures IsDigit(c) && (c == '0' <==> d == 0)
  {
    (d + '0' as int) as char
  }

  function DigitValue(c: char): (d: nat)
    requires IsDigit(c)
    ensures d < 10 && DigitChar(d) == c
  {
    c as int - '0' as int
  }

  /** Python's `str(n)` for `n >= 0`: decimal digits, no leading zero. */
  function NatToStr(n: nat): (s: string)
    ensures |s| > 0 && AllDigits(s)
    ensures n > 0 ==> s[0] != '0'
    ensures n == 0 ==> s == "0"
  {
    if n < 10 then [DigitChar(n)] else NatToStr(n / 10) + [DigitChar(n % 10)]
  }

  /** Python's `str(n)` for any integer. */
  function IntToStr(n: int): (s: string)
    ensures |s| > 0 && ':' !in s
    ensures forall k :: 0 <= k < |s| ==> !IsLetter(s[k])
    ensures n > 0 ==> AllDigits(s) && s[0] != '0'
    ensures n <= 0 ==> s[0] == '-' || s == "0"
  {
    if n < 0 then "-" + NatToStr(-n) else NatToStr(n)
  }

  /** The value of a string of decimal digits. */
  function DigitsToNat(s: string): nat
    requires AllDigits(s)
  {
    if s == [] then 0 else DigitsToNat(s[..|s| - 1]) * 10 + DigitValue(s[|s| - 1])
  }

  lemma {:induction false} NatToStrRoundTrip(n: nat)
    ensures DigitsToNat(NatToStr(n)) == n
  {
    if n >= 10 {
      var s := NatToStr(n);
      assert s[..|s| - 1] == NatToStr(n / 10);
      NatToStrRoundTrip(n / 10);
    }
  }

  /** A row number as the client accepts it: a non-empty run of digits that
      does not start with `0`, so the row is at least 1. */
  function ParseRow(s: string): (r: Option<int>)
    ensures r.Some? ==> r.value >= 1
  {
    if |s| > 0 && AllDigits(s) && s[0] != '0' then
      LeadingNonZero(s);
      Some(DigitsToNat(s))
    else None
  }

  lemma {:induction false} LeadingNonZero(s: string)
    requires |s| > 0 && AllDigits(s) && s[0] != '0'
    ensures DigitsToNat(s) >= 1
  {
    if |s| > 1 {
      LeadingNonZero(s[..|s| - 1]);
    }
  }

  /** `str(n)` reads back as the row `n` exactly when `n` is a valid row. */
  lemma RowRoundTrip(n: int)
    ensures n >= 1 ==> ParseRow(IntToStr(n)) == Some(n)
    ensures n < 1 ==> ParseRow(IntToStr(n)) == None
  {
    if n >= 1 {
      NatToStrRoundTrip(n);
    }
  }

  /** The value of one column letter: `A` (or `a`) is 1, `Z` is 26. */
  function LetterValue(c: char): (v: nat)
    requires IsLetter(c)
    ensures 1 <= v <= 26
  {
    if 'a' <= c <= 'z' then c as int - 'a' as int + 1 else c as int - 'A' as int + 1
  }

  /** The column number of a label in bijective base 26: `A` is 1, `Z` 26,
      `AA` 27. */
  function ColumnNumber(s: string): (n: nat)
    requires forall k :: 0 <= k < |s| ==> IsLetter(s[k])
    ensures s != [] ==> n >= 1
  {
    if s == [] then 0 else ColumnNumber(s[..|s| - 1]) * 26 + LetterValue(s[|s| - 1])
  }

  /** Length of the longest all-letter prefix of `s`. */
  function LetterSpan(s: string): (k: nat)
    ensures k <= |s|
    ensures forall i :: 0 <= i < k ==> IsLetter(s[i])
    ensures k < |s| ==> !IsLetter(s[k])
  {
    if s == [] || !IsLetter(s[0]) then 0 else 1 + LetterSpan(s[1..])
  }

  /** Position of the first `c` in `s`, or `|s|` when there is none. */
  function IndexOf(s: string, c: char): (k: nat)
    ensures k <= |s|
    ensures k < |s| ==> s[k] == c
    ensures forall i :: 0 <= i < k ==> s[i] != c
  {
    if s == [] || s[0] == c then 0 else 1 + IndexOf(s[1..], c)
  }

  /** A cell reference: its column label and its row. */
  datatype CellRef = CellRef(col: string, row: int)

  /** A rectangular range given by its top-left and bottom-right cells. */
  datatype A1Range = A1Range(first: CellRef, last: CellRef)

  /** A cell reference written out, `<column><row>`. */
  function FormatCell(c: CellRef): string
  {
    c.col + IntToStr(c.row)
  }

  /** The range written out, `<first>:<last>`. */
  function Format(r: A1Range): string
  {
    FormatCell(r.first) + ":" + FormatCell(r.last)
  }

  /** A cell reference read back: leading letters, then a row number. */
  function ParseCell(s: string): (r: Option<CellRef>)
    ensures r.Some? ==> IsColumn(r.value.col) && r.value.row >= 1
  {
    var k := LetterSpan(s);
    if k == 0 then None
    else match ParseRow(s[k..])
      case None => None
      case Some(row) => Some(CellRef(s[..k], row))
  }

  /** A range read back: exactly one `:` between two cell references. */
  function Parse(s: string): (r: Option<A1Range>)
    ensures r.Some? ==> IsColumn(r.value.first.col) && IsColumn(r.value.last.col)
    ensures r.Some? ==> r.value.first.row >= 1 && r.value.last.row >= 1
  {
    var p := IndexOf(s, ':');
    if p == |s| || ':' in s[p + 1..] then None
    else match (ParseCell(s[..p]), ParseCell(s[p + 1..]))
      case (Some(a), Some(b)) => Some(A1Range(a, b))
      case _ => None
  }

  /** A written cell reference reads back as itself exactly when its row is
      positive (given a letter label). */
  lemma CellRoundTrip(c: CellRef)
    requires IsColumn(c.col)
    ensures c.row >= 1 ==> ParseCell(FormatCell(c)) == Some(c)
    ensures c.row < 1 ==> ParseCell(FormatCell(c)) == None
  {
    var s := FormatCell(c);
    var digits := IntToStr(c.row);
    assert forall i :: 0 <= i < |c.col| ==> s[i] == c.col[i];
    assert s[|c.col|] == digits[0];
    assert LetterSpan(s) == |c.col|;
    assert s[..|c.col|] == c.col;
    assert s[|c.col|..] == digits;
    RowRoundTrip(c.row);
  }

  /** A range written out reads back as itself exactly when both its rows
      are positive, given letter labels for its columns. */
  lemma {:induction false} RangeRoundTrip(r: A1Range)
    requires IsColumn(r.first.col) && IsColumn(r.last.col)
    ensures r.first.row >= 1 && r.last.row >= 1 ==> Parse(Format(r)) == Some(r)
    ensures r.first.row < 1 || r.last.row < 1 ==> Parse(Format(r)) == None
  {
    var a, b := FormatCell(r.first), FormatCell(r.last);
    var s := Format(r);
    NoColonInCell(r.first);
    NoColonInCell(r.last);
    var p := IndexOf(s, ':');
    assert forall i :: 0 <= i < |a| ==> s[i] == a[i];
    assert s[|a|] == ':';
    assert p == |a|;
    assert s[..p] == a;
    assert s[p + 1..] == b;
    CellRoundTrip(r.first);
    CellRoundTrip(r.last);
  }

  lemma NoColonInCell(c: CellRef)
    requires IsColumn(c.col)
    ensures ':' !in FormatCell(c)
  {
    var s := FormatCell(c);
    var digits := IntToStr(c.row);
    forall k | 0 <= k < |s| ensures s[k] != ':' {
      if k < |c.col| {
        assert s[k] == c.col[k];
      } else {
        assert s[k] == digits[k - |c.col|];
      }
    }
  }
}
