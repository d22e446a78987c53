/** Input side: the line item a reader produces, and the KiCad reader's
    mapping from one CSV row to an item (partsy/readers.py). */
module Readers {
  import opened Wrappers

  /** A property value of an item: a string, an integer or Python's `None`. */
  datatype PropValue = PStr(s: string) | PInt(n: int) | PNone

  /** `Item(**kwargs)` keeps exactly its keyword arguments as `props`. */
  datatype Item = Item(props: map<string, PropValue>)

  /** The exceptions `handle_row` can raise: `IndexError` for a row with too
      few columns, `ValueError` when the quantity is not a decimal integer. */
  datatype ReadError = RowTooShort | NotAnInteger(text: string)

  // ---------------------------------------------------------------------
  // Python's int(str), base 10
  // ---------------------------------------------------------------------

  /** The ASCII characters `int()` strips: space, tab, line feed, vertical
      tab, form feed and carriage return. */
  predicate IsSpace(c: char) {
    var n := c as int;
    n == 32 || 9 <= n <= 13
  }

  predicate IsDigit(c: char) {
    '0' <= c <= '9'
  }

  function TrimStart(s: string): (t: string)
    ensures |t| <= |s| && t == s[|s| - |t|..]
    ensures forall i :: 0 <= i < |s| - |t| ==> IsSpace(s[i])
    ensures t != [] ==> !IsSpace(t[0])
  {
    if s != [] && IsSpace(s[0]) then TrimStart(s[1..]) else s
  }

  function TrimEnd(s: string): (t: string)
    ensures |t| <= |s| && t == s[..|t|]
    ensures forall i :: |t| <= i < |s| ==> IsSpace(s[i])
    ensures t != [] ==> !IsSpace(t[|t| - 1])
  {
    if s != [] && IsSpace(s[|s| - 1]) then TrimEnd(s[..|s| - 1]) else s
  }

  /** The digits of a decimal literal: at least one digit, underscores only
      singly and only between two digits. */
  predicate DigitGroups(d: string) {
    && |d| > 0
    && IsDigit(d[0])
    && IsDigit(d[|d| - 1])
    && (forall i :: 0 <= i < |d| ==> IsDigit(d[i]) || d[i] == '_')
    && (forall i :: 0 <= i < |d| - 1 && d[i] == '_' ==> IsDigit(d[i + 1]))
  }

  /** How many digits `d` holds, underscores not counted. */
  function DigitCount(d: string): nat {
    if d == [] then 0
    else DigitCount(d[..|d| - 1]) + (if IsDigit(d[|d| - 1]) then 1 else 0)
  }

  /** CPython's default limit on the digits of a decimal integer that `int()`
      parses and `str()` renders (`sys.get_int_max_str_digits()`, Python 3.11
      and later). */
  const MaxStrDigits: nat := 4300

  /** The number the digits of `d` spell, underscores skipped. */
  function DigitsValue(d: string): nat {
    if d == [] then 0
    else if IsDigit(d[|d| - 1]) then DigitsValue(d[..|d| - 1]) * 10 + (d[|d| - 1] as int - '0' as int)
    else DigitsValue(d[..|d| - 1])
  }

  /** A literal `int()` accepts: digit groups of at most `MaxStrDigits`
      digits. */
  predicate Literal(d: string) {
    DigitGroups(d) && DigitCount(d) <= MaxStrDigits
  }

  lemma {:induction false} DigitCountAppend(a: string, b: string)
    ensures DigitCount(a + b) == DigitCount(a) + DigitCount(b)
  {
    if b == [] {
      assert a + b == a;
    } else {
      assert (a + b)[..|a + b| - 1] == a + b[..|b| - 1];
      DigitCountAppend(a, b[..|b| - 1]);
    }
  }

  lemma {:induction false} DigitCountNone(s: string)
    requires forall i :: 0 <= i < |s| ==> !IsDigit(s[i])
    ensures DigitCount(s) == 0
  {
    if s != [] {
      DigitCountNone(s[..|s| - 1]);
    }
  }

  /** Stripping leading whitespace never drops a digit. */
  lemma {:induction false} TrimStartKeepsDigits(s: string)
    ensures DigitCount(TrimStart(s)) == DigitCount(s)
  {
    if s != [] && IsSpace(s[0]) {
      TrimStartKeepsDigits(s[1..]);
      assert s == [s[0]] + s[1..];
      DigitCountAppend([s[0]], s[1..]);
      assert DigitCount([s[0]]) == 0 by {
        assert [s[0]][..0] == [];
      }
    }
  }

  /** Stripping trailing whitespace never drops a digit. */
  lemma {:induction false} TrimEndKeepsDigits(s: string)
    ensures DigitCount(TrimEnd(s)) == DigitCount(s)
  {
    if s != [] && IsSpace(s[|s| - 1]) {
      TrimEndKeepsDigits(s[..|s| - 1]);
    }
  }

  /** Stripping surrounding whitespace never drops a digit. */
  lemma TrimKeepsDigits(s: string)
    ensures DigitCount(TrimEnd(TrimStart(s))) == DigitCount(s)
  {
    TrimStartKeepsDigits(s);
    TrimEndKeepsDigits(TrimStart(s));
  }

  /** A leading sign is not a digit. */
  lemma SignKeepsDigits(t: string)
    requires |t| > 0 && !IsDigit(t[0])
    ensures DigitCount(t) == DigitCount(t[1..])
  {
    assert t == t[..1] + t[1..];
    DigitCountAppend(t[..1], t[1..]);
    DigitCountNone(t[..1]);
  }

  /** `int(s)`: surrounding whitespace, then an optional sign, then digit
      groups; None where Python raises ValueError. A string `int()` accepts
      holds at least one and at most `MaxStrDigits` digits. */
  function ParseInt(s: string): (r: Option<int>)
    ensures r.Some? ==> 1 <= DigitCount(s) <= MaxStrDigits
  {
    var t := TrimEnd(TrimStart(s));
    TrimKeepsDigits(s);
    if |t| > 0 && (t[0] == '+' || t[0] == '-') then
      if Literal(t[1..]) then
        SignKeepsDigits(t);
        var v: int := DigitsValue(t[1..]);
        Some(if t[0] == '-' then -v else v)
      else None
    else if Literal(t) then Some(DigitsValue(t))
    else None
  }

  /** Decimal rendering of a natural number, Python's `str(n)`. */
  function ShowNat(n: nat): string {
    if n < 10 then [('0' as int + n) as char]
    else ShowNat(n / 10) + [('0' as int + n % 10) as char]
  }

  function Abs(n: int): nat {
    if n < 0 then -n else n
  }

  /** Decimal rendering of an integer, Python's `str(n)`: a sign for a
      negative number, then the digits of its magnitude. */
  function Show(n: int): string {
    if n < 0 then "-" + ShowNat(Abs(n)) else ShowNat(Abs(n))
  }

  lemma {:induction false} ShowNatDigits(n: nat)
    ensures |ShowNat(n)| > 0
    ensures forall i :: 0 <= i < |ShowNat(n)| ==> IsDigit(ShowNat(n)[i])
    ensures DigitsValue(ShowNat(n)) == n
    ensures DigitCount(ShowNat(n)) == |ShowNat(n)|
  {
    var s := ShowNat(n);
    if n >= 10 {
      ShowNatDigits(n / 10);
      assert s[..|s| - 1] == ShowNat(n / 10);
    }
  }

  /** Parsing inverts rendering: `int(str(n)) == n` for every integer that
      `str()` renders, that is, of at most `MaxStrDigits` digits. */
  lemma ParseShow(n: int)
    requires |ShowNat(Abs(n))| <= MaxStrDigits
    ensures ParseInt(Show(n)) == Some(n)
  {
    var m := Abs(n);
    ShowNatDigits(m);
    var s := Show(n);
    assert !IsSpace(s[0]) && !IsSpace(s[|s| - 1]);
    assert TrimStart(s) == s;
    assert TrimEnd(s) == s;
    assert Literal(ShowNat(m));
    if n < 0 {
      assert s[1..] == ShowNat(m);
      assert s[0] == '-';
    } else {
      assert s == ShowNat(m);
      assert s[0] != '+' && s[0] != '-';
    }
  }

  /** A character that is neither whitespace, a digit, an underscore nor a
      sign makes `int()` fail, wherever it stands. */
  lemma NonNumericRejected(s: string, i: nat)
    requires i < |s|
    requires !IsSpace(s[i]) && !IsDigit(s[i]) && s[i] !in "_+-"
    ensures ParseInt(s) == None
  {
    var u := TrimStart(s);
    var off := |s| - |u|;
    assert off <= i;
    var t := TrimEnd(u);
    assert u[i - off] == s[i];
    assert i - off < |t|;
    assert t[i - off] == s[i];
    if |t| > 0 && (t[0] == '+' || t[0] == '-') {
      assert t[1..][i - off - 1] == s[i];
    }
  }

  // ---------------------------------------------------------------------
  // KiCadReader.handle_row
  // ---------------------------------------------------------------------

  /** `KiCadReader.handle_row(row)`. Python evaluates the keyword arguments
      in order: `row[1]`, `row[2]`, `int(row[3])`, `row[4]`; so a row of
      four columns with a bad quantity raises ValueError, not IndexError. */
  function HandleRow(row: seq<string>): (r: Result<Item, ReadError>)
    ensures r.Success? <==> |row| >= 5 && ParseInt(row[3]).Some?
    ensures r.Success? ==>
      && r.value.props.Keys == {"designator", "footprint", "qty", "symbol"}
      && r.value.props["designator"] == PStr(row[1])
      && r.value.props["footprint"] == PStr(row[2])
      && r.value.props["symbol"] == PStr(row[4])
      && r.value.props["qty"] == PInt(ParseInt(row[3]).value)
    ensures r == Failure(RowTooShort) <==> |row| < 4 || (|row| == 4 && ParseInt(row[3]).Some?)
    ensures r.Failure? && r.error.NotAnInteger? <==> |row| >= 4 && ParseInt(row[3]).None?
  {
    if |row| < 4 then Failure(RowTooShort)
    else match ParseInt(row[3])
      case None => Failure(NotAnInteger(row[3]))
      case Some(q) =>
        if |row| < 5 then Failure(RowTooShort)
        else Success(Item(map["designator" := PStr(row[1]), "footprint" := PStr(row[2]),
                              "qty" := PInt(q), "symbol" := PStr(row[4])]))
  }

  /** Only columns 1 to 4 matter: the `Id` column and anything after the
      `Designation` column never change the item. */
  lemma HandleRowIgnoresOtherColumns(row: seq<string>, other: seq<string>)
    requires |row| >= 5 && |other| >= 5
    requires row[1..5] == other[1..5]
    ensures HandleRow(row) == HandleRow(other)
  {
    assert row[3] == row[1..5][2] == other[3];
    assert row[1] == row[1..5][0] && row[2] == row[1..5][1] && row[4] == row[1..5][3];
  }

  /** A quantity rendered by `str()` always reads back as that quantity. */
  lemma HandleRowQuantity(row: seq<string>, q: int)
    requires |row| >= 5 && row[3] == Show(q)
    requires |ShowNat(Abs(q))| <= MaxStrDigits
    ensures HandleRow(row).Success? && HandleRow(row).value.props["qty"] == PInt(q)
  {
    ParseShow(q);
  }
}
