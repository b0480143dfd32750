/**
 * `convert_date_format`, the month-label parser shared by the three survey
 * preprocessors: it takes the text between the first '(' and the next ')' of
 * a label such as "Q3 20-21 (Apr 2020)", reads it with
 * `datetime.strptime(_, '%b %Y')` and prints it with `strftime('%Y-%m')`.
 */
module DateFormat {
  import opened Wrappers
  import opened Text

  /** The exceptions the parser can raise. */
  datatype DateError =
    | IndexError  // `split('(')[1]` on a label without '('
    | ValueError  // the text in parentheses is not "Mon YYYY"

  /** The English month abbreviation `%b` prints for month `m`. */
  function MonthAbbrev(m: nat): (s: string)
    requires 1 <= m <= 12
    ensures |s| == 3
    ensures forall i :: 0 <= i < 3 ==> 'A' <= s[i] <= 'z'
  {
    match m
    case 1 => "Jan" case 2 => "Feb" case 3 => "Mar" case 4 => "Apr"
    case 5 => "May" case 6 => "Jun" case 7 => "Jul" case 8 => "Aug"
    case 9 => "Sep" case 10 => "Oct" case 11 => "Nov" case _ => "Dec"
  }

  /** The lower-case form of month `m`'s abbreviation. */
  function MonthKey(m: nat): (s: string)
    requires 1 <= m <= 12
    ensures s == Lower(MonthAbbrev(m))
  {
    var a := MonthAbbrev(m);
    assert Lower(a) == [LowerChar(a[0]), LowerChar(a[1]), LowerChar(a[2])];
    match m
    case 1 => "jan" case 2 => "feb" case 3 => "mar" case 4 => "apr"
    case 5 => "may" case 6 => "jun" case 7 => "jul" case 8 => "aug"
    case 9 => "sep" case 10 => "oct" case 11 => "nov" case _ => "dec"
  }

  /** `%b` as `strptime` reads it: a month abbreviation in any letter case. */
  function MonthNumber(s: string): (m: Option<nat>)
    ensures m.Some? ==> 1 <= m.value <= 12 && Lower(s) == MonthKey(m.value)
  {
    var l := Lower(s);
    if l == "jan" then Some(1) else if l == "feb" then Some(2)
    else if l == "mar" then Some(3) else if l == "apr" then Some(4)
    else if l == "may" then Some(5) else if l == "jun" then Some(6)
    else if l == "jul" then Some(7) else if l == "aug" then Some(8)
    else if l == "sep" then Some(9) else if l == "oct" then Some(10)
    else if l == "nov" then Some(11) else if l == "dec" then Some(12)
    else None
  }

  /** Every month's abbreviation, in any letter case, reads back as that month. */
  lemma MonthNumberOfAbbrev(m: nat, s: string)
    requires 1 <= m <= 12 && Lower(s) == Lower(MonthAbbrev(m))
    ensures MonthNumber(s) == Some(m)
  {
    var l := Lower(s);
    assert l == MonthKey(m);
    match m
    case 1 => assert l == "jan";
    case 2 => assert l == "feb";
    case 3 => assert l == "mar";
    case 4 => assert l == "apr";
    case 5 => assert l == "may";
    case 6 => assert l == "jun";
    case 7 => assert l == "jul";
    case 8 => assert l == "aug";
    case 9 => assert l == "sep";
    case 10 => assert l == "oct";
    case 11 => assert l == "nov";
    case 12 => assert l == "dec";
  }

  /** The characters Python's `\s` matches in a str pattern (those `str.isspace()` accepts). */
  predicate IsSpace(c: char)
  {
    c == ' ' || '\t' <= c <= '\r' || '\U{1c}' <= c <= '\U{1f}' || c == '\U{85}' || c == '\U{a0}'
    || c == '\U{1680}' || '\U{2000}' <= c <= '\U{200a}' || c == '\U{2028}' || c == '\U{2029}'
    || c == '\U{202f}' || c == '\U{205f}' || c == '\U{3000}'
  }

  predicate AllSpace(s: string)
  {
    forall i :: 0 <= i < |s| ==> IsSpace(s[i])
  }

  /**
   * `strptime(t, '%b %Y')`: a month abbreviation, one or more whitespace
   * characters, exactly four digits and nothing after them. The result is
   * (year, month); year 0 parses but is out of `datetime`'s range.
   */
  function ParseMonthYear(t: string): (r: Result<(nat, nat), DateError>)
    ensures r.Ok? ==> 1 <= r.value.0 <= 9999 && 1 <= r.value.1 <= 12
    ensures r.Ok? <==> (|t| >= 8 && MonthNumber(t[..3]).Some? && AllSpace(t[3..|t| - 4])
                        && AllDigits(t[|t| - 4..]) && DigitsValue(t[|t| - 4..]) != 0)
    ensures r.Ok? ==> MonthNumber(t[..3]) == Some(r.value.1) && r.value.0 == DigitsValue(t[|t| - 4..])
    ensures r.Err? ==> r.error == ValueError
  {
    if |t| < 8 then Err(ValueError)
    else
      var mon, gap, year := MonthNumber(t[..3]), t[3..|t| - 4], t[|t| - 4..];
      if mon.None? || !AllSpace(gap) || !AllDigits(year) then Err(ValueError)
      else
        DigitsValueBound(year);
        assert Pow10(4) == 10000;
        if DigitsValue(year) == 0 then Err(ValueError)
        else Ok((DigitsValue(year), mon.value))
  }

  /** The prefix of `s` before the first `c`, or all of `s`; `s.split(c)[0]`. */
  function TakeUntil(s: string, c: char): (r: string)
    ensures r <= s && c !in r
    ensures |r| < |s| ==> s[|r|] == c
  {
    if s == [] || s[0] == c then [] else [s[0]] + TakeUntil(s[1..], c)
  }

  /** `split('(')[1].split(')')[0]`: absent when the label has no '('. */
  function Parenthesised(s: string): (r: Option<string>)
    ensures r.None? <==> '(' !in s
    ensures r.Some? ==> '(' !in r.value && ')' !in r.value
  {
    var head := TakeUntil(s, '(');
    if |head| == |s| then
      assert head == s;
      None
    else
      Some(TakeUntil(TakeUntil(s[|head| + 1..], '('), ')'))
  }

  /** `convert_date_format`: the parenthesised month label as "YYYY-MM". */
  function ConvertDateFormat(s: string): (r: Result<string, DateError>)
    ensures r == Err(IndexError) <==> '(' !in s
  {
    match Parenthesised(s)
    case None => Err(IndexError)
    case Some(t) =>
      match ParseMonthYear(t)
      case Err(e) => Err(e)
      case Ok((y, m)) => Ok(PadNat(y, 4) + "-" + PadNat(m, 2))
  }

  /** A "YYYY-MM" label: four digits, a dash, two digits naming a month. */
  predicate IsMonthLabel(l: string)
  {
    |l| == 7 && l[4] == '-' && AllDigits(l[..4]) && AllDigits(l[5..])
    && 1 <= DigitsValue(l[5..]) <= 12
  }

  /** Every label the parser accepts is printed as a well-formed "YYYY-MM". */
  lemma ConvertDateFormatLabel(s: string)
    requires ConvertDateFormat(s).Ok?
    ensures IsMonthLabel(ConvertDateFormat(s).value)
  {
    var t := Parenthesised(s).value;
    var (y, m) := ParseMonthYear(t).value;
    var l := ConvertDateFormat(s).value;
    NatToStringLength(y, 4);
    NatToStringLength(m, 2);
    PadNatDigits(y, 4);
    PadNatDigits(m, 2);
    assert l[..4] == PadNat(y, 4);
    assert l[5..] == PadNat(m, 2);
  }

  lemma HeadBeforeOpen(prefix: string, inner: string, suffix: string)
    requires '(' !in prefix
    ensures TakeUntil(prefix + "(" + inner + ")" + suffix, '(') == prefix
  {
    var rest := ['('] + (inner + ([')'] + suffix));
    assert prefix + "(" + inner + ")" + suffix == prefix + rest;
    TakeUntilPrefix(prefix, rest, '(');
  }

  lemma SegmentBeforeClose(inner: string, suffix: string)
    requires '(' !in inner && ')' !in inner
    ensures TakeUntil(TakeUntil(inner + ([')'] + suffix), '('), ')') == inner
  {
    var close := [')'] + suffix;
    TakeUntilPrefix(inner, close, '(');
    var tail := TakeUntil(close, '(');
    assert tail == [')'] + TakeUntil(suffix, '(');
    TakeUntilPrefix(inner, tail, ')');
    assert TakeUntil(tail, ')') == [];
  }

  /** The text between the first '(' and the following ')'. */
  lemma ParenthesisedOf(prefix: string, inner: string, suffix: string)
    requires '(' !in prefix && '(' !in inner && ')' !in inner
    ensures Parenthesised(prefix + "(" + inner + ")" + suffix) == Some(inner)
  {
    var s := prefix + "(" + inner + ")" + suffix;
    HeadBeforeOpen(prefix, inner, suffix);
    assert s[|prefix| + 1..] == inner + ([')'] + suffix);
    SegmentBeforeClose(inner, suffix);
  }

  /** "Mon YYYY" parses back to its year and month. */
  lemma ParseMonthYearOf(m: nat, y: nat)
    requires 1 <= m <= 12 && 1 <= y <= 9999
    ensures ParseMonthYear(MonthAbbrev(m) + " " + PadNat(y, 4)) == Ok((y, m))
  {
    var year := PadNat(y, 4);
    var inner := MonthAbbrev(m) + " " + year;
    NatToStringLength(y, 4);
    PadNatDigits(y, 4);
    assert inner[..3] == MonthAbbrev(m);
    assert inner[3..|inner| - 4] == " ";
    assert inner[|inner| - 4..] == year;
    MonthNumberOfAbbrev(m, MonthAbbrev(m));
  }

  lemma MonthYearHasNoParens(m: nat, y: nat)
    requires 1 <= m <= 12
    ensures '(' !in MonthAbbrev(m) + " " + PadNat(y, 4)
    ensures ')' !in MonthAbbrev(m) + " " + PadNat(y, 4)
  {
    PadNatDigits(y, 4);
    var a, p := MonthAbbrev(m), PadNat(y, 4);
    var inner := a + " " + p;
    forall i | 0 <= i < |inner| ensures inner[i] != '(' && inner[i] != ')' {
      if i < 3 {
        assert inner[i] == a[i];
      } else if i > 3 {
        assert inner[i] == p[i - 4];
      }
    }
  }

  /**
   * A label holding "(Mon YYYY)" after any text without '(' converts to that
   * year and month, whatever follows the ')'.
   */
  lemma ConvertDateFormatRoundTrip(prefix: string, m: nat, y: nat, suffix: string)
    requires '(' !in prefix
    requires 1 <= m <= 12 && 1 <= y <= 9999
    ensures ConvertDateFormat(prefix + "(" + (MonthAbbrev(m) + " " + PadNat(y, 4)) + ")" + suffix)
      == Ok(PadNat(y, 4) + "-" + PadNat(m, 2))
  {
    MonthYearHasNoParens(m, y);
    ParenthesisedOf(prefix, MonthAbbrev(m) + " " + PadNat(y, 4), suffix);
    ParseMonthYearOf(m, y);
  }

  /** Text before `c` passes through `TakeUntil` unchanged. */
  lemma {:induction false} TakeUntilPrefix(a: string, b: string, c: char)
    requires c !in a
    ensures TakeUntil(a + b, c) == a + TakeUntil(b, c)
  {
    if a == [] {
      assert a + b == b;
    } else {
      assert (a + b)[1..] == a[1..] + b;
      TakeUntilPrefix(a[1..], b, c);
      assert a == [a[0]] + a[1..];
    }
  }
}
