/**
  The text clean-up of test.py applied to each month of TWSE daily quotes:
  `convert_date` (lines 19-23) turns a Republic-of-China calendar date
  "yyy/mm/dd" into "YYYY-mm-dd", and the price and volume columns have their
  thousands separators removed (lines 34-41).
*/
module RocDate {
  import opened Wrappers

  /** The ROC calendar counts years from 1912, so ROC year 1 is Gregorian 1912. */
  const RocOffset: int := 1911

  /** Python's `str.split(sep)`: the pieces between occurrences of sep, empty pieces kept. */
  function Split(s: string, sep: char): (fields: seq<string>)
    ensures |fields| >= 1
    ensures forall k :: 0 <= k < |fields| ==> sep !in fields[k]
    decreases |s|
  {
    if |s| == 0 then [""]
    else
      var rest := Split(s[1..], sep);
      if s[0] == sep then [""] + rest
      else [[s[0]] + rest[0]] + rest[1..]
  }

  /** Python's `sep.join(fields)`. */
  function Join(fields: seq<string>, sep: char): string
    requires |fields| >= 1
  {
    if |fields| == 1 then fields[0]
    else fields[0] + [sep] + Join(fields[1..], sep)
  }

  /** Splitting and joining again gives back the original text. */
  lemma {:induction false} JoinSplit(s: string, sep: char)
    ensures Join(Split(s, sep), sep) == s
    decreases |s|
  {
    if |s| > 0 {
      var rest := Split(s[1..], sep);
      JoinSplit(s[1..], sep);
      if s[0] != sep {
        if |rest| == 1 {
          assert Split(s, sep) == [[s[0]] + rest[0]];
        } else {
          assert Split(s, sep)[1..] == rest[1..];
          assert Join(rest, sep) == rest[0] + [sep] + Join(rest[1..], sep);
        }
      }
    }
  }

  /** A piece without the separator, then the separator: the piece becomes the first field. */
  lemma {:induction false} SplitAfterField(a: string, sep: char, b: string)
    requires sep !in a
    ensures Split(a + [sep] + b, sep) == [a] + Split(b, sep)
    decreases |a|
  {
    if |a| == 0 {
      assert a + [sep] + b == [sep] + b;
      assert ([sep] + b)[1..] == b;
    } else {
      SplitAfterField(a[1..], sep, b);
      assert (a + [sep] + b)[1..] == a[1..] + [sep] + b;
      assert [a[0]] + a[1..] == a;
    }
  }

  /** Splitting a text with no separator gives the text as the only field. */
  lemma {:induction false} SplitNoSeparator(a: string, sep: char)
    requires sep !in a
    ensures Split(a, sep) == [a]
    decreases |a|
  {
    if |a| > 0 {
      SplitNoSeparator(a[1..], sep);
      assert [a[0]] + a[1..] == a;
    }
  }

  predicate IsDigit(c: char)
  {
    '0' <= c <= '9'
  }

  predicate AllDigits(s: string)
  {
    forall k :: 0 <= k < |s| ==> IsDigit(s[k])
  }

  /** The value of a string of decimal digits; leading zeros are allowed. */
  function DigitsValue(s: string): nat
    requires AllDigits(s)
  {
    if s == [] then 0
    else DigitsValue(s[..|s| - 1]) * 10 + (s[|s| - 1] - '0') as nat
  }

  /**
    Python's `int(text)` on the forms a TWSE date field can take: an optional
    sign followed by at least one decimal digit. Anything else is a
    ValueError, here None.
  */
  function ParseInt(s: string): Option<int>
  {
    if |s| > 0 && (s[0] == '+' || s[0] == '-') then
      var digits := s[1..];
      if |digits| > 0 && AllDigits(digits) then
        var v: int := DigitsValue(digits);
        Some(if s[0] == '-' then -v else v)
      else None
    else if |s| > 0 && AllDigits(s) then Some(DigitsValue(s))
    else None
  }

  /** Python's decimal rendering of a natural number: no leading zeros. */
  function NatToString(n: nat): (s: string)
    ensures |s| > 0 && AllDigits(s)
  {
    if n < 10 then [('0' as int + n) as char]
    else NatToString(n / 10) + [('0' as int + n % 10) as char]
  }

  /** Python's `str(n)` / f-string rendering of an int. */
  function IntToString(n: int): string
  {
    if n < 0 then "-" + NatToString(-n) else NatToString(n)
  }

  lemma {:induction false} DigitsOfNat(n: nat)
    ensures DigitsValue(NatToString(n)) == n
  {
    if n >= 10 {
      DigitsOfNat(n / 10);
      var s := NatToString(n);
      assert s[..|s| - 1] == NatToString(n / 10);
    }
  }

  /** Rendering an int and reading it back with `int(...)` gives the same int. */
  lemma ParseIntToString(n: int)
    ensures ParseInt(IntToString(n)) == Some(n)
  {
    if n < 0 {
      DigitsOfNat(-n);
      assert IntToString(n)[1..] == NatToString(-n);
    } else {
      DigitsOfNat(n);
    }
  }

  /** How `convert_date` fails: `int()` of the year field, or indexing a missing field. */
  datatype DateError = ValueError | IndexError

  /**
    `convert_date`: the year is the first '/'-separated field read as an int
    plus 1911; the month and day fields are copied as they are; any fields
    after the third are ignored.
  */
  function ConvertDate(twDate: string): Result<string, DateError>
  {
    var fields := Split(twDate, '/');
    match ParseInt(fields[0])
    case None => Failure(ValueError)
    case Some(rocYear) =>
      if |fields| < 3 then Failure(IndexError)
      else Success(IntToString(rocYear + RocOffset) + "-" + fields[1] + "-" + fields[2])
  }

  /**
    `convert_date` fails exactly when the year field is not an integer
    (ValueError, raised first) or there are fewer than three fields
    (IndexError).
  */
  lemma ConvertDateErrors(twDate: string)
    ensures var fields := Split(twDate, '/');
      && (ConvertDate(twDate) == Failure(ValueError) <==> ParseInt(fields[0]).None?)
      && (ConvertDate(twDate) == Failure(IndexError) <==> ParseInt(fields[0]).Some? && |fields| < 3)
  {
  }

  /** Three separator-free fields joined by the separator split back into those three. */
  lemma SplitThree(a: string, b: string, c: string, sep: char)
    requires sep !in a && sep !in b && sep !in c
    ensures Split(a + [sep] + b + [sep] + c, sep) == [a, b, c]
  {
    var bc := b + [sep] + c;
    SplitNoSeparator(c, sep);
    SplitAfterField(b, sep, c);
    assert Split(bc, sep) == [b, c];
    SplitAfterField(a, sep, bc);
    assert a + [sep] + b + [sep] + c == a + [sep] + bc;
  }

  /** Whatever follows a fourth separator only adds fields after the first three. */
  lemma SplitThreeThenTail(a: string, b: string, c: string, sep: char, tail: string)
    requires sep !in a && sep !in b && sep !in c
    ensures Split(a + [sep] + b + [sep] + c + [sep] + tail, sep) == [a, b, c] + Split(tail, sep)
  {
    var ct := c + [sep] + tail;
    var bct := b + [sep] + ct;
    SplitAfterField(c, sep, tail);
    SplitAfterField(b, sep, ct);
    SplitAfterField(a, sep, bct);
    assert a + [sep] + b + [sep] + c + [sep] + tail == a + [sep] + bct;
    assert Split(bct, sep) == [b] + ([c] + Split(tail, sep));
  }

  lemma NoSeparatorInNumeral(n: int, sep: char)
    requires !IsDigit(sep) && (sep == '-' ==> n >= 0)
    ensures sep !in IntToString(n)
  {
    var s := IntToString(n);
    if n < 0 {
      assert s == "-" + NatToString(-n);
    }
  }

  /**
    For any year field a that `int()` reads as y (leading zeros and a sign
    included), "a/m/d" becomes str(y + 1911) + "-" + m + "-" + d, with or
    without further fields after another '/'.
  */
  lemma ConvertDateAnyYear(a: string, y: int, m: string, d: string, tail: string)
    requires '/' !in a && '/' !in m && '/' !in d
    requires ParseInt(a) == Some(y)
    ensures var out := IntToString(y + RocOffset) + "-" + m + "-" + d;
      && ConvertDate(a + "/" + m + "/" + d) == Success(out)
      && ConvertDate(a + "/" + m + "/" + d + "/" + tail) == Success(out)
  {
    SplitThree(a, m, d, '/');
    SplitThreeThenTail(a, m, d, '/', tail);
    var fields := Split(a + "/" + m + "/" + d + "/" + tail, '/');
    assert fields[0] == a && fields[1] == m && fields[2] == d;
  }

  /**
    For a date written "y/m/d", with or without further fields after another
    '/', the result is str(y + 1911) + "-" + m + "-" + d.
  */
  lemma ConvertDateOfFields(y: int, m: string, d: string, tail: string)
    requires '/' !in m && '/' !in d
    ensures var year := IntToString(y + RocOffset);
      && ConvertDate(IntToString(y) + "/" + m + "/" + d) == Success(year + "-" + m + "-" + d)
      && ConvertDate(IntToString(y) + "/" + m + "/" + d + "/" + tail) == Success(year + "-" + m + "-" + d)
  {
    var ys := IntToString(y);
    ParseIntToString(y);
    NoSeparatorInNumeral(y, '/');
    SplitThree(ys, m, d, '/');
    SplitThreeThenTail(ys, m, d, '/', tail);
    var fields := Split(ys + "/" + m + "/" + d + "/" + tail, '/');
    assert fields[0] == ys && fields[1] == m && fields[2] == d;
  }

  /**
    When the Gregorian year is not negative and the month and day hold no
    '-', the result splits at '-' into exactly str(y + 1911), m and d, and
    its first field reads back as y + 1911.
  */
  lemma ConvertDateRoundTrip(y: int, m: string, d: string)
    requires '/' !in m && '/' !in d && '-' !in m && '-' !in d
    requires y + RocOffset >= 0
    ensures ConvertDate(IntToString(y) + "/" + m + "/" + d).Success?
    ensures var out := ConvertDate(IntToString(y) + "/" + m + "/" + d).value;
      && Split(out, '-') == [IntToString(y + RocOffset), m, d]
      && ParseInt(Split(out, '-')[0]) == Some(y + RocOffset)
  {
    ConvertDateOfFields(y, m, d, "");
    var year := IntToString(y + RocOffset);
    ParseIntToString(y + RocOffset);
    NoSeparatorInNumeral(y + RocOffset, '-');
    SplitThree(year, m, d, '-');
  }

  /** Replacing every ',' by the empty string: all thousands separators removed. */
  function StripCommas(s: string): (r: string)
    ensures ',' !in r
    ensures |r| <= |s|
  {
    if s == [] then []
    else (if s[0] == ',' then [] else [s[0]]) + StripCommas(s[1..])
  }

  /** Stripping works piece by piece, so the kept characters stay in order. */
  lemma {:induction false} StripCommasAppend(a: string, b: string)
    ensures StripCommas(a + b) == StripCommas(a) + StripCommas(b)
    decreases |a|
  {
    if a != [] {
      StripCommasAppend(a[1..], b);
      assert (a + b)[1..] == a[1..] + b;
    } else {
      assert a + b == b;
    }
  }

  /** A text without commas is left as it is. */
  lemma {:induction false} StripCommasNoop(s: string)
    requires ',' !in s
    ensures StripCommas(s) == s
    decreases |s|
  {
    if s != [] {
      StripCommasNoop(s[1..]);
      assert [s[0]] + s[1..] == s;
    }
  }

  /** Stripping twice is stripping once. */
  lemma StripCommasIdempotent(s: string)
    ensures StripCommas(StripCommas(s)) == StripCommas(s)
  {
    StripCommasNoop(StripCommas(s));
  }

  /** How the exchange writes a numeral: a ',' before every group of three digits from the right. */
  function GroupThousands(digits: string): string
  {
    if |digits| <= 3 then digits
    else GroupThousands(digits[..|digits| - 3]) + "," + digits[|digits| - 3..]
  }

  /** Stripping the commas undoes the grouping: "1,234,567" becomes "1234567". */
  lemma {:induction false} StripUngroups(digits: string)
    requires ',' !in digits
    ensures StripCommas(GroupThousands(digits)) == digits
    decreases |digits|
  {
    if |digits| <= 3 {
      StripCommasNoop(digits);
    } else {
      var head, last := digits[..|digits| - 3], digits[|digits| - 3..];
      assert digits == head + last;
      assert ',' !in head && ',' !in last;
      StripUngroups(head);
      StripCommasNoop(last);
      StripCommasAppend(GroupThousands(head) + ",", last);
      StripCommasAppend(GroupThousands(head), ",");
    }
  }

  /** One row of the exchange's monthly report: date, open, high, low and close prices, traded shares. */
  datatype QuoteRow = QuoteRow(date: string, open: string, high: string, low: string,
                               close: string, volume: string)

  /** The row as appended to the CSV file: Date, Open, High, Low, Close, Volume. */
  datatype CsvRow = CsvRow(date: string, open: string, high: string, low: string,
                           close: string, volume: string)

  /**
    The frame built in `process_and_save_monthly`: the date column through
    `convert_date`, which aborts the month with the error of the first row
    that fails, and
    every price and volume column with its commas stripped.
  */
  function ProcessMonth(quotes: seq<QuoteRow>): (r: Result<seq<CsvRow>, DateError>)
    ensures r.Success? <==> forall k :: 0 <= k < |quotes| ==> ConvertDate(quotes[k].date).Success?
    ensures r.Success? ==> |r.value| == |quotes|
    ensures r.Success? ==> forall k :: 0 <= k < |quotes| ==>
      var q, c := quotes[k], r.value[k];
      && Success(c.date) == ConvertDate(q.date)
      && c.open == StripCommas(q.open) && c.high == StripCommas(q.high)
      && c.low == StripCommas(q.low) && c.close == StripCommas(q.close)
      && c.volume == StripCommas(q.volume)
    ensures r.Failure? ==>
      exists k :: && 0 <= k < |quotes| && ConvertDate(quotes[k].date) == Failure(r.error)
                  && (forall j :: 0 <= j < k ==> ConvertDate(quotes[j].date).Success?)
  {
    if quotes == [] then Success([])
    else
      var q := quotes[0];
      match ConvertDate(q.date)
      case Failure(e) => Failure(e)
      case Success(date) =>
        match ProcessMonth(quotes[1..])
        case Failure(e) => Failure(e)
        case Success(rest) =>
          Success([CsvRow(date, StripCommas(q.open), StripCommas(q.high), StripCommas(q.low),
                          StripCommas(q.close), StripCommas(q.volume))] + rest)
  }
}
