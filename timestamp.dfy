/**
 * The timestamp conversion in raw_to_fits (pyraw/rawimage.py:95-100): the
 * decoder's "Timestamp:" value, written by ctime() as
 * "Www Mmm dd hh:mm:ss yyyy", is split into words, the month name goes
 * through the twelve-entry months table, and the date is rewritten as
 * "yyyy-mm-dd hh:mm:ss".
 */
module Timestamp {
  import opened Results
  import opened Scrape

  /** A word of str.split(): non-empty, without blank characters. */
  predicate IsWord(w: string)
  {
    |w| > 0 && forall k | 0 <= k < |w| :: !IsBlank(w[k])
  }

  /** The end of the word that starts at i. */
  function WordEnd(s: string, i: nat): (j: nat)
    requires i <= |s|
    ensures i <= j <= |s|
    ensures forall k | i <= k < j :: !IsBlank(s[k])
    ensures j == |s| || IsBlank(s[j])
    decreases |s| - i
  {
    if i == |s| || IsBlank(s[i]) then i else WordEnd(s, i + 1)
  }

  /** str.split() without an argument: the maximal runs of non-blank characters, in order. */
  function Split(s: string): (r: seq<string>)
    ensures forall k | 0 <= k < |r| :: IsWord(r[k])
    decreases |s|
  {
    if s == [] then []
    else if IsBlank(s[0]) then Split(s[1..])
    else
      var j := WordEnd(s, 0);
      [s[..j]] + Split(s[j..])
  }

  /** Words laid out with a blank gap before, between and after them. */
  function Spaced(words: seq<string>, gaps: seq<string>): string
    requires |gaps| == |words| + 1
    decreases |words|
  {
    if words == [] then gaps[0] else gaps[0] + words[0] + Spaced(words[1..], gaps[1..])
  }

  /** Gaps for n words: all blank, and the ones between two words not empty. */
  ghost predicate IsGaps(gaps: seq<string>, n: nat)
  {
    |gaps| == n + 1 &&
    (forall k | 0 <= k < |gaps| :: AllBlank(gaps[k])) &&
    (forall k | 0 < k < n :: gaps[k] != [])
  }

  lemma {:induction false} SplitBlanks(b: string, s: string)
    requires AllBlank(b)
    ensures Split(b + s) == Split(s)
    decreases |b|
  {
    if b == [] {
      assert b + s == s;
    } else {
      assert (b + s)[0] == b[0];
      assert (b + s)[1..] == b[1..] + s;
      SplitBlanks(b[1..], s);
    }
  }

  lemma SplitWord(w: string, s: string)
    requires IsWord(w)
    requires s == [] || IsBlank(s[0])
    ensures Split(w + s) == [w] + Split(s)
  {
    var t := w + s;
    assert t[0] == w[0];
    var j := WordEnd(t, 0);
    assert forall k | 0 <= k < |w| :: t[k] == w[k];
    assert s != [] ==> t[|w|] == s[0];
    assert j == |w|;
    assert t[..j] == w;
    assert t[j..] == s;
  }

  lemma SpacedStart(words: seq<string>, gaps: seq<string>)
    requires |gaps| == |words| + 1 && gaps[0] != []
    ensures Spaced(words, gaps) != [] && Spaced(words, gaps)[0] == gaps[0][0]
  {
  }

  /** Splitting words laid out with blank gaps gives the words back. */
  lemma {:induction false} SplitSpaced(words: seq<string>, gaps: seq<string>)
    requires forall k | 0 <= k < |words| :: IsWord(words[k])
    requires IsGaps(gaps, |words|)
    ensures Split(Spaced(words, gaps)) == words
    decreases |words|
  {
    if words == [] {
      SplitBlanks(gaps[0], []);
      assert gaps[0] + [] == gaps[0];
    } else {
      var rest := Spaced(words[1..], gaps[1..]);
      assert Spaced(words, gaps) == gaps[0] + (words[0] + rest);
      SplitBlanks(gaps[0], words[0] + rest);
      if |words| > 1 {
        assert gaps[1] != [];
        SpacedStart(words[1..], gaps[1..]);
      } else {
        assert rest == gaps[1];
      }
      SplitWord(words[0], rest);
      SplitSpaced(words[1..], gaps[1..]);
      assert [words[0]] + words[1..] == words;
    }
  }

  /** The first position of sep at or after i, or the end of s. */
  function PieceEnd(s: string, sep: char, i: nat): (j: nat)
    requires i <= |s|
    ensures i <= j <= |s|
    ensures forall k | i <= k < j :: s[k] != sep
    ensures j == |s| || s[j] == sep
    decreases |s| - i
  {
    if i == |s| || s[i] == sep then i else PieceEnd(s, sep, i + 1)
  }

  /** str.split(sep): the pieces between the separators, at least one. */
  function SplitOn(s: string, sep: char): (r: seq<string>)
    ensures |r| >= 1
    ensures forall k | 0 <= k < |r| :: sep !in r[k]
    decreases |s|
  {
    var i := PieceEnd(s, sep, 0);
    if i == |s| then
      assert s[..i] == s; [s]
    else
      [s[..i]] + SplitOn(s[i + 1..], sep)
  }

  /** sep.join(pieces). */
  function JoinOn(pieces: seq<string>, sep: char): string
    requires |pieces| >= 1
    decreases |pieces|
  {
    if |pieces| == 1 then pieces[0] else pieces[0] + [sep] + JoinOn(pieces[1..], sep)
  }

  /** Joining the pieces back with the separator restores the string. */
  lemma {:induction false} JoinSplitOn(s: string, sep: char)
    ensures JoinOn(SplitOn(s, sep), sep) == s
    decreases |s|
  {
    var i := PieceEnd(s, sep, 0);
    if i < |s| {
      var tail := s[i + 1..];
      var r := SplitOn(s, sep);
      assert r == [s[..i]] + SplitOn(tail, sep);
      assert r[1..] == SplitOn(tail, sep);
      JoinSplitOn(tail, sep);
      assert JoinOn(r, sep) == s[..i] + [sep] + JoinOn(r[1..], sep);
      assert s == s[..i] + [sep] + tail;
    } else {
      assert SplitOn(s, sep) == [s];
    }
  }

  /** Splitting pieces joined by a separator they do not contain gives them back. */
  lemma {:induction false} SplitOnJoin(pieces: seq<string>, sep: char)
    requires |pieces| >= 1
    requires forall k | 0 <= k < |pieces| :: sep !in pieces[k]
    ensures SplitOn(JoinOn(pieces, sep), sep) == pieces
    decreases |pieces|
  {
    var s := JoinOn(pieces, sep);
    var i := PieceEnd(s, sep, 0);
    if |pieces| == 1 {
      assert forall k | 0 <= k < |s| :: s[k] in pieces[0];
      assert i == |s|;
    } else {
      var rest := JoinOn(pieces[1..], sep);
      assert s == pieces[0] + ([sep] + rest);
      assert s[|pieces[0]|] == sep;
      assert forall k | 0 <= k < |pieces[0]| :: s[k] == pieces[0][k] && s[k] in pieces[0];
      assert i == |pieces[0]|;
      assert s[..i] == pieces[0];
      assert s[i + 1..] == rest;
      SplitOnJoin(pieces[1..], sep);
      assert [pieces[0]] + pieces[1..] == pieces;
    }
  }

  predicate IsDigitChar(c: char) { '0' <= c <= '9' }

  predicate AllDigitChars(s: string)
  {
    forall k | 0 <= k < |s| :: IsDigitChar(s[k])
  }

  /** The number a string of decimal digits denotes. */
  function DecimalValue(s: string): nat
    requires AllDigitChars(s)
    decreases |s|
  {
    if s == [] then 0 else DecimalValue(s[..|s| - 1]) * 10 + (s[|s| - 1] as int - '0' as int)
  }

  function DigitChar(d: nat): (c: char)
    requires d < 10
    ensures IsDigitChar(c) && c as int - '0' as int == d
  {
    ('0' as int + d) as char
  }

  /** str(n): the decimal digits of n, without leading zeros. */
  function Decimal(n: nat): (s: string)
    ensures |s| >= 1 && AllDigitChars(s)
    decreases n
  {
    if n < 10 then [DigitChar(n)] else Decimal(n / 10) + [DigitChar(n % 10)]
  }

  lemma {:induction false} DecimalValueOfDecimal(n: nat)
    ensures DecimalValue(Decimal(n)) == n
    decreases n
  {
    if n >= 10 {
      var s := Decimal(n);
      assert s[..|s| - 1] == Decimal(n / 10);
      DecimalValueOfDecimal(n / 10);
    }
  }

  /** %02d: two digits, zero-padded. */
  function TwoDigits(n: nat): (s: string)
    requires n < 100
    ensures |s| == 2 && AllDigitChars(s)
  {
    [DigitChar(n / 10), DigitChar(n % 10)]
  }

  /** %Y for the years strftime accepts here: four digits. */
  function FourDigits(n: nat): (s: string)
    requires n < 10000
    ensures |s| == 4 && AllDigitChars(s)
  {
    [DigitChar(n / 1000), DigitChar(n / 100 % 10), DigitChar(n / 10 % 10), DigitChar(n % 10)]
  }

  lemma DecimalValueOfTwoDigits(n: nat)
    requires n < 100
    ensures DecimalValue(TwoDigits(n)) == n
  {
    var s := TwoDigits(n);
    assert s[..1][..0] == [];
    assert s[..1] == [DigitChar(n / 10)];
    assert DecimalValue(s[..1]) == n / 10;
    assert DecimalValue(s) == DecimalValue(s[..1]) * 10 + n % 10;
  }

  lemma DecimalValueOfFourDigits(n: nat)
    requires n < 10000
    ensures DecimalValue(FourDigits(n)) == n
  {
    var s := FourDigits(n);
    assert s[..3][..2][..1][..0] == [];
    assert s[..3][..2][..1] == [DigitChar(n / 1000)];
    assert s[..3][..2] == [DigitChar(n / 1000), DigitChar(n / 100 % 10)];
    assert s[..3] == [DigitChar(n / 1000), DigitChar(n / 100 % 10), DigitChar(n / 10 % 10)];
    assert DecimalValue(s[..3][..2][..1]) == n / 1000;
    assert DecimalValue(s[..3][..2]) == n / 1000 * 10 + n / 100 % 10 == n / 100;
    assert DecimalValue(s[..3]) == n / 100 * 10 + n / 10 % 10 == n / 10;
    assert DecimalValue(s) == n / 10 * 10 + n % 10;
  }

  /**
   * int() on a word: an optional sign followed by at least one decimal
   * digit; anything else is a ValueError (None).
   */
  function ParseInt(s: string): (r: Option<int>)
    ensures |s| >= 1 && AllDigitChars(s) ==> r.Some? && r.value >= 0
    ensures r.Some? && r.value < 0 ==> |s| >= 1 && s[0] == '-'
    ensures r.Some? && |s| >= 1 && s[0] == '-' ==> r.value <= 0
  {
    if |s| > 0 && (s[0] == '+' || s[0] == '-') then
      var t := s[1..];
      if |t| > 0 && AllDigitChars(t) then
        var v: int := DecimalValue(t);
        Some(if s[0] == '-' then -v else v)
      else None
    else if |s| > 0 && AllDigitChars(s) then Some(DecimalValue(s))
    else None
  }

  /** str(n) for any integer. */
  function ShowInt(n: int): string
  {
    if n < 0 then "-" + Decimal(-n) else Decimal(n)
  }

  /** int() reads back what str() writes, for every integer. */
  lemma ParseShowInt(n: int)
    ensures ParseInt(ShowInt(n)) == Some(n)
  {
    if n < 0 {
      var t := Decimal(-n);
      assert ShowInt(n) == "-" + t;
      ParseNegative(t);
      DecimalValueOfDecimal(-n);
      assert DecimalValue(t) == -n;
    } else {
      var t := Decimal(n);
      assert ShowInt(n) == t;
      ParseDigits(t);
      DecimalValueOfDecimal(n);
      assert DecimalValue(t) == n;
    }
  }

  /** int() on a minus sign followed by digits. */
  lemma ParseNegative(t: string)
    requires |t| >= 1 && AllDigitChars(t)
    ensures ParseInt("-" + t) == Some(-(DecimalValue(t) as int))
  {
    assert ("-" + t)[1..] == t;
  }

  /** A string that int() accepts has the shape str() gives, up to a plus sign and leading zeros. */
  lemma ParseIntShape(s: string)
    requires ParseInt(s).Some?
    ensures |s| >= 1
    ensures s[0] == '+' || s[0] == '-' || IsDigitChar(s[0])
    ensures (s[0] == '+' || s[0] == '-') ==> |s| >= 2
    ensures forall k | 1 <= k < |s| :: IsDigitChar(s[k])
  {
    if s[0] == '+' || s[0] == '-' {
      assert forall k | 1 <= k < |s| :: s[k] == s[1..][k - 1];
    }
  }

  /** The months table: abbreviated month name to month number. */
  const Months: map<string, int> :=
    map["Jan" := 1, "Feb" := 2, "Mar" := 3, "Apr" := 4, "May" := 5, "Jun" := 6,
        "Jul" := 7, "Aug" := 8, "Sep" := 9, "Oct" := 10, "Nov" := 11, "Dec" := 12]

  /** The month names in calendar order, as ctime() writes them. */
  const MonthNames: seq<string> :=
    ["Jan", "Feb", "Mar", "Apr", "May", "Jun", "Jul", "Aug", "Sep", "Oct", "Nov", "Dec"]

  /** The months table is a bijection between the twelve names and the numbers 1 to 12. */
  lemma MonthsTable()
    ensures forall i | 0 <= i < 12 :: MonthNames[i] in Months && Months[MonthNames[i]] == i + 1
    ensures forall name | name in Months :: 1 <= Months[name] <= 12 && MonthNames[Months[name] - 1] == name
  {
  }

  /** A date and time of day, as datetime.datetime holds it. */
  datatype DateTime = DateTime(year: int, month: int, day: int, hour: int, minute: int, second: int)

  predicate IsLeapYear(y: int)
  {
    y % 4 == 0 && (y % 100 != 0 || y % 400 == 0)
  }

  function DaysInMonth(year: int, month: int): (n: int)
    requires 1 <= month <= 12
    ensures 28 <= n <= 31
    ensures n == 29 <==> month == 2 && IsLeapYear(year)
  {
    if month == 2 then (if IsLeapYear(year) then 29 else 28)
    else if month == 4 || month == 6 || month == 9 || month == 11 then 30
    else 31
  }

  /** The argument checks of datetime.datetime (years 1 to 9999). */
  predicate IsValid(d: DateTime): (ok: bool)
    ensures ok ==> d.day <= 31 && (d.month == 2 ==> d.day <= 29)
    ensures ok && d.month == 2 && d.day == 29 ==> IsLeapYear(d.year)
  {
    1 <= d.year <= 9999 && 1 <= d.month <= 12 && 1 <= d.day <= DaysInMonth(d.year, d.month) &&
    0 <= d.hour < 24 && 0 <= d.minute < 60 && 0 <= d.second < 60
  }

  /**
   * '{0:%Y-%m-%d %H:%M:%S}'.format(d).  Python 2's strftime refuses years
   * before 1900.
   */
  function Format(d: DateTime): (s: string)
    requires IsValid(d) && d.year >= 1900
    ensures |s| == 19
  {
    FourDigits(d.year) + "-" + TwoDigits(d.month) + "-" + TwoDigits(d.day) + " " +
    TwoDigits(d.hour) + ":" + TwoDigits(d.minute) + ":" + TwoDigits(d.second)
  }

  /** Reads "yyyy-mm-dd hh:mm:ss" back into its six fields. */
  function ReadFormatted(s: string): Option<DateTime>
  {
    if |s| == 19 && s[4] == '-' && s[7] == '-' && s[10] == ' ' && s[13] == ':' && s[16] == ':' &&
       AllDigitChars(s[0..4]) && AllDigitChars(s[5..7]) && AllDigitChars(s[8..10]) &&
       AllDigitChars(s[11..13]) && AllDigitChars(s[14..16]) && AllDigitChars(s[17..19])
    then
      Some(DateTime(DecimalValue(s[0..4]), DecimalValue(s[5..7]), DecimalValue(s[8..10]),
                    DecimalValue(s[11..13]), DecimalValue(s[14..16]), DecimalValue(s[17..19])))
    else None
  }

  /** The formatted date determines the date: reading it back gives every field. */
  lemma ReadFormattedOfFormat(d: DateTime)
    requires IsValid(d) && d.year >= 1900
    ensures ReadFormatted(Format(d)) == Some(d)
  {
    var s := Format(d);
    assert s[0..4] == FourDigits(d.year);
    assert s[5..7] == TwoDigits(d.month);
    assert s[8..10] == TwoDigits(d.day);
    assert s[11..13] == TwoDigits(d.hour);
    assert s[14..16] == TwoDigits(d.minute);
    assert s[17..19] == TwoDigits(d.second);
    DecimalValueOfFourDigits(d.year);
    DecimalValueOfTwoDigits(d.month);
    DecimalValueOfTwoDigits(d.day);
    DecimalValueOfTwoDigits(d.hour);
    DecimalValueOfTwoDigits(d.minute);
    DecimalValueOfTwoDigits(d.second);
  }

  /** Why the timestamp conversion raises. */
  datatype TimestampError =
    | MissingWord              // IndexError: fewer than five words, or fewer than three clock fields
    | NotAnInteger(word: string) // ValueError from int()
    | UnknownMonth(name: string) // KeyError from the months table
    | OutOfRange               // ValueError from datetime.datetime
    | BeforeYear1900           // ValueError from strftime

  /** int(f[0]), int(f[1]), int(f[2]) for f = word.split(':'), in that order. */
  function ParseClock(word: string): (r: Result<(int, int, int), TimestampError>)
    ensures var f := SplitOn(word, ':');
            r.Success? ==> |f| >= 3 && ParseInt(f[0]) == Some(r.value.0) &&
                           ParseInt(f[1]) == Some(r.value.1) && ParseInt(f[2]) == Some(r.value.2)
    ensures var f := SplitOn(word, ':');
            r == Failure(MissingWord) ==> |f| < 3 && forall n | 0 <= n < |f| :: ParseInt(f[n]).Some?
    ensures r.Failure? ==> r.error == MissingWord || r.error.NotAnInteger?
    ensures r.Failure? && r.error.NotAnInteger? ==>
              r.error.word in SplitOn(word, ':') && ParseInt(r.error.word).None?
  {
    var f := SplitOn(word, ':');
    match ParseInt(f[0])
    case None => Failure(NotAnInteger(f[0]))
    case Some(hour) =>
      if |f| < 2 then Failure(MissingWord)
      else
        match ParseInt(f[1])
        case None => Failure(NotAnInteger(f[1]))
        case Some(minute) =>
          if |f| < 3 then Failure(MissingWord)
          else
            match ParseInt(f[2])
            case None => Failure(NotAnInteger(f[2]))
            case Some(second) => Success((hour, minute, second))
  }

  /**
   * The OBSTIME value made from the report's "Timestamp:" value.  The words
   * are used in the order Python evaluates the datetime arguments: the
   * year (fifth word), the month (second), the day (third), then the clock
   * (fourth); the weekday and any words after the fifth are not looked at.
   */
  function ParseTimestamp(value: string): (r: Result<string, TimestampError>)
    ensures r.Success? ==>
              ReadFormatted(r.value).Some? && IsValid(ReadFormatted(r.value).value) &&
              ReadFormatted(r.value).value.year >= 1900 && Format(ReadFormatted(r.value).value) == r.value
  {
    var words := Split(value);
    if |words| < 5 then Failure(MissingWord)
    else
      match ParseInt(words[4])
      case None => Failure(NotAnInteger(words[4]))
      case Some(year) =>
        if words[1] !in Months then Failure(UnknownMonth(words[1]))
        else
          match ParseInt(words[2])
          case None => Failure(NotAnInteger(words[2]))
          case Some(day) =>
            match ParseClock(words[3])
            case Failure(e) => Failure(e)
            case Success(clock) =>
              var d := DateTime(year, Months[words[1]], day, clock.0, clock.1, clock.2);
              if !IsValid(d) then Failure(OutOfRange)
              else if d.year < 1900 then Failure(BeforeYear1900)
              else
                ReadFormattedOfFormat(d);
                Success(Format(d))
  }

  /** The clock as ctime() writes it: hh:mm:ss. */
  function CtimeClock(d: DateTime): string
    requires IsValid(d)
  {
    TwoDigits(d.hour) + ":" + TwoDigits(d.minute) + ":" + TwoDigits(d.second)
  }

  /** The five words of a ctime() timestamp. */
  function CtimeWords(d: DateTime, weekday: string): seq<string>
    requires IsValid(d)
  {
    [weekday, MonthNames[d.month - 1], Decimal(d.day), CtimeClock(d), Decimal(d.year)]
  }

  /** int() on the digits str() or %02d wrote. */
  lemma ParseDigits(s: string)
    requires |s| >= 1 && AllDigitChars(s)
    ensures ParseInt(s) == Some(DecimalValue(s))
  {
    assert IsDigitChar(s[0]);
  }

  lemma WordOfDigits(s: string)
    requires |s| >= 1 && AllDigitChars(s)
    ensures IsWord(s)
  {
    assert forall k | 0 <= k < |s| :: IsDigitChar(s[k]);
  }

  lemma ParseCtimeClock(d: DateTime)
    requires IsValid(d)
    ensures ParseClock(CtimeClock(d)) == Success((d.hour, d.minute, d.second))
  {
    var pieces := [TwoDigits(d.hour), TwoDigits(d.minute), TwoDigits(d.second)];
    assert pieces[1..] == [pieces[1], pieces[2]];
    assert pieces[1..][1..] == [pieces[2]];
    assert JoinOn(pieces[1..][1..], ':') == pieces[2];
    assert JoinOn(pieces[1..], ':') == pieces[1] + [':'] + pieces[2];
    assert JoinOn(pieces, ':') == CtimeClock(d);
    forall k | 0 <= k < 3 ensures ':' !in pieces[k] {
      assert forall t | 0 <= t < 2 :: IsDigitChar(pieces[k][t]);
    }
    SplitOnJoin(pieces, ':');
    ParseDigits(pieces[0]);
    ParseDigits(pieces[1]);
    ParseDigits(pieces[2]);
    DecimalValueOfTwoDigits(d.hour);
    DecimalValueOfTwoDigits(d.minute);
    DecimalValueOfTwoDigits(d.second);
  }

  /**
   * Every timestamp ctime() can write for a date the conversion accepts,
   * with any weekday word and any blank spacing around and between the
   * words, becomes that date as "yyyy-mm-dd hh:mm:ss".
   */
  lemma ParseCtime(d: DateTime, weekday: string, gaps: seq<string>)
    requires IsValid(d) && d.year >= 1900
    requires IsWord(weekday)
    requires IsGaps(gaps, 5)
    ensures ParseTimestamp(Spaced(CtimeWords(d, weekday), gaps)) == Success(Format(d))
  {
    var words := CtimeWords(d, weekday);
    WordOfDigits(Decimal(d.day));
    WordOfDigits(Decimal(d.year));
    assert IsWord(MonthNames[d.month - 1]);
    assert IsWord(CtimeClock(d)) by {
      var c := CtimeClock(d);
      assert forall k | 0 <= k < |c| :: IsDigitChar(c[k]) || c[k] == ':';
    }
    SplitSpaced(words, gaps);
    MonthsTable();
    ParseDigits(Decimal(d.year));
    DecimalValueOfDecimal(d.year);
    ParseDigits(Decimal(d.day));
    DecimalValueOfDecimal(d.day);
    ParseCtimeClock(d);
  }

  /**
   * A timestamp laid out like ctime()'s but with a month word that is not
   * in the table fails on the months lookup, whatever the other words.
   */
  lemma UnknownMonthFails(weekday: string, month: string, day: string, clock: string, year: nat, gaps: seq<string>)
    requires IsWord(weekday) && IsWord(month) && IsWord(day) && IsWord(clock)
    requires month !in Months
    requires IsGaps(gaps, 5)
    ensures ParseTimestamp(Spaced([weekday, month, day, clock, Decimal(year)], gaps)) == Failure(UnknownMonth(month))
  {
    WordOfDigits(Decimal(year));
    SplitSpaced([weekday, month, day, clock, Decimal(year)], gaps);
    ParseDigits(Decimal(year));
  }
}
