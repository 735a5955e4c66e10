/**
 * The `format` template filter: a number of seconds shown as days, hours,
 * minutes and seconds, each part only when it is nonzero ("1d 46m 57s "),
 * or a fixed sentence when there is no time at all.
 *
 * The partner of `Format` is `ParseDuration`, which reads such a text back;
 * `ParseFormat` proves that reading the text of any non-negative number of
 * seconds gives that number back.
 */
module FormatTime {
  import opened Common
  import opened Text

  const NoTimeMessage := "No time has been spent."

  const SecondsPerDay := 86400
  const SecondsPerHour := 3600
  const SecondsPerMinute := 60

  datatype Parts = Parts(days: int, hours: int, minutes: int, seconds: int)

  /** The chain of `divmod` calls: Python's floor division, which Dafny's `/` and `%` match for positive divisors. */
  function Divide(value: int): (p: Parts)
    ensures p.days * SecondsPerDay + p.hours * SecondsPerHour + p.minutes * SecondsPerMinute + p.seconds == value
    ensures 0 <= p.hours < 24 && 0 <= p.minutes < 60 && 0 <= p.seconds < 60
  {
    var days, rem1 := value / SecondsPerDay, value % SecondsPerDay;
    var hours, rem2 := rem1 / SecondsPerHour, rem1 % SecondsPerHour;
    var minutes, seconds := rem2 / SecondsPerMinute, rem2 % SecondsPerMinute;
    Parts(days, hours, minutes, seconds)
  }

  /** The bounds on hours, minutes and seconds leave only one way to split a value. */
  lemma DivideUnique(value: int, p: Parts)
    requires p.days * SecondsPerDay + p.hours * SecondsPerHour + p.minutes * SecondsPerMinute + p.seconds == value
    requires 0 <= p.hours < 24 && 0 <= p.minutes < 60 && 0 <= p.seconds < 60
    ensures p == Divide(value)
  {
    var q := Divide(value);
    var r := p.hours * SecondsPerHour + p.minutes * SecondsPerMinute + p.seconds;
    var s := q.hours * SecondsPerHour + q.minutes * SecondsPerMinute + q.seconds;
    assert 0 <= r < SecondsPerDay && 0 <= s < SecondsPerDay;
    assert p.days == q.days by {
      assert (p.days - q.days) * SecondsPerDay == s - r;
    }
    var r2 := p.minutes * SecondsPerMinute + p.seconds;
    var s2 := q.minutes * SecondsPerMinute + q.seconds;
    assert p.hours == q.hours by {
      assert (p.hours - q.hours) * SecondsPerHour == s2 - r2;
    }
    assert p.minutes == q.minutes by {
      assert (p.minutes - q.minutes) * SecondsPerMinute == q.seconds - p.seconds;
    }
  }

  /** One part of the text: the number, its unit letter and a space; nothing for a zero part. */
  function Piece(n: int, unit: char): string {
    if n != 0 then IntToString(n) + [unit, ' '] else ""
  }

  /** The four pieces in order days, hours, minutes, seconds. */
  function PartsText(p: Parts): string {
    Piece(p.days, 'd') + Piece(p.hours, 'h') + Piece(p.minutes, 'm') + Piece(p.seconds, 's')
  }

  /** The filter itself; `None` stands for Python's `None`. */
  function Format(value: Option<int>): (r: string)
    ensures value == None || value == Some(0) <==> r == NoTimeMessage
  {
    if value.Some? && value.value != 0 then
      var p := Divide(value.value);
      assert PartsText(p) != NoTimeMessage by { NonzeroPartsText(p); }
      PartsText(p)
    else
      NoTimeMessage
  }

  /** A nonzero piece starts with a digit or a minus sign. */
  lemma PieceStart(n: int, unit: char)
    requires n != 0
    ensures Piece(n, unit) != [] && (Piece(n, unit)[0] == '-' || IsDigit(Piece(n, unit)[0]))
  {
    if n > 0 {
      var d := NatToString(n);
      assert IsDigit(d[0]);
    }
  }

  lemma NonzeroPartsText(p: Parts)
    requires p.days != 0 || p.hours != 0 || p.minutes != 0 || p.seconds != 0
    ensures PartsText(p) != [] && PartsText(p)[0] != 'N'
  {
    if p.days != 0 {
      PieceStart(p.days, 'd');
    } else if p.hours != 0 {
      PieceStart(p.hours, 'h');
    } else if p.minutes != 0 {
      PieceStart(p.minutes, 'm');
    } else {
      PieceStart(p.seconds, 's');
    }
  }

  /** The unit letters the filter writes after each number. */
  predicate IsUnit(c: char) {
    c == 'd' || c == 'h' || c == 'm' || c == 's'
  }

  /** The words of the text: one per nonzero part, in the order days, hours, minutes, seconds. */
  function Token(n: int, unit: char): seq<string> {
    if n != 0 then [IntToString(n) + [unit]] else []
  }

  function PartTokens(p: Parts): seq<string> {
    Token(p.days, 'd') + Token(p.hours, 'h') + Token(p.minutes, 'm') + Token(p.seconds, 's')
  }

  lemma PieceWords(n: int, unit: char, rest: string)
    requires IsUnit(unit)
    ensures Split(Piece(n, unit) + rest) == Token(n, unit) + Split(rest)
  {
    if n != 0 {
      var w := IntToString(n) + [unit];
      assert IsWord(w) by {
        var d := NatToString(if n < 0 then -n else n);
        assert forall i :: 0 <= i < |d| ==> !IsSpace(d[i]);
      }
      assert Piece(n, unit) + rest == w + " " + rest;
      SplitWordThenSpace(w, rest);
    } else {
      assert Piece(n, unit) + rest == rest;
    }
  }

  /**
   * A part appears in the text exactly when it is nonzero, in the order
   * days, hours, minutes, seconds; each is the number followed by its
   * unit letter, and every part is followed by one space.
   */
  lemma FormatWords(v: int)
    requires v != 0
    ensures Split(Format(Some(v))) == PartTokens(Divide(v))
    ensures var r := Format(Some(v)); r != [] && r[|r| - 1] == ' '
  {
    PartsWords(Divide(v));
    PartsTextEnd(Divide(v));
  }

  lemma PartsWords(p: Parts)
    ensures Split(PartsText(p)) == PartTokens(p)
  {
    var hms := Piece(p.hours, 'h') + (Piece(p.minutes, 'm') + Piece(p.seconds, 's'));
    PartsTextRight(p);
    PieceWords(p.days, 'd', hms);
    HoursWords(p);
    PartTokensRight(p);
  }

  lemma PartsTextRight(p: Parts)
    ensures PartsText(p) == Piece(p.days, 'd') + (Piece(p.hours, 'h') + (Piece(p.minutes, 'm') + Piece(p.seconds, 's')))
  {
  }

  lemma PartTokensRight(p: Parts)
    ensures PartTokens(p) == Token(p.days, 'd') + (Token(p.hours, 'h') + (Token(p.minutes, 'm') + Token(p.seconds, 's')))
  {
  }

  lemma HoursWords(p: Parts)
    ensures Split(Piece(p.hours, 'h') + (Piece(p.minutes, 'm') + Piece(p.seconds, 's')))
         == Token(p.hours, 'h') + (Token(p.minutes, 'm') + Token(p.seconds, 's'))
  {
    MinutesWords(p);
    PieceWords(p.hours, 'h', Piece(p.minutes, 'm') + Piece(p.seconds, 's'));
  }

  lemma MinutesWords(p: Parts)
    ensures Split(Piece(p.minutes, 'm') + Piece(p.seconds, 's')) == Token(p.minutes, 'm') + Token(p.seconds, 's')
  {
    PieceWords(p.seconds, 's', "");
    assert Piece(p.seconds, 's') + "" == Piece(p.seconds, 's');
    assert Token(p.seconds, 's') + Split("") == Token(p.seconds, 's');
    PieceWords(p.minutes, 'm', Piece(p.seconds, 's'));
  }

  lemma PartsTextEnd(p: Parts)
    requires p.days != 0 || p.hours != 0 || p.minutes != 0 || p.seconds != 0
    ensures var r := PartsText(p); r != [] && r[|r| - 1] == ' '
  {
  }

  function UnitSeconds(unit: char): int {
    match unit
    case 'd' => SecondsPerDay
    case 'h' => SecondsPerHour
    case 'm' => SecondsPerMinute
    case _ => 1
  }

  /** One word such as "46m": decimal digits and a unit letter. */
  function ParseToken(w: string): Option<int> {
    if w != [] && IsUnit(w[|w| - 1]) && ParseNat(w[..|w| - 1]).Some? then
      Some(ParseNat(w[..|w| - 1]).value * UnitSeconds(w[|w| - 1]))
    else
      None
  }

  function ParseTokens(ws: seq<string>): Option<int> {
    if ws == [] then Some(0)
    else
      var head, tail := ParseToken(ws[0]), ParseTokens(ws[1..]);
      if head.Some? && tail.Some? then Some(head.value + tail.value) else None
  }

  /** Reads back the text of a non-negative duration. */
  function ParseDuration(s: string): Option<int> {
    if s == NoTimeMessage then Some(0) else ParseTokens(Split(s))
  }

  lemma {:induction false} ParseTokensAppend(a: seq<string>, b: seq<string>)
    requires ParseTokens(a).Some? && ParseTokens(b).Some?
    ensures ParseTokens(a + b) == Some(ParseTokens(a).value + ParseTokens(b).value)
  {
    if a != [] {
      assert (a + b)[1..] == a[1..] + b;
      ParseTokensAppend(a[1..], b);
    } else {
      assert a + b == b;
    }
  }

  lemma TokenValue(n: int, unit: char)
    requires n >= 0 && IsUnit(unit)
    ensures ParseTokens(Token(n, unit)) == Some(n * UnitSeconds(unit))
  {
    if n != 0 {
      var w := NatToString(n) + [unit];
      assert w[..|w| - 1] == NatToString(n);
      ParseNatToString(n);
      assert Token(n, unit)[1..] == [];
    }
  }

  lemma PartTokensValue(p: Parts)
    requires p.days >= 0 && p.hours >= 0 && p.minutes >= 0 && p.seconds >= 0
    ensures ParseTokens(PartTokens(p))
         == Some(p.days * SecondsPerDay + p.hours * SecondsPerHour + p.minutes * SecondsPerMinute + p.seconds)
  {
    PartTokensRight(p);
    HoursTokensValue(p);
    TokenThen(p.days, 'd', Token(p.hours, 'h') + (Token(p.minutes, 'm') + Token(p.seconds, 's')));
  }

  lemma HoursTokensValue(p: Parts)
    requires p.hours >= 0 && p.minutes >= 0 && p.seconds >= 0
    ensures ParseTokens(Token(p.hours, 'h') + (Token(p.minutes, 'm') + Token(p.seconds, 's')))
         == Some(p.hours * SecondsPerHour + (p.minutes * SecondsPerMinute + p.seconds))
  {
    MinutesTokensValue(p);
    TokenThen(p.hours, 'h', Token(p.minutes, 'm') + Token(p.seconds, 's'));
  }

  lemma MinutesTokensValue(p: Parts)
    requires p.minutes >= 0 && p.seconds >= 0
    ensures ParseTokens(Token(p.minutes, 'm') + Token(p.seconds, 's')) == Some(p.minutes * SecondsPerMinute + p.seconds)
  {
    TokenValue(p.seconds, 's');
    TokenThen(p.minutes, 'm', Token(p.seconds, 's'));
  }

  /** A token in front of words that parse adds its own value. */
  lemma TokenThen(n: int, unit: char, rest: seq<string>)
    requires n >= 0 && IsUnit(unit) && ParseTokens(rest).Some?
    ensures ParseTokens(Token(n, unit) + rest) == Some(n * UnitSeconds(unit) + ParseTokens(rest).value)
  {
    TokenValue(n, unit);
    ParseTokensAppend(Token(n, unit), rest);
  }

  /** For every non-negative number of seconds, reading the formatted text gives the number back. */
  lemma ParseFormat(v: int)
    requires v >= 0
    ensures ParseDuration(Format(Some(v))) == Some(v)
  {
    if v != 0 {
      var p := Divide(v);
      FormatWords(v);
      PartTokensValue(p);
    }
  }

  /** The boundary values around a minute. */
  lemma FormatMinuteBoundary()
    ensures Format(None) == NoTimeMessage && Format(Some(0)) == NoTimeMessage
    ensures Format(Some(59)) == "59s " && Format(Some(60)) == "1m "
  {
    assert Divide(59) == Parts(0, 0, 0, 59);
    assert Divide(60) == Parts(0, 0, 1, 0);
  }

  /** The boundary values around an hour. */
  lemma FormatHourBoundary()
    ensures Format(Some(3599)) == "59m 59s " && Format(Some(3600)) == "1h "
  {
    assert Divide(3599) == Parts(0, 0, 59, 59);
    assert Divide(3600) == Parts(0, 1, 0, 0);
  }

  /** The boundary values around a day. */
  lemma FormatDayBoundary()
    ensures Format(Some(86399)) == "23h 59m 59s " && Format(Some(86400)) == "1d "
  {
    assert Divide(86399) == Parts(0, 23, 59, 59);
    assert Divide(86400) == Parts(1, 0, 0, 0);
  }

  /** A value below a day with every smaller part present. */
  lemma FormatMixedHours()
    ensures Format(Some(76543)) == "21h 15m 43s "
  {
    assert Divide(76543) == Parts(0, 21, 15, 43);
    assert IntToString(21) == "21" && IntToString(15) == "15" && IntToString(43) == "43";
  }

  /** Another value below a day with every smaller part present. */
  lemma FormatMixedHoursAgain()
    ensures Format(Some(67892)) == "18h 51m 32s "
  {
    assert Divide(67892) == Parts(0, 18, 51, 32);
    assert IntToString(18) == "18" && IntToString(51) == "51" && IntToString(32) == "32";
  }

  /** A value over a day with no hours. */
  lemma FormatMixedDays()
    ensures Format(Some(89217)) == "1d 46m 57s "
  {
    assert Divide(89217) == Parts(1, 0, 46, 57);
    assert IntToString(1) == "1" && IntToString(46) == "46" && IntToString(57) == "57";
  }
}
