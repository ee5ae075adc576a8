/** Timestamps of log lines: every form that the game writes is read, and lines sort by their time of day. */
module Stamps {
  import opened Prelude
  import opened Text
  import opened LineGrammar
  import opened LogReader
  import opened LogRecords
  import opened KWayMerge
  import opened Decimals
  import opened LineTexts

  /** A time of day as the game writes it, with any number of fraction digits. */
  datatype Time = Time(hour: string, minute: string, second: string, fraction: string) {
    predicate Valid() {
      && IsDigits(hour) && |hour| <= 2 && IsDigits(minute) && |minute| == 2 && IsDigits(second) && |second| == 2
      && IsDigits(fraction)
    }

    /** Tenths of microseconds: missing digits are zeros, further digits are dropped. */
    function Ticks(): nat { Number((fraction + "0000000")[..7]) }

    predicate Earlier(other: Time) {
      || Number(hour) < Number(other.hour)
      || (Number(hour) == Number(other.hour) && Number(minute) < Number(other.minute))
      || (Number(hour) == Number(other.hour) && Number(minute) == Number(other.minute)
          && (Number(second) < Number(other.second)
              || (Number(second) == Number(other.second) && Ticks() < other.Ticks())))
    }

    predicate SameInstant(other: Time) {
      && Number(hour) == Number(other.hour) && Number(minute) == Number(other.minute)
      && Number(second) == Number(other.second) && Ticks() == other.Ticks()
    }

    function Text(message: string): string {
      hour + (":" + (minute + (":" + (second + ("." + (fraction + (" " + message)))))))
    }
  }

  /** A line with or without the letter of its log level. */
  function Stamped(level: Option<char>, time: Time, message: string): string {
    (if level.Some? then [level.value] + " " else "") + time.Text(message)
  }

  predicate Level(level: Option<char>) {
    level.Some? ==> IsUpperLetter(level.value)
  }

  predicate Message(message: string) {
    message == [] || !IsSpace(message[0])
  }

  lemma AtTwoDigits(s: string, i: nat, word: string, separator: char, rest: string)
    requires At(s, i, word + ([separator] + rest)) && IsDigits(word) && |word| == 2
    ensures TwoDigits(s, i, separator) == Some(i + 3) && s[i..i + 2] == word && At(s, i + 3, rest)
  {
    AtStep(s, i, word, [separator] + rest);
    AtStep(s, i + 2, [separator], rest);
    assert s[i] == s[i..i + 2][0] && s[i + 1] == s[i..i + 2][1] && s[i + 2] == s[i + 2..i + 3][0];
    assert word[0] in word && word[1] in word;
  }

  /** What is found from the fraction on. */
  lemma FractionMatch(s: string, i: nat, fraction: string, message: string)
    requires At(s, i, fraction + (" " + message)) && IsDigits(fraction) && Message(message)
    ensures var end := i + |fraction|;
      && Span(s, i, IsDigit) == Some(end) && s[i..end] == fraction
      && Span(s, end, IsSpace) == Some(end + 1) && At(s, end + 1, message)
  {
    hide At, Span;
    AtSpan(s, i, fraction, " " + message, IsDigit);
    AtSpace(s, i + |fraction|, message);
  }

  lemma HourMatch(s: string, i: nat, hour: string, rest: string)
    requires At(s, i, hour + (":" + rest)) && IsDigits(hour)
    ensures var end := i + |hour|;
      && Span(s, i, IsDigit) == Some(end) && s[i..end] == hour && Literal(s, end, ":") == Some(end + 1) && At(s, end + 1, rest)
  {
    hide At, Span, Literal;
    AtSpan(s, i, hour, ":" + rest, IsDigit);
    AtLiteral(s, i + |hour|, ":", rest);
  }

  lemma TimeMatch(s: string, i: nat, time: Time, message: string)
    requires At(s, i, time.Text(message)) && time.Valid() && Message(message)
    ensures var hourEnd := i + |time.hour|;
      var fraction := hourEnd + 7;
      var end := fraction + |time.fraction|;
      && Span(s, i, IsDigit) == Some(hourEnd) && s[i..hourEnd] == time.hour && Literal(s, hourEnd, ":") == Some(hourEnd + 1)
      && TwoDigits(s, hourEnd + 1, ':') == Some(hourEnd + 4) && s[hourEnd + 1..hourEnd + 3] == time.minute
      && TwoDigits(s, hourEnd + 4, '.') == Some(fraction) && s[hourEnd + 4..hourEnd + 6] == time.second
      && Span(s, fraction, IsDigit) == Some(end) && s[fraction..end] == time.fraction
      && Span(s, end, IsSpace) == Some(end + 1) && At(s, end + 1, message)
  {
    hide At, Span, Literal, TwoDigits, IsDigits, Message;
    var afterSecond := time.fraction + (" " + message);
    var afterMinute := time.second + ("." + afterSecond);
    var afterHour := time.minute + (":" + afterMinute);
    assert time.Text(message) == time.hour + (":" + afterHour);
    var hourEnd := i + |time.hour|;
    HourMatch(s, i, time.hour, afterHour);
    AtTwoDigits(s, hourEnd + 1, time.minute, ':', afterMinute);
    AtTwoDigits(s, hourEnd + 4, time.second, '.', afterSecond);
    FractionMatch(s, hourEnd + 7, time.fraction, message);
  }

  /** Every stamp is read: the message starts after it, and the key is the time of day. */
  lemma StampTextParses(level: Option<char>, time: Time, message: string)
    requires Level(level) && time.Valid() && Message(message)
    ensures var raw := Stamped(level, time, message);
      var stamp := SplitTimestamp(raw);
      && raw[stamp.start..] == message
      && stamp.key == Some(
           ((Number(time.hour) * 100 + Number(time.minute)) * 100 + Number(time.second)) * 10000000 + time.Ticks())
  {
    hide Span, Literal, TwoDigits, Number, Time.Text, SkipSpaces, SplitTimestamp, Stamped, Message, Level;
    var raw := Stamped(level, time, message);
    var from := if level.Some? then 2 else 0;
    StampedAt(level, time, message);
    TimeMatch(raw, from, time, message);
    Assembled(raw, from, from + |time.hour|, from + |time.hour| + 7 + |time.fraction|);
  }

  /** The stamp of a line whose parts are matched. */
  lemma Assembled(raw: string, hour: nat, hourEnd: nat, end: nat)
    requires hour <= hourEnd && hourEnd + 7 <= end < |raw| && hourEnd - hour <= 2
    requires hour == if |raw| > 1 && IsUpperLetter(raw[0]) && IsSpace(raw[1]) then SkipSpaces(raw, 1) else 0
    requires Span(raw, hour, IsDigit) == Some(hourEnd) && Literal(raw, hourEnd, ":") == Some(hourEnd + 1)
    requires TwoDigits(raw, hourEnd + 1, ':') == Some(hourEnd + 4) && TwoDigits(raw, hourEnd + 4, '.') == Some(hourEnd + 7)
    requires Span(raw, hourEnd + 7, IsDigit) == Some(end) && Span(raw, end, IsSpace) == Some(end + 1)
    ensures SplitTimestamp(raw) == Stamp(
      Some(((Number(raw[hour..hourEnd]) * 100 + Number(raw[hourEnd + 1..hourEnd + 3])) * 100
            + Number(raw[hourEnd + 4..hourEnd + 6])) * 10000000 + Number((raw[hourEnd + 7..end] + "0000000")[..7])),
      end + 1)
  {
    hide Span, Literal, TwoDigits, Number, SkipSpaces;
  }

  /** Where the time begins. */
  lemma StampedAt(level: Option<char>, time: Time, message: string)
    requires Level(level) && time.Valid()
    ensures var raw := Stamped(level, time, message);
      && At(raw, if level.Some? then 2 else 0, time.Text(message))
      && (level.Some? ==> |raw| > 1 && IsUpperLetter(raw[0]) && IsSpace(raw[1]) && SkipSpaces(raw, 1) == 2)
      && (level.None? ==> |raw| > 1 && !IsUpperLetter(raw[0]))
  {
    hide SkipSpaces, Time.Text;
    var raw := Stamped(level, time, message);
    HourStarts(time, message);
    if level.Some? {
      assert raw[2..] == time.Text(message) && raw[1..] == " " + time.Text(message);
      AtSpace(raw, 1, time.Text(message));
    } else {
      assert raw == time.Text(message) && raw[0..] == raw;
    }
  }

  lemma HourStarts(time: Time, message: string)
    requires time.Valid()
    ensures var text := time.Text(message);
      |text| > 1 && IsDigit(text[0])
  {
    assert time.hour[0] in time.hour;
  }

  /** Lines of two components are merged by their time of day, whatever their levels and the digits they are written with;
      only lines of the same instant go by component. */
  lemma StampsOrder(
    a: Component, levelA: Option<char>, timeA: Time, messageA: string, numberA: nat, offsetA: nat,
    b: Component, levelB: Option<char>, timeB: Time, messageB: string, numberB: nat, offsetB: nat)
    requires Level(levelA) && timeA.Valid() && Message(messageA) && Level(levelB) && timeB.Valid() && Message(messageB)
    ensures var first := Materialize(a, numberA, offsetA, Stamped(levelA, timeA, messageA));
      var second := Materialize(b, numberB, offsetB, Stamped(levelB, timeB, messageB));
      && first.message == messageA && second.message == messageB
      && (Precedes(first, second) <==>
            || timeA.Earlier(timeB)
            || (timeA.SameInstant(timeB) && (a.Rank() < b.Rank() || (a == b && offsetA < offsetB))))
  {
    hide SplitTimestamp, Stamped, Number;
    StampTextParses(levelA, timeA, messageA);
    StampTextParses(levelB, timeB, messageB);
    TimeBounds(timeA);
    TimeBounds(timeB);
  }

  lemma TimeBounds(time: Time)
    requires time.Valid()
    ensures Number(time.minute) < 100 && Number(time.second) < 100 && time.Ticks() < 10000000
  {
    hide Number, PowerOfTen;
    TenPowers();
    NumberBelow(time.minute);
    NumberBelow(time.second);
    NumberBelow((time.fraction + "0000000")[..7]);
  }

  /** An unstamped line comes before every stamped one. */
  lemma UnstampedFirst(a: Component, raw: string, b: Component, level: Option<char>, time: Time, message: string)
    requires SplitTimestamp(raw).key.None? && Level(level) && time.Valid() && Message(message)
    ensures forall n: nat, at: nat, m: nat, from: nat ::
      Precedes(Materialize(a, n, at, raw), Materialize(b, m, from, Stamped(level, time, message)))
  {
    hide SplitTimestamp, Stamped, Number;
    StampTextParses(level, time, message);
  }
}
