/** The "H:MM:SS" / "M:SS" clock text shared by the chapter list
    (src/chaptermodel.cpp `formatTime`) and the controller
    (src/playercontroller.cpp `formatTime`), which implement it identically. */
module Clock {
  import opened Base
  import opened Text

  /** The text for a time that is NaN or negative. */
  const Unknown := "--:--"

  /** The whole seconds of a non-negative time (`static_cast<int>` truncates toward zero). */
  function WholeSeconds(seconds: real): (n: nat)
    requires seconds >= 0.0
    ensures n as real <= seconds < n as real + 1.0
  {
    seconds.Floor
  }

  /** Hours, minutes and seconds of a count of seconds; minutes and seconds
      are below 60 and together they give back the count. */
  lemma ClockFields(total: nat)
    ensures (total % 3600) / 60 < 60 && total % 60 < 60
    ensures total == (total / 3600) * 3600 + ((total % 3600) / 60) * 60 + total % 60
  {
    var q, r := total / 3600, total % 3600;
    assert total == 3600 * q + r;
    assert r == 60 * (r / 60) + r % 60;
    assert total == 60 * (60 * q + r / 60) + r % 60;
  }

  /** `formatTime`. */
  function FormatTime(seconds: Float): (r: string)
    ensures |r| >= 4
    ensures seconds.NaN? || seconds.val < 0.0 ==> r == Unknown
    ensures seconds.Num? && seconds.val >= 0.0 ==> ParseClock(r) == Some(WholeSeconds(seconds.val))
  {
    if seconds.NaN? || seconds.val < 0.0 then Unknown
    else
      ClockText(WholeSeconds(seconds.val))
  }

  /** Reads canonical clock text back: "H:MM:SS" with hours above zero,
      or "M:SS" with fewer than 60 minutes, where every field after a ':'
      is two digits below 60 and the first field has no leading zero.
      Anything else (such as "--:--", "60:00" or "00:45") gives nothing. */
  function ParseClock(s: string): (r: Option<nat>) {
    if |s| < 4 || s[|s| - 3] != ':' || !AllDigits(s[|s| - 2..]) || DecToNat(s[|s| - 2..]) >= 60 then None
    else ParseFields(s[..|s| - 3], DecToNat(s[|s| - 2..]))
  }

  /** The count read from the text before the seconds field: "H:MM" or "M". */
  function ParseFields(rest: string, secs: nat): Option<nat> {
    if LongPrefix(rest) then
      Some(DecToNat(rest[..|rest| - 3]) * 3600 + DecToNat(rest[|rest| - 2..]) * 60 + secs)
    else if Canonical(rest) && DecToNat(rest) < 60 then Some(DecToNat(rest) * 60 + secs)
    else None
  }

  /** Text ending in ':' and a two-digit seconds field below 60 reads as its
      leading part with those seconds. */
  lemma ParseJoined(rest: string, ss: string)
    requires |ss| == 2 && AllDigits(ss) && DecToNat(ss) < 60
    ensures ParseClock(rest + ":" + ss) == ParseFields(rest, DecToNat(ss))
  {
    var s := rest + ":" + ss;
    assert s[|s| - 3] == ':' && s[|s| - 2..] == ss && s[..|s| - 3] == rest;
  }

  /** The "H:MM" part of the long form: a positive canonical hour count, a
      ':' and two digits below 60. */
  predicate LongPrefix(rest: string) {
    && |rest| >= 4 && rest[|rest| - 3] == ':'
    && AllDigits(rest[|rest| - 2..]) && DecToNat(rest[|rest| - 2..]) < 60
    && Canonical(rest[..|rest| - 3]) && DecToNat(rest[..|rest| - 3]) > 0
  }

  /** A number below 100 has at most two digits. */
  lemma ShortNumber(n: nat)
    requires n < 100
    ensures |NatToDec(n)| <= 2
  {
    if n >= 10 {
      assert NatToDec(n) == NatToDec(n / 10) + [DigitChar(n % 10)];
    }
  }

  /** The text of a count of seconds: "H:MM:SS" from one hour on, else
      "M:SS"; it reads back as the count. */
  function ClockText(total: nat): (r: string)
    ensures |r| >= 4
    ensures ParseClock(r) == Some(total)
  {
    var hours := total / 3600;
    var minutes := (total % 3600) / 60;
    var secs := total % 60;
    ClockFields(total);
    if hours > 0 then
      LongFormRoundTrip(hours, minutes, secs);
      NatToDec(hours) + ":" + Pad2(minutes) + ":" + Pad2(secs)
    else
      ShortFormRoundTrip(minutes, secs);
      NatToDec(minutes) + ":" + Pad2(secs)
  }

  /** "H:MM:SS" reads back as its number of seconds. */
  lemma LongFormRoundTrip(hours: nat, minutes: nat, secs: nat)
    requires hours > 0 && minutes < 60 && secs < 60
    ensures var s := NatToDec(hours) + ":" + Pad2(minutes) + ":" + Pad2(secs);
      ParseClock(s) == Some(hours * 3600 + minutes * 60 + secs) && IsDigit(s[|s| - 1])
  {
    NatToDecCanonical(hours);
    DecRoundTrip(hours);
    var rest, ss := NatToDec(hours) + ":" + Pad2(minutes), Pad2(secs);
    LongPrefixJoined(NatToDec(hours), Pad2(minutes), secs);
    ParseJoined(rest, ss);
    var s := rest + ":" + ss;
    assert s[|s| - 1] == ss[1];
  }

  /** A positive canonical hour count, ':' and two digits below 60 make up
      the leading part of the long form. */
  lemma LongPrefixJoined(hh: string, mm: string, secs: nat)
    requires Canonical(hh) && DecToNat(hh) > 0
    requires |mm| == 2 && AllDigits(mm) && DecToNat(mm) < 60
    ensures ParseFields(hh + ":" + mm, secs) == Some(DecToNat(hh) * 3600 + DecToNat(mm) * 60 + secs)
  {
    var rest := hh + ":" + mm;
    assert rest[..|rest| - 3] == hh;
    assert rest[|rest| - 2..] == mm;
    assert rest[|rest| - 3] == ':';
    assert LongPrefix(rest);
  }

  /** "M:SS" with fewer than 60 minutes reads back as its number of seconds. */
  lemma ShortFormRoundTrip(minutes: nat, secs: nat)
    requires minutes < 60 && secs < 60
    ensures var s := NatToDec(minutes) + ":" + Pad2(secs);
      ParseClock(s) == Some(minutes * 60 + secs) && IsDigit(s[|s| - 1])
  {
    var mm, ss := NatToDec(minutes), Pad2(secs);
    ShortNumber(minutes);
    NatToDecCanonical(minutes);
    DecRoundTrip(minutes);
    assert !LongPrefix(mm);
    ParseJoined(mm, ss);
    var s := mm + ":" + ss;
    assert s[|s| - 1] == ss[1];
  }

  /** Hours, minutes and seconds are recovered from the count they make up. */
  lemma FieldsOfCount(hours: nat, minutes: nat, secs: nat)
    requires minutes < 60 && secs < 60
    ensures var total := hours * 3600 + minutes * 60 + secs;
      total / 3600 == hours && (total % 3600) / 60 == minutes && total % 60 == secs
  {
    var total := hours * 3600 + minutes * 60 + secs;
    assert total == hours * 3600 + (minutes * 60 + secs) && minutes * 60 + secs < 3600;
  }

  /** The clock text of a count of at least an hour, field by field. */
  lemma LongClockText(total: nat)
    requires total / 3600 > 0
    ensures ClockText(total) == NatToDec(total / 3600) + ":" + Pad2((total % 3600) / 60) + ":" + Pad2(total % 60)
  {
  }

  /** The clock text of a count below an hour, field by field. */
  lemma ShortClockText(total: nat)
    requires total / 3600 == 0
    ensures ClockText(total) == NatToDec((total % 3600) / 60) + ":" + Pad2(total % 60)
  {
  }

  /** Hours above zero and minutes and seconds below 60 are the long clock
      text of the count they make up. */
  lemma LongFormText(hours: nat, minutes: nat, secs: nat, total: nat)
    requires hours > 0 && minutes < 60 && secs < 60
    requires total == hours * 3600 + minutes * 60 + secs
    ensures ClockText(total) == NatToDec(hours) + ":" + Pad2(minutes) + ":" + Pad2(secs)
  {
    FieldsOfCount(hours, minutes, secs);
    LongClockText(total);
  }

  /** Minutes and seconds below 60 are the short clock text of the count
      they make up. */
  lemma ShortFormText(minutes: nat, secs: nat, total: nat)
    requires minutes < 60 && secs < 60
    requires total == minutes * 60 + secs
    ensures ClockText(total) == NatToDec(minutes) + ":" + Pad2(secs)
  {
    FieldsOfCount(0, minutes, secs);
    ShortClockText(total);
  }

  /** Text with a ':' three from its end is the part before, the ':' and
      the last two characters. */
  lemma SplitSeconds(s: string)
    requires |s| >= 3 && s[|s| - 3] == ':'
    ensures s == s[..|s| - 3] + ":" + s[|s| - 2..]
  {
  }

  /** Text read in the long form is the clock text of what it reads as. */
  lemma LongFormParsed(s: string)
    requires ParseClock(s).Some? && LongPrefix(s[..|s| - 3])
    ensures s == ClockText(ParseClock(s).value)
  {
    var ss, rest := s[|s| - 2..], s[..|s| - 3];
    var hh, mm := rest[..|rest| - 3], rest[|rest| - 2..];
    var h, m, sc := DecToNat(hh), DecToNat(mm), DecToNat(ss);
    assert ParseClock(s) == ParseFields(rest, sc);
    var total := ParseClock(s).value;
    assert total == h * 3600 + m * 60 + sc;
    Pad2Inverse(ss);
    Pad2Inverse(mm);
    CanonicalRoundTrip(hh);
    LongFormText(h, m, sc, total);
    SplitSeconds(rest);
    SplitSeconds(s);
  }

  /** Text read in the short form is the clock text of what it reads as. */
  lemma ShortFormParsed(s: string)
    requires ParseClock(s).Some? && !LongPrefix(s[..|s| - 3])
    ensures s == ClockText(ParseClock(s).value)
  {
    var ss, rest := s[|s| - 2..], s[..|s| - 3];
    var m, sc := DecToNat(rest), DecToNat(ss);
    assert ParseClock(s) == ParseFields(rest, sc);
    var total := ParseClock(s).value;
    assert total == m * 60 + sc;
    Pad2Inverse(ss);
    CanonicalRoundTrip(rest);
    ShortFormText(m, sc, total);
    SplitSeconds(s);
  }

  /** The clock text of a count is the only text that reads back as that
      count: "H:MM:SS" with no leading zero on the hours from one hour on,
      "M:SS" below, and nothing else such as "60:00" or "00:45". */
  lemma ClockTextUnique(s: string, total: nat)
    ensures ParseClock(s) == Some(total) <==> s == ClockText(total)
  {
    if ParseClock(s) == Some(total) {
      if LongPrefix(s[..|s| - 3]) {
        LongFormParsed(s);
      } else {
        ShortFormParsed(s);
      }
    }
  }

  /** The clock text of a time reads back as its whole seconds, and the
      unknown-time text is produced exactly for NaN and negative times. */
  lemma ClockRoundTrip(seconds: Float)
    ensures seconds.NaN? || seconds.val < 0.0 ==> ParseClock(FormatTime(seconds)).None?
    ensures seconds.Num? && seconds.val >= 0.0 ==>
      ParseClock(FormatTime(seconds)) == Some(WholeSeconds(seconds.val))
    ensures FormatTime(seconds) == Unknown <==> seconds.NaN? || seconds.val < 0.0
  {
    var s := FormatTime(seconds);
    if seconds.NaN? || seconds.val < 0.0 {
      assert s[|s| - 2..] == "--";
      assert !IsDigit(s[|s| - 2..][0]);
    } else {
      assert s == ClockText(WholeSeconds(seconds.val));
    }
  }

  /** 45 seconds read "0:45"; 3725 seconds read "1:02:05". */
  lemma ClockExamples()
    ensures FormatTime(Num(45.0)) == "0:45"
    ensures FormatTime(Num(3725.0)) == "1:02:05"
  {
    ShortExample();
    LongExample();
  }

  /** 45 seconds read "0:45". */
  lemma ShortExample()
    ensures FormatTime(Num(45.0)) == "0:45"
  {
    assert WholeSeconds(45.0) == 45;
    ShortFormText(0, 45, 45);
    assert NatToDec(45) == NatToDec(4) + [DigitChar(5)];
    assert NatToDec(0) == "0";
  }

  /** 3725 seconds read "1:02:05". */
  lemma LongExample()
    ensures FormatTime(Num(3725.0)) == "1:02:05"
  {
    assert WholeSeconds(3725.0) == 3725;
    LongFormText(1, 2, 5, 3725);
    assert Pad2(5) == "05" && Pad2(2) == "02" && NatToDec(1) == "1";
  }
}
