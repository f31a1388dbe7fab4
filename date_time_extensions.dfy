/** The .NET `DateTime` value the tenure dates arrive as, and the fixed custom format
    `yyyy-MM-ddTHH\:mm\:ss.fffffffZ` the listener writes them in (an RFC 3339
    section 5.6 `date-time` with seven fraction digits and a literal `Z`). */
module DateTimeExtensions {
  import opened Wrappers
  import opened NumberText

  /** `DateTimeKind`: carried by the value, ignored by the formatter. */
  datatype DateTimeKind = Unspecified | Utc | Local

  /** The calendar components of a `DateTime`; `fraction` is the sub-second part in
      100-nanosecond ticks. */
  datatype Moment = Moment(year: nat, month: nat, day: nat, hour: nat, minute: nat,
                           second: nat, fraction: nat, kind: DateTimeKind)

  predicate IsLeapYear(y: nat)
  {
    (y % 4 == 0 && y % 100 != 0) || y % 400 == 0
  }

  function DaysInMonth(y: nat, m: nat): nat
    requires 1 <= m <= 12
  {
    if m == 2 then (if IsLeapYear(y) then 29 else 28)
    else if m == 4 || m == 6 || m == 9 || m == 11 then 30
    else 31
  }

  /** The range of `DateTime`: from `MinValue` 0001-01-01 00:00:00 to `MaxValue`
      9999-12-31 23:59:59.9999999. */
  predicate ValidMoment(d: Moment)
  {
    && 1 <= d.year <= 9999
    && 1 <= d.month <= 12
    && 1 <= d.day <= DaysInMonth(d.year, d.month)
    && d.hour < 24 && d.minute < 60 && d.second < 60
    && d.fraction < 10_000_000
  }

  type DateTime = d: Moment | ValidMoment(d) witness Moment(1, 1, 1, 0, 0, 0, 0, Unspecified)

  const MinValue: DateTime := Moment(1, 1, 1, 0, 0, 0, 0, Unspecified)
  const MaxValue: DateTime := Moment(9999, 12, 31, 23, 59, 59, 9_999_999, Unspecified)

  /** The character offsets of the seven separators of the format. */
  predicate SeparatorsAt(s: string)
  {
    && |s| == 28
    && s[4] == '-' && s[7] == '-' && s[10] == 'T' && s[13] == ':'
    && s[16] == ':' && s[19] == '.' && s[27] == 'Z'
  }

  /** Every position that is not a separator holds a decimal digit. */
  predicate FieldsAreDigits(s: string)
    requires |s| == 28
  {
    && AllDigits(s[0..4], 10) && AllDigits(s[5..7], 10) && AllDigits(s[8..10], 10)
    && AllDigits(s[11..13], 10) && AllDigits(s[14..16], 10) && AllDigits(s[17..19], 10)
    && AllDigits(s[20..27], 10)
  }

  /** Seven fields of widths 4, 2, 2, 2, 2, 2 and 7 joined by the separators of the
      format sit at the format's fixed offsets. */
  lemma LayoutSlices(year: string, month: string, day: string, hour: string, minute: string, second: string, fraction: string)
    requires |year| == 4 && |month| == 2 && |day| == 2 && |hour| == 2
    requires |minute| == 2 && |second| == 2 && |fraction| == 7
    ensures var s := year + "-" + month + "-" + day + "T" + hour + ":" + minute + ":" + second + "." + fraction + "Z";
      && SeparatorsAt(s)
      && s[0..4] == year && s[5..7] == month && s[8..10] == day && s[11..13] == hour
      && s[14..16] == minute && s[17..19] == second && s[20..27] == fraction
  {
    var s := year + "-" + month + "-" + day + "T" + hour + ":" + minute + ":" + second + "." + fraction + "Z";
    assert s[0..4] == year && s[5..7] == month && s[8..10] == day;
    assert s[11..13] == hour && s[14..16] == minute;
    assert s[17..19] == second && s[20..27] == fraction;
  }

  /** `dt.ToString("yyyy-MM-ddTHH\:mm\:ss.fffffffZ")`: each component zero-padded to
      its fixed width, the hour on the 24-hour clock, `Z` appended verbatim. */
  function ToFormattedDateTime(dt: DateTime): (s: string)
    ensures SeparatorsAt(s) && FieldsAreDigits(s)
  {
    LayoutSlices(Pad(dt.year, 4, 10), Pad(dt.month, 2, 10), Pad(dt.day, 2, 10), Pad(dt.hour, 2, 10),
                 Pad(dt.minute, 2, 10), Pad(dt.second, 2, 10), Pad(dt.fraction, 7, 10));
    Pad(dt.year, 4, 10) + "-" + Pad(dt.month, 2, 10) + "-" + Pad(dt.day, 2, 10)
      + "T" + Pad(dt.hour, 2, 10) + ":" + Pad(dt.minute, 2, 10) + ":" + Pad(dt.second, 2, 10)
      + "." + Pad(dt.fraction, 7, 10) + "Z"
  }

  /** Reads a string in the format back into its components (as a UTC value, which
      is what the `Z` denotes); fails on anything else. */
  function ParseFormattedDateTime(s: string): Option<DateTime>
  {
    if !SeparatorsAt(s) || !FieldsAreDigits(s) then None
    else
      var d := Moment(ValueOf(s[0..4], 10), ValueOf(s[5..7], 10), ValueOf(s[8..10], 10),
                      ValueOf(s[11..13], 10), ValueOf(s[14..16], 10), ValueOf(s[17..19], 10),
                      ValueOf(s[20..27], 10), Utc);
      if ValidMoment(d) then Some(d) else None
  }

  /** The format is a function of the calendar components alone: the `Z` is a literal,
      so a local or unspecified value is printed without any time-zone shift. */
  lemma FormatIgnoresKind(dt: DateTime, k: DateTimeKind)
    ensures ToFormattedDateTime(dt.(kind := k)) == ToFormattedDateTime(dt)
  {
  }

  /** Each field of the output is its component zero-padded to the field's width. */
  lemma FormattedFields(dt: DateTime)
    ensures var s := ToFormattedDateTime(dt);
      && s[0..4] == Pad(dt.year, 4, 10) && s[5..7] == Pad(dt.month, 2, 10)
      && s[8..10] == Pad(dt.day, 2, 10) && s[11..13] == Pad(dt.hour, 2, 10)
      && s[14..16] == Pad(dt.minute, 2, 10) && s[17..19] == Pad(dt.second, 2, 10)
      && s[20..27] == Pad(dt.fraction, 7, 10)
  {
    LayoutSlices(Pad(dt.year, 4, 10), Pad(dt.month, 2, 10), Pad(dt.day, 2, 10), Pad(dt.hour, 2, 10),
                 Pad(dt.minute, 2, 10), Pad(dt.second, 2, 10), Pad(dt.fraction, 7, 10));
  }

  lemma PowersOfTen()
    ensures Pow(10, 2) == 100 && Pow(10, 4) == 10_000 && Pow(10, 7) == 10_000_000
  {
    assert Pow(10, 2) == 100;
    assert Pow(10, 4) == 10_000;
  }

  /** Each field sits at its fixed offset, zero-padded to its width, so its value can
      be read back. */
  lemma {:induction false} FieldsAtFixedOffsets(dt: DateTime)
    ensures var s := ToFormattedDateTime(dt);
      && ValueOf(s[0..4], 10) == dt.year && ValueOf(s[5..7], 10) == dt.month
      && ValueOf(s[8..10], 10) == dt.day && ValueOf(s[11..13], 10) == dt.hour
      && ValueOf(s[14..16], 10) == dt.minute && ValueOf(s[17..19], 10) == dt.second
      && ValueOf(s[20..27], 10) == dt.fraction
  {
    FormattedFields(dt);
    PowersOfTen();
    ValueOfPad(dt.year, 4, 10);
    ValueOfPad(dt.month, 2, 10);
    ValueOfPad(dt.day, 2, 10);
    ValueOfPad(dt.hour, 2, 10);
    ValueOfPad(dt.minute, 2, 10);
    ValueOfPad(dt.second, 2, 10);
    ValueOfPad(dt.fraction, 7, 10);
  }

  /** Parsing the formatted string recovers every component. */
  lemma ParseFormatRoundTrip(dt: DateTime)
    ensures ParseFormattedDateTime(ToFormattedDateTime(dt)) == Some(dt.(kind := Utc))
  {
    FieldsAtFixedOffsets(dt);
  }

  /** Two strings of the layout that agree on every field are equal. */
  lemma SameFields(s: string, t: string)
    requires SeparatorsAt(s) && SeparatorsAt(t)
    requires t[0..4] == s[0..4] && t[5..7] == s[5..7] && t[8..10] == s[8..10]
    requires t[11..13] == s[11..13] && t[14..16] == s[14..16] && t[17..19] == s[17..19]
    requires t[20..27] == s[20..27]
    ensures s == t
  {
    forall i | 0 <= i < 28 ensures t[i] == s[i] {
      if i < 4 { assert t[i] == t[0..4][i]; }
      else if 4 < i < 7 { assert t[i] == t[5..7][i - 5]; }
      else if 7 < i < 10 { assert t[i] == t[8..10][i - 8]; }
      else if 10 < i < 13 { assert t[i] == t[11..13][i - 11]; }
      else if 13 < i < 16 { assert t[i] == t[14..16][i - 14]; }
      else if 16 < i < 19 { assert t[i] == t[17..19][i - 17]; }
      else if 19 < i < 27 { assert t[i] == t[20..27][i - 20]; }
    }
  }

  /** Formatting a parsed string gives the string back: the format is canonical. */
  lemma {:induction false} FormatParseRoundTrip(s: string)
    requires ParseFormattedDateTime(s).Some?
    ensures ToFormattedDateTime(ParseFormattedDateTime(s).value) == s
  {
    var dt := ParseFormattedDateTime(s).value;
    FormattedFields(dt);
    PadValueOf(s[0..4], 10);
    PadValueOf(s[5..7], 10);
    PadValueOf(s[8..10], 10);
    PadValueOf(s[11..13], 10);
    PadValueOf(s[14..16], 10);
    PadValueOf(s[17..19], 10);
    PadValueOf(s[20..27], 10);
    SameFields(s, ToFormattedDateTime(dt));
  }

  /** The formatter is injective on calendar components. */
  lemma FormatInjective(a: DateTime, b: DateTime)
    requires ToFormattedDateTime(a) == ToFormattedDateTime(b)
    ensures a.(kind := Utc) == b.(kind := Utc)
  {
    ParseFormatRoundTrip(a);
    ParseFormatRoundTrip(b);
  }

  lemma PadZeros()
    ensures Pad(0, 1, 10) == "0" && Pad(0, 2, 10) == "00" && Pad(0, 7, 10) == "0000000"
  {
    assert Pad(0, 1, 10) == "0";
    assert Pad(0, 2, 10) == "00";
    assert Pad(0, 3, 10) == "000";
    assert Pad(0, 4, 10) == "0000";
    assert Pad(0, 5, 10) == "00000";
    assert Pad(0, 6, 10) == "000000";
  }

  lemma PadYear2021()
    ensures Pad(2021, 4, 10) == "2021" && Pad(6, 2, 10) == "06"
  {
    assert Pad(2, 1, 10) == "2";
    assert Pad(20, 2, 10) == "20";
    assert Pad(202, 3, 10) == "202";
  }

  /** The date of the unit test: 2021-06-06 at midnight, "2021-06-06T00:00:00.0000000Z". */
  lemma FormatExampleDate()
    ensures ToFormattedDateTime(Moment(2021, 6, 6, 0, 0, 0, 0, Unspecified))
         == "2021" + "-" + "06" + "-" + "06" + "T" + "00" + ":" + "00" + ":" + "00" + "." + "0000000" + "Z"
  {
    PadZeros();
    PadYear2021();
  }

  /** `DateTime.MinValue` formats as "0001-01-01T00:00:00.0000000Z". */
  lemma PadOnes()
    ensures Pad(1, 2, 10) == "01" && Pad(1, 4, 10) == "0001"
  {
    assert Pad(1, 1, 10) == "1";
    assert Pad(1, 3, 10) == "001";
  }

  lemma FormatExampleMinValue()
    ensures ToFormattedDateTime(MinValue)
         == "0001" + "-" + "01" + "-" + "01" + "T" + "00" + ":" + "00" + ":" + "00" + "." + "0000000" + "Z"
  {
    PadZeros();
    PadOnes();
  }

  lemma PadNines()
    ensures Pad(9999, 4, 10) == "9999" && Pad(9_999_999, 7, 10) == "9999999"
  {
    assert Pad(9, 1, 10) == "9";
    assert Pad(99, 2, 10) == "99";
    assert Pad(999, 3, 10) == "999";
    assert Pad(9999, 4, 10) == "9999";
    assert Pad(99999, 5, 10) == "99999";
    assert Pad(999999, 6, 10) == "999999";
  }

  lemma PadMaxTime()
    ensures Pad(12, 2, 10) == "12" && Pad(31, 2, 10) == "31"
    ensures Pad(23, 2, 10) == "23" && Pad(59, 2, 10) == "59"
  {
  }

  /** `DateTime.MaxValue` formats as "9999-12-31T23:59:59.9999999Z". */
  lemma FormatExampleMaxValue()
    ensures ToFormattedDateTime(MaxValue)
         == "9999" + "-" + "12" + "-" + "31" + "T" + "23" + ":" + "59" + ":" + "59" + "." + "9999999" + "Z"
  {
    PadNines();
    PadMaxTime();
  }
}
