/**
 * The Python values that appear in a decoded FIT record and in the documents built
 * from it: None, bool, int, float (with NaN and the infinities), str and naive
 * `datetime.datetime`, together with `datetime.isoformat()`.
 */
module Values {
  import opened Text
  import opened Wrappers

  /** A Python float. Python ints are embedded as `Finite` where they meet a float. */
  datatype Float = Finite(r: real) | NaN | PosInf | NegInf

  datatype DateTimeFields = DateTimeFields(
    year: nat, month: nat, day: nat,
    hour: nat, minute: nat, second: nat, microsecond: nat)

  predicate IsLeapYear(y: nat) {
    y % 4 == 0 && (y % 100 != 0 || y % 400 == 0)
  }

  function DaysInMonth(y: nat, m: nat): nat
    requires 1 <= m <= 12
  {
    if m == 2 then (if IsLeapYear(y) then 29 else 28)
    else if m == 4 || m == 6 || m == 9 || m == 11 then 30
    else 31
  }

  /** The field ranges `datetime.datetime` enforces on construction. */
  predicate ValidDateTime(d: DateTimeFields) {
    && 1 <= d.year <= 9999
    && 1 <= d.month <= 12
    && 1 <= d.day <= DaysInMonth(d.year, d.month)
    && d.hour < 24 && d.minute < 60 && d.second < 60
    && d.microsecond < 1000000
  }

  /** A naive `datetime.datetime` (the decoder produces timestamps without tzinfo). */
  type DateTime = d: DateTimeFields | ValidDateTime(d) witness DateTimeFields(1, 1, 1, 0, 0, 0, 0)

  /** The `YYYY-MM-DDTHH:MM:SS` part of `datetime.isoformat()`. */
  function DateTimePart(d: DateTime): (s: string)
    ensures |s| == 19
  {
    ZeroPadded(d.year, 4) + "-" + ZeroPadded(d.month, 2) + "-" + ZeroPadded(d.day, 2)
    + "T" + ZeroPadded(d.hour, 2) + ":" + ZeroPadded(d.minute, 2) + ":" + ZeroPadded(d.second, 2)
  }

  /** `datetime.isoformat()`: `YYYY-MM-DDTHH:MM:SS`, plus `.ffffff` when microseconds are non-zero. */
  function IsoFormat(d: DateTime): (s: string)
    ensures |s| == if d.microsecond == 0 then 19 else 26
  {
    DateTimePart(d) + (if d.microsecond == 0 then "" else "." + ZeroPadded(d.microsecond, 6))
  }

  /** The digit field `s[lo..hi]`, read as a number. */
  function Field(s: string, lo: nat, hi: nat): Option<nat>
    requires lo <= hi <= |s|
  {
    if AllDigits(s[lo..hi]) then Some(ReadDecimal(s[lo..hi])) else None
  }

  /** Reads back what `IsoFormat` writes; anything else is rejected. */
  function ParseIso(s: string): Option<DateTime> {
    if !(|s| == 19 || (|s| == 26 && s[19] == '.')) then None
    else if !(s[4] == '-' && s[7] == '-' && s[10] == 'T' && s[13] == ':' && s[16] == ':') then None
    else
      var y, mo, da := Field(s, 0, 4), Field(s, 5, 7), Field(s, 8, 10);
      var h, mi, se := Field(s, 11, 13), Field(s, 14, 16), Field(s, 17, 19);
      var us := if |s| == 26 then Field(s, 20, 26) else Some(0);
      if y.None? || mo.None? || da.None? || h.None? || mi.None? || se.None? || us.None? then None
      else if |s| == 26 && us.value == 0 then None
      else
        var d := DateTimeFields(y.value, mo.value, da.value, h.value, mi.value, se.value, us.value);
        if ValidDateTime(d) then Some(d) else None
  }

  lemma FieldOfPadded(s: string, lo: nat, n: nat, width: nat)
    requires n < Pow10(width)
    requires lo + width <= |s| && s[lo..lo + width] == ZeroPadded(n, width)
    ensures Field(s, lo, lo + width) == Some(n)
  {
    ReadZeroPadded(n, width);
  }

  lemma DateTimePartFields(d: DateTime, s: string)
    requires |s| >= 19 && s[..19] == DateTimePart(d)
    ensures s[4] == '-' && s[7] == '-' && s[10] == 'T' && s[13] == ':' && s[16] == ':'
    ensures Field(s, 0, 4) == Some(d.year) && Field(s, 5, 7) == Some(d.month)
    ensures Field(s, 8, 10) == Some(d.day) && Field(s, 11, 13) == Some(d.hour)
    ensures Field(s, 14, 16) == Some(d.minute) && Field(s, 17, 19) == Some(d.second)
  {
    var p := DateTimePart(d);
    assert p[0..4] == ZeroPadded(d.year, 4);
    assert p[5..7] == ZeroPadded(d.month, 2);
    assert p[8..10] == ZeroPadded(d.day, 2);
    assert p[11..13] == ZeroPadded(d.hour, 2);
    assert p[14..16] == ZeroPadded(d.minute, 2);
    assert p[17..19] == ZeroPadded(d.second, 2);
    assert p[4] == '-' && p[7] == '-' && p[10] == 'T' && p[13] == ':' && p[16] == ':';
    assert s[0..4] == p[0..4];
    assert s[5..7] == p[5..7];
    assert s[8..10] == p[8..10];
    assert s[11..13] == p[11..13];
    assert s[14..16] == p[14..16];
    assert s[17..19] == p[17..19];
    FieldOfPadded(s, 0, d.year, 4);
    FieldOfPadded(s, 5, d.month, 2);
    FieldOfPadded(s, 8, d.day, 2);
    FieldOfPadded(s, 11, d.hour, 2);
    FieldOfPadded(s, 14, d.minute, 2);
    FieldOfPadded(s, 17, d.second, 2);
  }

  /** `ParseIso` accepts any string with the separators and fields of `d`. */
  lemma ParseIsoOfFields(s: string, d: DateTime)
    requires |s| == 19 || (|s| == 26 && s[19] == '.')
    requires s[4] == '-' && s[7] == '-' && s[10] == 'T' && s[13] == ':' && s[16] == ':'
    requires Field(s, 0, 4) == Some(d.year) && Field(s, 5, 7) == Some(d.month)
    requires Field(s, 8, 10) == Some(d.day) && Field(s, 11, 13) == Some(d.hour)
    requires Field(s, 14, 16) == Some(d.minute) && Field(s, 17, 19) == Some(d.second)
    requires |s| == 19 ==> d.microsecond == 0
    requires |s| == 26 ==> d.microsecond != 0 && Field(s, 20, 26) == Some(d.microsecond)
    ensures ParseIso(s) == Some(d)
  {
    assert DateTimeFields(d.year, d.month, d.day, d.hour, d.minute, d.second, d.microsecond) == d;
  }

  /** The microsecond field of `isoformat`, when there is one. */
  lemma MicrosecondField(d: DateTime)
    requires d.microsecond != 0
    ensures var s := IsoFormat(d); s[19] == '.' && Field(s, 20, 26) == Some(d.microsecond)
  {
    var s := IsoFormat(d);
    assert s[19] == '.';
    assert s[20..26] == ZeroPadded(d.microsecond, 6);
    FieldOfPadded(s, 20, d.microsecond, 6);
  }

  /** `isoformat` loses nothing: the string reads back as the same datetime. */
  lemma IsoFormatRoundTrip(d: DateTime)
    ensures ParseIso(IsoFormat(d)) == Some(d)
  {
    var s := IsoFormat(d);
    assert s[..19] == DateTimePart(d);
    DateTimePartFields(d, s);
    if d.microsecond != 0 {
      MicrosecondField(d);
    }
    ParseIsoOfFields(s, d);
  }

  lemma IsoFormatInjective(d: DateTime, e: DateTime)
    requires IsoFormat(d) == IsoFormat(e)
    ensures d == e
  {
    IsoFormatRoundTrip(d);
    IsoFormatRoundTrip(e);
  }

  /** One value of a record or document. */
  datatype Value =
    | NoneValue
    | BoolValue(b: bool)
    | IntValue(i: int)
    | FloatValue(f: Float)
    | StrValue(s: string)
    | DateTimeValue(dt: DateTime)

  /** A flat Python dict of field name to value; key order is not modelled. */
  type Record = map<string, Value>
}
