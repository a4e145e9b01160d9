/** The date-time strings of the pass format: the W3C "Date and Time Formats"
    profile of ISO 8601 as the library accepts and writes it. A grammar check,
    an encoder that writes local time with an explicit numeric UTC offset and no
    seconds, and a decoder that rebuilds the instant by offset arithmetic. */
module W3CDate {
  import opened JsValues

  // ------------------------------------------------------------ characters

  predicate IsDigit(c: char) {
    '0' <= c <= '9'
  }

  function DigitValue(c: char): (n: int)
    requires IsDigit(c)
    ensures 0 <= n <= 9
  {
    c as int - '0' as int
  }

  function Digit(n: int): (c: char)
    requires 0 <= n <= 9
    ensures IsDigit(c) && DigitValue(c) == n
  {
    ('0' as int + n) as char
  }

  // --------------------------------------------------------------- grammar

  /** `20\d{2}-[01]\d-[0-3]\dT[0-5]\d:[0-5]\d`, the first sixteen characters. */
  predicate DateTimePrefix(s: string)
    requires |s| >= 16
  {
    && s[0] == '2' && s[1] == '0' && IsDigit(s[2]) && IsDigit(s[3]) && s[4] == '-'
    && '0' <= s[5] <= '1' && IsDigit(s[6]) && s[7] == '-'
    && '0' <= s[8] <= '3' && IsDigit(s[9]) && s[10] == 'T'
    && '0' <= s[11] <= '5' && IsDigit(s[12]) && s[13] == ':'
    && '0' <= s[14] <= '5' && IsDigit(s[15])
  }

  /** `[+-][01]\d:[03]0$` starting at index `i` of `s`. */
  predicate NumericOffsetAt(s: string, i: nat) {
    && |s| == i + 6
    && (s[i] == '+' || s[i] == '-')
    && '0' <= s[i + 1] <= '1' && IsDigit(s[i + 2]) && s[i + 3] == ':'
    && (s[i + 4] == '0' || s[i + 4] == '3') && s[i + 5] == '0'
  }

  /** `Z|([+-][01]\d:[03]0)$` starting at index `i`: only the numeric
      alternative is anchored at the end of the string, so anything may follow
      a `Z`. */
  predicate ZoneSuffixAt(s: string, i: nat) {
    (|s| > i && s[i] == 'Z') || NumericOffsetAt(s, i)
  }

  /** The regular expression of isValidW3CDateString, with its optional
      seconds group tried first and then skipped. */
  predicate IsValidW3CString(s: string) {
    && |s| >= 16
    && DateTimePrefix(s)
    && ((|s| >= 19 && s[16] == ':' && '0' <= s[17] <= '5' && IsDigit(s[18]) && ZoneSuffixAt(s, 19))
        || ZoneSuffixAt(s, 16))
  }

  /** isValidW3CDateString: false for anything that is not a string. */
  predicate IsValidW3CDateString(v: Value) {
    v.Str? && IsValidW3CString(v.s)
  }

  // ------------------------------------------------------ number formatting

  /** The decimal digits of a natural number. */
  function NatToString(n: nat): (s: string)
    ensures |s| >= 1
    ensures forall i :: 0 <= i < |s| ==> IsDigit(s[i])
    decreases n
  {
    if n < 10 then [Digit(n)] else NatToString(n / 10) + [Digit(n % 10)]
  }

  /** `n.toFixed()` and `${n}` for an integer n. */
  function IntToString(n: int): string {
    if n < 0 then "-" + NatToString(-n) else NatToString(n)
  }

  /** `s.padStart(2, '0')` */
  function PadStart2(s: string): string {
    if |s| >= 2 then s else seq(2 - |s|, _ => '0') + s
  }

  function Pad2(n: int): string {
    PadStart2(IntToString(n))
  }

  function Abs(n: int): nat {
    if n < 0 then -n else n
  }

  lemma Pad2Digits(n: int)
    requires 0 <= n <= 99
    ensures Pad2(n) == [Digit(n / 10), Digit(n % 10)]
  {
    if n >= 10 {
      assert NatToString(n) == NatToString(n / 10) + [Digit(n % 10)];
    }
  }

  lemma YearDigits(y: int)
    requires 2000 <= y <= 2099
    ensures IntToString(y) == ['2', '0', Digit((y - 2000) / 10), Digit(y % 10)]
  {
    assert NatToString(y / 100) == ['2', '0'] by {
      assert y / 100 == 20;
      assert NatToString(20) == NatToString(2) + [Digit(0)];
    }
    assert (y / 10) / 10 == y / 100 && (y / 10) % 10 == (y - 2000) / 10;
    assert NatToString(y / 10) == NatToString(y / 100) + [Digit((y / 10) % 10)];
  }

  // ---------------------------------------------------------------- encoder

  /** What a Date's local-time getters report: getFullYear, getMonth (0-11),
      getDate, getHours, getMinutes, and the offset `-getTimezoneOffset()` in
      minutes east of UTC. */
  datatype LocalTime = LocalTime(year: int, month: int, day: int, hours: int, minutes: int, offset: int)

  /** The host environment: `new Date(v)` for a value that is not a Date (string
      parsing and number conversion), and the local-time view of an instant. */
  datatype Host = Host(dateOf: Value -> JsDate, local: int -> LocalTime)

  /** The zone designator exactly as written: the hours come from
      `Math.abs(Math.floor(offset / 60))` (Dafny's `/` by a positive divisor is
      floor division) and the minutes from `Math.abs(offset) - hours * 60`. */
  function ZoneAsWritten(offset: int): string {
    var hours := Abs(offset / 60);
    var minutes := Abs(offset) - hours * 60;
    (if offset < 0 then "-" else "+") + Pad2(hours) + ":" + Pad2(minutes)
  }

  /** The zone designator as intended: hours and minutes of `|offset|`. */
  function Zone(offset: int): string {
    var hours := Abs(offset) / 60;
    var minutes := Abs(offset) % 60;
    (if offset < 0 then "-" else "+") + Pad2(hours) + ":" + Pad2(minutes)
  }

  /** `YYYY-MM-DDTHH:MM` followed by a zone designator; no seconds. */
  function FormatLocal(lt: LocalTime, zone: string): string {
    IntToString(lt.year) + "-" + Pad2(1 + lt.month) + "-" + Pad2(lt.day)
    + "T" + Pad2(lt.hours) + ":" + Pad2(lt.minutes) + zone
  }

  /** The encoder of dist/lib/w3cdate.js as written. */
  function EncodeLocalAsWritten(lt: LocalTime): string {
    FormatLocal(lt, ZoneAsWritten(lt.offset))
  }

  /** The encoder with the zone designator corrected. */
  function EncodeLocal(lt: LocalTime): string {
    FormatLocal(lt, Zone(lt.offset))
  }

  /** What the encoder writes for an invalid Date: every getter gives NaN. */
  const INVALID_DATE_STRING: string := "NaN-NaN-NaNTNaN:NaN+NaN:NaN"

  function EncodeDate(d: JsDate, host: Host): string {
    match d
    case InvalidDate => INVALID_DATE_STRING
    case DateAt(ms) => EncodeLocalAsWritten(host.local(ms))
  }

  /** getW3CDateString: a valid W3C string is returned unchanged, any other
      string goes through `new Date(string)`, a Date is written in local time,
      and anything else throws a TypeError. */
  function GetW3CDateString(v: Value, host: Host): (r: Result<string>)
    ensures r.Err? <==> !(v.Str? || v.DateV?)
    ensures r.Err? ==> r.error.kind == TypeError
    ensures IsValidW3CDateString(v) ==> r == Ok(v.s)
  {
    if !(v.Str? || v.DateV?) then Err(Exception(TypeError, "value"))
    else if IsValidW3CDateString(v) then Ok(v.s)
    else
      var date := if v.DateV? then v.d else host.dateOf(v);
      Ok(EncodeDate(date, host))
  }

  // ---------------------------------------------------------------- decoder

  /** Days from 1970-01-01 to the given proleptic Gregorian date (month 1-12),
      the day count ECMAScript's MakeDay uses. */
  function DaysFromCivil(y: int, m: int, d: int): int
    requires 1 <= m <= 12
  {
    var y' := if m <= 2 then y - 1 else y;
    var era := y' / 400;
    var yoe := y' - era * 400;
    var mp := if m > 2 then m - 3 else m + 9;
    var doy := (153 * mp + 2) / 5 + d - 1;
    var doe := yoe * 365 + yoe / 4 - yoe / 100 + doy;
    era * 146097 + doe - 719468
  }

  const MS_PER_MINUTE: int := 60_000
  const MS_PER_DAY: int := 86_400_000

  /** Date.UTC(year, month, day, hours, minutes) before TimeClip: a year in
      0..99 means 1900 + year, and an out-of-range month carries into the year. */
  function MakeUtc(year: int, month: int, day: int, hours: int, minutes: int): int {
    var y := if 0 <= year <= 99 then 1900 + year else year;
    var days := DaysFromCivil(y + month / 12, month % 12 + 1, 1) + day - 1;
    days * MS_PER_DAY + hours * 3_600_000 + minutes * MS_PER_MINUTE
  }

  /** `^(\d{4})-(\d{2})-(\d{2})T(\d{2}):(\d{2})([+-])(\d{2}):(\d{2})`, the
      decoder's second regular expression. */
  predicate OffsetForm(s: string) {
    && |s| >= 22
    && IsDigit(s[0]) && IsDigit(s[1]) && IsDigit(s[2]) && IsDigit(s[3]) && s[4] == '-'
    && IsDigit(s[5]) && IsDigit(s[6]) && s[7] == '-'
    && IsDigit(s[8]) && IsDigit(s[9]) && s[10] == 'T'
    && IsDigit(s[11]) && IsDigit(s[12]) && s[13] == ':'
    && IsDigit(s[14]) && IsDigit(s[15])
    && (s[16] == '+' || s[16] == '-')
    && IsDigit(s[17]) && IsDigit(s[18]) && s[19] == ':'
    && IsDigit(s[20]) && IsDigit(s[21])
  }

  function Two(a: char, b: char): int
    requires IsDigit(a) && IsDigit(b)
  {
    10 * DigitValue(a) + DigitValue(b)
  }

  /** The named groups of the decoder's second regular expression, as the
      numbers parseInt reads from them; `west` is a sign other than `+`. */
  datatype OffsetFields = OffsetFields(year: int, month: int, day: int, hours: int, minutes: int,
                                       west: bool, offsetMinutes: int)

  function ReadOffsetForm(s: string): OffsetFields
    requires OffsetForm(s)
  {
    OffsetFields(100 * Two(s[0], s[1]) + Two(s[2], s[3]), Two(s[5], s[6]), Two(s[8], s[9]),
                 Two(s[11], s[12]), Two(s[14], s[15]), s[16] != '+', Two(s[17], s[18]) * 60 + Two(s[20], s[21]))
  }

  /** Date.UTC of the fields (month 1-12), clipped, then moved by the offset:
      later for a zone west of UTC, earlier for one east of it. */
  function InstantOf(f: OffsetFields): JsDate {
    match TimeClip(MakeUtc(f.year, f.month - 1, f.day, f.hours, f.minutes))
    case InvalidDate => InvalidDate
    case DateAt(ms) => TimeClip(if f.west then ms + f.offsetMinutes * MS_PER_MINUTE else ms - f.offsetMinutes * MS_PER_MINUTE)
  }

  /** The instant a string in OffsetForm denotes. */
  function OffsetFormInstant(s: string): JsDate
    requires OffsetForm(s)
  {
    InstantOf(ReadOffsetForm(s))
  }

  /** getDateFromW3CString: a TypeError unless the value passes the grammar
      AND carries an explicit numeric offset right after the minutes. */
  function GetDateFromW3CString(v: Value): (r: Result<JsDate>)
    ensures r.Err? ==> r.error.kind == TypeError
    ensures r.Ok? ==> IsValidW3CDateString(v) && OffsetForm(v.s)
  {
    if !IsValidW3CDateString(v) then Err(Exception(TypeError, "value"))
    else if !OffsetForm(v.s) then Err(Exception(TypeError, "value"))
    else Ok(OffsetFormInstant(v.s))
  }

  /** Among valid W3C strings the decoder rejects exactly those without a
      numeric offset after the minutes: a `Z`, or seconds. */
  lemma DecoderAcceptsExactlyNumericOffsets(s: string)
    requires IsValidW3CString(s)
    ensures GetDateFromW3CString(Str(s)).Ok? <==> (s[16] == '+' || s[16] == '-')
  {
    if s[16] == '+' || s[16] == '-' {
      assert NumericOffsetAt(s, 16);
    }
  }

  /** The decoded instant is the UTC reading of the fields minus the signed
      offset: `+hh:mm` moves the instant earlier, `-hh:mm` later. */
  lemma DecodedInstant(s: string)
    requires GetDateFromW3CString(Str(s)).Ok?
    requires GetDateFromW3CString(Str(s)).value.DateAt?
    ensures var fields := MakeUtc(2000 + Two(s[2], s[3]), Two(s[5], s[6]) - 1, Two(s[8], s[9]), Two(s[11], s[12]), Two(s[14], s[15]));
            var offset := (if s[16] == '-' then -1 else 1) * (Two(s[17], s[18]) * 60 + Two(s[20], s[21]));
            GetDateFromW3CString(Str(s)).value.ms == fields - offset * MS_PER_MINUTE
  {
    assert Two(s[0], s[1]) == 20;
  }

  // -------------------------------------------------------- the round trip

  /** Local components whose date and time the encoder writes in the
      grammar's form: years 2000 to 2099 and a zone offset under twenty hours. */
  predicate InRange(lt: LocalTime) {
    && 2000 <= lt.year <= 2099
    && 0 <= lt.month <= 11
    && 1 <= lt.day <= 31
    && 0 <= lt.hours <= 23
    && 0 <= lt.minutes <= 59
    && Abs(lt.offset) < 20 * 60
  }

  /** Local components the encoder writes as a valid W3C string: in range,
      and a zone offset that is a whole or half hour. */
  predicate Encodable(lt: LocalTime) {
    InRange(lt) && Abs(lt.offset) % 30 == 0
  }

  /** The host's local components of instant `ms` agree with the instant: read
      as a UTC wall-clock time and shifted back by the offset, they give the
      instant truncated to the minute. */
  ghost predicate LocalTimeAgrees(ms: int, lt: LocalTime) {
    MakeUtc(lt.year, lt.month, lt.day, lt.hours, lt.minutes) - lt.offset * MS_PER_MINUTE == ms - ms % MS_PER_MINUTE
  }

  lemma ZoneChars(offset: int)
    requires Abs(offset) < 100 * 60
    ensures var hours := Abs(offset) / 60;
            var minutes := Abs(offset) % 60;
            Zone(offset) == [if offset < 0 then '-' else '+', Digit(hours / 10), Digit(hours % 10), ':',
                             Digit(minutes / 10), Digit(minutes % 10)]
  {
    Pad2Digits(Abs(offset) / 60);
    Pad2Digits(Abs(offset) % 60);
  }

  lemma ConcatChars(a0: char, a1: char, a2: char, a3: char, m0: char, m1: char, d0: char, d1: char,
                    h0: char, h1: char, i0: char, i1: char, z: string)
    requires |z| == 6
    ensures [a0, a1, a2, a3] + "-" + [m0, m1] + "-" + [d0, d1] + "T" + [h0, h1] + ":" + [i0, i1] + z
         == [a0, a1, a2, a3, '-', m0, m1, '-', d0, d1, 'T', h0, h1, ':', i0, i1, z[0], z[1], z[2], z[3], z[4], z[5]]
  {
  }

  /** The 22 characters `20YY-MM-DDTHH:MM±hh:mm` for two-digit fields. */
  function Layout(yy: int, month: int, day: int, hours: int, minutes: int, negative: bool, oh: int, om: int): string
    requires 0 <= yy <= 99 && 0 <= month <= 99 && 0 <= day <= 99 && 0 <= hours <= 99
    requires 0 <= minutes <= 99 && 0 <= oh <= 99 && 0 <= om <= 99
  {
    [ '2', '0', Digit(yy / 10), Digit(yy % 10), '-',
      Digit(month / 10), Digit(month % 10), '-',
      Digit(day / 10), Digit(day % 10), 'T',
      Digit(hours / 10), Digit(hours % 10), ':',
      Digit(minutes / 10), Digit(minutes % 10),
      if negative then '-' else '+', Digit(oh / 10), Digit(oh % 10), ':',
      Digit(om / 10), Digit(om % 10) ]
  }

  /** The layout passes the grammar when each field is in the range the
      grammar allows and the offset is a whole or half hour under twenty
      hours. */
  lemma LayoutValid(year: int, month: int, day: int, hours: int, minutes: int, west: bool, offsetMinutes: int)
    requires 2000 <= year <= 2099 && 0 <= month <= 19 && 0 <= day <= 39 && 0 <= hours <= 59
    requires 0 <= minutes <= 59 && 0 <= offsetMinutes < 20 * 60 && offsetMinutes % 30 == 0
    ensures IsValidW3CString(Layout(year - 2000, month, day, hours, minutes, west, offsetMinutes / 60, offsetMinutes % 60))
  {
    OffsetSplit(offsetMinutes);
    LayoutPrefix(year - 2000, month, day, hours, minutes, west, offsetMinutes / 60, offsetMinutes % 60);
    LayoutSuffix(year - 2000, month, day, hours, minutes, west, offsetMinutes / 60, offsetMinutes % 60);
  }

  lemma LayoutPrefix(yy: int, month: int, day: int, hours: int, minutes: int, negative: bool, oh: int, om: int)
    requires 0 <= yy <= 99 && 0 <= month <= 19 && 0 <= day <= 39 && 0 <= hours <= 59
    requires 0 <= minutes <= 59 && 0 <= oh <= 19 && (om == 0 || om == 30)
    ensures DateTimePrefix(Layout(yy, month, day, hours, minutes, negative, oh, om))
  {
  }

  lemma LayoutSuffix(yy: int, month: int, day: int, hours: int, minutes: int, negative: bool, oh: int, om: int)
    requires 0 <= yy <= 99 && 0 <= month <= 19 && 0 <= day <= 39 && 0 <= hours <= 59
    requires 0 <= minutes <= 59 && 0 <= oh <= 19 && (om == 0 || om == 30)
    ensures var s := Layout(yy, month, day, hours, minutes, negative, oh, om);
            s[16] != ':' && NumericOffsetAt(s, 16)
  {
  }

  /** The characters the encoder writes. */
  lemma EncodeLocalChars(lt: LocalTime)
    requires Encodable(lt)
    ensures EncodeLocal(lt) == Layout(lt.year - 2000, lt.month + 1, lt.day, lt.hours, lt.minutes,
                                      lt.offset < 0, Abs(lt.offset) / 60, Abs(lt.offset) % 60)
  {
    YearDigits(lt.year);
    Pad2Digits(1 + lt.month);
    Pad2Digits(lt.day);
    Pad2Digits(lt.hours);
    Pad2Digits(lt.minutes);
    ZoneChars(lt.offset);
    assert (lt.year - 2000) % 10 == lt.year % 10;
    ConcatChars('2', '0', Digit((lt.year - 2000) / 10), Digit(lt.year % 10),
                Digit((lt.month + 1) / 10), Digit((lt.month + 1) % 10),
                Digit(lt.day / 10), Digit(lt.day % 10), Digit(lt.hours / 10), Digit(lt.hours % 10),
                Digit(lt.minutes / 10), Digit(lt.minutes % 10), Zone(lt.offset));
  }

  /** A whole- or half-hour offset under twenty hours splits into hours and
      minutes the grammar accepts. */
  lemma OffsetSplit(a: int)
    requires 0 <= a < 20 * 60 && a % 30 == 0
    ensures a / 60 <= 19 && (a % 60 == 0 || a % 60 == 30)
  {
  }

  lemma DigitPair(n: int)
    requires 0 <= n <= 99
    ensures Two(Digit(n / 10), Digit(n % 10)) == n
  {
  }

  lemma MakeUtcBounds(year: int, month: int, day: int, hours: int, minutes: int)
    requires 2000 <= year <= 2099 && 0 <= month <= 11 && 1 <= day <= 39
    requires 0 <= hours <= 59 && 0 <= minutes <= 59
    ensures 0 <= MakeUtc(year, month, day, hours, minutes) <= 5_000_000_000_000
  {
    var y' := if month + 1 <= 2 then year - 1 else year;
    assert 4 <= y' / 400 <= 5;
  }

  /** The decoder reads back from a layout the fields it was made from. */
  lemma LayoutRead(year: int, month: int, day: int, hours: int, minutes: int, west: bool, offsetMinutes: int)
    requires 2000 <= year <= 2099 && 0 <= month <= 99 && 0 <= day <= 99 && 0 <= hours <= 99
    requires 0 <= minutes <= 99 && 0 <= offsetMinutes < 100 * 60
    ensures var s := Layout(year - 2000, month, day, hours, minutes, west, offsetMinutes / 60, offsetMinutes % 60);
            && OffsetForm(s)
            && ReadOffsetForm(s) == OffsetFields(year, month, day, hours, minutes, west, offsetMinutes)
  {
    DigitPair(year - 2000);
    DigitPair(month);
    DigitPair(day);
    DigitPair(hours);
    DigitPair(minutes);
    DigitPair(offsetMinutes / 60);
    DigitPair(offsetMinutes % 60);
    assert offsetMinutes / 60 * 60 + offsetMinutes % 60 == offsetMinutes;
  }

  /** The fields of an encodable local time, with its offset, denote its
      instant. */
  lemma LocalInstant(lt: LocalTime)
    requires Encodable(lt)
    ensures InstantOf(OffsetFields(lt.year, lt.month + 1, lt.day, lt.hours, lt.minutes, lt.offset < 0, Abs(lt.offset)))
            == TimeClip(MakeUtc(lt.year, lt.month, lt.day, lt.hours, lt.minutes) - lt.offset * MS_PER_MINUTE)
  {
    MakeUtcBounds(lt.year, lt.month, lt.day, lt.hours, lt.minutes);
  }

  /** Every encodable local time is written as a valid W3C string. */
  lemma EncodeLocalValid(lt: LocalTime)
    requires Encodable(lt)
    ensures IsValidW3CString(EncodeLocal(lt))
  {
    EncodeLocalChars(lt);
    LayoutValid(lt.year, lt.month + 1, lt.day, lt.hours, lt.minutes, lt.offset < 0, Abs(lt.offset));
  }

  /** The decoder reads from the encoding of an encodable local time the
      instant its components describe, shifted back by the offset. */
  lemma EncodeLocalInstant(lt: LocalTime)
    requires Encodable(lt)
    ensures OffsetForm(EncodeLocal(lt))
    ensures OffsetFormInstant(EncodeLocal(lt))
         == TimeClip(MakeUtc(lt.year, lt.month, lt.day, lt.hours, lt.minutes) - lt.offset * MS_PER_MINUTE)
  {
    EncodeLocalChars(lt);
    LayoutRead(lt.year, lt.month + 1, lt.day, lt.hours, lt.minutes, lt.offset < 0, Abs(lt.offset));
    LocalInstant(lt);
  }

  /** The decoder accepts what the encoder writes for an encodable local
      time, and gives back the instant its components describe. */
  lemma DecodeEncodeLocal(lt: LocalTime)
    requires Encodable(lt)
    ensures GetDateFromW3CString(Str(EncodeLocal(lt)))
         == Ok(TimeClip(MakeUtc(lt.year, lt.month, lt.day, lt.hours, lt.minutes) - lt.offset * MS_PER_MINUTE))
  {
    EncodeLocalValid(lt);
    EncodeLocalInstant(lt);
  }

  /** For years 2000 to 2099 and whole- or half-hour offsets whose zone
      designator is written right, decoding the encoding of a Date gives back
      its instant truncated to the minute, provided the host's local time
      agrees with the instant. */
  lemma {:induction false} RoundTrip(ms: int, host: Host)
    requires Encodable(host.local(ms)) && ZoneWrittenRight(host.local(ms).offset)
    requires LocalTimeAgrees(ms, host.local(ms))
    ensures GetW3CDateString(DateV(DateAt(ms)), host).Ok?
    ensures GetDateFromW3CString(Str(GetW3CDateString(DateV(DateAt(ms)), host).value))
         == Ok(DateAt(ms - ms % MS_PER_MINUTE))
  {
    var lt := host.local(ms);
    EncodesLocal(ms, host);
    DecodeEncodeAsWritten(lt);
    AgreesClip(ms, lt);
  }

  /** The instant the local components agreeing with `ms` describe is `ms`
      truncated to the minute, within the range of a Date. */
  lemma AgreesClip(ms: int, lt: LocalTime)
    requires Encodable(lt) && LocalTimeAgrees(ms, lt)
    ensures TimeClip(MakeUtc(lt.year, lt.month, lt.day, lt.hours, lt.minutes) - lt.offset * MS_PER_MINUTE)
         == DateAt(ms - ms % MS_PER_MINUTE)
  {
    MakeUtcBounds(lt.year, lt.month, lt.day, lt.hours, lt.minutes);
    ClipTruncated(MakeUtc(lt.year, lt.month, lt.day, lt.hours, lt.minutes), lt.offset, ms);
  }

  /** A Date is written from the host's local components of its instant. */
  lemma EncodesLocal(ms: int, host: Host)
    ensures GetW3CDateString(DateV(DateAt(ms)), host) == Ok(EncodeLocalAsWritten(host.local(ms)))
  {
  }

  lemma ClipTruncated(utc: int, offset: int, ms: int)
    requires 0 <= utc <= 5_000_000_000_000 && Abs(offset) < 20 * 60
    requires utc - offset * MS_PER_MINUTE == ms - ms % MS_PER_MINUTE
    ensures TimeClip(utc - offset * MS_PER_MINUTE) == DateAt(ms - ms % MS_PER_MINUTE)
  {
  }

  /** The encoder is idempotent: what it writes for an encodable Date whose
      zone designator is written right is a valid W3C string, which it then
      returns unchanged. */
  lemma {:induction false} EncoderIdempotent(ms: int, host: Host)
    requires Encodable(host.local(ms)) && ZoneWrittenRight(host.local(ms).offset)
    ensures var s := GetW3CDateString(DateV(DateAt(ms)), host);
            s.Ok? && GetW3CDateString(Str(s.value), host) == s
  {
    DecodeEncodeAsWritten(host.local(ms));
  }

  // ------------------------------------------------- the zone designator bug

  /** The offsets whose zone designator the source writes right: east of UTC,
      or a whole number of hours west of it. */
  predicate ZoneWrittenRight(offset: int) {
    offset >= 0 || offset % 60 == 0
  }

  /** As written, the zone designator is right for offsets east of UTC and for
      whole-hour offsets. */
  lemma ZoneAsWrittenAgrees(offset: int)
    requires ZoneWrittenRight(offset)
    ensures ZoneAsWritten(offset) == Zone(offset)
  {
    if offset < 0 {
      assert offset / 60 == -(Abs(offset) / 60);
    }
  }

  /** West of UTC, a half-hour offset is written as a seven-character
      designator: a sign, the hours, a colon and three characters of minutes. */
  lemma ZoneAsWrittenHalfHourWest(offset: int)
    requires offset < 0 && Abs(offset) < 20 * 60 && offset % 60 == 30
    ensures |ZoneAsWritten(offset)| == 7 && ZoneAsWritten(offset)[0] == '-'
  {
    var h := offset / 60;
    assert -20 <= h < 0;
    assert Abs(offset) - Abs(h) * 60 == -30;
    Pad2Digits(Abs(h));
    assert NatToString(30) == NatToString(3) + [Digit(0)];
  }

  /** For a local time in range the decoder accepts what the encoder as
      written produces exactly when the offset is a whole or half hour and
      its zone designator is written right, and then gives back the instant
      the components describe. */
  lemma {:induction false} DecodeEncodeAsWritten(lt: LocalTime)
    requires InRange(lt)
    ensures GetDateFromW3CString(Str(EncodeLocalAsWritten(lt))).Ok? <==>
              Abs(lt.offset) % 30 == 0 && ZoneWrittenRight(lt.offset)
    ensures Abs(lt.offset) % 30 == 0 && ZoneWrittenRight(lt.offset) ==> IsValidW3CString(EncodeLocalAsWritten(lt))
    ensures Abs(lt.offset) % 30 == 0 && ZoneWrittenRight(lt.offset) ==>
              GetDateFromW3CString(Str(EncodeLocalAsWritten(lt)))
              == Ok(TimeClip(MakeUtc(lt.year, lt.month, lt.day, lt.hours, lt.minutes) - lt.offset * MS_PER_MINUTE))
  {
    if !Encodable(lt) {
      OffGridRejected(lt);
    } else if ZoneWrittenRight(lt.offset) {
      ZoneAsWrittenAgrees(lt.offset);
      EncodeLocalValid(lt);
      DecodeEncodeLocal(lt);
    } else {
      ZoneAsWrittenHalfHourWest(lt.offset);
      LongZoneRejected(lt, ZoneAsWritten(lt.offset));
    }
  }

  /** An offset that is not a whole or half hour is written with minutes the
      grammar does not allow: UTC+05:45 as `+05:45`, UTC-05:55 as `-06:-5`. */
  lemma ZoneAsWrittenOffGrid(offset: int)
    requires Abs(offset) < 20 * 60 && Abs(offset) % 30 != 0
    ensures var zone := ZoneAsWritten(offset);
      && |zone| >= 6 && (zone[0] == '+' || zone[0] == '-')
      && !(|zone| == 6 && (zone[4] == '0' || zone[4] == '3') && zone[5] == '0')
  {
    var h := Abs(offset / 60);
    var m := Abs(offset) - h * 60;
    if offset >= 0 {
      assert m == offset % 60 && 0 < m < 60 && m != 30;
      Pad2Digits(h);
      Pad2Digits(m);
    } else {
      assert -20 <= offset / 60 < 0;
      assert m == -(offset % 60) && m < 0;
      Pad2Digits(h);
      assert Pad2(m)[0] == '-';
    }
  }

  /** An offset that is not a whole or half hour makes the written string
      one the decoder rejects. */
  lemma OffGridRejected(lt: LocalTime)
    requires InRange(lt) && Abs(lt.offset) % 30 != 0
    ensures GetDateFromW3CString(Str(EncodeLocalAsWritten(lt))).Err?
  {
    var zone := ZoneAsWritten(lt.offset);
    ZoneAsWrittenOffGrid(lt.offset);
    FormatLocalZone(lt, zone);
    var s := FormatLocal(lt, zone);
    assert s[16] == zone[0];
    if |s| == 22 {
      assert s[20] == zone[4] && s[21] == zone[5];
    }
  }

  /** Nepal's UTC+05:45 is written `+05:45`, which the decoder rejects. */
  lemma QuarterHourZoneBug()
    ensures ZoneAsWritten(345) == "+05:45"
    ensures GetDateFromW3CString(Str(EncodeLocalAsWritten(LocalTime(2024, 0, 15, 12, 0, 345)))).Err?
  {
    Pad2Digits(5);
    Pad2Digits(45);
    OffGridRejected(LocalTime(2024, 0, 15, 12, 0, 345));
  }

  /** As written, an offset west of UTC that is not a whole hour is written
      with an hour too many and negative minutes: UTC-03:30 comes out as
      `-04:-30`, which the grammar rejects: the decoder throws on what the
      encoder wrote, where it accepts the corrected encoding. */
  lemma NegativeHalfHourOffsetBug()
    ensures ZoneAsWritten(-210) == "-04:-30"
    ensures Zone(-210) == "-03:30"
    ensures GetDateFromW3CString(Str(EncodeLocalAsWritten(LocalTime(2024, 0, 15, 12, 0, -210)))).Err?
    ensures GetDateFromW3CString(Str(EncodeLocal(LocalTime(2024, 0, 15, 12, 0, -210)))).Ok?
  {
    ZoneAsWrittenWest();
    ZoneWest();
    var lt := LocalTime(2024, 0, 15, 12, 0, -210);
    DecodeEncodeLocal(lt);
    LongZoneRejected(lt, ZoneAsWritten(-210));
  }

  /** A seven-character zone designator that is not a `Z` and not a seconds
      group makes the written string one the decoder rejects. */
  lemma LongZoneRejected(lt: LocalTime, zone: string)
    requires InRange(lt)
    requires |zone| == 7 && zone[0] != 'Z' && zone[0] != ':'
    ensures GetDateFromW3CString(Str(FormatLocal(lt, zone))).Err?
  {
    FormatLocalZone(lt, zone);
    var s := FormatLocal(lt, zone);
    assert s[16] == zone[0];
  }

  lemma ZoneAsWrittenWest()
    ensures ZoneAsWritten(-210) == "-04:-30"
  {
    assert -210 / 60 == -4;
    assert NatToString(30) == NatToString(3) + [Digit(0)];
    Pad2Digits(4);
  }

  lemma ZoneWest()
    ensures Zone(-210) == "-03:30"
  {
    Pad2Digits(3);
    Pad2Digits(30);
  }

  /** The zone designator starts at the seventeenth character. */
  lemma FormatLocalZone(lt: LocalTime, zone: string)
    requires InRange(lt)
    ensures |FormatLocal(lt, zone)| == 16 + |zone|
    ensures FormatLocal(lt, zone)[16..] == zone
  {
    YearDigits(lt.year);
    Pad2Digits(1 + lt.month);
    Pad2Digits(lt.day);
    Pad2Digits(lt.hours);
    Pad2Digits(lt.minutes);
  }
}
