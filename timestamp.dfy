/**
  Choosing and normalising a record's timestamp (log_parser.py, the start of the row loop).
  `pd.to_datetime(..., errors='coerce')` is not part of this model: its outcome on the chosen
  text is given as a `DatetimeParse`.
 */
module Timestamp {
  import opened Wrappers
  import opened Text
  import opened Dict

  /** A decoded CSV row: column name to cell text, in column order. */
  type Row = Dict<string>

  /** The columns that may carry the time of an event, in order of preference. */
  const CandidateColumns: seq<string> := ["Timestamp (UTC)", "Timestamp", "TimeCreated", "TimeGenerated", "RecordTime"]

  /** `name in row_dict and row_dict[name]`: the column is present with a non-empty text. */
  predicate Filled(row: Row, name: string) {
    Get(row, name).Some? && Get(row, name).value != ""
  }

  /** The text of the first filled column among `names`, or `""` when none is filled. */
  function FirstFilled(row: Row, names: seq<string>): string
    decreases |names|
  {
    if names == [] then ""
    else if Filled(row, names[0]) then Get(row, names[0]).value
    else FirstFilled(row, names[1..])
  }

  /** The first filled candidate wins; no filled candidate gives `""`. */
  lemma {:induction false} FirstFilledIsFirst(row: Row, names: seq<string>)
    ensures FirstFilled(row, names) == "" <==> forall k | 0 <= k < |names| :: !Filled(row, names[k])
    ensures FirstFilled(row, names) != "" ==>
      exists k | 0 <= k < |names| :: Filled(row, names[k]) && Get(row, names[k]).value == FirstFilled(row, names)
        && forall j | 0 <= j < k :: !Filled(row, names[j])
    decreases |names|
  {
    if names != [] && !Filled(row, names[0]) {
      FirstFilledIsFirst(row, names[1..]);
      var r := FirstFilled(row, names);
      if r != "" {
        var k :| 0 <= k < |names[1..]| && Filled(row, names[1..][k]) && Get(row, names[1..][k]).value == r
          && forall j | 0 <= j < k :: !Filled(row, names[1..][j]);
        assert names[k + 1] == names[1..][k];
        assert forall j | 0 <= j < k + 1 :: !Filled(row, names[j]) by {
          forall j | 0 <= j < k + 1 ensures !Filled(row, names[j]) {
            if j > 0 {
              assert names[j] == names[1..][j - 1];
            }
          }
        }
      } else {
        forall k | 0 <= k < |names| ensures !Filled(row, names[k]) {
          if k > 0 {
            assert names[k] == names[1..][k - 1];
          }
        }
      }
    }
  }

  /** The `for name in possible_ts_names` loop with its `break`. */
  method SelectTimestamp(row: Row) returns (timestampText: string)
    ensures timestampText == FirstFilled(row, CandidateColumns)
  {
    timestampText := "";
    var i := 0;
    while i < |CandidateColumns|
      invariant 0 <= i <= |CandidateColumns|
      invariant timestampText == ""
      invariant FirstFilled(row, CandidateColumns) == FirstFilled(row, CandidateColumns[i..])
    {
      var name := CandidateColumns[i];
      assert CandidateColumns[i..][1..] == CandidateColumns[i + 1..];
      var cell := Get(row, name);
      if cell.Some? && cell.value != "" {
        timestampText := cell.value;
        break;
      }
      i := i + 1;
    }
  }

  /** A calendar date and time of day to the microsecond, as `pd.to_datetime` yields it.
      Pandas timestamps lie between the years 1677 and 2262, so the year has four digits. */
  datatype DateTime = DateTime(year: int, month: int, day: int, hour: int, minute: int, second: int, microsecond: int)
  {
    predicate WellFormed() {
      && 1000 <= year <= 9999 && 1 <= month <= 12 && 1 <= day <= 31
      && 0 <= hour < 24 && 0 <= minute < 60 && 0 <= second < 60 && 0 <= microsecond < 1000000
    }
  }

  type ParsedDateTime = dt: DateTime | dt.WellFormed() witness DateTime(2000, 1, 1, 0, 0, 0, 0)

  /** What `pd.to_datetime(text, errors='coerce')` does: a time, `NaT`, or an exception. */
  datatype DatetimeParse = Valid(dt: ParsedDateTime) | NotATime | Raised

  function Pow10(w: nat): (p: nat)
    ensures p >= 1
  {
    if w == 0 then 1 else 10 * Pow10(w - 1)
  }

  /** `n` in decimal, zero-padded to `w` digits: the `%Y`, `%m`, `%d`, `%H`, `%M`, `%S` and `%f`
      directives. */
  function Pad(n: nat, w: nat): (r: string)
    requires n < Pow10(w)
    ensures |r| == w
    ensures forall k | 0 <= k < |r| :: '0' <= r[k] <= '9'
    decreases w
  {
    if w == 0 then "" else Pad(n / 10, w - 1) + [Digit(n % 10)]
  }

  /** The number a string of decimal digits denotes. */
  function DigitsValue(s: string): int
    decreases |s|
  {
    if s == [] then 0 else 10 * DigitsValue(s[..|s| - 1]) + (s[|s| - 1] as int - '0' as int)
  }

  /** Padding loses nothing: reading the digits back gives the number. */
  lemma {:induction false} PadValue(n: nat, w: nat)
    requires n < Pow10(w)
    ensures DigitsValue(Pad(n, w)) == n
    decreases w
  {
    if w > 0 {
      PadValue(n / 10, w - 1);
      var r := Pad(n, w);
      assert r[..|r| - 1] == Pad(n / 10, w - 1);
    }
  }

  /** `pd_dt.strftime('%Y-%m-%d %H:%M:%S.%f')`, before the last three characters are cut. */
  function FullFormat(dt: ParsedDateTime): (r: string)
    ensures |r| == 26
  {
    Pad(dt.year, 4) + "-" + Pad(dt.month, 2) + "-" + Pad(dt.day, 2) + " "
      + Pad(dt.hour, 2) + ":" + Pad(dt.minute, 2) + ":" + Pad(dt.second, 2) + "." + Pad(dt.microsecond, 6)
  }

  /** `strftime('%Y-%m-%d %H:%M:%S.%f')[:-3]` */
  function Format(dt: ParsedDateTime): (r: string)
  {
    var full := FullFormat(dt);
    full[..|full| - 3]
  }

  /** The shape of a normalised timestamp: `YYYY-MM-DD HH:MM:SS.mmm`. */
  predicate Canonical(ts: string) {
    && |ts| == 23
    && ts[4] == '-' && ts[7] == '-' && ts[10] == ' ' && ts[13] == ':' && ts[16] == ':' && ts[19] == '.'
    && forall k | 0 <= k < 23 && k !in {4, 7, 10, 13, 16, 19} :: '0' <= ts[k] <= '9'
  }

  /** Cutting the last three digits of a six-digit `%f` keeps the milliseconds, rounded down. */
  lemma MillisOfMicros(us: nat)
    requires us < 1000000
    ensures Pad(us, 6)[..3] == Pad(us / 1000, 3)
  {
    assert us / 10 / 10 == us / 100;
    assert us / 100 / 10 == us / 1000;
    PadDropLast(us, 6);
    PadDropLast(us / 10, 5);
    PadDropLast(us / 100, 4);
    var p := Pad(us, 6);
    assert p[..3] == p[..5][..4][..3];
  }

  /** Dropping the last digit of a padded number pads the number divided by ten. */
  lemma PadDropLast(n: nat, w: nat)
    requires 0 < w && n < Pow10(w)
    ensures n / 10 < Pow10(w - 1)
    ensures Pad(n, w)[..w - 1] == Pad(n / 10, w - 1)
  {
  }

  /** Date, time and fraction fields laid out as `Y-M-D H:M:S.F`. */
  function Layout(y: string, mo: string, d: string, h: string, mi: string, s: string, f: string): string {
    y + "-" + mo + "-" + d + " " + h + ":" + mi + ":" + s + "." + f
  }

  predicate AllDigits(s: string) {
    forall k | 0 <= k < |s| :: '0' <= s[k] <= '9'
  }

  /** The rendering ends in the milliseconds: the last three digits of `%f` are the ones cut. */
  lemma FormatIsMillis(dt: ParsedDateTime)
    ensures Format(dt) == Layout(Pad(dt.year, 4), Pad(dt.month, 2), Pad(dt.day, 2),
      Pad(dt.hour, 2), Pad(dt.minute, 2), Pad(dt.second, 2), Pad(dt.microsecond / 1000, 3))
  {
    var head := Pad(dt.year, 4) + "-" + Pad(dt.month, 2) + "-" + Pad(dt.day, 2) + " "
      + Pad(dt.hour, 2) + ":" + Pad(dt.minute, 2) + ":" + Pad(dt.second, 2) + ".";
    var us := Pad(dt.microsecond, 6);
    assert FullFormat(dt) == head + us;
    assert (head + us)[..23] == head + us[..3];
    MillisOfMicros(dt.microsecond);
  }

  /** Where each field sits in a layout of well-sized digit fields. */
  lemma LayoutFields(y: string, mo: string, d: string, h: string, mi: string, s: string, f: string)
    requires |y| == 4 && |mo| == 2 && |d| == 2 && |h| == 2 && |mi| == 2 && |s| == 2 && |f| == 3
    requires AllDigits(y) && AllDigits(mo) && AllDigits(d) && AllDigits(h) && AllDigits(mi) && AllDigits(s) && AllDigits(f)
    ensures var ts := Layout(y, mo, d, h, mi, s, f);
      && Canonical(ts)
      && ts[..4] == y && ts[5..7] == mo && ts[8..10] == d && ts[11..13] == h
      && ts[14..16] == mi && ts[17..19] == s && ts[20..23] == f
  {
    var ts := Layout(y, mo, d, h, mi, s, f);
    forall k | 0 <= k < 23 && k !in {4, 7, 10, 13, 16, 19} ensures '0' <= ts[k] <= '9' {
      if k < 4 { assert ts[k] == y[k]; }
      else if k < 7 { assert ts[k] == mo[k - 5]; }
      else if k < 10 { assert ts[k] == d[k - 8]; }
      else if k < 13 { assert ts[k] == h[k - 11]; }
      else if k < 16 { assert ts[k] == mi[k - 14]; }
      else if k < 19 { assert ts[k] == s[k - 17]; }
      else { assert ts[k] == f[k - 20]; }
    }
  }

  /** A parsed time is rendered as a 23-character canonical timestamp whose fields read back
      as the time's own, with the microseconds truncated to milliseconds. */
  lemma FormatFields(dt: ParsedDateTime)
    ensures Canonical(Format(dt))
    ensures var ts := Format(dt);
      && DigitsValue(ts[..4]) == dt.year && DigitsValue(ts[5..7]) == dt.month && DigitsValue(ts[8..10]) == dt.day
      && DigitsValue(ts[11..13]) == dt.hour && DigitsValue(ts[14..16]) == dt.minute
      && DigitsValue(ts[17..19]) == dt.second && DigitsValue(ts[20..23]) == dt.microsecond / 1000
  {
    FormatIsMillis(dt);
    LayoutFields(Pad(dt.year, 4), Pad(dt.month, 2), Pad(dt.day, 2),
      Pad(dt.hour, 2), Pad(dt.minute, 2), Pad(dt.second, 2), Pad(dt.microsecond / 1000, 3));
    PadValue(dt.year, 4);
    PadValue(dt.month, 2);
    PadValue(dt.day, 2);
    PadValue(dt.hour, 2);
    PadValue(dt.minute, 2);
    PadValue(dt.second, 2);
    PadValue(dt.microsecond / 1000, 3);
  }

  /** Lines 106-116: a parsed time is reformatted; `NaT` or an exception keeps the text as it
      was (which is `""` when no candidate column was filled). */
  function Normalize(text: string, parsed: DatetimeParse): (ts: string)
    ensures parsed.Valid? ==> Canonical(ts)
    ensures !parsed.Valid? ==> ts == text
  {
    match parsed
    case Valid(dt) => FormatFields(dt); Format(dt)
    case NotATime => text
    case Raised => text
  }
}
