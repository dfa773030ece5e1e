/** `getTimeString` of src/utils/getTimeString.ts, with the clock fields of
    the date taken as inputs: the flagged fields are printed in the order
    hours, minutes, seconds, milliseconds, each padded to two digits, with
    ':' after the first two positions and '.' after the later ones. */
module TimeString {
  import opened Text

  /** The field values `getHours()`, `getMinutes()`, `getSeconds()` and
      `getMilliseconds()` give for the date. */
  datatype Clock = Clock(hours: nat, minutes: nat, seconds: nat, milliseconds: nat)

  /** `timeValues`: the flagged fields, in their fixed order. */
  function TimeValues(c: Clock, hours: bool, minutes: bool, seconds: bool, milliseconds: bool): (vs: seq<nat>)
    ensures |vs| == (if hours then 1 else 0) + (if minutes then 1 else 0) +
                    (if seconds then 1 else 0) + (if milliseconds then 1 else 0)
  {
    (if hours then [c.hours] else []) + (if minutes then [c.minutes] else []) +
    (if seconds then [c.seconds] else []) + (if milliseconds then [c.milliseconds] else [])
  }

  /** `${value < 10 ? '0' : ''}${value}`. */
  function Pad(v: nat): string {
    (if v < 10 then "0" else "") + NatToString(v)
  }

  /** What follows the field at `index` of `count`. */
  function Separator(index: nat, count: nat): string {
    if index != count - 1 then (if index < 2 then ":" else ".") else ""
  }

  /** The string after the first `k` fields of `vs`. */
  function Rendered(vs: seq<nat>, k: nat): string
    requires k <= |vs|
  {
    if k == 0 then "" else Rendered(vs, k - 1) + Pad(vs[k - 1]) + Separator(k - 1, |vs|)
  }

  /** The whole string for the fields `vs`. */
  function Render(vs: seq<nat>): string {
    Rendered(vs, |vs|)
  }

  /** The `forEach` loop of `getTimeString`. */
  method RenderFields(vs: seq<nat>) returns (s: string)
    ensures s == Render(vs)
  {
    s := "";
    var index := 0;
    while index < |vs|
      invariant index <= |vs|
      invariant s == Rendered(vs, index)
    {
      var value := vs[index];
      s := s + Pad(value);
      if index != |vs| - 1 {
        if index < 2 {
          s := s + ":";
        } else {
          s := s + ".";
        }
      }
      index := index + 1;
    }
  }

  /** `getTimeString`. */
  method GetTimeString(c: Clock, hours: bool, minutes: bool, seconds: bool, milliseconds: bool) returns (s: string)
    ensures s == Render(TimeValues(c, hours, minutes, seconds, milliseconds))
  {
    var timeValues: seq<nat> := [];
    if hours { timeValues := timeValues + [c.hours]; }
    assert timeValues == (if hours then [c.hours] else []);
    if minutes { timeValues := timeValues + [c.minutes]; }
    assert timeValues == (if hours then [c.hours] else []) + (if minutes then [c.minutes] else []);
    if seconds { timeValues := timeValues + [c.seconds]; }
    assert timeValues == (if hours then [c.hours] else []) + (if minutes then [c.minutes] else []) +
                         (if seconds then [c.seconds] else []);
    if milliseconds { timeValues := timeValues + [c.milliseconds]; }
    assert timeValues == TimeValues(c, hours, minutes, seconds, milliseconds);
    s := RenderFields(timeValues);
  }

  /** A value below 10 gets exactly one leading '0'; from 10 on the value is
      printed as it is, without a leading zero. */
  lemma PadShape(v: nat)
    ensures v < 10 ==> Pad(v) == ['0', DigitChar(v)]
    ensures v >= 10 ==> Pad(v) == NatToString(v) && Pad(v)[0] != '0'
    ensures |Pad(v)| >= 2
  {
    NatToStringNoLeadingZero(v);
    if v >= 10 {
      assert NatToString(v) == NatToString(v / 10) + [DigitChar(v % 10)];
    }
  }

  /** The separators: ':' after positions 0 and 1, '.' after the later ones,
      nothing after the last field. */
  lemma SeparatorRule(index: nat, count: nat)
    requires index < count
    ensures index == count - 1 ==> Separator(index, count) == ""
    ensures index < count - 1 && index < 2 ==> Separator(index, count) == ":"
    ensures index < count - 1 && index >= 2 ==> Separator(index, count) == "."
    ensures |Separator(index, count)| == (if index < count - 1 then 1 else 0)
  {
  }

  /** Counts the separator characters in a string. */
  function SeparatorCount(s: string): nat {
    if s == [] then 0 else (if s[0] == ':' || s[0] == '.' then 1 else 0) + SeparatorCount(s[1..])
  }

  lemma {:induction false} SeparatorCountAppend(a: string, b: string)
    ensures SeparatorCount(a + b) == SeparatorCount(a) + SeparatorCount(b)
    decreases |a|
  {
    if a == [] {
      assert a + b == b;
    } else {
      assert (a + b)[1..] == a[1..] + b;
      SeparatorCountAppend(a[1..], b);
    }
  }

  /** A padded number holds no separator. */
  lemma {:induction false} NoSeparatorInDigits(s: string)
    requires AllDigits(s)
    ensures SeparatorCount(s) == 0
    decreases |s|
  {
    if s != [] {
      NoSeparatorInDigits(s[1..]);
    }
  }

  /** After `k` fields the string holds one separator per field but the last. */
  lemma {:induction false} RenderedSeparators(vs: seq<nat>, k: nat)
    requires k <= |vs|
    ensures SeparatorCount(Rendered(vs, k)) == (if k == |vs| && k > 0 then k - 1 else k)
    decreases k
  {
    if k > 0 {
      RenderedSeparators(vs, k - 1);
      var v := vs[k - 1];
      NoSeparatorInDigits(NatToString(v));
      NoSeparatorInDigits(if v < 10 then "0" else "");
      SeparatorCountAppend(if v < 10 then "0" else "", NatToString(v));
      SeparatorCountAppend(Rendered(vs, k - 1), Pad(v));
      SeparatorCountAppend(Rendered(vs, k - 1) + Pad(v), Separator(k - 1, |vs|));
    }
  }

  /** There are exactly #fields - 1 separators, and none at all for no fields. */
  lemma SeparatorTotal(vs: seq<nat>)
    ensures SeparatorCount(Render(vs)) == (if vs == [] then 0 else |vs| - 1)
  {
    RenderedSeparators(vs, |vs|);
  }

  /** With no flag set the result is the empty string. */
  lemma NoFlagsEmpty(c: Clock)
    ensures Render(TimeValues(c, false, false, false, false)) == ""
  {
  }

  /** Hours and minutes, as the arrival lines print them: `HH:MM`. */
  lemma HoursMinutes(c: Clock)
    ensures Render(TimeValues(c, true, true, false, false)) == Pad(c.hours) + ":" + Pad(c.minutes)
  {
    var vs := TimeValues(c, true, true, false, false);
    assert vs == [c.hours, c.minutes];
    assert Rendered(vs, 1) == Pad(c.hours) + ":";
  }

  /** All four fields: hours:minutes:seconds.milliseconds, with '.' before the milliseconds. */
  lemma AllFields(c: Clock)
    ensures Render(TimeValues(c, true, true, true, true)) ==
      Pad(c.hours) + ":" + Pad(c.minutes) + ":" + Pad(c.seconds) + "." + Pad(c.milliseconds)
  {
    var vs := TimeValues(c, true, true, true, true);
    assert vs == [c.hours, c.minutes, c.seconds, c.milliseconds];
    assert Rendered(vs, 1) == Pad(c.hours) + ":";
    assert Rendered(vs, 2) == Pad(c.hours) + ":" + Pad(c.minutes) + ":";
    assert Rendered(vs, 3) == Pad(c.hours) + ":" + Pad(c.minutes) + ":" + Pad(c.seconds) + ".";
  }
}
