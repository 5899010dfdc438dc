/**
 * Settings arithmetic and the autostart command of skihide/app.py:
 * the scheduled memory-cleaning interval, the clamp and unit reset that
 * `apply_settings` applies to what the user entered, and the command line
 * written to the `Run` registry key.
 */
module Settings {
  import opened Wrappers
  import opened Strings

  const Minutes := "分钟"
  const Hours := "小时"
  const DefaultMemCleanValue := 30
  const MinuteMs := 60 * 1000
  const HourMs := 60 * 60 * 1000

  /** `max(1, min(999, v))`. */
  function Clamp(v: int): (c: int)
    ensures 1 <= c <= 999
    ensures 1 <= v <= 999 ==> c == v
    ensures v < 1 ==> c == 1
    ensures v > 999 ==> c == 999
  {
    if v < 1 then 1 else if v > 999 then 999 else v
  }

  /** `int(value or 30)`: a missing value, `None` or 0 means 30. */
  function EffectiveValue(value: Option<int>): (v: int)
    ensures v != 0
    ensures value.None? || value == Some(0) ==> v == DefaultMemCleanValue
    ensures value.Some? && value.value != 0 ==> v == value.value
  {
    if value.None? || value.value == 0 then DefaultMemCleanValue else value.value
  }

  function UnitMs(unit: string): int {
    if unit == Hours then HourMs else MinuteMs
  }

  /**
   * `_mem_clean_interval_ms`: the clamped count of hours (unit "小时")
   * or minutes (any other unit), in milliseconds.
   */
  function MemCleanIntervalMs(value: Option<int>, unit: string): (ms: int)
    ensures MinuteMs <= ms <= 999 * HourMs
    ensures ms % UnitMs(unit) == 0 && ms / UnitMs(unit) == Clamp(EffectiveValue(value))
    ensures value.Some? && 1 <= value.value <= 999 ==> ms / UnitMs(unit) == value.value
    ensures value.None? || value == Some(0) ==> ms == 30 * UnitMs(unit)
  {
    var v := Clamp(EffectiveValue(value));
    if unit == Hours then v * 60 * 60 * 1000 else v * 60 * 1000
  }

  datatype MemCleanSettings = MemCleanSettings(value: int, unit: string)

  /** The units the settings dialog offers. */
  predicate KnownUnit(unit: string) { unit == Minutes || unit == Hours }

  /**
   * The normalisation in `apply_settings`: `entered` is the number typed
   * by the user (`None` when `int(...)` raised), `unit` the chosen unit.
   */
  function NormalizeMemClean(entered: Option<int>, unit: string): (s: MemCleanSettings)
    ensures 1 <= s.value <= 999 && KnownUnit(s.unit)
    ensures entered.None? ==> s.value == DefaultMemCleanValue
    ensures entered.Some? && 1 <= entered.value <= 999 ==> s.value == entered.value
    ensures KnownUnit(unit) ==> s.unit == unit
    ensures !KnownUnit(unit) ==> s.unit == Minutes
  {
    var value := if entered.None? then DefaultMemCleanValue else entered.value;
    var u := if unit == "" then Minutes else unit;
    MemCleanSettings(Clamp(value), if KnownUnit(u) then u else Minutes)
  }

  /** Normalised settings are left as they are by a second normalisation. */
  lemma NormalizeIsIdempotent(entered: Option<int>, unit: string)
    ensures var s := NormalizeMemClean(entered, unit);
      NormalizeMemClean(Some(s.value), s.unit) == s
  {
  }

  /**
   * Storing a non-zero entry through `apply_settings` does not change the
   * interval the scheduler computes from it; an entry of 0 is stored as 1
   * minute-or-hour although the interval alone would read 0 as 30.
   */
  lemma NormalizePreservesInterval(entered: int, unit: string)
    ensures var s := NormalizeMemClean(Some(entered), unit);
      entered != 0 ==> MemCleanIntervalMs(Some(s.value), s.unit) == MemCleanIntervalMs(Some(entered), unit)
    ensures var s := NormalizeMemClean(Some(0), unit);
      MemCleanIntervalMs(Some(s.value), s.unit) == UnitMs(unit) && MemCleanIntervalMs(Some(0), unit) == 30 * UnitMs(unit)
  {
  }

  const Quote := '"'

  /** The executable path, quoted when it holds a space and is not quoted already. */
  function QuotePath(exe: string): (q: string)
    // quoted exactly when the path holds a space and is not quoted already
    ensures !Contains(exe, ' ') || (StartsWith(exe, [Quote]) && EndsWith(exe, [Quote])) ==> q == exe
    ensures Contains(exe, ' ') && !(StartsWith(exe, [Quote]) && EndsWith(exe, [Quote])) ==>
      q == [Quote] + exe + [Quote]
    // a path holding a space always comes out between quotes
    ensures Contains(exe, ' ') ==> StartsWith(q, [Quote]) && EndsWith(q, [Quote])
  {
    if Contains(exe, ' ') && !(StartsWith(exe, [Quote]) && EndsWith(exe, [Quote])) then [Quote] + exe + [Quote]
    else exe
  }

  /**
   * `_get_autostart_command`: `silentStartEnabled` is the attribute
   * `silent_start_enabled`, `None` while it has not been set (then true).
   */
  function AutostartCommand(exe: string, silentStartEnabled: Option<bool>): (cmd: string)
    ensures StartsWith(cmd, QuotePath(exe))
    ensures |cmd| >= |QuotePath(exe)| && cmd[|QuotePath(exe)|..] == SilentArgs(silentStartEnabled)
  {
    QuotePath(exe) + SilentArgs(silentStartEnabled)
  }

  /** The position of the first `c` in `s`, or `|s|`. */
  function IndexOf(s: string, c: char): (i: nat)
    ensures i <= |s| && (i < |s| ==> s[i] == c)
    ensures forall k :: 0 <= k < i ==> s[k] != c
  {
    if s == [] then 0 else if s[0] == c then 0 else 1 + IndexOf(s[1..], c)
  }

  lemma {:induction false} IndexOfAfter(a: string, b: string, c: char)
    requires !Contains(a, c)
    ensures IndexOf(a + b, c) == |a| + IndexOf(b, c)
    decreases |a|
  {
    if a == [] {
      assert a + b == b;
    } else {
      assert (a + b)[0] == a[0] && (a + b)[1..] == a[1..] + b;
      assert !Contains(a[1..], c) by {
        forall k | 0 <= k < |a[1..]| ensures a[1..][k] != c {
          assert a[1..][k] == a[k + 1];
        }
      }
      IndexOfAfter(a[1..], b, c);
    }
  }

  /**
   * How Windows reads the program out of a command line: up to the closing
   * quote when it starts with one, otherwise up to the first space; the
   * rest is the argument text.
   */
  function SplitCommand(cmd: string): (string, string) {
    if |cmd| > 0 && cmd[0] == Quote then
      var tail := cmd[1..];
      var i := IndexOf(tail, Quote);
      (tail[..i], if i < |tail| then tail[i + 1..] else "")
    else
      var i := IndexOf(cmd, ' ');
      (cmd[..i], cmd[i..])
  }

  /** The argument text of the autostart command: ` --silent` unless silent start is switched off. */
  function SilentArgs(silentStartEnabled: Option<bool>): (args: string)
    ensures args == " --silent" <==> silentStartEnabled.GetOr(true)
    ensures args == "" <==> !silentStartEnabled.GetOr(true)
  {
    if silentStartEnabled.GetOr(true) then " --silent" else ""
  }

  /** A command line made of a quoted path and argument text reads back as that path and text. */
  lemma ReadQuoted(inner: string, args: string)
    requires !Contains(inner, Quote)
    ensures SplitCommand([Quote] + inner + [Quote] + args) == (inner, args)
  {
    var cmd := [Quote] + inner + [Quote] + args;
    assert cmd[1..] == inner + ([Quote] + args);
    IndexOfAfter(inner, [Quote] + args, Quote);
    assert cmd[1..][..|inner|] == inner;
    assert cmd[1..][|inner| + 1..] == args;
  }

  /** A path without spaces or quotes, followed by text that is empty or starts with a space. */
  lemma ReadUnquoted(exe: string, args: string)
    requires !Contains(exe, Quote) && !Contains(exe, ' ')
    requires args == "" || args[0] == ' '
    ensures SplitCommand(exe + args) == (exe, args)
  {
    var cmd := exe + args;
    IndexOfAfter(exe, args, ' ');
    if exe != [] {
      assert cmd[0] == exe[0];
    }
    assert cmd[..|exe|] == exe && cmd[|exe|..] == args;
  }

  /**
   * The registry command starts exactly the executable, with `--silent`
   * exactly when silent start is on, for any path free of quote marks.
   */
  lemma AutostartCommandRoundTrip(exe: string, silentStartEnabled: Option<bool>)
    requires !Contains(exe, Quote)
    ensures SplitCommand(AutostartCommand(exe, silentStartEnabled)) == (exe, SilentArgs(silentStartEnabled))
    // the command line starts with a quote exactly when the path holds a space
    ensures StartsWith(AutostartCommand(exe, silentStartEnabled), [Quote]) <==> Contains(exe, ' ')
  {
    var args := SilentArgs(silentStartEnabled);
    assert AutostartCommand(exe, silentStartEnabled) == QuotePath(exe) + args;
    if Contains(exe, ' ') {
      assert exe[0] != Quote;
      assert QuotePath(exe) == [Quote] + exe + [Quote];
      ReadQuoted(exe, args);
    } else {
      ReadUnquoted(exe, args);
      var cmd := exe + args;
      if cmd != [] {
        assert cmd[0] == if exe != [] then exe[0] else args[0];
      }
    }
  }

  /** Quoting a path a second time changes nothing. */
  lemma QuotePathIdempotent(exe: string)
    ensures QuotePath(QuotePath(exe)) == QuotePath(exe)
  {
    var q := QuotePath(exe);
    if q != exe {
      assert StartsWith(q, [Quote]) && EndsWith(q, [Quote]) by {
        assert Contains(exe, ' ');
      }
    }
  }

  /** An already quoted path is written unchanged, and Windows reads back the path inside the quotes. */
  lemma AutostartKeepsQuotedPath(inner: string, silentStartEnabled: Option<bool>)
    requires !Contains(inner, Quote)
    ensures SplitCommand(AutostartCommand([Quote] + inner + [Quote], silentStartEnabled))
         == (inner, SilentArgs(silentStartEnabled))
  {
    var exe := [Quote] + inner + [Quote];
    assert StartsWith(exe, [Quote]) && EndsWith(exe, [Quote]);
    assert AutostartCommand(exe, silentStartEnabled) == exe + SilentArgs(silentStartEnabled);
    ReadQuoted(inner, SilentArgs(silentStartEnabled));
  }
}
