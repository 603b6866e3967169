/**
 * The `mod` command and its sub-options: ban, mute, warn, timeout, slowmode and warnings.
 * The permission check, the timeout duration (its parse, its bounds and its text), the
 * placeholder substitution of custom messages, the warning numbering, the slowmode bounds
 * and the newest-first listing of warnings are modelled. The member and channel lookups,
 * the permissions of the caller and whether a platform call succeeds are parameters.
 */
module Moderation {
  import opened Wrappers
  import opened JsText
  import opened Store
  import opened Platform

  const DefaultReason: string := "No reason provided"

  // ---------------------------------------------------------------- routing

  const Options: set<string> := {"ban", "mute", "warn", "timeout", "slowmode", "warnings"}

  /** The permission a sub-option checks. */
  function Required(option: string): Permission {
    if option == "ban" then BanMembers
    else if option == "slowmode" then ManageChannels
    else ModerateMembers
  }

  datatype Route =
    | ModHelp
    | UnknownOption(option: string)
    | Denied(needed: Permission)
    | Run(option: string, rest: seq<string>)

  /** Which reply or handler `!mod <args>` reaches, for a caller holding `granted`. */
  function RouteMod(args: seq<string>, authorId: string, granted: set<Permission>): (r: Route)
    ensures args == [] <==> r == ModHelp
    ensures r.UnknownOption? <==> args != [] && ToLower(args[0]) !in Options
    ensures r.Denied? <==>
      args != [] && ToLower(args[0]) in Options && authorId != DeveloperId && Required(ToLower(args[0])) !in granted
    ensures r.Denied? ==> r.needed == Required(ToLower(args[0]))
    ensures r.Run? ==> r.option == ToLower(args[0]) && r.option in Options && r.rest == args[1..]
  {
    if args == [] then ModHelp
    else
      var option := ToLower(args[0]);
      if option !in Options then UnknownOption(option)
      else if authorId != DeveloperId && Required(option) !in granted then Denied(Required(option))
      else Run(option, args[1..])
  }

  /**
   * The permission table: ban needs Ban Members, slowmode needs Manage Channels, and the
   * other four need Moderate Members; the developer reaches every handler whatever they hold.
   */
  lemma PermissionTable(args: seq<string>, authorId: string, granted: set<Permission>)
    requires args != [] && ToLower(args[0]) in Options
    ensures authorId == DeveloperId ==> RouteMod(args, authorId, granted).Run?
    ensures authorId != DeveloperId && granted == {ModerateMembers} ==>
      (RouteMod(args, authorId, granted).Denied? <==> ToLower(args[0]) in {"ban", "slowmode"})
    ensures authorId != DeveloperId && {BanMembers, ModerateMembers, ManageChannels} <= granted ==>
      RouteMod(args, authorId, granted).Run?
  {
  }

  /** `args.slice(from).join(' ') || 'No reason provided'`. */
  function Reason(args: seq<string>, from: nat): (r: string)
    ensures r != []
    ensures from >= |args| ==> r == DefaultReason
    ensures from < |args| && args[from] != [] ==> r == Join(args[from..], " ") && args[from] <= r
  {
    var text := if from < |args| then Join(args[from..], " ") else "";
    if text == "" then DefaultReason else text
  }

  // ---------------------------------------------------------------- custom messages

  function Placeholder(key: string): string {
    "{" + key + "}"
  }

  /**
   * The text `formatCustomMessage` produces: the keys are taken in order, and each one
   * replaces every `{key}` in the text the earlier keys left.
   */
  function Formatted(template: string, data: seq<(string, string)>): string
    decreases |data|
  {
    if data == [] then template
    else Formatted(ReplaceAll(template, Placeholder(data[0].0), data[0].1), data[1..])
  }

  /** `formatCustomMessage`: rewrite the template once per key, in order. */
  method FormatCustomMessage(template: string, data: seq<(string, string)>) returns (r: string)
    ensures r == Formatted(template, data)
  {
    r := template;
    var i := 0;
    while i < |data|
      invariant 0 <= i <= |data|
      invariant Formatted(r, data[i..]) == Formatted(template, data)
    {
      assert data[i..][1..] == data[i + 1..];
      r := ReplaceAll(r, Placeholder(data[i].0), data[i].1);
      i := i + 1;
    }
  }

  predicate NoBrace(s: string) {
    forall j :: 0 <= j < |s| ==> s[j] != '{'
  }

  lemma NoBraceNoPlaceholder(s: string, key: string)
    requires NoBrace(s)
    ensures forall j :: !OccursAt(s, Placeholder(key), j)
  {
    var p := Placeholder(key);
    forall j
      ensures !OccursAt(s, p, j)
    {
      if 0 <= j && j + |p| <= |s| {
        assert s[j..j + |p|][0] == s[j] != '{' == p[0];
      }
    }
  }

  /** A template without a `{` is shown as it is, whatever the data. */
  lemma {:induction false} FormattedWithoutPlaceholders(template: string, data: seq<(string, string)>)
    requires NoBrace(template)
    ensures Formatted(template, data) == template
    decreases |data|
  {
    if data != [] {
      NoBraceNoPlaceholder(template, data[0].0);
      ReplaceAllAbsent(template, Placeholder(data[0].0), data[0].1);
      FormattedWithoutPlaceholders(template, data[1..]);
    }
  }

  lemma {:induction false} RepeatNoBrace(v: string, n: nat)
    requires NoBrace(v)
    ensures NoBrace(Repeat(v, n))
  {
    if n > 0 {
      RepeatNoBrace(v, n - 1);
      assert Repeat(v, n) == v + Repeat(v, n - 1);
    }
  }

  /**
   * Every occurrence of the first key's placeholder is replaced by its value: `n` copies
   * of `{key}` become `n` copies of the value, which later keys leave alone.
   */
  lemma FormattedReplacesEveryOccurrence(key: string, v: string, rest: seq<(string, string)>, n: nat)
    requires NoBrace(v)
    ensures Formatted(Repeat(Placeholder(key), n), [(key, v)] + rest) == Repeat(v, n)
  {
    var data := [(key, v)] + rest;
    ReplaceAllRepeated(Placeholder(key), v, n);
    RepeatNoBrace(v, n);
    assert data[1..] == rest;
    FormattedWithoutPlaceholders(Repeat(v, n), rest);
  }

  /**
   * The substitution works on the rewritten text: a value that holds a later key's
   * placeholder has that placeholder replaced too.
   */
  lemma FormattedRewritesValues(k1: string, k2: string, v: string)
    requires NoBrace(v)
    ensures Formatted(Placeholder(k1), [(k1, Placeholder(k2)), (k2, v)]) == v
  {
    var data := [(k1, Placeholder(k2)), (k2, v)];
    var p1, p2 := Placeholder(k1), Placeholder(k2);
    assert Repeat(p1, 1) == p1 && Repeat(p2, 1) == p2 && Repeat(v, 1) == v;
    ReplaceAllRepeated(p1, p2, 1);
    ReplaceAllRepeated(p2, v, 1);
    assert Formatted(p1, data) == Formatted(p2, data[1..]);
    assert Formatted(p2, data[1..]) == Formatted(v, data[1..][1..]);
    assert data[1..][1..] == [];
  }

  /** The custom message of one kind, when the guild set a non-empty one. */
  function CustomTemplate(settings: SettingsView, kind: string): Option<string> {
    match settings.customMessages
    case None => None
    case Some(m) => if kind in m && m[kind] != "" then Some(m[kind]) else None
  }

  /** The description of a moderation reply: the filled-in custom message, or the built-in one. */
  function Description(settings: SettingsView, kind: string, data: seq<(string, string)>, fallback: string): string {
    match CustomTemplate(settings, kind)
    case None => fallback
    case Some(t) => Formatted(t, data)
  }

  /**
   * The channel a moderation action is logged to: the configured channel when it is set
   * and exists, and, for slowmode, is not the channel the action was taken in.
   */
  function LogChannel(settings: SettingsView, channels: set<string>, except: Option<string>): (r: Option<string>)
    ensures r.Some? ==> settings.moderationLogs == r && r.value in channels && except != r
    ensures r.None? <==>
      !Truthy(settings.moderationLogs) || settings.moderationLogs.value !in channels || except == settings.moderationLogs
  {
    if Truthy(settings.moderationLogs) && settings.moderationLogs.value in channels && except != settings.moderationLogs
    then settings.moderationLogs
    else None
  }

  // ---------------------------------------------------------------- timeout duration

  const MinuteMs: nat := 60000
  const HourMs: nat := 3600000
  const DayMs: nat := 86400000
  /** Twenty-eight days, the longest timeout the platform allows. */
  const MaxTimeoutMs: nat := 2419200000

  /** The unit a duration's last letter names: `m`, `h` or `d`. */
  function UnitMs(c: char): Option<nat> {
    if c == 'm' then Some(MinuteMs)
    else if c == 'h' then Some(HourMs)
    else if c == 'd' then Some(DayMs)
    else None
  }

  /** A JavaScript number as the handler computes it: an integer, or NaN. */
  datatype Number = NaN | Num(value: int)

  /**
   * The duration of the lower-cased argument: `None` when it does not end in a unit
   * letter, otherwise `parseInt` of the whole text times the unit (NaN stays NaN).
   */
  function ParsedDuration(arg: string): (r: Option<Number>)
    ensures r.Some? && r.value.Num? ==> r.value.value % MinuteMs == 0
  {
    var d := ToLower(arg);
    var unit := if d == [] then None else UnitMs(d[|d| - 1]);
    if unit.None? then None
    else match ParseInt(d)
      case None => Some(NaN)
      case Some(n) => Some(Num(Scaled(n, unit.value)))
  }

  /** A count of units in milliseconds; every unit is a whole number of minutes. */
  function Scaled(n: int, unit: nat): (ms: int)
    requires unit in {MinuteMs, HourMs, DayMs}
    ensures unit == MinuteMs ==> ms == n * MinuteMs
    ensures unit == HourMs ==> ms == n * HourMs
    ensures unit == DayMs ==> ms == n * DayMs
    ensures ms % MinuteMs == 0
  {
    var minutes := if unit == MinuteMs then n else if unit == HourMs then n * 60 else n * 1440;
    assert minutes * MinuteMs == n * unit;
    minutes * MinuteMs
  }

  datatype DurationCheck = BadFormat | OutOfRange | Accepted(ms: Number)

  /**
   * The bounds check as written: `duration < 60000 || duration > 28 days` rejects, and
   * since both comparisons are false on NaN, a duration without digits passes.
   */
  function CheckDurationAsWritten(arg: string): DurationCheck {
    match ParsedDuration(arg)
    case None => BadFormat
    case Some(NaN) => Accepted(NaN)
    case Some(Num(ms)) => if ms < MinuteMs || ms > MaxTimeoutMs then OutOfRange else Accepted(Num(ms))
  }

  /** The bounds check as intended: only a number of milliseconds between one minute and 28 days passes. */
  function CheckDuration(arg: string): (r: DurationCheck)
    ensures r == BadFormat <==> ParsedDuration(arg).None?
    ensures r.Accepted? <==>
      (ParsedDuration(arg).Some? && ParsedDuration(arg).value.Num? &&
       MinuteMs <= ParsedDuration(arg).value.value <= MaxTimeoutMs)
    ensures r.Accepted? ==> r.ms == ParsedDuration(arg).value && r.ms.value % MinuteMs == 0
  {
    match ParsedDuration(arg)
    case None => BadFormat
    case Some(NaN) => OutOfRange
    case Some(Num(ms)) => if ms < MinuteMs || ms > MaxTimeoutMs then OutOfRange else Accepted(Num(ms))
  }

  /** The finding: `!mod timeout @user h` passes the written check with a NaN duration. */
  lemma AsWrittenAcceptsNaN(arg: string)
    requires arg == "h"
    ensures CheckDurationAsWritten(arg) == Accepted(NaN)
    ensures CheckDuration(arg) == OutOfRange
  {
    assert ToLower(arg) == "h";
    assert LeadingDigits("h") == [];
  }

  /** The two checks differ exactly on NaN durations. */
  lemma AsWrittenDiffersOnlyOnNaN(arg: string)
    ensures CheckDurationAsWritten(arg) != CheckDuration(arg) <==> ParsedDuration(arg) == Some(NaN)
    ensures CheckDurationAsWritten(arg) == Accepted(NaN) <==> ParsedDuration(arg) == Some(NaN)
  {
  }

  /**
   * A count followed by a unit letter is read back as that many units, and accepted
   * exactly when it lies between one minute and 28 days.
   */
  lemma CheckDurationOfCount(n: nat, u: char)
    requires u in {'m', 'h', 'd'}
    ensures UnitMs(u).Some?
    ensures ParsedDuration(NatToString(n) + [u]) == Some(Num(n * UnitMs(u).value))
    ensures CheckDuration(NatToString(n) + [u]) ==
      if MinuteMs <= n * UnitMs(u).value <= MaxTimeoutMs then Accepted(Num(n * UnitMs(u).value)) else OutOfRange
  {
    var arg := NatToString(n) + [u];
    assert forall i :: 0 <= i < |arg| ==> !('A' <= arg[i] <= 'Z') by {
      assert forall i :: 0 <= i < |arg| - 1 ==> IsDigit(arg[i]);
    }
    ToLowerOfLower(arg);
    ParseIntOfNatThen(n, [u]);
  }

  /** In each unit, the counts accepted are 1 to 40320 minutes, 1 to 672 hours and 1 to 28 days. */
  lemma DurationLimitsPerUnit(n: nat)
    ensures MinuteMs <= n * MinuteMs <= MaxTimeoutMs <==> 1 <= n <= 40320
    ensures MinuteMs <= n * HourMs <= MaxTimeoutMs <==> 1 <= n <= 672
    ensures MinuteMs <= n * DayMs <= MaxTimeoutMs <==> 1 <= n <= 28
  {
  }

  // ---------------------------------------------------------------- timeout text

  /** `${n} unit` with an `s` unless `n` is 1. */
  function UnitText(n: nat, unit: string): string {
    NatToString(n) + " " + unit + (if n != 1 then "s" else "")
  }

  /** The days, hours and minutes of a duration, zero units left out, then trimmed. */
  function DurationText(ms: nat): string {
    var days := ms / DayMs;
    var hours := ms % DayMs / HourMs;
    var minutes := ms % HourMs / MinuteMs;
    Trim(RawDurationText(days, hours, minutes))
  }

  function RawDurationText(days: nat, hours: nat, minutes: nat): string {
    (if days > 0 then UnitText(days, "day") + " " else "") +
    (if hours > 0 then UnitText(hours, "hour") + " " else "") +
    (if minutes > 0 then UnitText(minutes, "minute") else "")
  }

  /**
   * The three units recompose to the duration (less any odd seconds), hours stay under
   * 24 and minutes under 60, and an accepted duration has at most 28 days, and then no
   * hours or minutes.
   */
  lemma DurationComponents(ms: nat)
    ensures ms % DayMs / HourMs < 24 && ms % HourMs / MinuteMs < 60
    ensures (ms / DayMs) * DayMs + (ms % DayMs / HourMs) * HourMs + (ms % HourMs / MinuteMs) * MinuteMs
      == ms - ms % MinuteMs
    ensures ms <= MaxTimeoutMs ==> ms / DayMs <= 28
    ensures ms <= MaxTimeoutMs && ms / DayMs == 28 ==> ms % DayMs / HourMs == 0 && ms % HourMs / MinuteMs == 0
  {
    var d := ms / DayMs;
    var r := ms % DayMs;
    var h := r / HourMs;
    var r2 := r % HourMs;
    assert ms == d * DayMs + r;
    assert r == h * HourMs + r2;
    assert ms == (d * 24 + h) * HourMs + r2;
    assert ms % HourMs == r2;
    var m := r2 / MinuteMs;
    assert r2 == m * MinuteMs + r2 % MinuteMs;
    assert ms == ((d * 24 + h) * 60 + m) * MinuteMs + r2 % MinuteMs;
    assert ms % MinuteMs == r2 % MinuteMs;
  }

  lemma UnitTextStartsWithDigit(n: nat, unit: string)
    ensures UnitText(n, unit) != [] && IsDigit(UnitText(n, unit)[0])
  {
    assert UnitText(n, unit)[0] == NatToString(n)[0];
  }

  /** The text is empty exactly for a duration under one minute. */
  lemma DurationTextEmptyIff(ms: nat)
    ensures DurationText(ms) == "" <==> ms < MinuteMs
  {
    var days := ms / DayMs;
    var hours := ms % DayMs / HourMs;
    var minutes := ms % HourMs / MinuteMs;
    var raw := RawDurationText(days, hours, minutes);
    DurationComponents(ms);
    if ms >= MinuteMs {
      assert days > 0 || hours > 0 || minutes > 0;
      if days > 0 {
        UnitTextStartsWithDigit(days, "day");
        assert raw[0] == UnitText(days, "day")[0];
      } else if hours > 0 {
        UnitTextStartsWithDigit(hours, "hour");
        assert raw[0] == UnitText(hours, "hour")[0];
      } else {
        UnitTextStartsWithDigit(minutes, "minute");
        assert raw[0] == UnitText(minutes, "minute")[0];
      }
      assert !IsSpace(raw[0]);
    } else {
      assert raw == "";
    }
  }

  /** Ninety minutes read as one hour and thirty minutes, with the singular and the plural. */
  lemma DurationTextExample()
    ensures DurationText(90 * MinuteMs) == "1 hour 30 minutes"
  {
    var ms := 90 * MinuteMs;
    assert ms / DayMs == 0 && ms % DayMs / HourMs == 1 && ms % HourMs / MinuteMs == 30;
    assert RawDurationText(0, 1, 30) == "1 hour 30 minutes" by {
      NatToStringSmall();
      assert UnitText(1, "hour") == "1 hour";
      assert UnitText(30, "minute") == "30 minutes";
    }
    TrimKeeps("1 hour 30 minutes");
  }

  /** The longest timeout reads as 28 days; the trailing space is trimmed. */
  lemma DurationTextLongest()
    ensures DurationText(MaxTimeoutMs) == "28 days"
  {
    var ms := MaxTimeoutMs;
    assert ms / DayMs == 28 && ms % DayMs / HourMs == 0 && ms % HourMs / MinuteMs == 0;
    var raw := RawDurationText(28, 0, 0);
    NatToStringSmall();
    assert UnitText(28, "day") == "28 days";
    assert raw == "28 days" + " ";
    TrimDropsLastSpace("28 days");
  }

  lemma NatToStringSmall()
    ensures NatToString(1) == "1" && NatToString(30) == "30" && NatToString(28) == "28"
  {
    assert NatToString(3) == "3" && NatToString(0) == "0";
    assert NatToString(2) == "2" && NatToString(8) == "8";
  }

  lemma TrimKeeps(s: string)
    requires s != [] && !IsSpace(s[0]) && !IsSpace(s[|s| - 1])
    ensures Trim(s) == s
  {
    assert TrimStart(s) == s;
  }

  lemma TrimDropsLastSpace(s: string)
    requires s != [] && !IsSpace(s[0]) && !IsSpace(s[|s| - 1])
    ensures Trim(s + " ") == s
  {
    var t := s + " ";
    assert TrimStart(t) == t;
    assert t[..|t| - 1] == s;
  }

  // ---------------------------------------------------------------- timeout

  /** A member the handler can look up: its id, its tag and whether the bot may time it out. */
  datatype Member = Member(id: string, tag: string, manageable: bool)

  datatype TimeoutReply =
    | TimeoutUsage
    | MemberNotFound
    | CannotTimeout
    | InvalidDuration
    | DurationOutOfRange
    | TimeoutFailed
    | TimedOut(ms: nat, durationText: string, reason: string, description: string, loggedTo: Option<string>)

  /**
   * `!mod timeout <member> <duration> [reason]`, with the intended bounds check. `target`
   * is the member the mention or id finds, `applied` whether the platform applied the
   * timeout, and `channels` the guild's channels.
   */
  function Timeout(args: seq<string>, target: Option<Member>, settings: SettingsView, channels: set<string>,
                   moderatorTag: string, applied: bool): (r: TimeoutReply)
    ensures |args| < 2 <==> r == TimeoutUsage
    ensures r == MemberNotFound <==> |args| >= 2 && target.None?
    ensures r == InvalidDuration <==>
      |args| >= 2 && target.Some? && target.value.manageable && CheckDuration(args[1]) == BadFormat
    ensures r.TimedOut? <==>
      |args| >= 2 && target.Some? && target.value.manageable && CheckDuration(args[1]).Accepted? && applied
    ensures r.TimedOut? ==>
      && Num(r.ms) == CheckDuration(args[1]).ms && MinuteMs <= r.ms <= MaxTimeoutMs
      && r.durationText == DurationText(r.ms) && r.durationText != ""
      && r.reason == Reason(args, 2)
      && r.loggedTo == LogChannel(settings, channels, None)
  {
    if |args| < 2 then TimeoutUsage
    else if target.None? then MemberNotFound
    else if !target.value.manageable then CannotTimeout
    else match CheckDuration(args[1])
      case BadFormat => InvalidDuration
      case OutOfRange => DurationOutOfRange
      case Accepted(ms) =>
        if !applied then TimeoutFailed
        else
          var text := DurationText(ms.value);
          var reason := Reason(args, 2);
          var tag := target.value.tag;
          DurationTextEmptyIff(ms.value);
          TimedOut(ms.value, text, reason,
            Description(settings, "timeout",
              [("user", tag), ("reason", reason), ("moderator", moderatorTag), ("duration", text)],
              "⏱️ **" + tag + "** has been timed out for " + text + "."),
            LogChannel(settings, channels, None))
  }

  // ---------------------------------------------------------------- slowmode

  const MaxSlowmodeSeconds: nat := 21600

  /** `parseInt(args[1])`, accepted when a number from 0 to 21600. */
  function SlowmodeSeconds(arg: string): (r: Option<nat>)
    ensures r.Some? <==> ParseInt(arg).Some? && 0 <= ParseInt(arg).value <= MaxSlowmodeSeconds
    ensures r.Some? ==> r.value == ParseInt(arg).value
  {
    match ParseInt(arg)
    case None => None
    case Some(n) => if n < 0 || n > MaxSlowmodeSeconds then None else Some(n)
  }

  /** A count of seconds written out is accepted exactly when it is at most six hours. */
  lemma SlowmodeOfCount(n: nat)
    ensures SlowmodeSeconds(NatToString(n)) == if n <= MaxSlowmodeSeconds then Some(n) else None
  {
    ParseIntOfNatToString(n);
  }

  /** A channel the handler can look up: its id and whether it is a guild text channel. */
  datatype Channel = Channel(id: string, isText: bool)

  datatype SlowmodeReply =
    | SlowmodeUsage
    | ChannelNotFound
    | NotTextChannel
    | SlowmodeOutOfRange
    | SlowmodeFailed
    | SlowmodeSet(channelId: string, seconds: nat, disabled: bool, loggedTo: Option<string>)

  /** `!mod slowmode <channel> <seconds>`; `applied` is whether the platform set the rate limit. */
  function Slowmode(args: seq<string>, channel: Option<Channel>, settings: SettingsView, channels: set<string>,
                    applied: bool): (r: SlowmodeReply)
    ensures |args| < 2 <==> r == SlowmodeUsage
    ensures r == SlowmodeOutOfRange <==>
      |args| >= 2 && channel.Some? && channel.value.isText && SlowmodeSeconds(args[1]).None?
    ensures r.SlowmodeSet? <==>
      |args| >= 2 && channel.Some? && channel.value.isText && SlowmodeSeconds(args[1]).Some? && applied
    ensures r.SlowmodeSet? ==>
      && Some(r.seconds) == SlowmodeSeconds(args[1]) && r.seconds <= MaxSlowmodeSeconds
      && (r.disabled <==> r.seconds == 0)
      && r.channelId == channel.value.id
      && r.loggedTo != Some(r.channelId)
      && r.loggedTo == LogChannel(settings, channels, Some(r.channelId))
  {
    if |args| < 2 then SlowmodeUsage
    else if channel.None? then ChannelNotFound
    else if !channel.value.isText then NotTextChannel
    else match SlowmodeSeconds(args[1])
      case None => SlowmodeOutOfRange
      case Some(seconds) =>
        if !applied then SlowmodeFailed
        else SlowmodeSet(channel.value.id, seconds, seconds == 0, LogChannel(settings, channels, Some(channel.value.id)))
  }

  // ---------------------------------------------------------------- warnings

  /** Warning ids are their positions, counted from 1. */
  ghost predicate IdsArePositions(ws: seq<Warning>) {
    forall i :: 0 <= i < |ws| ==> ws[i].id == i + 1
  }

  /** The warning `handleWarn` appends to `ws`. */
  function NextWarning(ws: seq<Warning>, reason: string, moderatorId: string, moderatorTag: string, now: int): (w: Warning)
    ensures IdsArePositions(ws) ==> IdsArePositions(ws + [w])
    ensures w.id == |ws| + 1
  {
    Warning(|ws| + 1, reason, moderatorId, moderatorTag, now)
  }

  /** Numbering from an empty record, the ids of any run of warnings are 1, 2, 3, .... */
  lemma {:induction false} WarningsNumbered(reasons: seq<string>, moderatorId: string, moderatorTag: string, now: int)
    ensures IdsArePositions(Appended([], reasons, moderatorId, moderatorTag, now))
    ensures |Appended([], reasons, moderatorId, moderatorTag, now)| == |reasons|
  {
    AppendedKeepsIds([], reasons, moderatorId, moderatorTag, now);
  }

  /** The warnings after warning once for each reason in turn. */
  function Appended(ws: seq<Warning>, reasons: seq<string>, moderatorId: string, moderatorTag: string, now: int): seq<Warning>
    decreases |reasons|
  {
    if reasons == [] then ws
    else Appended(ws + [NextWarning(ws, reasons[0], moderatorId, moderatorTag, now)], reasons[1..], moderatorId, moderatorTag, now)
  }

  lemma {:induction false} AppendedKeepsIds(ws: seq<Warning>, reasons: seq<string>, moderatorId: string, moderatorTag: string, now: int)
    requires IdsArePositions(ws)
    ensures IdsArePositions(Appended(ws, reasons, moderatorId, moderatorTag, now))
    ensures |Appended(ws, reasons, moderatorId, moderatorTag, now)| == |ws| + |reasons|
    decreases |reasons|
  {
    if reasons != [] {
      var w := NextWarning(ws, reasons[0], moderatorId, moderatorTag, now);
      AppendedKeepsIds(ws + [w], reasons[1..], moderatorId, moderatorTag, now);
    }
  }

  datatype WarnReply =
    | WarnUsage
    | WarnTargetNotFound
    | Warned(warning: Warning, total: nat, description: string, loggedTo: Option<string>)

  /** The description of a warning reply. */
  function WarnDescription(settings: SettingsView, tag: string, w: Warning, total: nat, moderatorTag: string): string
    requires w.id >= 0
  {
    Description(settings, "warn", WarnData(tag, w, total, moderatorTag),
      "⚠️ **" + tag + "** has been warned.")
  }

  function WarnData(tag: string, w: Warning, total: nat, moderatorTag: string): seq<(string, string)>
    requires w.id >= 0
  {
    [("user", tag), ("reason", w.reason), ("moderator", moderatorTag),
     ("warning_id", NatToString(w.id)), ("total_warnings", NatToString(total))]
  }

  /**
   * `!mod warn <member> [reason]`: the target's record gets one more warning, numbered
   * after the ones it has, and is written back under its own key.
   */
  method Warn(db: Database, guildId: string, args: seq<string>, target: Option<Member>,
              moderatorId: string, moderatorTag: string, now: int, channels: set<string>)
    returns (out: WarnReply)
    requires db.Valid()
    modifies db, db.users.Values
    ensures db.Valid() && forall g :: db.SettingsOf(g) == old(db.SettingsOf(g))
    ensures out == WarnUsage <==> args == []
    ensures out == WarnTargetNotFound <==> args != [] && target.None?
    ensures !out.Warned? ==> db.users == old(db.users)
    ensures out.Warned? ==>
      var before := old(db.UserOf(target.value.id, guildId));
      && out.warning == NextWarning(before.warnings, Reason(args, 1), moderatorId, moderatorTag, now)
      && out.total == |before.warnings| + 1
      && db.Entry(UserKey(guildId, target.value.id)) == Some(before.(warnings := before.warnings + [out.warning]))
      && out.description == WarnDescription(old(db.SettingsOf(guildId)), target.value.tag, out.warning, out.total, moderatorTag)
      && out.loggedTo == LogChannel(old(db.SettingsOf(guildId)), channels, None)
    ensures forall k :: (target.None? || k != UserKey(guildId, target.value.id)) ==> db.Entry(k) == old(db.Entry(k))
  {
    if args == [] {
      return WarnUsage;
    }
    if target.None? {
      return WarnTargetNotFound;
    }
    var member := target.value;
    var warning, total := AddWarning(db, guildId, member.id, Reason(args, 1), moderatorId, moderatorTag, now);
    var description, loggedTo := Announce(db, guildId, member.tag, warning, total, moderatorTag, channels);
    out := Warned(warning, total, description, loggedTo);
  }

  /** The store part of `handleWarn`: fetch the record, push the next warning, write it back. */
  method AddWarning(db: Database, guildId: string, userId: string, reason: string,
                    moderatorId: string, moderatorTag: string, now: int)
    returns (warning: Warning, total: nat)
    requires db.Valid()
    modifies db, db.users.Values
    ensures db.Valid() && db.guildSettings == old(db.guildSettings)
    ensures forall g :: db.SettingsOf(g) == old(db.SettingsOf(g))
    ensures var before := old(db.UserOf(userId, guildId));
      && warning == NextWarning(before.warnings, reason, moderatorId, moderatorTag, now)
      && total == |before.warnings| + 1
      && db.Entry(UserKey(guildId, userId)) == Some(before.(warnings := before.warnings + [warning]))
    ensures forall k :: k != UserKey(guildId, userId) ==> db.Entry(k) == old(db.Entry(k))
  {
    var user := db.GetUser(userId, guildId);
    warning := NextWarning(user.warnings, reason, moderatorId, moderatorTag, now);
    user.warnings := user.warnings + [warning];
    db.UpdateUser(userId, guildId, user);
    total := |user.warnings|;
  }

  /** The reply part of `handleWarn`: read the guild's settings, fill in the description, pick the log channel. */
  method Announce(db: Database, guildId: string, tag: string, warning: Warning, total: nat,
                  moderatorTag: string, channels: set<string>)
    returns (description: string, loggedTo: Option<string>)
    requires db.Valid() && warning.id >= 0
    modifies db
    ensures db.Valid() && db.users == old(db.users)
    ensures forall g :: db.SettingsOf(g) == old(db.SettingsOf(g))
    ensures description == WarnDescription(old(db.SettingsOf(guildId)), tag, warning, total, moderatorTag)
    ensures loggedTo == LogChannel(old(db.SettingsOf(guildId)), channels, None)
  {
    var settings := db.GetGuildSettings(guildId);
    var custom := CustomTemplate(settings.View(), "warn");
    if custom.Some? {
      description := FormatCustomMessage(custom.value, WarnData(tag, warning, total, moderatorTag));
    } else {
      description := "⚠️ **" + tag + "** has been warned.";
    }
    loggedTo := LogChannel(settings.View(), channels, None);
  }

  // ---------------------------------------------------------------- warnings listing

  /** Newest first: timestamps never increase along the sequence. */
  predicate NewestFirstOrder(ws: seq<Warning>) {
    forall i, j :: 0 <= i < j < |ws| ==> ws[i].timestamp >= ws[j].timestamp
  }

  /** Put `w` before the first warning that is not newer than it. */
  function InsertNewest(w: Warning, s: seq<Warning>): seq<Warning> {
    if s == [] || s[0].timestamp <= w.timestamp then [w] + s else [s[0]] + InsertNewest(w, s[1..])
  }

  /**
   * `[...warnings].sort((a, b) => b.timestamp - a.timestamp)`: a stable sort, newest
   * first, where warnings with equal timestamps keep their stored order.
   */
  function NewestFirst(ws: seq<Warning>): seq<Warning> {
    if ws == [] then [] else InsertNewest(ws[0], NewestFirst(ws[1..]))
  }

  /** Inserting adds exactly `w`. */
  lemma {:induction false} InsertNewestPermutes(w: Warning, s: seq<Warning>)
    ensures multiset(InsertNewest(w, s)) == multiset(s) + multiset{w}
    ensures |InsertNewest(w, s)| == |s| + 1
  {
    if s != [] && s[0].timestamp > w.timestamp {
      InsertNewestPermutes(w, s[1..]);
      assert s == [s[0]] + s[1..];
    }
  }

  /** Inserting keeps an upper bound on the timestamps. */
  lemma {:induction false} InsertNewestBounded(w: Warning, s: seq<Warning>, b: int)
    requires forall k :: 0 <= k < |s| ==> s[k].timestamp <= b
    requires w.timestamp <= b
    ensures forall k :: 0 <= k < |InsertNewest(w, s)| ==> InsertNewest(w, s)[k].timestamp <= b
  {
    if s != [] && s[0].timestamp > w.timestamp {
      InsertNewestBounded(w, s[1..], b);
      assert InsertNewest(w, s) == [s[0]] + InsertNewest(w, s[1..]);
    }
  }

  lemma {:induction false} InsertNewestSorted(w: Warning, s: seq<Warning>)
    requires NewestFirstOrder(s)
    ensures NewestFirstOrder(InsertNewest(w, s))
    ensures multiset(InsertNewest(w, s)) == multiset(s) + multiset{w}
    ensures |InsertNewest(w, s)| == |s| + 1
  {
    InsertNewestPermutes(w, s);
    if s != [] && s[0].timestamp > w.timestamp {
      var t := InsertNewest(w, s[1..]);
      InsertNewestSorted(w, s[1..]);
      InsertNewestBounded(w, s[1..], s[0].timestamp);
      assert InsertNewest(w, s) == [s[0]] + t;
    }
  }

  /** The listing is ordered newest first and holds exactly the stored warnings. */
  lemma {:induction false} NewestFirstSortsAndPermutes(ws: seq<Warning>)
    ensures NewestFirstOrder(NewestFirst(ws))
    ensures multiset(NewestFirst(ws)) == multiset(ws)
    ensures |NewestFirst(ws)| == |ws|
  {
    if ws != [] {
      var rest := NewestFirst(ws[1..]);
      NewestFirstSortsAndPermutes(ws[1..]);
      InsertNewestSorted(ws[0], rest);
      assert NewestFirst(ws) == InsertNewest(ws[0], rest);
      assert multiset(ws) == multiset(ws[1..]) + multiset{ws[0]} by {
        assert ws == [ws[0]] + ws[1..];
      }
    }
  }

  /** The warnings of one timestamp, in order. */
  function WithTimestamp(ws: seq<Warning>, t: int): seq<Warning> {
    if ws == [] then [] else (if ws[0].timestamp == t then [ws[0]] else []) + WithTimestamp(ws[1..], t)
  }

  lemma {:induction false} InsertNewestAt(w: Warning, s: seq<Warning>, t: int)
    ensures WithTimestamp(InsertNewest(w, s), t) == (if w.timestamp == t then [w] else []) + WithTimestamp(s, t)
  {
    var ins := InsertNewest(w, s);
    var b := if w.timestamp == t then [w] else [];
    if s != [] && s[0].timestamp > w.timestamp {
      var tail := InsertNewest(w, s[1..]);
      assert ins[0] == s[0] && ins[1..] == tail;
      InsertNewestAt(w, s[1..], t);
      var a := if s[0].timestamp == t then [s[0]] else [];
      assert WithTimestamp(ins, t) == a + (b + WithTimestamp(s[1..], t));
      assert WithTimestamp(s, t) == a + WithTimestamp(s[1..], t);
      assert a == [] || b == [];
    } else {
      assert ins[0] == w && ins[1..] == s;
      assert WithTimestamp(ins, t) == b + WithTimestamp(s, t);
    }
  }

  /** The sort is stable: the warnings of any one timestamp come out in their stored order. */
  lemma {:induction false} NewestFirstStable(ws: seq<Warning>, t: int)
    ensures WithTimestamp(NewestFirst(ws), t) == WithTimestamp(ws, t)
  {
    if ws != [] {
      NewestFirstStable(ws[1..], t);
      InsertNewestAt(ws[0], NewestFirst(ws[1..]), t);
    }
  }

  datatype WarningsReply =
    | WarningsUsage
    | UserNotFound
    | NoWarnings
    | WarningsListed(warnings: seq<Warning>, count: nat)

  /** What the listing shows for the stored warnings. */
  function Listing(ws: seq<Warning>): (r: WarningsReply)
    ensures ws == [] <==> r == NoWarnings
    ensures r.WarningsListed? ==>
      && r.count == |ws| == |r.warnings|
      && NewestFirstOrder(r.warnings) && multiset(r.warnings) == multiset(ws)
  {
    if ws == [] then NoWarnings
    else
      NewestFirstSortsAndPermutes(ws);
      WarningsListed(NewestFirst(ws), |ws|)
  }

  /**
   * `!mod warnings <user>`: the target's record is fetched (and created when missing),
   * and its warnings are listed; the stored list is left as it was.
   */
  method ListWarnings(db: Database, guildId: string, args: seq<string>, target: Option<string>)
    returns (out: WarningsReply)
    requires db.Valid()
    modifies db
    ensures db.Valid() && db.guildSettings == old(db.guildSettings)
    ensures out == WarningsUsage <==> args == []
    ensures out == UserNotFound <==> args != [] && target.None?
    ensures args != [] && target.Some? ==>
      && out == Listing(old(db.UserOf(target.value, guildId)).warnings)
      && db.Entry(UserKey(guildId, target.value)) == Some(old(db.UserOf(target.value, guildId)))
    ensures forall k :: (target.None? || k != UserKey(guildId, target.value)) ==> db.Entry(k) == old(db.Entry(k))
    ensures args == [] || target.None? ==> db.users == old(db.users)
  {
    if args == [] {
      return WarningsUsage;
    }
    if target.None? {
      return UserNotFound;
    }
    var user := db.GetUser(target.value, guildId);
    out := Listing(user.warnings);
  }
}
