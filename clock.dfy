/**
  agent/tools/clock.py: the current time in 12-hour form, and two registries,
  one of alarms and one of timers, that `set_alarm` and `set_timer` append
  to. The wall-clock time is a parameter. The background threads are modelled
  only as far as what they decide: when an alarm is due and what it prints.
 */
module Clock {
  import opened Text
  import opened Python

  /** `{"hour": hour, "minute": minute, "objective": objective}` */
  datatype AlarmRecord = AlarmRecord(hour: Json, minute: Json, objective: Json)

  /** `{"seconds": seconds, "objective": objective}` */
  datatype TimerRecord = TimerRecord(seconds: Json, objective: Json)

  /** The fields of `datetime.datetime.now()` the tool reads. */
  datatype WallTime = WallTime(hour: int, minute: int, second: int)

  predicate ValidTime(t: WallTime) {
    0 <= t.hour < 24 && 0 <= t.minute < 60 && 0 <= t.second < 60
  }

  // ---------------------------------------------------------------------------
  // get_current_time
  // ---------------------------------------------------------------------------

  /** The `%I` hour: 12 for midnight and noon, otherwise the hour modulo 12. */
  function Hour12(hour: int): int {
    if hour % 12 == 0 then 12 else hour % 12
  }

  /** The `%p` suffix. */
  function Meridiem(hour: int): string {
    if hour < 12 then "AM" else "PM"
  }

  /** `strftime('%I:%M:%S %p')` */
  function Clock12(t: WallTime): string {
    IntField02(Hour12(t.hour)) + ":" + IntField02(t.minute) + ":" + IntField02(t.second) + " " + Meridiem(t.hour)
  }

  const TimePrefix: string := "The current time is "

  /** `get_current_time()` at the time `now`. */
  function GetCurrentTime(now: WallTime): string {
    TimePrefix + Clock12(now)
  }

  /** The 24-hour hour of a 12-hour hour and its suffix. */
  function To24(hour12: int, pm: bool): int {
    hour12 % 12 + if pm then 12 else 0
  }

  /** Reads a `%I:%M:%S %p` text back into a time. */
  function ReadClock12(s: string): Option<WallTime> {
    if |s| == 11 && s[2] == ':' && s[5] == ':' && s[8] == ' ' && s[9..] in {"AM", "PM"} then
      var h, m, sec := ParseInt(s[..2]), ParseInt(s[3..5]), ParseInt(s[6..8]);
      if h.Some? && m.Some? && sec.Some? then Some(WallTime(To24(h.value, s[9..] == "PM"), m.value, sec.value))
      else None
    else None
  }

  /** The hour field is always 1..12, shows 12 exactly at midnight and noon,
      and the suffix is AM exactly before noon; with the suffix the 24-hour
      hour is recovered. */
  lemma Hour12Properties(hour: int)
    requires 0 <= hour < 24
    ensures 1 <= Hour12(hour) <= 12
    ensures Hour12(hour) == 12 <==> hour == 0 || hour == 12
    ensures Meridiem(hour) == "AM" <==> hour < 12
    ensures To24(Hour12(hour), Meridiem(hour) == "PM") == hour
  {
  }

  /** A two-digit field reads back as its number. */
  lemma Field2(n: int)
    requires 0 <= n <= 99
    ensures |IntField02(n)| == 2 && ParseInt(IntField02(n)) == Some(n)
  {
    Format02dInt(n);
  }

  /** A two-digit field is two digits, zero-padded below ten. */
  lemma Field2Digits(n: int)
    requires 0 <= n <= 99
    ensures |IntField02(n)| == 2 && IsDigit(IntField02(n)[0]) && IsDigit(IntField02(n)[1])
    ensures IntField02(n)[0] == '0' <==> n < 10
  {
    if n < 10 {
      Field02Digit(n);
    } else {
      Field02Wide(n);
    }
  }

  lemma Clock12Layout(t: WallTime)
    requires ValidTime(t)
    ensures var s := Clock12(t);
      |s| == 11 && s[..2] == IntField02(Hour12(t.hour)) && s[2] == ':'
      && s[3..5] == IntField02(t.minute) && s[5] == ':'
      && s[6..8] == IntField02(t.second) && s[8] == ' ' && s[9..] == Meridiem(t.hour)
  {
    Hour12Properties(t.hour);
    Field2(Hour12(t.hour));
    Field2(t.minute);
    Field2(t.second);
    FieldsLayout(IntField02(Hour12(t.hour)), IntField02(t.minute), IntField02(t.second), Meridiem(t.hour));
  }

  lemma FieldsLayout(a: string, b: string, c: string, d: string)
    requires |a| == |b| == |c| == |d| == 2
    ensures var s := a + ":" + b + ":" + c + " " + d;
      |s| == 11 && s[..2] == a && s[2] == ':' && s[3..5] == b && s[5] == ':'
      && s[6..8] == c && s[8] == ' ' && s[9..] == d
  {
  }

  /** The 12-hour text of a valid time determines that time. */
  lemma {:induction false} ReadClock12Inverse(t: WallTime)
    requires ValidTime(t)
    ensures ReadClock12(Clock12(t)) == Some(t)
  {
    var s := Clock12(t);
    Clock12Layout(t);
    Hour12Properties(t.hour);
    Field2(Hour12(t.hour));
    Field2(t.minute);
    Field2(t.second);
  }

  /** The time is reported after a fixed sentence. */
  lemma CurrentTimeShape(now: WallTime)
    requires ValidTime(now)
    ensures var s := GetCurrentTime(now);
      |s| == |TimePrefix| + 11 && s[..|TimePrefix|] == TimePrefix
      && ReadClock12(s[|TimePrefix|..]) == Some(now)
  {
    var s := GetCurrentTime(now);
    assert s[|TimePrefix|..] == Clock12(now);
    Clock12Layout(now);
    ReadClock12Inverse(now);
  }

  // ---------------------------------------------------------------------------
  // The alarm and timer threads
  // ---------------------------------------------------------------------------

  /** `n == v` for an integer `n`: a bool compares as 0 or 1, and values of
      other types are never equal to an integer. */
  predicate EqualsInt(n: int, v: Json) {
    match v
    case JInt(i) => i == n
    case JBool(b) => n == if b then 1 else 0
    case _ => false
  }

  /** The value `v` holds as an integer, when it holds one. */
  function IntValue(v: Json): Option<int> {
    match v
    case JInt(i) => Some(i)
    case JBool(b) => Some(if b then 1 else 0)
    case _ => None
  }

  /** `now.hour == hour and now.minute == minute` */
  predicate AlarmDue(now: WallTime, hour: Json, minute: Json) {
    EqualsInt(now.hour, hour) && EqualsInt(now.minute, minute)
  }

  /** The alarm is due exactly when the hour and the minute both match. */
  lemma AlarmDueExact(now: WallTime, hour: int, minute: int)
    ensures AlarmDue(now, JInt(hour), JInt(minute)) <==> now.hour == hour && now.minute == minute
  {
  }

  /** An alarm can ever be due exactly when its hour and minute are integers
      (or booleans) within a day's range; otherwise its thread polls
      forever. */
  lemma AlarmCanFire(hour: Json, minute: Json)
    ensures (exists t :: ValidTime(t) && AlarmDue(t, hour, minute)) <==>
      IntValue(hour).Some? && IntValue(minute).Some?
      && 0 <= IntValue(hour).value < 24 && 0 <= IntValue(minute).value < 60
  {
    if IntValue(hour).Some? && IntValue(minute).Some?
       && 0 <= IntValue(hour).value < 24 && 0 <= IntValue(minute).value < 60 {
      var t := WallTime(IntValue(hour).value, IntValue(minute).value, 0);
      assert ValidTime(t) && AlarmDue(t, hour, minute);
    }
  }

  /** What the alarm thread prints: the objective, or "Wake up!" when the
      objective is falsy. */
  function AlarmNotice(objective: Json): string {
    "Alarm: " + Str(Or(objective, JStr("Wake up!")))
  }

  /** What the timer thread prints: the objective, or "Time is up!" when the
      objective is falsy. */
  function TimerNotice(objective: Json): string {
    "\U{23F3} Timer Done: " + Str(Or(objective, JStr("Time is up!")))
  }

  lemma NoticeDefaults(objective: Json)
    ensures AlarmNotice(objective)
            == "Alarm: " + if Truthy(objective) then Str(objective) else "Wake up!"
    ensures TimerNotice(objective)
            == "\U{23F3} Timer Done: " + if Truthy(objective) then Str(objective) else "Time is up!"
  {
  }

  /** `alarm_thread`: `samples` are the times successive polls of the clock
      read. The loop stops at the first poll at which the alarm is due and
      prints the notice; when no poll matches it is still polling. */
  method AlarmThread(samples: seq<WallTime>, hour: Json, minute: Json, objective: Json)
    returns (fired: Option<nat>, printed: seq<string>)
    ensures fired.Some? ==> fired.value < |samples| && AlarmDue(samples[fired.value], hour, minute)
    ensures forall j :: 0 <= j < |samples| && (fired.None? || j < fired.value) ==> !AlarmDue(samples[j], hour, minute)
    ensures printed == if fired.Some? then [AlarmNotice(objective)] else []
  {
    fired, printed := None, [];
    var i := 0;
    while i < |samples|
      invariant 0 <= i <= |samples|
      invariant forall j :: 0 <= j < i ==> !AlarmDue(samples[j], hour, minute)
    {
      if AlarmDue(samples[i], hour, minute) {
        printed := printed + [AlarmNotice(objective)];
        fired := Some(i);
        return;
      }
      i := i + 1;
    }
  }

  // ---------------------------------------------------------------------------
  // Confirmations and the clock command
  // ---------------------------------------------------------------------------

  const Dash: string := " \U{2014} "
  const AlarmHead: string := "Alarm set for "

  /** The text `set_alarm` returns, or the exception its `02d` formats raise
      for an hour or minute that is not an integer. */
  function AlarmConfirmation(hour: Json, minute: Json, objective: Json): Outcome<string> {
    match Format02d(hour)
    case Raised(e) => Raised(e)
    case Returned(hh) =>
      match Format02d(minute)
      case Raised(e) => Raised(e)
      case Returned(mm) => Returned(AlarmHead + hh + ":" + mm + Dash + Str(objective))
  }

  const TimerHead: string := "Timer set for "
  const SecondsWord: string := " seconds"

  /** The text `set_timer` returns; any value can be shown. */
  function TimerConfirmation(seconds: Json, objective: Json): string {
    TimerHead + Str(seconds) + SecondsWord + Dash + Str(objective)
  }

  /** For whole seconds the confirmation shows the number, which reads back
      as the seconds, between the head and " seconds — " and the
      objective. */
  lemma TimerConfirmationText(seconds: int, objective: Json)
    ensures var r, k, d := TimerConfirmation(JInt(seconds), objective), |TimerHead|, |Str(JInt(seconds))|;
      |r| == k + d + |SecondsWord| + |Dash| + |Str(objective)|
      && r[..k] == TimerHead && ParseInt(r[k..k + d]) == Some(seconds)
      && r[k + d..] == SecondsWord + Dash + Str(objective)
  {
    StrOfInt(seconds);
    TimerLayout(TimerHead, Str(JInt(seconds)), SecondsWord, Dash, Str(objective));
  }

  lemma TimerLayout(head: string, n: string, word: string, dash: string, objective: string)
    ensures var v := head + n + word + dash + objective;
      |v| == |head| + |n| + |word| + |dash| + |objective| && v[..|head|] == head
      && v[|head|..|head| + |n|] == n && v[|head| + |n|..] == word + dash + objective
  {
    var v := head + n + word + dash + objective;
    assert v == (head + n) + (word + dash + objective);
  }

  /** For an hour and a minute in 0..99 the confirmation shows each as two
      digits, zero-padded below ten, that read back as the number, and ends
      with the dash and the objective, so an empty objective leaves the dash
      last. */
  lemma AlarmConfirmationText(hour: int, minute: int, objective: Json)
    requires 0 <= hour <= 99 && 0 <= minute <= 99
    ensures var r, k := AlarmConfirmation(JInt(hour), JInt(minute), objective), |AlarmHead|;
      r.Returned? && |r.value| == k + 5 + |Dash| + |Str(objective)|
      && r.value[..k] == AlarmHead
      && ParseInt(r.value[k..k + 2]) == Some(hour) && r.value[k + 2] == ':'
      && ParseInt(r.value[k + 3..k + 5]) == Some(minute)
      && r.value[k + 5..] == Dash + Str(objective)
    ensures var r, k := AlarmConfirmation(JInt(hour), JInt(minute), objective), |AlarmHead|;
      r.Returned? && |r.value| >= k + 5
      && (forall i :: k <= i < k + 5 && i != k + 2 ==> IsDigit(r.value[i]))
      && (r.value[k] == '0' <==> hour < 10) && (r.value[k + 3] == '0' <==> minute < 10)
  {
    Field2(hour);
    Field2(minute);
    Field2Digits(hour);
    Field2Digits(minute);
    AlarmConfirmationOfInts(hour, minute, objective);
    ConfirmationLayout(AlarmHead, IntField02(hour), IntField02(minute), Dash, Str(objective));
    ConfirmationDigits(AlarmHead, IntField02(hour), IntField02(minute), Dash, Str(objective));
  }

  lemma ConfirmationDigits(s: string, hh: string, mm: string, dash: string, objective: string)
    requires |hh| == |mm| == 2 && IsDigit(hh[0]) && IsDigit(hh[1]) && IsDigit(mm[0]) && IsDigit(mm[1])
    ensures var v := s + hh + ":" + mm + dash + objective;
      |v| >= |s| + 5 && v[|s|] == hh[0] && v[|s| + 3] == mm[0]
      && forall i :: |s| <= i < |s| + 5 && i != |s| + 2 ==> IsDigit(v[i])
  {
  }

  lemma AlarmConfirmationOfInts(hour: int, minute: int, objective: Json)
    ensures AlarmConfirmation(JInt(hour), JInt(minute), objective)
            == Returned(AlarmHead + IntField02(hour) + ":" + IntField02(minute) + Dash + Str(objective))
  {
  }

  lemma ConfirmationLayout(s: string, hh: string, mm: string, dash: string, objective: string)
    requires |hh| == |mm| == 2
    ensures var v := s + hh + ":" + mm + dash + objective;
      |v| == |s| + 5 + |dash| + |objective| && v[..|s|] == s && v[|s|..|s| + 2] == hh && v[|s| + 2] == ':'
      && v[|s| + 3..|s| + 5] == mm && v[|s| + 5..] == dash + objective
  {
  }

  /** An hour or minute that is not an integer makes `set_alarm` raise the
      format's exception, the hour's first. */
  lemma AlarmConfirmationRaises(hour: Json, minute: Json, objective: Json)
    requires IntValue(hour).None? || IntValue(minute).None?
    ensures var r := AlarmConfirmation(hour, minute, objective);
      r.Raised? && r.error == (if IntValue(hour).None? then Format02d(hour) else Format02d(minute)).error
  {
  }

  /** What `clock(args)` asks for. */
  datatype ClockCommand =
    | GetTime
    | Alarm(hour: Json, minute: Json, objective: Json)
    | Timer(seconds: Json, objective: Json)
    | WorldTime(city: Json)
    | UnknownCommand

  /** The `if`/`elif` chain on `args.get("type")`. */
  function CommandOf(args: seq<Entry>): ClockCommand {
    var t := GetOr(args, "type", JNull);
    if t == JStr("get_time") then GetTime
    else if t == JStr("alarm") then
      Alarm(GetOr(args, "hour", JNull), GetOr(args, "minute", JNull), GetOr(args, "objective", JStr("")))
    else if t == JStr("timer") then Timer(GetOr(args, "seconds", JNull), GetOr(args, "objective", JStr("")))
    else if t == JStr("world_time") then WorldTime(GetOr(args, "city", JStr("")))
    else UnknownCommand
  }

  const UnknownReply: string := "Unknown clock command."

  /** What `clock(args)` returns for a command at the time `now`.
      `get_time_in_timezone` is neither defined nor imported by the tool, so
      the world-time branch raises NameError. */
  function ClockReply(command: ClockCommand, now: WallTime): Outcome<string> {
    match command
    case GetTime => Returned(GetCurrentTime(now))
    case Alarm(h, m, o) => AlarmConfirmation(h, m, o)
    case Timer(s, o) => Returned(TimerConfirmation(s, o))
    case WorldTime(_) => Raised(PyError("NameError", "name 'get_time_in_timezone' is not defined"))
    case UnknownCommand => Returned(UnknownReply)
  }

  /** The alarms a command adds: one for an alarm, none otherwise. */
  function AlarmsAdded(command: ClockCommand): seq<AlarmRecord> {
    if command.Alarm? then [AlarmRecord(command.hour, command.minute, command.objective)] else []
  }

  /** The timers a command adds: one for a timer, none otherwise. */
  function TimersAdded(command: ClockCommand): seq<TimerRecord> {
    if command.Timer? then [TimerRecord(command.seconds, command.objective)] else []
  }

  /** A type other than the four known ones is the unknown command: it
      answers "Unknown clock command." and adds nothing. */
  lemma UnknownClockCommand(args: seq<Entry>)
    requires GetOr(args, "type", JNull) !in {JStr("get_time"), JStr("alarm"), JStr("timer"), JStr("world_time")}
    ensures CommandOf(args) == UnknownCommand
    ensures forall now :: ClockReply(CommandOf(args), now) == Returned(UnknownReply)
    ensures AlarmsAdded(CommandOf(args)) == [] && TimersAdded(CommandOf(args)) == []
  {
  }

  /** At most one record is added per command, and only alarms and timers
      add one. */
  lemma AddsAtMostOne(command: ClockCommand)
    ensures |AlarmsAdded(command)| + |TimersAdded(command)| <= 1
    ensures |AlarmsAdded(command)| == 1 <==> command.Alarm?
    ensures |TimersAdded(command)| == 1 <==> command.Timer?
  {
  }

  /** A missing objective is the empty text. */
  lemma ObjectiveDefault(args: seq<Entry>)
    requires !HasKey(args, "objective")
    ensures CommandOf(args).Alarm? ==> CommandOf(args).objective == JStr("")
    ensures CommandOf(args).Timer? ==> CommandOf(args).objective == JStr("")
  {
  }

  /** The two registries of the tool. */
  class ClockTool {
    var alarms: seq<AlarmRecord>
    var timers: seq<TimerRecord>

    constructor()
      ensures alarms == [] && timers == []
    {
      alarms, timers := [], [];
    }

    /** `set_alarm(hour, minute, objective)`: the record is appended before
        the confirmation is formatted, so it is kept even when formatting
        raises. */
    method SetAlarm(hour: Json, minute: Json, objective: Json) returns (r: Outcome<string>)
      modifies this
      ensures alarms == old(alarms) + [AlarmRecord(hour, minute, objective)]
      ensures timers == old(timers)
      ensures r == AlarmConfirmation(hour, minute, objective)
    {
      alarms := alarms + [AlarmRecord(hour, minute, objective)];
      r := AlarmConfirmation(hour, minute, objective);
    }

    /** `set_timer(seconds, objective)` */
    method SetTimer(seconds: Json, objective: Json) returns (r: string)
      modifies this
      ensures timers == old(timers) + [TimerRecord(seconds, objective)]
      ensures alarms == old(alarms)
      ensures r == TimerConfirmation(seconds, objective)
    {
      timers := timers + [TimerRecord(seconds, objective)];
      r := TimerConfirmation(seconds, objective);
    }

    /** `clock(args)` at the time `now`. */
    method Clock(args: seq<Entry>, now: WallTime) returns (r: Outcome<string>)
      modifies this
      ensures alarms == old(alarms) + AlarmsAdded(CommandOf(args))
      ensures timers == old(timers) + TimersAdded(CommandOf(args))
      ensures r == ClockReply(CommandOf(args), now)
    {
      var command := CommandOf(args);
      match command
      case Alarm(h, m, o) =>
        r := SetAlarm(h, m, o);
      case Timer(s, o) =>
        var text := SetTimer(s, o);
        r := Returned(text);
      case _ =>
        r := ClockReply(command, now);
    }
  }
}
