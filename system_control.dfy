/**
  agent/tools/system_control.py: the process listing, killing a process by
  PID, and the dispatcher on `args["type"]`. What psutil reports is a
  parameter: the processes `process_iter` yields, and what happens when a
  PID is terminated.
 */
module SystemControl {
  import opened Text
  import opened Python

  // ---------------------------------------------------------------------------
  // The process listing
  // ---------------------------------------------------------------------------

  /** `proc.info` for one process. The CPU and memory percentages are in
      tenths of a percent; None is what psutil reports for a value it was
      denied. */
  datatype ProcInfo = ProcInfo(pid: int, name: Option<string>, cpu: Option<nat>, mem: Option<nat>)

  /** `x['cpu_percent'] or 0` */
  function CpuKey(p: ProcInfo): nat {
    if p.cpu.Some? then p.cpu.value else 0
  }

  /** `proc['memory_percent'] or 0` */
  function MemOrZero(p: ProcInfo): nat {
    if p.mem.Some? then p.mem.value else 0
  }

  predicate SortedByCpu(s: seq<ProcInfo>) {
    forall i, j :: 0 <= i < j < |s| ==> CpuKey(s[i]) >= CpuKey(s[j])
  }

  /** Places `x` after every entry whose key is at least its own. */
  function Insert(x: ProcInfo, s: seq<ProcInfo>): (r: seq<ProcInfo>)
    ensures multiset(r) == multiset(s) + multiset{x}
  {
    if s == [] then [x]
    else if CpuKey(s[0]) >= CpuKey(x) then
      assert s == [s[0]] + s[1..];
      [s[0]] + Insert(x, s[1..])
    else [x] + s
  }

  /** `processes.sort(key=lambda x: x['cpu_percent'] or 0, reverse=True)`:
      Python's sort is stable, also in reverse, so the entries are inserted
      one by one in their original order. */
  function SortByCpu(s: seq<ProcInfo>): seq<ProcInfo> {
    if s == [] then [] else Insert(s[|s| - 1], SortByCpu(s[..|s| - 1]))
  }

  lemma {:induction false} InsertSorted(x: ProcInfo, s: seq<ProcInfo>)
    requires SortedByCpu(s)
    ensures SortedByCpu(Insert(x, s))
  {
    if s != [] && CpuKey(s[0]) >= CpuKey(x) {
      InsertSorted(x, s[1..]);
      InsertBelow(x, s[1..], CpuKey(s[0]));
      var t := Insert(x, s[1..]);
      var r := [s[0]] + t;
      assert Insert(x, s) == r;
      forall i, j | 0 <= i < j < |r| ensures CpuKey(r[i]) >= CpuKey(r[j]) {
        assert r[j] == t[j - 1];
        if i > 0 {
          assert r[i] == t[i - 1];
        }
      }
    }
  }

  /** Inserting an entry under a bound keeps every key under it. */
  lemma {:induction false} InsertBelow(x: ProcInfo, s: seq<ProcInfo>, b: nat)
    requires CpuKey(x) <= b && forall j :: 0 <= j < |s| ==> CpuKey(s[j]) <= b
    ensures forall j :: 0 <= j < |Insert(x, s)| ==> CpuKey(Insert(x, s)[j]) <= b
  {
    if s != [] && CpuKey(s[0]) >= CpuKey(x) {
      InsertBelow(x, s[1..], b);
      var t := Insert(x, s[1..]);
      assert Insert(x, s) == [s[0]] + t;
    }
  }

  lemma {:induction false} SortPermutes(s: seq<ProcInfo>)
    ensures multiset(SortByCpu(s)) == multiset(s)
  {
    if s != [] {
      SortPermutes(s[..|s| - 1]);
      assert s == s[..|s| - 1] + [s[|s| - 1]];
    }
  }

  /** The sorted list holds the same processes, in non-increasing order of
      CPU usage. */
  lemma {:induction false} SortByCpuSorted(s: seq<ProcInfo>)
    ensures SortedByCpu(SortByCpu(s))
    ensures multiset(SortByCpu(s)) == multiset(s) && |SortByCpu(s)| == |s|
  {
    SortPermutes(s);
    assert |multiset(SortByCpu(s))| == |multiset(s)|;
    if s != [] {
      SortByCpuSorted(s[..|s| - 1]);
      InsertSorted(s[|s| - 1], SortByCpu(s[..|s| - 1]));
    }
  }

  /** `[p]` when `p` has the key `k`, otherwise nothing. */
  function OneWithKey(p: ProcInfo, k: nat): seq<ProcInfo> {
    if CpuKey(p) == k then [p] else []
  }

  /** The entries of `s` with CPU key `k`, in their order in `s`. */
  function WithKey(s: seq<ProcInfo>, k: nat): seq<ProcInfo> {
    if s == [] then [] else OneWithKey(s[0], k) + WithKey(s[1..], k)
  }

  lemma Associative(a: seq<ProcInfo>, b: seq<ProcInfo>, c: seq<ProcInfo>)
    ensures a + (b + c) == (a + b) + c
  {
  }

  lemma WithKeyCons(p: ProcInfo, s: seq<ProcInfo>, k: nat)
    ensures WithKey([p] + s, k) == OneWithKey(p, k) + WithKey(s, k)
  {
    assert ([p] + s)[0] == p && ([p] + s)[1..] == s;
  }

  lemma {:induction false} WithKeyAppend(a: seq<ProcInfo>, b: seq<ProcInfo>, k: nat)
    ensures WithKey(a + b, k) == WithKey(a, k) + WithKey(b, k)
  {
    if a == [] {
      assert a + b == b;
    } else {
      var h := OneWithKey(a[0], k);
      assert (a + b)[0] == a[0] && (a + b)[1..] == a[1..] + b;
      calc {
        WithKey(a + b, k);
        h + WithKey(a[1..] + b, k);
        { WithKeyAppend(a[1..], b, k); }
        h + (WithKey(a[1..], k) + WithKey(b, k));
        { Associative(h, WithKey(a[1..], k), WithKey(b, k)); }
        (h + WithKey(a[1..], k)) + WithKey(b, k);
        WithKey(a, k) + WithKey(b, k);
      }
    }
  }

  lemma {:induction false} WithKeyBelow(s: seq<ProcInfo>, k: nat)
    requires forall i :: 0 <= i < |s| ==> CpuKey(s[i]) < k
    ensures WithKey(s, k) == []
  {
    if s != [] {
      WithKeyBelow(s[1..], k);
    }
  }

  lemma SortedTail(s: seq<ProcInfo>)
    requires SortedByCpu(s) && s != []
    ensures SortedByCpu(s[1..])
    ensures forall i :: 0 <= i < |s| ==> CpuKey(s[i]) <= CpuKey(s[0])
  {
    assert forall i, j :: 0 <= i < j < |s[1..]| ==> s[1..][i] == s[i + 1] && s[1..][j] == s[j + 1];
  }

  lemma {:induction false} InsertWithKey(x: ProcInfo, s: seq<ProcInfo>, k: nat)
    requires SortedByCpu(s)
    ensures WithKey(Insert(x, s), k) == WithKey(s, k) + OneWithKey(x, k)
  {
    if s == [] {
      WithKeyCons(x, [], k);
      assert [x] + [] == [x];
    } else if CpuKey(s[0]) >= CpuKey(x) {
      SortedTail(s);
      var h := OneWithKey(s[0], k);
      calc {
        WithKey(Insert(x, s), k);
        WithKey([s[0]] + Insert(x, s[1..]), k);
        { WithKeyCons(s[0], Insert(x, s[1..]), k); }
        h + WithKey(Insert(x, s[1..]), k);
        { InsertWithKey(x, s[1..], k); }
        h + (WithKey(s[1..], k) + OneWithKey(x, k));
        { Associative(h, WithKey(s[1..], k), OneWithKey(x, k)); }
        (h + WithKey(s[1..], k)) + OneWithKey(x, k);
        WithKey(s, k) + OneWithKey(x, k);
      }
    } else {
      SortedTail(s);
      WithKeyCons(x, s, k);
      if CpuKey(x) == k {
        WithKeyBelow(s, k);
        assert WithKey(s, k) + [x] == [x] + WithKey(s, k);
      } else {
        assert OneWithKey(x, k) == [];
        assert WithKey(s, k) + [] == [] + WithKey(s, k);
      }
    }
  }

  /** The sort is stable: the processes with equal CPU usage keep their
      original relative order. */
  lemma {:induction false} SortByCpuStable(s: seq<ProcInfo>, k: nat)
    ensures WithKey(SortByCpu(s), k) == WithKey(s, k)
  {
    if s != [] {
      var prefix, last := s[..|s| - 1], s[|s| - 1];
      SortByCpuSorted(prefix);
      assert s == prefix + [last];
      calc {
        WithKey(SortByCpu(s), k);
        WithKey(Insert(last, SortByCpu(prefix)), k);
        { InsertWithKey(last, SortByCpu(prefix), k); }
        WithKey(SortByCpu(prefix), k) + OneWithKey(last, k);
        { SortByCpuStable(prefix, k); }
        WithKey(prefix, k) + OneWithKey(last, k);
        { WithKeyCons(last, [], k); assert [last] + [] == [last]; }
        WithKey(prefix, k) + WithKey([last], k);
        { WithKeyAppend(prefix, [last], k); }
        WithKey(s, k);
      }
    }
  }

  /** `processes[:10]` after the sort. */
  function Shown(snapshot: seq<ProcInfo>): seq<ProcInfo> {
    var sorted := SortByCpu(snapshot);
    if |sorted| <= 10 then sorted else sorted[..10]
  }

  /** At most ten processes are shown, in non-increasing CPU order, and none
      left out uses more CPU than one shown. */
  lemma ShownAreTopTen(snapshot: seq<ProcInfo>)
    ensures var shown, sorted := Shown(snapshot), SortByCpu(snapshot);
      |shown| == (if |snapshot| <= 10 then |snapshot| else 10)
      && shown == sorted[..|shown|] && multiset(sorted) == multiset(snapshot)
      && SortedByCpu(shown)
      && forall i, j :: 0 <= i < |shown| <= j < |sorted| ==> CpuKey(sorted[i]) >= CpuKey(sorted[j])
  {
    SortByCpuSorted(snapshot);
  }

  /** `format(t / 10, '.1f')` for a value of `t` tenths. */
  function Fixed1(tenths: nat): string {
    NatToStr(tenths / 10) + "." + [DigitChar(tenths % 10)]
  }

  /** The text of a percentage reads back as the number of tenths. */
  lemma Fixed1ReadsBack(tenths: nat)
    ensures var f := Fixed1(tenths);
      |f| >= 3 && f[|f| - 2] == '.' && IsDigit(f[|f| - 1])
      && ParseInt(f[..|f| - 2]) == Some(tenths / 10) && DigitValue(f[|f| - 1]) == tenths % 10
  {
    var f := Fixed1(tenths);
    assert f[..|f| - 2] == NatToStr(tenths / 10) == IntToStr(tenths / 10);
    ParseIntToStr(tenths / 10);
  }

  const NoneFormat: string := "unsupported format string passed to NoneType.__format__"

  /** The line of the `i`-th shown process (counting from 0). A process
      without a name cannot be formatted `<20`. */
  function ProcessLine(i: nat, p: ProcInfo): Outcome<string> {
    if p.name.None? then Raised(PyError("TypeError", NoneFormat)) else Returned(LineText(i, p.name.value, p))
  }

  function LineText(i: nat, name: string, p: ProcInfo): string {
    PadLeft(IntToStr(i + 1), 2) + ". " + PadRight(name, 20)
    + " | PID: " + PadRight(IntToStr(p.pid), 8)
    + " | CPU: " + PadLeft(Fixed1(CpuKey(p)), 5)
    + "% | MEM: " + PadLeft(Fixed1(MemOrZero(p)), 5) + "%\n"
  }

  /** Lines are numbered from 1, and the name starts right after ". ". */
  lemma ProcessLineNumbered(i: nat, p: ProcInfo)
    requires i < 99 && p.name.Some?
    ensures var line := ProcessLine(i, p);
      line.Returned? && |line.value| > 4 + |p.name.value|
      && ParseInt(line.value[..2]) == Some(i + 1) && line.value[2..4] == ". "
      && line.value[4..4 + |p.name.value|] == p.name.value
  {
    var number := PadLeft(IntToStr(i + 1), 2);
    PaddedIntReadsBack(i + 1, 2);
    ShortNumber(i + 1);
    var name := PadRight(p.name.value, 20);
    assert name[..|p.name.value|] == p.name.value;
    LineLayout(number, name, |p.name.value|, PadRight(IntToStr(p.pid), 8),
               PadLeft(Fixed1(CpuKey(p)), 5), PadLeft(Fixed1(MemOrZero(p)), 5));
  }

  lemma ShortNumber(n: int)
    requires 0 < n < 100
    ensures |IntToStr(n)| <= 2
  {
    if n >= 10 {
      assert NatToStr(n / 10) == [DigitChar(n / 10)];
    }
  }

  lemma LineLayout(number: string, name: string, k: nat, pid: string, cpu: string, mem: string)
    requires |number| == 2 && k <= |name|
    ensures var line := number + ". " + name + " | PID: " + pid + " | CPU: " + cpu + "% | MEM: " + mem + "%\n";
      |line| > 4 + k && line[..2] == number && line[2..4] == ". " && line[4..4 + k] == name[..k]
  {
    var line := number + ". " + name + " | PID: " + pid + " | CPU: " + cpu + "% | MEM: " + mem + "%\n";
    var head := number + ". " + name;
    assert line == head + (" | PID: " + pid + " | CPU: " + cpu + "% | MEM: " + mem + "%\n");
  }

  /** The first `n` lines of the shown processes, or the exception the
      first unnamed one raises. */
  function Lines(shown: seq<ProcInfo>, n: nat): Outcome<string>
    requires n <= |shown|
  {
    if n == 0 then Returned("")
    else
      match Lines(shown, n - 1)
      case Raised(e) => Raised(e)
      case Returned(text) =>
        match ProcessLine(n - 1, shown[n - 1])
        case Raised(e) => Raised(e)
        case Returned(line) => Returned(text + line)
  }

  /** The listing fails exactly when a shown process has no name. */
  lemma {:induction false} LinesFail(shown: seq<ProcInfo>, n: nat)
    requires n <= |shown|
    ensures Lines(shown, n).Raised? <==> exists i :: 0 <= i < n && shown[i].name.None?
  {
    if n > 0 {
      LinesFail(shown, n - 1);
      if Lines(shown, n - 1).Raised? {
        var i :| 0 <= i < n - 1 && shown[i].name.None?;
        assert 0 <= i < n && shown[i].name.None?;
      } else if shown[n - 1].name.None? {
        assert 0 <= n - 1 < n && shown[n - 1].name.None?;
      } else {
        assert Lines(shown, n).Returned?;
        assert forall i :: 0 <= i < n - 1 ==> shown[i].name.Some?;
      }
    }
  }

  /** The only exception a listing raises is the format error. */
  lemma {:induction false} LinesError(shown: seq<ProcInfo>, n: nat)
    requires n <= |shown|
    ensures Lines(shown, n).Raised? ==> Lines(shown, n).error == PyError("TypeError", NoneFormat)
  {
    if n > 0 {
      LinesError(shown, n - 1);
    }
  }

  const ProcessesHeader: string := "Top Processes (by CPU usage):\n"
  const ProcessesError: string := "[ERROR] Failed to get processes: "

  /** What `get_running_processes()` returns for the processes psutil
      yields. */
  function ProcessListing(snapshot: seq<ProcInfo>): string {
    var shown := Shown(snapshot);
    match Lines(shown, |shown|)
    case Raised(e) => ProcessesError + e.message
    case Returned(text) => ProcessesHeader + text
  }

  /** `get_running_processes()`: `snapshot` is what `process_iter` yields.
      `proc.info` is filled in by the iterator itself, so the `except`
      around the append never fires. */
  method GetRunningProcesses(snapshot: seq<ProcInfo>) returns (output: string)
    ensures output == ProcessListing(snapshot)
  {
    var processes: seq<ProcInfo> := [];
    for k := 0 to |snapshot|
      invariant processes == snapshot[..k]
    {
      processes := processes + [snapshot[k]];
    }
    assert processes == snapshot;
    processes := SortByCpu(processes);
    var shown := if |processes| <= 10 then processes else processes[..10];
    assert shown == Shown(snapshot);
    output := ProcessesHeader;
    for i := 0 to |shown|
      invariant Lines(shown, i).Returned?
      invariant output == ProcessesHeader + Lines(shown, i).value
    {
      var line := ProcessLine(i, shown[i]);
      if line.Raised? {
        output := ProcessesError + line.error.message;
        ListingFails(snapshot, i);
        return;
      }
      LinesStep(shown, i);
      AppendAssociative(ProcessesHeader, Lines(shown, i).value, line.value);
      output := output + line.value;
    }
  }

  /** One line that cannot be formatted makes the whole listing the error
      report. */
  lemma ListingFails(snapshot: seq<ProcInfo>, i: nat)
    requires i < |Shown(snapshot)| && ProcessLine(i, Shown(snapshot)[i]).Raised?
    ensures ProcessListing(snapshot) == ProcessesError + ProcessLine(i, Shown(snapshot)[i]).error.message
  {
    var shown := Shown(snapshot);
    LinesFail(shown, |shown|);
    LinesError(shown, |shown|);
  }

  lemma LinesStep(shown: seq<ProcInfo>, i: nat)
    requires i < |shown| && Lines(shown, i).Returned? && ProcessLine(i, shown[i]).Returned?
    ensures Lines(shown, i + 1) == Returned(Lines(shown, i).value + ProcessLine(i, shown[i]).value)
  {
  }

  lemma AppendAssociative(a: string, b: string, c: string)
    ensures a + (b + c) == (a + b) + c
  {
  }

  // ---------------------------------------------------------------------------
  // kill_process
  // ---------------------------------------------------------------------------

  /** What `psutil.Process(pid)`, `name()`, `terminate()` and `wait(timeout=5)`
      did: the process was killed (with its name), or one of them raised. */
  datatype KillOutcome =
    | Killed(name: string)
    | NoSuchProcess
    | AccessDenied
    | PidRejected(message: string)
    | KillFailed(message: string)

  const InvalidPid: string := "[ERROR] Invalid PID format: "
  const KillError: string := "[ERROR] Failed to kill process "

  /** What `kill_process(pid)` returns. A PID `int()` rejects keeps its
      original form in the message; once converted, the number is shown. */
  function KillMessage(pid: Json, kill: int -> KillOutcome): string {
    match ToInt(pid)
    case Raised(e) =>
      if e.kind == "ValueError" then InvalidPid + Str(pid) else KillError + Str(pid) + ": " + e.message
    case Returned(n) =>
      match kill(n)
      case Killed(name) => "Killed processes: " + name + " (PID: " + IntToStr(n) + ")"
      case NoSuchProcess => "[ERROR] Process with PID " + IntToStr(n) + " not found"
      case AccessDenied => "[ERROR] Access denied to kill process " + IntToStr(n)
      case PidRejected(_) => InvalidPid + IntToStr(n)
      case KillFailed(message) => KillError + IntToStr(n) + ": " + message
  }

  /** `kill_process(pid)`. Every failure returns from inside the inner
      `try`, so when the list of killed processes is consulted it holds
      exactly one entry and the "No processes found" branch is dead. */
  method KillProcess(pid: Json, kill: int -> KillOutcome) returns (msg: string)
    ensures msg == KillMessage(pid, kill)
  {
    var killed: seq<string> := [];
    var n := ToInt(pid);
    if n.Raised? {
      if n.error.kind == "ValueError" {
        return InvalidPid + Str(pid);
      }
      return KillError + Str(pid) + ": " + n.error.message;
    }
    var number := n.value;
    match kill(number)
    case NoSuchProcess =>
      return "[ERROR] Process with PID " + IntToStr(number) + " not found";
    case AccessDenied =>
      return "[ERROR] Access denied to kill process " + IntToStr(number);
    case PidRejected(_) =>
      return InvalidPid + IntToStr(number);
    case KillFailed(message) =>
      return KillError + IntToStr(number) + ": " + message;
    case Killed(name) =>
      killed := killed + [name + " (PID: " + IntToStr(number) + ")"];
    if killed != [] {
      var entry := name + " (PID: " + IntToStr(number) + ")";
      assert killed == [entry] && Join(killed, ", ") == entry;
      msg := "Killed processes: " + Join(killed, ", ");
      assert msg == "Killed processes: " + name + " (PID: " + IntToStr(number) + ")";
    } else {
      assert false;
      msg := "[ERROR] No processes found matching '" + IntToStr(number) + "'";
    }
  }

  /** A text that is not a decimal integer is reported as an invalid PID,
      whatever psutil would have done. */
  lemma KillInvalidPid(s: string, k1: int -> KillOutcome, k2: int -> KillOutcome)
    requires ParseInt(s).None?
    ensures KillMessage(JStr(s), k1) == KillMessage(JStr(s), k2) == InvalidPid + s
  {
  }

  /** A file separator before the digits makes `int()` fail, so the PID is
      reported as invalid even though `strip()` would have removed it. */
  lemma KillSeparatorPid(kill: int -> KillOutcome)
    ensures KillMessage(JStr("\U{1C}42"), kill) == InvalidPid + "\U{1C}42"
  {
    ParseIntSeparators();
  }

  /** A killed process is reported with its name and the number its PID
      text denotes. */
  lemma KillReportsNumber(s: string, kill: int -> KillOutcome)
    requires ParseInt(s).Some? && kill(ParseInt(s).value).Killed?
    ensures var n := ParseInt(s).value;
      KillMessage(JStr(s), kill) == "Killed processes: " + kill(n).name + " (PID: " + IntToStr(n) + ")"
      && ParseInt(IntToStr(n)) == Some(n)
  {
    ParseIntToStr(ParseInt(s).value);
  }

  /** A PID given as the text of a number is killed exactly as that number
      is, and `True` is PID 1. */
  lemma KillTextPid(n: int, kill: int -> KillOutcome)
    ensures KillMessage(JStr(IntToStr(n)), kill) == KillMessage(JInt(n), kill)
    ensures KillMessage(JBool(true), kill) == KillMessage(JInt(1), kill)
  {
    ParseIntToStr(n);
    assert ToInt(JStr(IntToStr(n))) == Returned(n);
    KillOfInt(JStr(IntToStr(n)), n, kill);
    KillOfInt(JBool(true), 1, kill);
  }

  /** The message depends on the PID only through the integer it reads as. */
  lemma KillOfInt(pid: Json, n: int, kill: int -> KillOutcome)
    requires ToInt(pid) == Returned(n)
    ensures KillMessage(pid, kill) == KillMessage(JInt(n), kill)
  {
    assert ToInt(JInt(n)) == Returned(n);
  }

  // ---------------------------------------------------------------------------
  // system_control
  // ---------------------------------------------------------------------------

  /** What `system_control(args)` does for a type: one of the three
      implemented operations, a fixed reply, an exception, or a call to a
      function the module never defines (with the arguments it would get). */
  datatype Action =
    | SystemInfo
    | Processes
    | KillPid(pid: Json)
    | Reply(text: string)
    | Fail(error: PyError)
    | Undefined(handler: string, arguments: seq<Json>)

  const NoPid: string := "[ERROR] Please specify process PID"
  const BadMinutes: string := "[ERROR] Minutes must be a number"
  const UnknownType: string := "[ERROR] Unknown system control command. Please specify a valid type.\n        "

  /** The `if`/`elif` chain on `args.get("type")`. */
  function ActionOf(args: seq<Entry>): Action {
    var t := GetOr(args, "type", JNull);
    if t == JStr("get_system_info") then SystemInfo
    else if t == JStr("processes") then Processes
    else if t == JStr("kill_process") then
      var pid := GetOr(args, "process", JStr(""));
      if !Truthy(pid) then Reply(NoPid) else KillPid(pid)
    else if t == JStr("network") then Undefined("get_network_info", [])
    else if t == JStr("schedule") then
      var action := GetOr(args, "action", JStr("shutdown"));
      match ToInt(GetOr(args, "minutes", JInt(5)))
      case Raised(e) => if e.kind == "ValueError" then Reply(BadMinutes) else Fail(e)
      case Returned(minutes) => Undefined("scheduled_shutdown", [JInt(minutes), action])
    else if t == JStr("cancel_shutdown") then Undefined("cancel_scheduled_shutdown", [])
    else if t == JStr("immediate") then Undefined("immediate_action", [GetOr(args, "action", JStr("shutdown"))])
    else if t == JStr("battery") then Undefined("get_battery_info", [])
    else if t == JStr("temperature") then Undefined("get_system_temperature", [])
    else if t == JStr("cleanup") then Undefined("clean_system", [])
    else if t == JStr("volume") then
      Undefined("control_volume", [GetOr(args, "action", JStr("get")), GetOr(args, "value", JNull)])
    else if t == JStr("brightness") then
      Undefined("control_brightness", [GetOr(args, "action", JStr("get")), GetOr(args, "value", JNull)])
    else if t == JStr("bluetooth") then
      Undefined("control_bluetooth", [GetOr(args, "action", JStr("status")), GetOr(args, "device", JNull)])
    else if t == JStr("media") then Undefined("control_media", [GetOr(args, "action", JStr("status"))])
    else if t == JStr("lock") then Undefined("lock_screen", [])
    else Reply(UnknownType)
  }

  /** What `system_control(args)` returns; `systemInfo` is the report
      `get_system_info()` builds. */
  function Answer(action: Action, systemInfo: string, snapshot: seq<ProcInfo>, kill: int -> KillOutcome): Outcome<string> {
    match action
    case SystemInfo => Returned(systemInfo)
    case Processes => Returned(ProcessListing(snapshot))
    case KillPid(pid) => Returned(KillMessage(pid, kill))
    case Reply(text) => Returned(text)
    case Fail(e) => Raised(e)
    case Undefined(handler, _) => Raised(PyError("NameError", "name '" + handler + "' is not defined"))
  }

  /** `system_control(args)` */
  method SystemControl(args: seq<Entry>, systemInfo: string, snapshot: seq<ProcInfo>, kill: int -> KillOutcome)
    returns (r: Outcome<string>)
    ensures r == Answer(ActionOf(args), systemInfo, snapshot, kill)
  {
    var action := ActionOf(args);
    match action
    case Processes =>
      var listing := GetRunningProcesses(snapshot);
      r := Returned(listing);
    case KillPid(pid) =>
      var msg := KillProcess(pid, kill);
      r := Returned(msg);
    case _ =>
      r := Answer(action, systemInfo, snapshot, kill);
  }

  /** A missing or falsy "process" is refused before psutil is reached. */
  lemma KillNeedsPid(args: seq<Entry>, info: string, snapshot: seq<ProcInfo>,
                     k1: int -> KillOutcome, k2: int -> KillOutcome)
    requires GetOr(args, "type", JNull) == JStr("kill_process") && !Truthy(GetOr(args, "process", JStr("")))
    ensures Answer(ActionOf(args), info, snapshot, k1) == Answer(ActionOf(args), info, snapshot, k2)
            == Returned(NoPid)
  {
  }

  /** "schedule" defaults to shutting down in 5 minutes; minutes text that
      is not a number is refused; the call itself fails, because
      `scheduled_shutdown` is not defined. */
  lemma ScheduleArguments(args: seq<Entry>)
    requires GetOr(args, "type", JNull) == JStr("schedule")
    ensures !HasKey(args, "minutes") && !HasKey(args, "action") ==>
      ActionOf(args) == Undefined("scheduled_shutdown", [JInt(5), JStr("shutdown")])
    ensures var m := GetOr(args, "minutes", JInt(5));
      m.JStr? && ParseInt(m.s).None? ==> ActionOf(args) == Reply(BadMinutes)
    ensures ActionOf(args).Undefined? ==>
      Answer(ActionOf(args), "", [], _ => NoSuchProcess).Raised?
  {
  }

  /** A type outside the fifteen known ones gets the "unknown command"
      reply. */
  lemma UnknownSystemCommand(args: seq<Entry>)
    requires GetOr(args, "type", JNull) !in {
      JStr("get_system_info"), JStr("processes"), JStr("kill_process"), JStr("network"), JStr("schedule"),
      JStr("cancel_shutdown"), JStr("immediate"), JStr("battery"), JStr("temperature"), JStr("cleanup"),
      JStr("volume"), JStr("brightness"), JStr("bluetooth"), JStr("media"), JStr("lock")}
    ensures ActionOf(args) == Reply(UnknownType)
  {
  }

  /** Only three types reach code the module defines: eleven of the others,
      and "schedule" with usable minutes, call a handler that does not
      exist, and that call raises NameError. */
  lemma OnlyThreeImplemented(args: seq<Entry>, info: string, snapshot: seq<ProcInfo>, kill: int -> KillOutcome)
    ensures var t := GetOr(args, "type", JNull);
      ActionOf(args).Undefined? <==>
        t in {JStr("network"), JStr("cancel_shutdown"), JStr("immediate"), JStr("battery"), JStr("temperature"),
              JStr("cleanup"), JStr("volume"), JStr("brightness"), JStr("bluetooth"), JStr("media"), JStr("lock")}
        || (t == JStr("schedule") && ToInt(GetOr(args, "minutes", JInt(5))).Returned?)
    ensures var r := Answer(ActionOf(args), info, snapshot, kill);
      ActionOf(args).Undefined? ==> r.Raised? && r.error.kind == "NameError"
  {
  }
}
