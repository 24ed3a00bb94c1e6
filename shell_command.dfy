/**
  agent/tools/shell_command.py: a command generated by the language model is
  refused when it contains a dangerous word anywhere, and otherwise run, with
  each way the run can end turned into a message. Running the command is a
  parameter that says how `subprocess.check_output` ended.
 */
module ShellCommand {
  import opened Text
  import opened Python
  import opened LlmReply
  import Llm

  /** How `check_output(command, shell=True, timeout=10)` ended: the shell
      exited with a status and its output, the timeout expired, or something
      else raised. */
  datatype RunOutcome = Exited(code: int, output: string) | TimedOut | RunFailed(message: string)

  const SuccessHead: string := "Output:\n"
  const ErrorHead: string := "Error (code "
  const TimeoutMessage: string := "Command timed out."
  const FailureHead: string := "Failed to run command: "

  /** `run_shell_command(command)` for the way the run ended. */
  function RunShellCommand(outcome: RunOutcome): string {
    match outcome
    case Exited(code, output) =>
      if code == 0 then SuccessHead + Strip(output)
      else ErrorHead + IntToStr(code) + "):\n" + Strip(output)
    case TimedOut => TimeoutMessage
    case RunFailed(message) => FailureHead + message
  }

  /** The words whose presence anywhere in a command blocks it. */
  const DangerWords: seq<string> := ["rm", "reboot", "shutdown", "mkfs", "dd"]

  /** `any(x in command for x in words)` */
  function AnyIn(words: seq<string>, command: string): bool {
    words != [] && (Contains(command, words[0]) || AnyIn(words[1..], command))
  }

  predicate IsDangerous(command: string) {
    AnyIn(DangerWords, command)
  }

  const RefusalHead: string := "Dangerous command detected!: `"
  const RefusalTail: string := "`. I won\U{2019}t run this without confirmation."

  function Refusal(command: string): string {
    RefusalHead + command + RefusalTail
  }

  /** `linux_commands(message)`, given the model's reply to the command
      prompt and the runner. */
  function LinuxCommands(reply: LlmCall, run: string -> RunOutcome): Outcome<string> {
    match Llm.TextToShellCommand(reply)
    case Raised(e) => Raised(e)
    case Returned(command) =>
      Returned(if IsDangerous(command) then Refusal(command) else RunShellCommand(run(command)))
  }

  // ---------------------------------------------------------------------------
  // Properties
  // ---------------------------------------------------------------------------

  /** `any` holds exactly when one of the words occurs in the command. */
  lemma {:induction false} AnyInIff(words: seq<string>, command: string)
    ensures AnyIn(words, command) <==> exists i :: 0 <= i < |words| && Contains(command, words[i])
  {
    if words != [] {
      AnyInIff(words[1..], command);
      if AnyIn(words[1..], command) {
        var i :| 0 <= i < |words[1..]| && Contains(command, words[1..][i]);
        assert Contains(command, words[i + 1]);
      }
      forall i | 0 < i < |words| && Contains(command, words[i])
        ensures AnyIn(words[1..], command)
      {
        assert words[1..][i - 1] == words[i];
      }
    }
  }

  /** A command is dangerous exactly when one of the five words is a
      substring of it. */
  lemma DangerousIff(command: string)
    ensures IsDangerous(command) <==>
      exists i :: 0 <= i < |DangerWords| && Contains(command, DangerWords[i])
  {
    AnyInIff(DangerWords, command);
  }

  /** The match is on substrings, not words: any command that mentions
      "format" contains "rm" and is refused. */
  lemma FormatIsDangerous(command: string)
    requires Contains(command, "format")
    ensures IsDangerous(command)
  {
    assert OccursAt("format", "rm", 2) by {
      assert "format"[2..4] == "rm";
    }
    ContainsAt("format", "rm", 2);
    ContainsTransitive(command, "format", "rm");
    assert Contains(command, DangerWords[0]);
    DangerousIff(command);
  }

  /** The refusal shows the exact command between backticks. */
  lemma RefusalShowsCommand(command: string)
    ensures var r, k := Refusal(command), |RefusalHead|;
      |r| > k + |command| && r[k - 1] == '`' && r[k..k + |command|] == command && r[k + |command|] == '`'
  {
    var r := Refusal(command);
    var k := |RefusalHead|;
    assert RefusalHead[k - 1] == '`';
    assert RefusalTail[0] == '`';
    assert r == RefusalHead + command + RefusalTail;
    assert r[k + |command|] == RefusalTail[0];
  }

  /** A dangerous command is refused without consulting the runner. */
  lemma DangerousNeverRun(text: string, r1: string -> RunOutcome, r2: string -> RunOutcome)
    requires IsDangerous(Strip(text))
    ensures LinuxCommands(Replied(text), r1) == LinuxCommands(Replied(text), r2)
            == Returned(Refusal(Strip(text)))
  {
    DangerousIff(Strip(text));
    assert Strip(text) != [] by {
      forall i | 0 <= i < |DangerWords| ensures !Contains([], DangerWords[i]) {
        assert DangerWords[i] != [];
      }
    }
  }

  /** Any other command's answer is exactly the runner's message for it. */
  lemma SafeCommandRun(text: string, run: string -> RunOutcome)
    requires !IsDangerous(Llm.TextToShellCommand(Replied(text)).value)
    ensures var command := Llm.TextToShellCommand(Replied(text)).value;
      LinuxCommands(Replied(text), run) == Returned(RunShellCommand(run(command)))
  {
  }

  /** The first character of the message tells how the run ended: "O" for a
      zero exit status, "E" for any other status, "C" for the timeout and "F"
      for any other failure. */
  lemma RunMessageKind(outcome: RunOutcome)
    ensures var m := RunShellCommand(outcome);
      m != []
      && (m[0] == 'O' <==> outcome.Exited? && outcome.code == 0)
      && (m[0] == 'E' <==> outcome.Exited? && outcome.code != 0)
      && (m[0] == 'C' <==> outcome.TimedOut?)
      && (m[0] == 'F' <==> outcome.RunFailed?)
  {
    assert SuccessHead[0] == 'O' && ErrorHead[0] == 'E';
    assert TimeoutMessage[0] == 'C' && FailureHead[0] == 'F';
  }

  /** The message of each outcome: the stripped output after "Output:\n" for
      a zero exit status; for any other status the status, which reads back,
      between "Error (code " and "):\n", then the stripped output; the fixed
      text for the timeout; and the exception's text after "Failed to run
      command: ". */
  lemma RunMessageText(outcome: RunOutcome)
    ensures var m := RunShellCommand(outcome);
      outcome.Exited? && outcome.code == 0 ==> m == SuccessHead + Strip(outcome.output)
    ensures var m, h := RunShellCommand(outcome), |ErrorHead|;
      outcome.Exited? && outcome.code != 0 ==>
        var w := |IntToStr(outcome.code)|;
        |m| == h + w + 3 + |Strip(outcome.output)| && m[..h] == ErrorHead
        && ParseInt(m[h..h + w]) == Some(outcome.code) && m[h + w..] == "):\n" + Strip(outcome.output)
    ensures outcome.TimedOut? ==> RunShellCommand(outcome) == TimeoutMessage
    ensures outcome.RunFailed? ==> RunShellCommand(outcome) == FailureHead + outcome.message
  {
    if outcome.Exited? && outcome.code != 0 {
      ParseIntToStr(outcome.code);
      ErrorLayout(ErrorHead, IntToStr(outcome.code), "):\n", Strip(outcome.output));
    }
  }

  lemma ErrorLayout(head: string, code: string, close: string, output: string)
    ensures var m := head + code + close + output;
      |m| == |head| + |code| + |close| + |output| && m[..|head|] == head
      && m[|head|..|head| + |code|] == code && m[|head| + |code|..] == close + output
  {
    var m := head + code + close + output;
    assert m == (head + code) + (close + output);
  }
}
