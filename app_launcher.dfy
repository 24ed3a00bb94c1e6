/**
  agent/tools/app_launcher.py: a case-insensitive table from app names to
  command lines, and the message for each way a launch can go. Starting the
  process is a parameter: it receives the argument vector `cmd.split()` and
  says whether `subprocess.Popen` raised.
 */
module AppLauncher {
  import opened Text
  import opened Python

  /** What `subprocess.Popen(argv)` did: started, or raised with a message. */
  datatype LaunchOutcome = Launched | LaunchFailed(message: string)

  /** The launch command of each app, keyed by lower-case name. */
  const Commands: map<string, string> := map[
    "spotify" := "spotify",
    "vscode" := "code",
    "youtube" := "firefox https://youtube.com",
    "netflix" := "firefox https://netflix.com",
    "chrome" := "google-chrome",
    "terminal" := "gnome-terminal"
  ]

  const AppNames: set<string> := {"spotify", "vscode", "youtube", "netflix", "chrome", "terminal"}

  /** `commands.get(app_name.lower())` */
  function Lookup(name: string): Option<string> {
    var key := Lower(name);
    if key in Commands then Some(Commands[key]) else None
  }

  /** `cmd.split()`: the argument vector handed to Popen. */
  function Argv(cmd: string): seq<string> {
    SplitWhitespace(cmd)
  }

  /** `open_app(app_name)` */
  function OpenApp(appName: Json, launch: seq<string> -> LaunchOutcome): Outcome<string> {
    match appName
    case JStr(name) =>
      var cmd := Lookup(name);
      if cmd.Some? && cmd.value != [] then
        match launch(Argv(cmd.value))
        case Launched => Returned("Opening " + name + ".")
        case LaunchFailed(e) => Returned("Failed to open " + name + ": " + e)
      else
        Returned("App '" + name + "' not recognized.")
    case _ => Raised(NoAttribute(appName, "lower"))
  }

  /** The table knows exactly six apps, and every command is non-empty. */
  lemma CommandsTable()
    ensures Commands.Keys == AppNames && |AppNames| == 6
    ensures forall k :: k in Commands ==> Commands[k] != []
  {
  }

  /** The lookup ignores case: a name is known exactly when its lower-case
      form is one of the six, and any casing of a name finds the same
      command. */
  lemma LookupIgnoresCase(name: string)
    ensures Lookup(name).Some? <==> Lower(name) in AppNames
    ensures Lookup(name) == Lookup(Lower(name))
  {
    LowerProperties(name);
  }

  /** An unknown name gets the "not recognized" message and launches nothing:
      the result does not depend on the launcher at all. */
  lemma UnknownAppNotLaunched(name: string, l1: seq<string> -> LaunchOutcome, l2: seq<string> -> LaunchOutcome)
    requires Lower(name) !in AppNames
    ensures OpenApp(JStr(name), l1) == OpenApp(JStr(name), l2)
            == Returned("App '" + name + "' not recognized.")
  {
    LookupIgnoresCase(name);
  }

  /** A known name is launched with its command's words, and the reply keeps
      the caller's spelling of the name. */
  lemma KnownAppLaunched(name: string, launch: seq<string> -> LaunchOutcome)
    requires Lower(name) in AppNames
    ensures var argv := Argv(Commands[Lower(name)]);
      OpenApp(JStr(name), launch)
      == Returned(if launch(argv).Launched? then "Opening " + name + "."
                  else "Failed to open " + name + ": " + launch(argv).message)
  {
    CommandsTable();
  }

  lemma TwoWords(a: string, b: string)
    requires IsWord(a) && IsWord(b)
    ensures Argv(a + " " + b) == [a, b]
  {
    var words := [a, b];
    assert words[1..] == [b];
    assert Join(words, " ") == a + " " + b;
    SplitWhitespaceOfWords(words);
  }

  /** A command with a single space between two runs of non-whitespace
      gives Popen those two runs. */
  lemma OneSpace(c: string, k: nat)
    requires 0 < k < |c| - 1 && c[k] == ' '
    requires forall i :: 0 <= i < |c| && i != k ==> '!' <= c[i] <= '~'
    ensures Argv(c) == [c[..k], c[k + 1..]]
  {
    var a, b := c[..k], c[k + 1..];
    assert IsWord(a) by {
      forall j | 0 <= j < |a| ensures !IsSpace(a[j]) {
        assert a[j] == c[j];
      }
    }
    assert IsWord(b) by {
      forall j | 0 <= j < |b| ensures !IsSpace(b[j]) {
        assert b[j] == c[k + 1 + j];
      }
    }
    assert c == a + " " + b;
    TwoWords(a, b);
  }

  /** The browser commands give Popen two arguments: the browser and the
      address. */
  lemma ArgvYoutube()
    ensures var c := Commands["youtube"]; Argv(c) == [c[..7], c[8..]]
  {
    YoutubeCommand();
    BrowserLine("firefox https://youtube.com");
  }

  lemma ArgvNetflix()
    ensures var c := Commands["netflix"]; Argv(c) == [c[..7], c[8..]]
  {
    NetflixCommand();
    BrowserLine("firefox https://netflix.com");
  }

  lemma YoutubeCommand()
    ensures Commands["youtube"] == "firefox https://youtube.com"
  {
  }

  lemma NetflixCommand()
    ensures Commands["netflix"] == "firefox https://netflix.com"
  {
  }

  lemma BrowserLine(c: string)
    requires c == "firefox https://youtube.com" || c == "firefox https://netflix.com"
    ensures Argv(c) == [c[..7], c[8..]]
  {
    assert |c| == 27 && c[7] == ' ';
    assert forall i :: 0 <= i < |c| && i != 7 ==> '!' <= c[i] <= '~';
    OneSpace(c, 7);
  }

  /** A one-word command is the whole argument vector. */
  lemma ArgvChrome()
    ensures Argv(Commands["chrome"]) == ["google-chrome"]
  {
    var c := "google-chrome";
    assert forall i :: 0 <= i < |c| ==> '!' <= c[i] <= '~';
    SplitWhitespaceSingle(c);
  }
}
