// The terminal template's interpreter: how a typed line is normalised,
// expanded through the shorthand table and dispatched, and the terminal's
// state machine around it (command history, tab completion, the pager,
// the typing test and the Konami code).
//
// Each event handler of the component is a method. A handler reads the
// state as it was when the event fired and its updates all land after it,
// so lines such as the `history` listing see the history without the
// command being run.
module Terminal {
  import opened Text
  import Seqs
  import EasterEggs

  /** How many lines the pager shows at a time. */
  const LinesPerPage: nat := 20

  /** The site title and resume address the configuration falls back to. */
  const SiteTitle: string := "Developer Portfolio"
  const ResumeUrl: string := "/resume/resume.pdf"

  const AsciiLogo: string := "\n ████████╗███████╗██████╗ ███╗   ███╗██╗███╗   ██╗ █████╗ ██╗     \n ╚══██╔══╝██╔════╝██╔══██╗████╗ ████║██║████╗  ██║██╔══██╗██║     \n    ██║   █████╗  ██████╔╝██╔████╔██║██║██╔██╗ ██║███████║██║     \n    ██║   ██╔══╝  ██╔══██╗██║╚██╔╝██║██║██║╚██╗██║██╔══██║██║     \n    ██║   ███████╗██║  ██║██║ ╚═╝ ██║██║██║ ╚████║██║  ██║███████╗\n    ╚═╝   ╚══════╝╚═╝  ╚═╝╚═╝     ╚═╝╚═╝╚═╝  ╚═══╝╚═╝  ╚═╝╚══════╝\n                                                                   \n██████╗  ██████╗ ██████╗ ████████╗███████╗ ██████╗ ██╗     ██╗ ██████╗ \n██╔══██╗██╔═══██╗██╔══██╗╚══██╔══╝██╔════╝██╔═══██╗██║     ██║██╔═══██╗\n██████╔╝██║   ██║██████╔╝   ██║   █████╗  ██║   ██║██║     ██║██║   ██║\n██╔═══╝ ██║   ██║██╔══██╗   ██║   ██╔══╝  ██║   ██║██║     ██║██║   ██║\n██║     ╚██████╔╝██║  ██║   ██║   ██║     ╚██████╔╝███████╗██║╚██████╔╝\n╚═╝      ╚═════╝ ╚═╝  ╚═╝   ╚═╝   ╚═╝      ╚═════╝ ╚══════╝╚═╝ ╚═════╝ \n"
  const HelpText: string := "\nAvailable commands:\n  help    (h, ?)       Show this help text\n  clear   (c, cls)     Clear terminal screen\n  about   (a, me, bio) Display information about me\n  projects(p, proj)    List my projects\n  skills  (s, tech)    Show my technical skills\n  experience(e, exp)   Show my work experience\n  education(edu)       Show my education details\n  contact (con)        Display contact information\n  social  (soc, links) Show social media links\n  github  (g, git)     Display GitHub stats\n  matrix  (m, mtx)     Toggle matrix effect background\n  download(d, dl)      Download files\n    -p    (dlp)        Download portfolio.json data file\n    -r    (dlr)        Download resume PDF\n  reload  (r, refresh) Reload portfolio data with AI\n  ascii   (art, logo)  Display ASCII art\n  exit    (q, quit)    Exit terminal (redirects to main site)\n  \nFun Commands:\n  fortune (f)          Get a random fortune\n  typingtest (type)    Test your typing speed\n  \nTry typing 'coffee', 'rocket', 'cow', 'sudo', or '42' for surprises!\n"
  const AdditionalHelp: string := "\n  theme              View available themes\n  theme <n>       Change terminal theme\n  history            View command history\n  clear-history      Clear command history\n"

  /** COMMAND_ALIASES: shorthand to full command. */
  const Aliases: map<string, string> := map[
    "h" := "help", "?" := "help", "c" := "clear", "cls" := "clear", "q" := "exit", "quit" := "exit",
    "a" := "about", "me" := "about", "bio" := "about", "p" := "projects", "proj" := "projects",
    "s" := "skills", "tech" := "skills", "e" := "experience", "exp" := "experience", "work" := "experience",
    "edu" := "education", "school" := "education", "con" := "contact", "soc" := "social", "links" := "social",
    "g" := "github", "git" := "github", "stats" := "github",
    "m" := "matrix", "mtx" := "matrix", "dl" := "download", "d" := "download",
    "dlp" := "download -p", "dlr" := "download -r", "r" := "reload", "refresh" := "reload",
    "art" := "ascii", "logo" := "ascii",
    "f" := "fortune", "type" := "typingtest"
  ]

  /** `Object.keys(COMMAND_ALIASES)`: the shorthands in declaration order. */
  const AliasKeys: seq<string> := [
    "h", "?", "c", "cls", "q", "quit", "a", "me", "bio", "p", "proj", "s", "tech", "e", "exp", "work",
    "edu", "school", "con", "soc", "links", "g", "git", "stats", "m", "mtx", "dl", "d", "dlp", "dlr",
    "r", "refresh", "art", "logo", "f", "type"
  ]

  /** The commands typo detection compares against. */
  const ValidCommands: seq<string> := [
    "help", "clear", "about", "projects", "skills", "experience",
    "education", "contact", "social", "github", "matrix", "download",
    "reload", "ascii", "exit", "fortune", "typingtest"
  ]

  /** The themes as (key, display name), in declaration order. */
  const Themes: seq<(string, string)> := [
    ("classic", "Classic Green"), ("midnight", "Midnight Blue"), ("retro", "Retro Amber"),
    ("monochrome", "Monochrome"), ("matrix", "Matrix")
  ]

  /** The terminal's own fortunes, used by the `f` shorthand. */
  const TerminalFortunes: seq<string> := [
    "Your code will compile on the first try today.",
    "A bug fixed today prevents a critical issue tomorrow.",
    "Someone will star your GitHub repository soon.",
    "A great opportunity for contribution awaits you.",
    "Your next pull request will be merged without comments.",
    "The path to becoming a better developer is through documentation.",
    "Your commit today will save someone hours of debugging tomorrow.",
    "The best code is no code at all."
  ]

  /** The commands whose text is rendered from the loaded portfolio. */
  const DataViews: seq<string> := ["about", "projects", "skills", "experience", "education", "contact", "social", "github"]

  // ---------------------------------------------------------------------
  // Normalising and expanding a typed line
  // ---------------------------------------------------------------------

  /** `cmd.trim().toLowerCase()`. */
  function Normalize(cmd: string): string
  {
    ToLower(Trim(cmd))
  }

  /** The value stored under `key` in a table of pairs (keys are distinct, so the first match is the only one). */
  function LookupPair(table: seq<(string, string)>, key: string): (r: Option<string>)
    ensures r.Some? ==> exists i :: 0 <= i < |table| && table[i] == (key, r.value)
    ensures r.None? ==> forall i :: 0 <= i < |table| ==> table[i].0 != key
  {
    if table == [] then None
    else if table[0].0 == key then Some(table[0].1)
    else LookupPair(table[1..], key)
  }

  /** The shorthands, as a set. */
  const Shorthands: set<string> := {
    "h", "?", "c", "cls", "q", "quit", "a", "me", "bio", "p", "proj", "s", "tech", "e", "exp", "work",
    "edu", "school", "con", "soc", "links", "g", "git", "stats", "m", "mtx", "dl", "d", "dlp", "dlr",
    "r", "refresh", "art", "logo", "f", "type"
  }

  /** The full commands the shorthands expand to. */
  const AliasTargets: set<string> := {
    "help", "clear", "exit", "about", "projects", "skills", "experience", "education", "contact", "social",
    "github", "matrix", "download", "download -p", "download -r", "reload", "ascii", "fortune", "typingtest"
  }

  lemma AliasDomain()
    ensures Aliases.Keys == Shorthands
  {
  }

  lemma ExpansionsAreTargets()
    ensures forall c :: c in Aliases ==> Aliases[c] in AliasTargets
  {
  }

  lemma TargetsAreNotShorthands()
    ensures forall t :: t in AliasTargets ==> t !in Shorthands
  {
  }

  lemma TargetsAreCommands()
    ensures forall t :: t in AliasTargets ==> t in ValidCommands || t == "download -p" || t == "download -r"
  {
  }

  /**
   * `COMMAND_ALIASES[command] || command`: the expansion of a shorthand,
   * anything else unchanged. No expansion is itself a shorthand, so
   * expanding is idempotent, and every expansion is a valid command or
   * `download` with a flag.
   */
  function AliasedCommand(command: string): (r: string)
    ensures r !in Aliases
    ensures command !in Aliases ==> r == command
    ensures command in Aliases ==> r in ValidCommands || r == "download -p" || r == "download -r"
  {
    AliasDomain();
    ExpansionsAreTargets();
    TargetsAreNotShorthands();
    TargetsAreCommands();
    if command in Aliases then Aliases[command] else command
  }

  /** Expanding an expansion changes nothing. */
  lemma AliasedCommandIdempotent(command: string)
    ensures AliasedCommand(AliasedCommand(command)) == AliasedCommand(command)
  {
  }

  // ---------------------------------------------------------------------
  // Dispatch
  // ---------------------------------------------------------------------

  /** What a command does, decided in the order the interpreter tests for it. */
  datatype Action =
    | EasterEgg(reply: string)
    | ListThemes
    | SetTheme(theme: string)
    | UnknownTheme(theme: string)
    | ShowHistory
    | ClearHistory
    | NoAction
    | ClearScreen
    | Help
    | Fortune
    | TypingTest
    | View(name: string)
    | ToggleMatrix
    | Download(args: seq<string>)
    | Reload
    | Ascii
    | Exit
    | Unknown

  /** The theme command, split on spaces: list the themes, set a known one, or report an unknown one. */
  function ThemeAction(aliased: string): (a: Action)
    ensures a.ListThemes? || a.SetTheme? || a.UnknownTheme?
  {
    var args := Split(aliased, ' ');
    if |args| == 1 then ListThemes
    else if LookupPair(Themes, args[1]).Some? then SetTheme(args[1])
    else UnknownTheme(args[1])
  }

  /**
   * The built-in commands, tested on the expanded command. What is left is
   * Unknown: a typo of a valid command or a command that is not found.
   */
  function Builtin(aliased: string): Action
  {
    if aliased == "theme" || StartsWith(aliased, "theme ") then ThemeAction(aliased)
    else if aliased == "history" then ShowHistory
    else if aliased == "clear-history" then ClearHistory
    else if aliased == "" then NoAction
    else if aliased == "clear" then ClearScreen
    else if aliased == "help" then Help
    else if aliased == "fortune" then Fortune
    else if aliased == "typingtest" || aliased == "type" then TypingTest
    else if aliased in DataViews then View(aliased)
    else if aliased == "matrix" then ToggleMatrix
    else if aliased == "download" || StartsWith(aliased, "download ") then Download(Split(aliased, ' '))
    else if aliased == "reload" then Reload
    else if aliased == "ascii" then Ascii
    else if aliased == "exit" then Exit
    else Unknown
  }

  /**
   * Each word command tested before the data views is reached by exactly
   * its own word after expansion: no `theme …` test catches it first.
   */
  lemma BuiltinWords(aliased: string)
    ensures Builtin(aliased) == ShowHistory <==> aliased == "history"
    ensures Builtin(aliased) == ClearHistory <==> aliased == "clear-history"
    ensures Builtin(aliased) == NoAction <==> aliased == ""
    ensures Builtin(aliased) == ClearScreen <==> aliased == "clear"
    ensures Builtin(aliased) == Help <==> aliased == "help"
    ensures Builtin(aliased) == Fortune <==> aliased == "fortune"
    ensures Builtin(aliased) == TypingTest <==> aliased == "typingtest" || aliased == "type"
  {
    NotTheme(aliased);
  }

  /** A data view is reached by exactly its name. */
  lemma BuiltinViews(aliased: string)
    ensures Builtin(aliased).View? <==> aliased in DataViews
    ensures Builtin(aliased).View? ==> Builtin(aliased).name == aliased
  {
    NotTheme(aliased);
  }

  /** The matrix toggle, tested after the data views, is reached by exactly its word. */
  lemma BuiltinMatrix(aliased: string)
    ensures Builtin(aliased) == ToggleMatrix <==> aliased == "matrix"
  {
    NotTheme(aliased);
    WordsAreNotViews();
  }

  /** The word commands tested after the downloads are reached by exactly their words. */
  lemma BuiltinLateWords(aliased: string)
    ensures Builtin(aliased) == Reload <==> aliased == "reload"
    ensures Builtin(aliased) == Ascii <==> aliased == "ascii"
    ensures Builtin(aliased) == Exit <==> aliased == "exit"
  {
    var a := Builtin(aliased);
    if a == Reload || a == Ascii || a == Exit {
      assert !(aliased == "theme" || StartsWith(aliased, "theme ")) by { NotLateTheme(aliased); }
    }
    if aliased == "reload" || aliased == "ascii" || aliased == "exit" {
      NotTheme(aliased);
      NotPrefixed(aliased, "download ", 0);
      WordsAreNotViews();
    }
  }

  /** No theme command is read as a late word command. */
  lemma NotLateTheme(aliased: string)
    ensures aliased == "theme" || StartsWith(aliased, "theme ") ==> Builtin(aliased).ListThemes? || Builtin(aliased).SetTheme? || Builtin(aliased).UnknownTheme?
  {
  }

  /** The words of the chain other than those starting "th" do not start with "theme ". */
  lemma NotTheme(aliased: string)
    ensures aliased != [] && aliased[0] != 't' ==> !StartsWith(aliased, "theme ")
    ensures |aliased| > 1 && aliased[1] != 'h' ==> !StartsWith(aliased, "theme ")
  {
    if aliased != [] && aliased[0] != 't' {
      NotPrefixed(aliased, "theme ", 0);
    } else if |aliased| > 1 && aliased[1] != 'h' {
      NotPrefixed(aliased, "theme ", 1);
    }
  }

  /** A string that differs from p at position k does not start with p. */
  lemma NotPrefixed(w: string, p: string, k: nat)
    requires k < |w| && k < |p| && w[k] != p[k]
    ensures !StartsWith(w, p)
  {
    if |p| <= |w| {
      assert w[..|p|][k] == w[k];
    }
  }

  /** The words tested after the data views are no data views. */
  lemma WordsAreNotViews()
    ensures "matrix" !in DataViews && "download" !in DataViews && "reload" !in DataViews
    ensures "ascii" !in DataViews && "exit" !in DataViews
  {
  }

  /** The shorthands that expand to "matrix" and to "fortune". */
  lemma MatrixAndFortuneShorthands()
    ensures forall c :: c in Aliases && Aliases[c] == "matrix" ==> c == "m" || c == "mtx"
    ensures forall c :: c in Aliases && Aliases[c] == "fortune" ==> c == "f"
  {
  }

  /**
   * The action for a normalised command: easter eggs are looked up on the
   * command before its expansion and before every built-in.
   */
  function Dispatch(command: string, draw: real): (a: Action)
    requires 0.0 <= draw < 1.0
    ensures a.EasterEgg? <==> EasterEggs.GenerateRandomResponse(command, draw).Some?
    ensures a.EasterEgg? ==> a.reply == EasterEggs.GenerateRandomResponse(command, draw).value
  {
    match EasterEggs.GenerateRandomResponse(command, draw)
    case Some(reply) => EasterEgg(reply)
    case None => Builtin(AliasedCommand(command))
  }

  /**
   * Typing `matrix` or `fortune` in full gives the easter egg; the matrix
   * toggle and the terminal's own fortunes are reached through `m`, `mtx`
   * and `f` only.
   */
  lemma EggWordsShadowBuiltins(draw: real)
    requires 0.0 <= draw < 1.0
    ensures Dispatch("matrix", draw).EasterEgg? && Dispatch("fortune", draw).EasterEgg?
    ensures Dispatch("m", draw) == ToggleMatrix && Dispatch("mtx", draw) == ToggleMatrix
    ensures Dispatch("f", draw) == Fortune
  {
    DispatchEggWords(draw);
    DispatchM(draw);
    DispatchMtx(draw);
    DispatchF(draw);
  }

  /** The matrix toggle is reached by "m" and "mtx" and by no other command. */
  lemma ToggleMatrixOnlyVia(command: string, draw: real)
    requires 0.0 <= draw < 1.0
    ensures Dispatch(command, draw) == ToggleMatrix <==> command == "m" || command == "mtx"
  {
    DispatchM(draw);
    DispatchMtx(draw);
    DispatchEggWords(draw);
    MatrixAndFortuneShorthands();
    BuiltinMatrix(AliasedCommand(command));
  }

  /** The terminal's own fortunes are reached by "f" and by no other command. */
  lemma FortuneOnlyVia(command: string, draw: real)
    requires 0.0 <= draw < 1.0
    ensures Dispatch(command, draw) == Fortune <==> command == "f"
  {
    DispatchF(draw);
    DispatchEggWords(draw);
    MatrixAndFortuneShorthands();
    BuiltinWords(AliasedCommand(command));
  }

  lemma DispatchEggWords(draw: real)
    requires 0.0 <= draw < 1.0
    ensures Dispatch("matrix", draw).EasterEgg? && Dispatch("fortune", draw).EasterEgg?
  {
  }

  lemma DispatchM(draw: real)
    requires 0.0 <= draw < 1.0
    ensures Dispatch("m", draw) == ToggleMatrix
  {
    NotAnEgg("m", draw);
    assert Aliases["m"] == "matrix";
    assert AliasedCommand("m") == "matrix";
    BuiltinDirect("matrix");
  }

  lemma DispatchMtx(draw: real)
    requires 0.0 <= draw < 1.0
    ensures Dispatch("mtx", draw) == ToggleMatrix
  {
    NotAnEgg("mtx", draw);
    assert Aliases["mtx"] == "matrix";
    assert AliasedCommand("mtx") == "matrix";
    BuiltinDirect("matrix");
  }

  lemma DispatchF(draw: real)
    requires 0.0 <= draw < 1.0
    ensures Dispatch("f", draw) == Fortune
  {
    NotAnEgg("f", draw);
    assert Aliases["f"] == "fortune";
    assert AliasedCommand("f") == "fortune";
    BuiltinDirect("fortune");
  }

  /** The two built-ins the shorthands above expand to. */
  lemma BuiltinDirect(aliased: string)
    requires aliased == "matrix" || aliased == "fortune"
    ensures aliased == "matrix" ==> Builtin(aliased) == ToggleMatrix
    ensures aliased == "fortune" ==> Builtin(aliased) == Fortune
  {
    assert aliased[..6][0] == aliased[0] != 't';
    assert !StartsWith(aliased, "theme ") && !StartsWith(aliased, "download ");
    assert aliased !in DataViews;
  }

  /** The short words other than "moo", "cow" and "42", such as the shorthands here, are no easter-egg words. */
  lemma NotAnEgg(command: string, draw: real)
    requires |command| <= 3 && command != "moo" && command != "cow" && command != "42"
    requires 0.0 <= draw < 1.0
    ensures EasterEggs.GenerateRandomResponse(command, draw) == None
  {
    NoMoo(command);
    assert command !in EasterEggs.EggWords;
    assert EasterEggs.TypoReply(command) == None;
  }

  /** A command of three letters or fewer contains "moo" only by being it. */
  lemma NoMoo(command: string)
    requires |command| <= 3 && command != "moo"
    ensures !Contains(command, "moo")
  {
    if |command| == 3 {
      assert command[0..3] == command;
    }
  }

  /** `dlp` and `dlr` expand to the download command with the portfolio or the resume flag. */
  lemma DownloadShortcuts(draw: real)
    requires 0.0 <= draw < 1.0
    ensures Dispatch("dlp", draw) == Download(["download", "-p"])
    ensures Dispatch("dlr", draw) == Download(["download", "-r"])
  {
    DispatchDlp(draw);
    DispatchDlr(draw);
  }

  lemma DispatchDlp(draw: real)
    requires 0.0 <= draw < 1.0
    ensures Dispatch("dlp", draw) == Download(["download", "-p"])
  {
    NotAnEgg("dlp", draw);
    DownloadWithFlag("-p");
    assert AliasedCommand("dlp") == "download " + "-p";
  }

  lemma DispatchDlr(draw: real)
    requires 0.0 <= draw < 1.0
    ensures Dispatch("dlr", draw) == Download(["download", "-r"])
  {
    NotAnEgg("dlr", draw);
    DownloadWithFlag("-r");
    assert AliasedCommand("dlr") == "download " + "-r";
  }

  /** `download` followed by one two-character flag is the download command with that flag as its second word. */
  lemma DownloadWithFlag(flag: string)
    requires |flag| == 2 && ' ' !in flag
    ensures Builtin("download " + flag) == Download(["download", flag])
  {
    var aliased := "download " + flag;
    assert aliased[..9] == "download ";
    assert aliased[0] == 'd';
    assert aliased !in DataViews;
    assert "download" + " " + flag == aliased;
    SplitWords("download", flag);
  }

  /** Splitting two separator-free words joined by a space gives the two words. */
  lemma SplitWords(w1: string, w2: string)
    requires ' ' !in w1 && ' ' !in w2
    ensures Split(w1 + " " + w2, ' ') == [w1, w2]
  {
    SplitConcat(w1, w2, ' ');
    SplitWithoutSeparator(w1, ' ');
    SplitWithoutSeparator(w2, ' ');
  }

  /**
   * Examples of IsTypo: an unknown command of three letters or more that
   * is one or two edits from a valid command counts as a typo ("hepl");
   * one far from them all does not ("xyzxyz").
   */
  lemma TypoExamples()
    ensures EasterEggs.IsTypo("hepl", ValidCommands)
    ensures !EasterEggs.IsTypo("xyzxyz", ValidCommands)
  {
    EasterEggs.TranspositionIsClose();
    assert ValidCommands[0] == "help";
    forall i | 0 <= i < |ValidCommands|
      ensures EasterEggs.EditDistance("xyzxyz", ValidCommands[i]) >= 3
    {
      EasterEggs.EditDistanceAtLeastMissing("xyzxyz", ValidCommands[i]);
      FarFromValid(i);
    }
  }

  /** Each valid command lacks z and one of x and y. */
  lemma FarFromValid(i: nat)
    requires i < |ValidCommands|
    ensures EasterEggs.MissingCount("xyzxyz", ValidCommands[i]) >= 3
  {
    var v := ValidCommands[i];
    assert 'z' !in v;
    assert 'x' !in v || 'y' !in v;
    MissingXyz(v);
  }

  /** A word without z and without one of x and y misses four characters of "xyzxyz". */
  lemma MissingXyz(v: string)
    requires 'z' !in v && ('x' !in v || 'y' !in v)
    ensures EasterEggs.MissingCount("xyzxyz", v) >= 3
  {
    var x := if 'x' in v then 0 else 1;
    var y := if 'y' in v then 0 else 1;
    assert EasterEggs.MissingCount([], v) == 0;
    MissingSnoc([], 'x', v);
    assert [] + ['x'] == "x" && "x" + ['y'] == "xy" && "xy" + ['z'] == "xyz";
    assert "xyz" + ['x'] == "xyzx" && "xyzx" + ['y'] == "xyzxy" && "xyzxy" + ['z'] == "xyzxyz";
    MissingSnoc("x", 'y', v);
    MissingSnoc("xy", 'z', v);
    MissingSnoc("xyz", 'x', v);
    MissingSnoc("xyzx", 'y', v);
    MissingSnoc("xyzxy", 'z', v);
    var a := "xyzxyz";
    assert EasterEggs.MissingCount(a, v) == 2 * x + 2 * y + 2;
  }

  lemma MissingSnoc(s: string, c: char, v: string)
    ensures EasterEggs.MissingCount(s + [c], v) == EasterEggs.MissingCount(s, v) + (if c in v then 0 else 1)
  {
    assert (s + [c])[..|s|] == s;
  }

  // ---------------------------------------------------------------------
  // Output lines
  // ---------------------------------------------------------------------

  datatype LineKind = Command | Response | Info | Success | Error

  /** A line of output; `animatedText` is None where the source leaves the field undefined. */
  datatype TerminalLine = TerminalLine(kind: LineKind, text: string, isAnimating: bool, animatedText: Option<string>)

  /** A line given only its type and text. */
  function Line(kind: LineKind, text: string): TerminalLine
  {
    TerminalLine(kind, text, false, None)
  }

  /** A line that is not animated and whose animated text is already complete. */
  function StaticLine(kind: LineKind, text: string): TerminalLine
  {
    TerminalLine(kind, text, false, Some(text))
  }

  /** The greeting the terminal starts with. */
  function Welcome(userName: string, dateText: string): seq<TerminalLine>
  {
    [ Line(Response, AsciiLogo),
      Line(Response, "Terminal Portfolio - " + SiteTitle),
      Line(Response, "Welcome to " + userName + "'s terminal portfolio. Type 'help' to see available commands."),
      Line(Response, "Current date: " + dateText),
      Line(Response, "") ]
  }

  /** One line per theme, the current one marked. */
  function ThemeList(current: string): string
  {
    Join(seq(|Themes|, i requires 0 <= i < |Themes| =>
      Themes[i].0 + ": " + Themes[i].1 + (if Themes[i].0 == current then " (current)" else "")), "\n")
  }

  /** The history numbered from 1, one command per line. */
  function HistoryList(history: seq<string>): string
  {
    Join(seq(|history|, i requires 0 <= i < |history| => NatToString(i + 1) + ". " + history[i]), "\n")
  }

  function TypingPrompt(quote: string): string
  {
    "Type the following text:\n\n\"" + quote + "\"\n\nPress Enter when finished."
  }

  function NotFoundMessage(command: string): string
  {
    "Command not found: " + command + ". Type 'help' to see available commands."
  }

  /** What the terminal's output depends on besides its own state. */
  datatype Env = Env(
    random: nat -> real,           // the Math.random() results a command draws on
    now: int,                      // Date.now(), in milliseconds
    hasPortfolio: bool,            // whether portfolio data is loaded
    downloadSucceeds: bool,        // whether writing portfolio.json succeeds
    viewText: string -> string,    // the text a data view (about, projects, ...) renders
    formatSeconds: int -> string)  // elapsed milliseconds as seconds with two decimals

  function PortfolioDownload(env: Env): seq<TerminalLine>
  {
    if !env.hasPortfolio then [Line(Error, "No portfolio data available to download.")]
    else if env.downloadSucceeds then
      [ Line(Success, "Downloading portfolio.json file..."),
        Line(Response, "After downloading, place the file in the data/ folder to use your custom portfolio data.") ]
    else [Line(Error, "Failed to download portfolio data.")]
  }

  /** The download command: no flag means the portfolio; `-p` and `-r` may both be given. */
  function DownloadLines(args: seq<string>, env: Env): seq<TerminalLine>
  {
    if |args| == 1 then PortfolioDownload(env)
    else
      (if "-p" in args then PortfolioDownload(env) else [])
      + (if "-r" in args then [Line(Success, "Downloading resume from " + ResumeUrl + "...")] else [])
      + (if "-p" !in args && "-r" !in args then
           [Line(Error, "Invalid download flag. Use \"download -p\" for portfolio or \"download -r\" for resume.")]
         else [])
  }

  /**
   * The lines a command adds after its echo, given the state the handler
   * saw: the history before this command, the matrix flag and the theme;
   * `quotes` is the typing test's quote list.
   * `typo` is hasTypo's verdict on an unrecognised command: a typo blinks
   * instead of printing.
   */
  function Reply(action: Action, command: string, typo: bool, history: seq<string>, showMatrix: bool, theme: string, quotes: seq<string>, env: Env): seq<TerminalLine>
    requires 0.0 <= env.random(0) < 1.0 && |quotes| > 0
  {
    match action
    case EasterEgg(reply) => [Line(Response, reply)]
    case ListThemes => [Line(Response, "Available themes:\n" + ThemeList(theme) + "\n\nUsage: theme <n>")]
    case SetTheme(t) => [Line(Success, "Theme set to " + LookupPair(Themes, t).GetOr("") + ".")]
    case UnknownTheme(t) => [Line(Error, "Unknown theme: " + t + ". Type 'theme' to see available options.")]
    case ShowHistory =>
      if history == [] then [Line(Info, "No command history available.")]
      else [Line(Response, "Command history:\n" + HistoryList(history))]
    case ClearHistory => [Line(Success, "Command history cleared.")]
    case NoAction => []
    case ClearScreen => []
    case Help => [Line(Response, HelpText + AdditionalHelp)]
    case Fortune =>
      assert |TerminalFortunes| == 8;
      [Line(Response, EasterEggs.FortunePrefix + TerminalFortunes[EasterEggs.PickIndex(env.random(0), 8)])]
    case TypingTest => [StaticLine(Info, TypingPrompt(EasterEggs.StartTypingTest(quotes, env.random(0), env.now).0))]
    case View(name) => [Line(Response, env.viewText(name))]
    case ToggleMatrix =>
      [Line(Response, if showMatrix then "Matrix effect disabled." else "Matrix effect enabled. May the force be with you.")]
    case Download(args) => DownloadLines(args, env)
    case Reload => [Line(Response, "Reloading portfolio data with AI...")]
    case Ascii => [Line(Response, AsciiLogo)]
    case Exit => []
    case Unknown => if typo then [] else [Line(Error, NotFoundMessage(command))]
  }

  /** The replies of the two actions whose lines executeCommand prints elsewhere. */
  lemma ReplyWithoutOutput(action: Action, command: string, typo: bool, history: seq<string>, showMatrix: bool, theme: string, quotes: seq<string>, env: Env)
    requires 0.0 <= env.random(0) < 1.0 && |quotes| > 0
    ensures action == TypingTest ==>
      Reply(action, command, typo, history, showMatrix, theme, quotes, env) == [StaticLine(Info, TypingPrompt(EasterEggs.StartTypingTest(quotes, env.random(0), env.now).0))]
    ensures action == Unknown ==>
      Reply(action, command, typo, history, showMatrix, theme, quotes, env) == if typo then [] else [Line(Error, NotFoundMessage(command))]
  {
  }

  // ---------------------------------------------------------------------
  // Typing test scoring
  // ---------------------------------------------------------------------

  datatype TypingTestState = TypingTestState(isActive: bool, quote: string, startTime: int)

  const NoTypingTest: TypingTestState := TypingTestState(false, "", 0)

  function Min(a: int, b: int): int
  {
    if a <= b then a else b
  }

  /** How many of the first n positions hold the same character in both strings. */
  function Matches(typed: string, expected: string, n: nat): (c: nat)
    requires n <= |typed| && n <= |expected|
    ensures c <= n
  {
    if n == 0 then 0
    else Matches(typed, expected, n - 1) + (if typed[n - 1] == expected[n - 1] then 1 else 0)
  }

  /** The positions, up to the shorter length, where the typed text agrees with the quote. */
  function CorrectChars(typed: string, expected: string): nat
  {
    Matches(typed, expected, Min(|typed|, |expected|))
  }

  /** The accuracy loop of endTypingTest. */
  method CountCorrectChars(typed: string, expected: string) returns (correct: nat)
    ensures correct == CorrectChars(typed, expected)
  {
    correct := 0;
    for i := 0 to Min(|typed|, |expected|)
      invariant correct == Matches(typed, expected, i)
    {
      if typed[i] == expected[i] {
        correct := correct + 1;
      }
    }
  }

  /** `Math.round(correctChars / expected.length * 100)` on exact rationals. */
  function Accuracy(typed: string, expected: string): JsNumber
  {
    RoundQuotient(100 * CorrectChars(typed, expected), |expected|)
  }

  /** The accuracy of a non-empty quote is a whole percentage between 0 and 100. */
  lemma AccuracyBounds(typed: string, expected: string)
    requires expected != []
    ensures Accuracy(typed, expected).Finite?
    ensures 0 <= Accuracy(typed, expected).value <= 100
  {
    var c := CorrectChars(typed, expected);
    var n := |expected|;
    var v := Accuracy(typed, expected).value;
    if v > 100 {
      EasterEggs.MulMonotone(2 * n, 101, v);
    }
    if v < 0 {
      EasterEggs.MulMonotone(2 * n, v + 1, 0);
    }
  }

  /** Typing the quote exactly scores 100. */
  lemma {:induction false} PerfectAccuracy(quote: string)
    requires quote != []
    ensures Accuracy(quote, quote) == Finite(100)
  {
    var n := |quote|;
    AllMatch(quote, n);
    var v := Accuracy(quote, quote).value;
    assert 2 * n * v <= 200 * n + n < 2 * n * (v + 1);
    if v > 100 {
      EasterEggs.MulMonotone(2 * n, 101, v);
    }
    if v < 100 {
      EasterEggs.MulMonotone(2 * n, v + 1, 100);
    }
  }

  lemma {:induction false} AllMatch(s: string, n: nat)
    requires n <= |s|
    ensures Matches(s, s, n) == n
  {
    if n > 0 {
      AllMatch(s, n - 1);
    }
  }

  /** Example of the accuracy formula: one wrong character in eleven, 10 / 11, rounds to 91. */
  lemma AccuracyOfOneSlip()
    ensures Accuracy("the cat sad", "the cat sat") == Finite(91)
  {
    var t, q := "the cat sad", "the cat sat";
    AllMatch(q, 10);
    assert Matches(t, q, 10) == Matches(q, q, 10) by {
      MatchesAgree(t, q, 10);
    }
    assert CorrectChars(t, q) == 10;
  }

  /** Matches up to n depends only on the first n characters of the typed text. */
  lemma {:induction false} MatchesAgree(t: string, q: string, n: nat)
    requires n <= |t| && n <= |q| && t[..n] == q[..n]
    ensures Matches(t, q, n) == Matches(q, q, n)
  {
    if n > 0 {
      assert t[..n - 1] == t[..n][..n - 1] && q[..n - 1] == q[..n][..n - 1];
      assert t[n - 1] == t[..n][n - 1];
      MatchesAgree(t, q, n - 1);
    }
  }

  /** The two result lines endTypingTest prints. */
  function TypingResults(test: TypingTestState, typed: string, now: int, formatSeconds: int -> string): seq<TerminalLine>
  {
    var elapsed := now - test.startTime;
    var wpm := EasterEggs.CalculateSpeed(test.quote, elapsed);
    var results := "Typing test results:\nWPM: " + NumberToString(wpm)
      + "\nAccuracy: " + NumberToString(Accuracy(typed, test.quote))
      + "%\nTime: " + formatSeconds(elapsed) + " seconds";
    [StaticLine(Command, "> " + typed), StaticLine(Success, results)]
  }

  // ---------------------------------------------------------------------
  // Pager
  // ---------------------------------------------------------------------

  datatype PagerState = PagerState(isActive: bool, content: seq<string>, currentLine: nat, totalLines: nat)

  const PagerClosed: PagerState := PagerState(false, [], 0, 0)

  /** An open pager has its cursor on one of its lines; a closed one is empty. */
  predicate PagerValid(p: PagerState)
  {
    (p.isActive ==> p.currentLine < p.totalLines == |p.content|)
    && (!p.isActive ==> p == PagerClosed)
  }

  /** Moving the cursor `step` lines on; reaching the end closes the pager. */
  function Advance(p: PagerState, step: nat): (r: PagerState)
    requires PagerValid(p)
    ensures PagerValid(r)
  {
    if !p.isActive then p
    else
      var next := Min(p.currentLine + step, p.totalLines);
      if next >= p.totalLines then PagerClosed else p.(currentLine := next)
  }

  /** `k` presses of the same key. */
  function AdvanceTimes(p: PagerState, step: nat, k: nat): (r: PagerState)
    requires PagerValid(p)
    ensures PagerValid(r)
  {
    if k == 0 then p else Advance(AdvanceTimes(p, step, k - 1), step)
  }

  /** After k presses the pager is still open exactly when the cursor has not yet passed the last line. */
  lemma {:induction false} AdvanceTimesMeaning(p: PagerState, step: nat, k: nat)
    requires PagerValid(p) && p.isActive && step > 0
    ensures AdvanceTimes(p, step, k).isActive <==> p.currentLine + k * step < p.totalLines
    ensures AdvanceTimes(p, step, k).isActive ==> AdvanceTimes(p, step, k) == p.(currentLine := p.currentLine + k * step)
  {
    if k > 0 {
      AdvanceTimesMeaning(p, step, k - 1);
      var before := AdvanceTimes(p, step, k - 1);
      var reached := p.currentLine + (k - 1) * step;
      assert p.currentLine + k * step == reached + step;
      if before.isActive {
        assert before == p.(currentLine := reached);
      } else {
        assert reached >= p.totalLines;
      }
    }
  }

  /** Example of AdvanceTimesMeaning: with 45 lines the pager closes on the third page-down or the 45th line-down. */
  lemma FortyFiveLines(content: seq<string>)
    requires |content| == 45
    ensures var p := PagerState(true, content, 0, 45);
      AdvanceTimes(p, LinesPerPage, 2).isActive && !AdvanceTimes(p, LinesPerPage, 3).isActive
      && AdvanceTimes(p, 1, 44).isActive && !AdvanceTimes(p, 1, 45).isActive
  {
    var p := PagerState(true, content, 0, 45);
    AdvanceTimesMeaning(p, LinesPerPage, 2);
    AdvanceTimesMeaning(p, LinesPerPage, 3);
    AdvanceTimesMeaning(p, 1, 44);
    AdvanceTimesMeaning(p, 1, 45);
  }

  function CeilDiv(a: nat, b: nat): nat
    requires b > 0
  {
    (a + b - 1) / b
  }

  /** displayCurrentPage: the page at the cursor and its status line replace the output. */
  function PageView(p: PagerState): seq<TerminalLine>
    requires PagerValid(p) && p.isActive
  {
    var start := p.currentLine;
    var end := Min(start + LinesPerPage, p.totalLines);
    var status := "--- Page " + NatToString(start / LinesPerPage + 1) + "/" + NatToString(CeilDiv(p.totalLines, LinesPerPage))
      + " (" + NatToString(start + 1) + "-" + NatToString(end) + "/" + NatToString(p.totalLines)
      + " lines) | SPACE: next page | ENTER: next line | q: quit ---";
    [StaticLine(Response, Join(p.content[start..end], "\n")), StaticLine(Info, status)]
  }

  /** A response long enough for the pager: more than a page of lines. */
  predicate IsLarge(line: TerminalLine)
  {
    line.kind == Response && Count(line.text, '\n') + 1 > LinesPerPage
  }

  /** The text of the first large response, if any. */
  function FirstLarge(lines: seq<TerminalLine>): (r: Option<string>)
    ensures r.Some? <==> exists i :: 0 <= i < |lines| && IsLarge(lines[i])
    ensures r.Some? ==> exists i :: 0 <= i < |lines| && IsLarge(lines[i]) && lines[i].text == r.value
                          && forall j :: 0 <= j < i ==> !IsLarge(lines[j])
  {
    if lines == [] then None
    else if IsLarge(lines[0]) then Some(lines[0].text)
    else
      var r := FirstLarge(lines[1..]);
      assert forall i :: 0 < i < |lines| ==> lines[i] == lines[1..][i - 1];
      r
  }

  /** addToOutput's preparation: everything but commands is animated from an empty text. */
  function Animated(lines: seq<TerminalLine>): (r: seq<TerminalLine>)
    ensures |r| == |lines|
    ensures forall i :: 0 <= i < |lines| ==>
      r[i].kind == lines[i].kind && r[i].text == lines[i].text
      && r[i].isAnimating == (lines[i].kind != Command)
      && r[i].animatedText == Some(if lines[i].kind == Command then lines[i].text else "")
  {
    seq(|lines|, i requires 0 <= i < |lines| =>
      lines[i].(isAnimating := lines[i].kind != Command,
                animatedText := Some(if lines[i].kind == Command then lines[i].text else "")))
  }

  // ---------------------------------------------------------------------
  // Tab completion
  // ---------------------------------------------------------------------

  /** Everything Tab can complete to: the shorthands, the commands and some easter-egg words. */
  const TabCandidates: seq<string> := AliasKeys + ValidCommands + ["coffee", "rocket", "cow", "sudo", "42"]

  function Completions(text: string): seq<string>
  {
    var prefix := ToLower(text);
    Seqs.Filter(TabCandidates, (c: string) => StartsWith(c, prefix))
  }

  /** The completions are the candidates that start with the lower-cased input, in candidate order. */
  lemma CompletionsMeaning(text: string)
    ensures forall c :: c in Completions(text) <==> c in TabCandidates && StartsWith(c, ToLower(text))
    ensures Seqs.IsSubsequence(Completions(text), TabCandidates)
  {
    var m := Completions(text);
    forall c | c in TabCandidates && StartsWith(c, ToLower(text)) ensures c in m {
      var i :| 0 <= i < |TabCandidates| && TabCandidates[i] == c;
    }
    forall c | c in m ensures c in TabCandidates && StartsWith(c, ToLower(text)) {
      var i :| 0 <= i < |m| && m[i] == c;
    }
  }

  /** The shorthand list that Tab offers is the alias table's key set... */
  lemma AliasKeysAreTheAliases()
    ensures forall k :: k in AliasKeys <==> k in Aliases
  {
  }

  /** ...with each key once. */
  lemma AliasKeysDistinct()
    ensures Seqs.NoDuplicates(AliasKeys)
  {
    var a, b, c := AliasChunk0, AliasChunk1, AliasChunk2;
    assert AliasKeys == a + b + c;
    AliasChunksDistinct();
    AliasChunksApart01();
    Seqs.NoDuplicatesAppend(a, b);
    AliasChunksApart2(a + b);
    Seqs.NoDuplicatesAppend(a + b, c);
  }

  // The alias keys in three parts of twelve, so each fact about them stays small.
  const AliasChunk0: seq<string> := ["h", "?", "c", "cls", "q", "quit", "a", "me", "bio", "p", "proj", "s"]
  const AliasChunk1: seq<string> := ["tech", "e", "exp", "work", "edu", "school", "con", "soc", "links", "g", "git", "stats"]
  const AliasChunk2: seq<string> := ["m", "mtx", "dl", "d", "dlp", "dlr", "r", "refresh", "art", "logo", "f", "type"]

  lemma AliasChunksDistinct()
    ensures Seqs.NoDuplicates(AliasChunk0) && Seqs.NoDuplicates(AliasChunk1) && Seqs.NoDuplicates(AliasChunk2)
  {
  }

  lemma AliasChunksApart01()
    ensures forall i, j :: 0 <= i < |AliasChunk0| && 0 <= j < |AliasChunk1| ==> AliasChunk0[i] != AliasChunk1[j]
  {
  }

  lemma AliasChunksApart2(ab: seq<string>)
    requires ab == AliasChunk0 + AliasChunk1
    ensures forall i, j :: 0 <= i < |ab| && 0 <= j < |AliasChunk2| ==> ab[i] != AliasChunk2[j]
  {
  }

  datatype BlinkState = BlinkState(isActive: bool, frames: seq<string>, currentFrame: nat)

  const NoBlink: BlinkState := BlinkState(false, [], 0)

  // ---------------------------------------------------------------------
  // The terminal component
  // ---------------------------------------------------------------------

  class Terminal {
    var input: string
    var commandHistory: seq<string>
    var historyIndex: int
    var output: seq<TerminalLine>
    var showMatrix: bool
    var currentTheme: string
    var pager: PagerState
    var blink: BlinkState
    var typingTest: TypingTestState
    var retroMode: bool
    /** The Konami progress, which lives at module level in the source. */
    const konami: EasterEggs.KonamiTracker
    /** The typing test's quotes: the constructor fixes them to the source's list. */
    const quotes: seq<string>

    ghost predicate Valid()
      reads this, konami
    {
      -1 <= historyIndex < |commandHistory|
      && PagerValid(pager)
      && |quotes| > 0
      && konami.Valid()
    }

    constructor (userName: string, dateText: string, konami: EasterEggs.KonamiTracker)
      requires konami.Valid()
      ensures Valid()
      ensures this.konami == konami && quotes == EasterEggs.Quotes
      ensures output == Welcome(userName, dateText)
      ensures input == "" && commandHistory == [] && historyIndex == -1
      ensures currentTheme == "classic" && !showMatrix && !retroMode
      ensures pager == PagerClosed && blink == NoBlink && typingTest == NoTypingTest
    {
      this.konami := konami;
      quotes := EasterEggs.Quotes;
      input := "";
      commandHistory := [];
      historyIndex := -1;
      output := Welcome(userName, dateText);
      showMatrix := false;
      currentTheme := "classic";
      pager := PagerClosed;
      blink := NoBlink;
      typingTest := NoTypingTest;
      retroMode := false;
    }

    /** Typing into the input field. */
    method SetInput(text: string)
      modifies this
      ensures input == text
      ensures commandHistory == old(commandHistory) && historyIndex == old(historyIndex) && output == old(output)
      ensures showMatrix == old(showMatrix) && currentTheme == old(currentTheme) && retroMode == old(retroMode)
      ensures pager == old(pager) && blink == old(blink) && typingTest == old(typingTest)
    {
      input := text;
    }

    /**
     * What executeCommand(cmd) does to everything but the input field: a
     * running typing test scores the input field (not `cmd`) and nothing
     * else happens; otherwise
     * the command is performed as its normalised form dispatches.
     */
    twostate predicate CommandEffect(cmd: string, env: Env)
      requires 0.0 <= env.random(0) < 1.0 && |quotes| > 0
      reads this`output, this`commandHistory, this`historyIndex, this`showMatrix, this`currentTheme
      reads this`pager, this`blink, this`typingTest, this`retroMode
    {
      pager == old(pager) && retroMode == old(retroMode)
      && if old(typingTest.isActive) then
        output == old(output) + TypingResults(old(typingTest), old(input), env.now, env.formatSeconds)
        && typingTest == NoTypingTest
        && commandHistory == old(commandHistory) && historyIndex == old(historyIndex)
        && showMatrix == old(showMatrix) && currentTheme == old(currentTheme) && blink == old(blink)
      else
        var command := Normalize(cmd);
        var action := Dispatch(command, env.random(0));
        var typo := action == Unknown && EasterEggs.IsTypo(command, ValidCommands);
        Performed(cmd, command, action, typo, Reply(action, command, typo, old(commandHistory), old(showMatrix), old(currentTheme), quotes, env), env)
    }

    /**
     * Performing `action` for the command line `cmd`, normalised to
     * `command`: the line joins the
     * history (which clear-history empties), is echoed with the reply
     * (which clear wipes), and the theme, matrix, typing-test and blink
     * state follow the action. `reply` is what the action prints after
     * the echo and `typo` whether an unrecognised command is a near miss.
     */
    twostate predicate Performed(cmd: string, command: string, action: Action, typo: bool, reply: seq<TerminalLine>, env: Env)
      requires 0.0 <= env.random(0) < 1.0 && |quotes| > 0
      reads this`output, this`commandHistory, this`historyIndex, this`showMatrix, this`currentTheme
      reads this`blink, this`typingTest
    {
      historyIndex == -1
      && commandHistory == (if action == ClearHistory then [] else old(commandHistory) + [cmd])
      && output == (if action == ClearScreen then []
                    else old(output) + [Line(Command, "> " + cmd)] + reply)
      && currentTheme == (if action.SetTheme? then action.theme else old(currentTheme))
      && showMatrix == (if action == ToggleMatrix then !old(showMatrix)
                        else if action.SetTheme? && action.theme != old(currentTheme) then action.theme == "matrix"
                        else old(showMatrix))
      && typingTest == (if action == TypingTest then
                          var (quote, start) := EasterEggs.StartTypingTest(quotes, env.random(0), env.now);
                          TypingTestState(true, quote, start)
                        else old(typingTest))
      && (if action == Unknown && typo then
            blink.isActive && blink.currentFrame == 0 && EasterEggs.BlinkFrames(blink.frames, command)
          else blink == old(blink))
    }

    /** Whether executeCommand(cmd) clears the input field: starting or ending a typing test does. */
    function ClearsInput(cmd: string, env: Env): bool
      requires 0.0 <= env.random(0) < 1.0
      reads this
    {
      typingTest.isActive || Dispatch(Normalize(cmd), env.random(0)) == TypingTest
    }

    /** executeCommand. */
    method ExecuteCommand(cmd: string, env: Env)
      requires Valid() && EasterEggs.IsRandomStream(env.random)
      modifies this
      ensures Valid()
      ensures CommandEffect(cmd, env)
      ensures input == if old(ClearsInput(cmd, env)) then "" else old(input)
    {
      if typingTest.isActive {
        EndTypingTest(env.now, env.formatSeconds);
        return;
      }
      var command := Normalize(cmd);
      var action := Dispatch(command, env.random(0));
      var typo := false;
      if action == Unknown {
        typo := EasterEggs.HasTypo(command, ValidCommands);
      }
      var reply := Reply(action, command, typo, commandHistory, showMatrix, currentTheme, quotes, env);
      ReplyWithoutOutput(action, command, typo, commandHistory, showMatrix, currentTheme, quotes, env);
      Perform(cmd, command, action, typo, reply, env);
    }

    /**
     * The body of executeCommand once the normalised command `command` has been
     * dispatched to `action` and, when unrecognised, checked for a typo;
     * `reply` is what the action prints.
     */
    method Perform(cmd: string, command: string, action: Action, typo: bool, reply: seq<TerminalLine>, env: Env)
      requires Valid() && EasterEggs.IsRandomStream(env.random) && !typingTest.isActive
      requires action == TypingTest ==> reply == [StaticLine(Info, TypingPrompt(EasterEggs.StartTypingTest(quotes, env.random(0), env.now).0))]
      requires action == Unknown ==> reply == if typo then [] else [Line(Error, NotFoundMessage(command))]
      modifies this
      ensures Valid()
      ensures Performed(cmd, command, action, typo, reply, env)
      ensures pager == old(pager) && retroMode == old(retroMode)
      ensures input == if action == TypingTest then "" else old(input)
    {
      if action == TypingTest {
        PerformTypingTest(cmd, command, action, typo, reply, env);
      } else if action == Unknown {
        PerformUnknown(cmd, command, typo, reply, env.random);
      } else {
        PerformReply(cmd, command, action, typo, reply, env);
      }
    }

    /** The typing test prints its prompt itself. */
    method PerformTypingTest(cmd: string, command: string, action: Action, typo: bool, reply: seq<TerminalLine>, env: Env)
      requires Valid() && EasterEggs.IsRandomStream(env.random) && !typingTest.isActive
      requires action == TypingTest
      requires reply == [StaticLine(Info, TypingPrompt(EasterEggs.StartTypingTest(quotes, env.random(0), env.now).0))]
      modifies this
      ensures Valid()
      ensures Performed(cmd, command, action, typo, reply, env)
      ensures pager == old(pager) && retroMode == old(retroMode)
      ensures input == if action == TypingTest then "" else old(input)
    {
      commandHistory := commandHistory + [cmd];
      historyIndex := -1;
      output := output + [Line(Command, "> " + cmd)];
      StartTypingTest(env.random(0), env.now);
    }

    /** An unknown command prints its own error, or blinks for a typo. */
    method PerformUnknown(cmd: string, command: string, typo: bool, reply: seq<TerminalLine>, random: nat -> real)
      requires EasterEggs.IsRandomStream(random)
      requires reply == if typo then [] else [Line(Error, NotFoundMessage(command))]
      modifies this
      ensures historyIndex == -1 && commandHistory == old(commandHistory) + [cmd]
      ensures output == old(output) + [Line(Command, "> " + cmd)] + reply
      ensures typo ==> blink.isActive && blink.currentFrame == 0 && EasterEggs.BlinkFrames(blink.frames, command)
      ensures !typo ==> blink == old(blink)
      ensures input == old(input) && showMatrix == old(showMatrix) && currentTheme == old(currentTheme) && retroMode == old(retroMode)
      ensures pager == old(pager) && typingTest == old(typingTest)
    {
      commandHistory := commandHistory + [cmd];
      historyIndex := -1;
      output := output + [Line(Command, "> " + cmd)];
      ReportUnknown(command, typo, random);
    }

    /** The other actions: the reply is printed after the echo, unless the screen is cleared. */
    method PerformReply(cmd: string, command: string, action: Action, typo: bool, reply: seq<TerminalLine>, env: Env)
      requires Valid() && EasterEggs.IsRandomStream(env.random) && !typingTest.isActive
      requires action == TypingTest ==> reply == [StaticLine(Info, TypingPrompt(EasterEggs.StartTypingTest(quotes, env.random(0), env.now).0))]
      requires action == Unknown ==> reply == if typo then [] else [Line(Error, NotFoundMessage(command))]
      requires action != TypingTest && action != Unknown
      modifies this
      ensures Valid()
      ensures Performed(cmd, command, action, typo, reply, env)
      ensures pager == old(pager) && retroMode == old(retroMode)
      ensures input == if action == TypingTest then "" else old(input)
    {
      commandHistory := commandHistory + [cmd];
      historyIndex := -1;
      output := output + [Line(Command, "> " + cmd)];
      if action == ClearScreen {
        output := [];
      } else {
        ApplyReply(action, reply);
      }
    }

    /** An action that prints its reply, with the state change it makes besides. */
    method ApplyReply(action: Action, reply: seq<TerminalLine>)
      requires Valid() && historyIndex == -1
      modifies this
      ensures Valid()
      ensures output == old(output) + reply
      ensures commandHistory == if action == ClearHistory then [] else old(commandHistory)
      ensures currentTheme == if action.SetTheme? then action.theme else old(currentTheme)
      ensures showMatrix == if action == ToggleMatrix then !old(showMatrix)
                            else if action.SetTheme? && action.theme != old(currentTheme) then action.theme == "matrix"
                            else old(showMatrix)
      ensures historyIndex == old(historyIndex) && input == old(input) && typingTest == old(typingTest)
      ensures pager == old(pager) && retroMode == old(retroMode) && blink == old(blink)
    {
      output := output + reply;
      if action == ClearHistory {
        commandHistory := [];
      } else if action == ToggleMatrix {
        showMatrix := !showMatrix;
      } else if action.SetTheme? && action.theme != currentTheme {
        // the theme effect runs only when the theme actually changes
        currentTheme := action.theme;
        showMatrix := action.theme == "matrix";
      }
    }

    /** The default case of executeCommand: a near miss blinks, anything else is reported as not found. */
    method ReportUnknown(command: string, typo: bool, random: nat -> real)
      requires EasterEggs.IsRandomStream(random)
      modifies this
      ensures typo ==> (output == old(output)
        && blink.isActive && blink.currentFrame == 0 && EasterEggs.BlinkFrames(blink.frames, command))
      ensures !typo ==> output == old(output) + [Line(Error, NotFoundMessage(command))] && blink == old(blink)
      ensures input == old(input) && commandHistory == old(commandHistory) && historyIndex == old(historyIndex)
      ensures showMatrix == old(showMatrix) && currentTheme == old(currentTheme) && retroMode == old(retroMode)
      ensures pager == old(pager) && typingTest == old(typingTest)
    {
      if typo {
        var frames := EasterEggs.GenerateBlinkingEffect(command, random);
        blink := BlinkState(true, frames, 0);
      } else {
        output := output + [Line(Error, NotFoundMessage(command))];
      }
    }

    /** startTypingTest: a quote is drawn, shown, and timed from now. */
    method StartTypingTest(draw: real, now: int)
      requires Valid() && 0.0 <= draw < 1.0
      modifies this
      ensures Valid()
      ensures var (quote, start) := EasterEggs.StartTypingTest(quotes, draw, now);
        typingTest == TypingTestState(true, quote, start)
        && output == old(output) + [StaticLine(Info, TypingPrompt(quote))]
      ensures input == ""
      ensures commandHistory == old(commandHistory) && historyIndex == old(historyIndex)
      ensures showMatrix == old(showMatrix) && currentTheme == old(currentTheme) && retroMode == old(retroMode)
      ensures pager == old(pager) && blink == old(blink)
    {
      var (quote, start) := EasterEggs.StartTypingTest(quotes, draw, now);
      typingTest := TypingTestState(true, quote, start);
      output := output + [StaticLine(Info, TypingPrompt(quote))];
      input := "";
    }

    /** endTypingTest: the text in the input field is scored against the quote and the test is over. */
    method EndTypingTest(now: int, formatSeconds: int -> string)
      requires Valid()
      modifies this
      ensures Valid()
      ensures output == old(output) + TypingResults(old(typingTest), old(input), now, formatSeconds)
      ensures typingTest == NoTypingTest && input == ""
      ensures commandHistory == old(commandHistory) && historyIndex == old(historyIndex)
      ensures showMatrix == old(showMatrix) && currentTheme == old(currentTheme) && retroMode == old(retroMode)
      ensures pager == old(pager) && blink == old(blink)
    {
      var typed := input;
      var elapsed := now - typingTest.startTime;
      var wpm := EasterEggs.CalculateSpeed(typingTest.quote, elapsed);
      var correct := CountCorrectChars(typed, typingTest.quote);
      var accuracy := RoundQuotient(100 * correct, |typingTest.quote|);
      var results := "Typing test results:\nWPM: " + NumberToString(wpm)
        + "\nAccuracy: " + NumberToString(accuracy)
        + "%\nTime: " + formatSeconds(elapsed) + " seconds";
      output := output + [StaticLine(Command, "> " + typed), StaticLine(Success, results)];
      typingTest := NoTypingTest;
      input := "";
    }

    /**
     * Enter in the input field (handleEnterKey): ignored while the pager is
     * open; otherwise the input is cleared and run as a command.
     */
    method Submit(env: Env)
      requires Valid() && EasterEggs.IsRandomStream(env.random)
      modifies this
      ensures Valid()
      ensures old(pager.isActive) ==> unchanged(this)
      ensures !old(pager.isActive) ==> CommandEffect(old(input), env) && input == ""
    {
      if pager.isActive {
        return;
      }
      var cmd := input;
      ExecuteCommand(cmd, env);
      input := "";
    }

    /** The late half of `reload`: the outcome of refreshing the data, once it arrives. */
    method CompleteReload(error: Option<string>)
      modifies this
      ensures output == old(output) + [if error.Some? then Line(Error, "Error reloading data: " + error.value)
                                       else Line(Success, "Portfolio data successfully reloaded!")]
      ensures input == old(input) && commandHistory == old(commandHistory) && historyIndex == old(historyIndex)
      ensures showMatrix == old(showMatrix) && currentTheme == old(currentTheme) && retroMode == old(retroMode)
      ensures pager == old(pager) && blink == old(blink) && typingTest == old(typingTest)
    {
      match error {
        case Some(message) => output := output + [Line(Error, "Error reloading data: " + message)];
        case None => output := output + [Line(Success, "Portfolio data successfully reloaded!")];
      }
    }

    /** handleKeyDown: the history cursor on ArrowUp and ArrowDown, completion on Tab. */
    method HandleKeyDown(key: string)
      requires Valid()
      modifies this
      ensures Valid()
      ensures commandHistory == old(commandHistory)
      ensures showMatrix == old(showMatrix) && currentTheme == old(currentTheme) && retroMode == old(retroMode)
      ensures pager == old(pager) && blink == old(blink) && typingTest == old(typingTest)
      ensures key == "ArrowUp" ==> (
        output == old(output)
        && if old(historyIndex) < |commandHistory| - 1 then
             historyIndex == old(historyIndex) + 1 && input == commandHistory[|commandHistory| - 1 - historyIndex]
           else historyIndex == old(historyIndex) && input == old(input))
      ensures key == "ArrowDown" ==> (
        output == old(output)
        && if old(historyIndex) > 0 then
             historyIndex == old(historyIndex) - 1 && input == commandHistory[|commandHistory| - 1 - historyIndex]
           else if old(historyIndex) == 0 then historyIndex == -1 && input == ""
           else historyIndex == old(historyIndex) && input == old(input))
      ensures key == "Tab" ==> (
        historyIndex == old(historyIndex)
        && var matches := Completions(old(input));
           if old(input) == "" || |matches| == 0 then input == old(input) && output == old(output)
           else if |matches| == 1 then input == matches[0] && output == old(output)
           else input == old(input)
                && output == old(output) + [Line(Command, "> " + old(input)), Line(Response, "Possible commands: " + Join(matches, ", "))])
      ensures key != "ArrowUp" && key != "ArrowDown" && key != "Tab" ==>
        input == old(input) && output == old(output) && historyIndex == old(historyIndex)
    {
      if key == "ArrowUp" {
        if historyIndex < |commandHistory| - 1 {
          historyIndex := historyIndex + 1;
          input := commandHistory[|commandHistory| - 1 - historyIndex];
        }
      } else if key == "ArrowDown" {
        if historyIndex > 0 {
          historyIndex := historyIndex - 1;
          input := commandHistory[|commandHistory| - 1 - historyIndex];
        } else if historyIndex == 0 {
          historyIndex := -1;
          input := "";
        }
      } else if key == "Tab" {
        if input != "" {
          var matches := Completions(input);
          if |matches| == 1 {
            input := matches[0];
          } else if |matches| > 1 {
            output := output + [Line(Command, "> " + input), Line(Response, "Possible commands: " + Join(matches, ", "))];
          }
        }
      }
    }

    /**
     * The window key listener for the Konami code, idle during a typing
     * test. Completing the code toggles retro mode, which re-runs the theme
     * effect and so sets the matrix flag from the theme.
     */
    method KonamiKey(key: string)
      requires Valid()
      modifies this, konami
      ensures Valid()
      ensures old(typingTest.isActive) ==>
        konami.currentIndex == old(konami.currentIndex) && output == old(output)
        && retroMode == old(retroMode) && showMatrix == old(showMatrix)
      ensures !old(typingTest.isActive) ==>
        var (index, completed) := EasterEggs.KonamiStep(old(konami.currentIndex), key);
        konami.currentIndex == index
        && retroMode == (old(retroMode) != completed)
        && output == old(output) + (if completed then [StaticLine(Success, EasterEggs.KonamiReward)] else [])
        && showMatrix == (if completed then currentTheme == "matrix" else old(showMatrix))
      ensures input == old(input) && commandHistory == old(commandHistory) && historyIndex == old(historyIndex)
      ensures currentTheme == old(currentTheme) && pager == old(pager) && blink == old(blink) && typingTest == old(typingTest)
    {
      if typingTest.isActive {
        return;
      }
      var completed, message := konami.CheckKonamiCode(key);
      if completed && message.Some? {
        retroMode := !retroMode;
        output := output + [StaticLine(Success, message.value)];
        showMatrix := currentTheme == "matrix";
      }
    }

    /**
     * addToOutput: nothing while the pager is open; a large response opens
     * the pager on its lines (after the notice); anything else is appended,
     * animated.
     */
    method AddToOutput(lines: seq<TerminalLine>)
      requires Valid()
      modifies this
      ensures Valid()
      ensures old(pager.isActive) ==> output == old(output) && pager == old(pager)
      ensures !old(pager.isActive) ==>
        match FirstLarge(Animated(lines))
        case Some(text) =>
          output == old(output) + [StaticLine(Info, "--- Entering pager mode ---")]
          && pager == PagerState(true, Split(text, '\n'), 0, |Split(text, '\n')|)
        case None => output == old(output) + Animated(lines) && pager == old(pager)
      ensures input == old(input) && commandHistory == old(commandHistory) && historyIndex == old(historyIndex)
      ensures showMatrix == old(showMatrix) && currentTheme == old(currentTheme) && retroMode == old(retroMode)
      ensures blink == old(blink) && typingTest == old(typingTest)
    {
      if pager.isActive {
        return;
      }
      var processed := Animated(lines);
      var large := FirstLarge(processed);
      if large.Some? {
        output := output + [StaticLine(Info, "--- Entering pager mode ---")];
        EnterPagerMode(large.value);
      } else {
        output := output + processed;
      }
    }

    /**
     * enterPagerMode: the pager opens on the lines of `content`. The page is
     * drawn from the state the caller saw, so it shows only if a pager was
     * already open then.
     */
    method EnterPagerMode(content: string)
      requires Valid()
      modifies this
      ensures Valid()
      ensures pager == PagerState(true, Split(content, '\n'), 0, |Split(content, '\n')|)
      ensures output == if old(pager.isActive) then PageView(old(pager)) else old(output)
      ensures input == old(input) && commandHistory == old(commandHistory) && historyIndex == old(historyIndex)
      ensures showMatrix == old(showMatrix) && currentTheme == old(currentTheme) && retroMode == old(retroMode)
      ensures blink == old(blink) && typingTest == old(typingTest)
    {
      var lines := Split(content, '\n');
      var shown := pager;
      pager := PagerState(true, lines, 0, |lines|);
      if shown.isActive {
        output := PageView(shown);
      }
    }

    /**
     * exitPagerMode: the pager closes. Its "--- Pager closed ---" notice
     * goes through addToOutput, which drops it whenever the pager was open.
     */
    method ExitPagerMode()
      requires Valid()
      modifies this
      ensures Valid()
      ensures pager == PagerClosed
      ensures output == if old(pager.isActive) then old(output)
                        else old(output) + Animated([StaticLine(Info, "--- Pager closed ---")])
      ensures input == old(input) && commandHistory == old(commandHistory) && historyIndex == old(historyIndex)
      ensures showMatrix == old(showMatrix) && currentTheme == old(currentTheme) && retroMode == old(retroMode)
      ensures blink == old(blink) && typingTest == old(typingTest)
    {
      AddToOutput([StaticLine(Info, "--- Pager closed ---")]);
      pager := PagerClosed;
    }

    /**
     * handlePagerPageDown (step 20) and handlePagerLineDown (step 1): the
     * cursor moves on and the page is redrawn, from the cursor the handler
     * saw; passing the last line closes the pager.
     */
    method Scroll(step: nat)
      requires Valid()
      modifies this
      ensures Valid()
      ensures pager == Advance(old(pager), step)
      ensures output == if old(pager.isActive) && pager.isActive then PageView(old(pager)) else old(output)
      ensures input == old(input) && commandHistory == old(commandHistory) && historyIndex == old(historyIndex)
      ensures showMatrix == old(showMatrix) && currentTheme == old(currentTheme) && retroMode == old(retroMode)
      ensures blink == old(blink) && typingTest == old(typingTest)
    {
      if !pager.isActive {
        return;
      }
      var next := Min(pager.currentLine + step, pager.totalLines);
      if next >= pager.totalLines {
        ExitPagerMode();
      } else {
        var shown := pager;
        pager := pager.(currentLine := next);
        output := PageView(shown);
      }
    }

    /** The window key listener while the pager is open: Space pages, Enter scrolls a line, q quits. */
    method PagerKey(code: string, key: string)
      requires Valid()
      modifies this
      ensures Valid()
      ensures !old(pager.isActive) ==> unchanged(this)
      ensures old(pager.isActive) && code == "Space" ==>
        pager == Advance(old(pager), LinesPerPage)
        && output == if pager.isActive then PageView(old(pager)) else old(output)
      ensures old(pager.isActive) && (code == "Enter" || code == "NumpadEnter") ==>
        pager == Advance(old(pager), 1)
        && output == if pager.isActive then PageView(old(pager)) else old(output)
      ensures old(pager.isActive) && code != "Space" && code != "Enter" && code != "NumpadEnter" ==>
        output == old(output) && pager == (if ToLower(key) == "q" then PagerClosed else old(pager))
      ensures input == old(input) && commandHistory == old(commandHistory) && historyIndex == old(historyIndex)
      ensures showMatrix == old(showMatrix) && currentTheme == old(currentTheme) && retroMode == old(retroMode)
      ensures blink == old(blink) && typingTest == old(typingTest)
    {
      if !pager.isActive {
        return;
      }
      if code == "Space" {
        Scroll(LinesPerPage);
      } else if code == "Enter" || code == "NumpadEnter" {
        Scroll(1);
      } else if ToLower(key) == "q" {
        ExitPagerMode();
      }
    }
  }

  /**
   * Example of HandleKeyDown's history walk: two presses of ArrowUp reach
   * the command before last, and ArrowDown comes back to the last one.
   */
  method RecallPrevious(t: Terminal)
    requires t.Valid() && |t.commandHistory| >= 2 && t.historyIndex == -1
    modifies t
    ensures t.commandHistory == old(t.commandHistory) && t.historyIndex == 0
    ensures t.input == t.commandHistory[|t.commandHistory| - 1]
  {
    t.HandleKeyDown("ArrowUp");
    t.HandleKeyDown("ArrowUp");
    assert t.input == t.commandHistory[|t.commandHistory| - 2];
    t.HandleKeyDown("ArrowDown");
  }
}
