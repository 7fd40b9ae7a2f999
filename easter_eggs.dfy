// The terminal template's easter eggs: extra responses for special words,
// typo detection by edit distance, the glitching "command not found"
// frames, the typing-speed test's arithmetic and the Konami code tracker.
module EasterEggs {
  import opened Text

  // ---------------------------------------------------------------------
  // Randomness
  // ---------------------------------------------------------------------

  /** A run of Math.random() results: draw n lies in [0, 1). */
  ghost predicate IsRandomStream(random: nat -> real)
  {
    forall n :: 0.0 <= random(n) < 1.0
  }

  /** `Math.floor(r * n)`: the index a random draw selects from a list of n items. */
  function PickIndex(r: real, n: nat): (i: nat)
    requires 0.0 <= r < 1.0 && n > 0
    ensures i < n
  {
    assert r * (n as real) < n as real;
    (r * (n as real)).Floor
  }

  // ---------------------------------------------------------------------
  // ASCII art and texts
  // ---------------------------------------------------------------------

  const CoffeeArt: string := "\n   ( (\n    ) )\n  ........\n  |      |]\n  \\      /\n   '----'\n  "
  const RocketArt: string := "\n      /\\\n     /  \\\n    |    |\n    |    |\n    |    |\n   /|    |\\\n  / |    | \\\n /__|____|__\\\n     /\\\n    /  \\\n    ^^^^\n  "
  const MatrixRainArt: string := "\n 1  0  1  0  1  0  1  0  1  0\n   0  1  0  1  0     0  1  0  1\n 0     0     0  1  0  1     0\n   1  0  1  0     0  1  0  1  0\n 1     1     1  0  1     1\n   0  1  0  1  0  1  0     0  1\n 0     0  1     0     0  1  0\n  "
  const CowArt: string := "\n         \\   ^__^\n          \\  (oo)\\_______\n             (__)\\       )\\/\\\n                 ||----w |\n                 ||     ||\n  "

  /** The typing test's quotes. */
  const Quotes: seq<string> := [
    "The quick brown fox jumps over the lazy dog.",
    "Programming is the art of telling another human what one wants the computer to do.",
    "The best error message is the one that never shows up.",
    "Code is like humor. When you have to explain it, it's bad.",
    "Good code is its own best documentation.",
    "Any fool can write code that a computer can understand. Good programmers write code that humans can understand.",
    "First, solve the problem. Then, write the code.",
    "Experience is the name everyone gives to their mistakes.",
    "It's not a bug, it's an undocumented feature.",
    "The most disastrous thing that you can ever learn is your first programming language.",
    "Java is to JavaScript what car is to carpet.",
    "When debugging, novices insert corrective code; experts remove defective code.",
    "A user interface is like a joke. If you have to explain it, it's not that good.",
    "Software and cathedrals are much the same — first we build them, then we pray.",
    "Programming today is a race between software engineers striving to build bigger and better idiot-proof programs, and the Universe trying to produce bigger and better idiots. So far, the Universe is winning.",
    "There are only two hard things in Computer Science: cache invalidation and naming things.",
    "Debugging is like being the detective in a crime movie where you are also the murderer.",
    "The best programmers are not marginally better than merely good ones. They are an order-of-magnitude better.",
    "If debugging is the process of removing software bugs, then programming must be the process of putting them in.",
    "Always code as if the guy who ends up maintaining your code will be a violent psychopath who knows where you live.",
    "The trouble with programmers is that you can never tell what a programmer is doing until it's too late.",
    "That's the thing about people who think they hate computers. What they really hate is lousy programmers."
  ]

  /** The fortunes the `fortune` easter egg draws from. */
  const Fortunes: seq<string> := [
    "Your code will compile on the first try today.",
    "A bug fixed today prevents a critical issue tomorrow.",
    "Someone will star your GitHub repository soon.",
    "A great opportunity for contribution awaits you.",
    "Your next pull request will be merged without comments.",
    "The path to becoming a better developer is through documentation.",
    "Your commit today will save someone hours of debugging tomorrow.",
    "The best code is no code at all.",
    "A clever person solves a problem; a wise person avoids it.",
    "Before software can be reusable, it first has to be usable.",
    "The sooner you start coding, the longer the program will take."
  ]

  const FortunePrefix: string := "🔮 Your fortune: "

  // ---------------------------------------------------------------------
  // Typing test
  // ---------------------------------------------------------------------

  /** TYPING_TEST.start: a quote drawn at random from `quotes` (the source passes Quotes) and the start time. */
  function StartTypingTest(quotes: seq<string>, draw: real, now: int): (test: (string, int))
    requires 0.0 <= draw < 1.0 && |quotes| > 0
    ensures test.0 in quotes && test.1 == now
  {
    (quotes[PickIndex(draw, |quotes|)], now)
  }

  /**
   * TYPING_TEST.calculateSpeed: words (the pieces of the quote between
   * spaces) per minute, rounded; `timeMs` is in milliseconds.
   */
  function CalculateSpeed(quote: string, timeMs: int): JsNumber
  {
    RoundQuotient(|Split(quote, ' ')| * 60000, timeMs)
  }

  /** The word count is one more than the number of spaces, so an instant finish gives Infinity. */
  lemma SpeedOfInstantFinish(quote: string)
    ensures CalculateSpeed(quote, 0) == PositiveInfinity
  {
  }

  /** Taking longer never gives a higher speed. */
  lemma SpeedSlowsWithTime(quote: string, t1: int, t2: int)
    requires 0 < t1 <= t2
    ensures CalculateSpeed(quote, t2).value <= CalculateSpeed(quote, t1).value
  {
    RoundingAntitone(|Split(quote, ' ')| * 60000, t1, t2);
  }

  /** Rounding p / q gives no more as the divisor grows. */
  lemma RoundingAntitone(p: nat, q1: int, q2: int)
    requires 0 < q1 <= q2
    ensures RoundQuotient(p, q2).value <= RoundQuotient(p, q1).value
  {
    RoundedBoundsOrdered(p, q1, q2, RoundQuotient(p, q1).value, RoundQuotient(p, q2).value);
  }

  /** The rounding bounds alone: w1 rounds p / q1, w2 rounds p / q2 and q1 <= q2, so w2 <= w1. */
  lemma RoundedBoundsOrdered(p: nat, q1: int, q2: int, w1: int, w2: int)
    requires 0 < q1 <= q2
    requires 2 * q2 * w2 <= 2 * p + q2 && 2 * p + q1 < 2 * q1 * (w1 + 1)
    ensures w2 <= w1
  {
    if w2 > 0 {
      // (2 w2 - 1) q1 <= (2 w2 - 1) q2 <= 2 p
      MulMonotone(2 * w2 - 1, q1, q2);
      assert (2 * w2 - 1) * q2 == 2 * q2 * w2 - q2;
      assert (2 * w2 - 1) * q1 == 2 * q1 * w2 - q1;
      assert 2 * q1 * w2 < 2 * q1 * (w1 + 1);
      MulCancel(2 * q1, w2, w1 + 1);
    } else {
      assert 2 * q1 * (-1) < 2 * q1 * (w1 + 1);
      MulCancel(2 * q1, -1, w1 + 1);
    }
  }

  lemma MulMonotone(a: int, b: int, c: int)
    requires a >= 0 && b <= c
    ensures a * b <= a * c
  {
  }

  lemma MulCancel(k: int, x: int, y: int)
    requires k > 0 && k * x < k * y
    ensures x < y
  {
    if x >= y {
      MulMonotone(k, y, x);
    }
  }

  /** Example of the speed formula: a quote with two spaces has three words; typed in thirty seconds that is 6 words per minute. */
  lemma ThreeWordsInHalfAMinute(quote: string)
    requires Count(quote, ' ') == 2
    ensures CalculateSpeed(quote, 30000) == Finite(6)
  {
  }

  // ---------------------------------------------------------------------
  // Special-word responses
  // ---------------------------------------------------------------------

  /** The misspellings that get a tongue-in-cheek correction. */
  const TypoReplies: seq<(string, string)> := [
    ("hlep", "I think you meant 'help'. Let me help you with that!"),
    ("clea", "Almost there! Try 'clear' to clean the terminal."),
    ("eixt", "Want to exit? Just type 'exit'."),
    ("clera", "Did you mean 'clear'? My keyboard gets sticky sometimes too.")
  ]

  function TypoReply(command: string): Option<string>
  {
    if command == "hlep" then Some(TypoReplies[0].1)
    else if command == "clea" then Some(TypoReplies[1].1)
    else if command == "eixt" then Some(TypoReplies[2].1)
    else if command == "clera" then Some(TypoReplies[3].1)
    else None
  }

  /** The words, besides the misspellings and anything containing "moo", that trigger an easter egg. */
  const EggWords: set<string> := {"coffee", "break", "launch", "rocket", "rain", "matrix", "cow", "fortune", "42", "sudo"}

  /** The replies generateRandomResponse can give, in the order its branches test for them. */
  datatype Egg = Misspelling | Coffee | Rocket | Rain | Cow | FortuneEgg | Answer | Sudo

  /** Which branch of generateRandomResponse a command takes, if any. */
  function EggFor(command: string): (e: Option<Egg>)
    ensures e.Some? <==> TypoReply(command).Some? || command in EggWords || Contains(command, "moo")
    ensures e == Some(Misspelling) <==> TypoReply(command).Some?
    ensures command == "fortune" ==> e == Some(FortuneEgg)
  {
    assert TypoReply(command).Some? ==> |command| > 2;
    if |command| > 2 && TypoReply(command).Some? then Some(Misspelling)
    else if command == "coffee" || command == "break" then Some(Coffee)
    else if command == "launch" || command == "rocket" then Some(Rocket)
    else if command == "rain" || command == "matrix" then Some(Rain)
    else if Contains(command, "moo") || command == "cow" then
      assert command != "fortune" by {
        if command == "fortune" {
          ContainsFirstChar(command, "moo");
        }
      }
      Some(Cow)
    else if command == "fortune" then Some(FortuneEgg)
    else if command == "42" then Some(Answer)
    else if command == "sudo" then Some(Sudo)
    else None
  }

  /** The fortune egg's reply: one of the Fortunes behind the prefix. */
  function FortuneReply(draw: real): (reply: string)
    requires 0.0 <= draw < 1.0
    ensures exists i :: 0 <= i < |Fortunes| && reply == FortunePrefix + Fortunes[i]
  {
    assert |Fortunes| == 11;
    FortunePrefix + Fortunes[PickIndex(draw, 11)]
  }

  /** The text of each reply. */
  function EggReply(egg: Egg, command: string, draw: real): string
    requires 0.0 <= draw < 1.0
  {
    match egg
    case Misspelling => TypoReply(command).GetOr("")
    case Coffee => "Taking a coffee break?\n" + CoffeeArt + "\nHere's a virtual cup for you!"
    case Rocket => "Initiating launch sequence...\n" + RocketArt + "\nHouston, we have liftoff!"
    case Rain => MatrixRainArt + "\nFollow the white rabbit..."
    case Cow => CowArt + "\nMooooooo!"
    case FortuneEgg => FortuneReply(draw)
    case Answer => "The Answer to the Ultimate Question of Life, the Universe, and Everything."
    case Sudo => "Nice try! But sudo won't work here. You're already the master of this terminal."
  }

  /**
   * generateRandomResponse: the easter-egg reply to an already trimmed and
   * lower-cased command, or None (the source's null) for an ordinary
   * command; `draw` is the Math.random() result the fortune uses.
   */
  function GenerateRandomResponse(command: string, draw: real): (r: Option<string>)
    requires 0.0 <= draw < 1.0
    ensures r.Some? <==> TypoReply(command).Some? || command in EggWords || Contains(command, "moo")
    ensures TypoReply(command).Some? ==> r == TypoReply(command)
    ensures command == "fortune" ==>
      r.Some? && exists i :: 0 <= i < |Fortunes| && r.value == FortunePrefix + Fortunes[i]
  {
    match EggFor(command)
    case Some(egg) => Some(EggReply(egg, command, draw))
    case None => None
  }

  // ---------------------------------------------------------------------
  // Edit distance
  // ---------------------------------------------------------------------

  function Min3(x: nat, y: nat, z: nat): nat
  {
    if x <= y && x <= z then x else if y <= z then y else z
  }

  /**
   * The Levenshtein distance between a and b, by the recurrence of the
   * source's table: matching last characters cost nothing, otherwise one
   * substitution, insertion or deletion is paid.
   */
  function EditDistance(a: string, b: string): nat
    decreases |a| + |b|
  {
    if |a| == 0 then |b|
    else if |b| == 0 then |a|
    else if a[|a| - 1] == b[|b| - 1] then EditDistance(a[..|a| - 1], b[..|b| - 1])
    else 1 + Min3(EditDistance(a[..|a| - 1], b[..|b| - 1]),
                  EditDistance(a[..|a| - 1], b),
                  EditDistance(a, b[..|b| - 1]))
  }

  /**
   * levenshteinDistance: fills the (|b|+1) x (|a|+1) table row by row;
   * cell [i, j] holds the distance between the first j characters of a and
   * the first i characters of b.
   */
  method LevenshteinDistance(a: string, b: string) returns (d: nat)
    ensures d == EditDistance(a, b)
  {
    if |a| == 0 {
      return |b|;
    }
    if |b| == 0 {
      return |a|;
    }
    var matrix := new nat[|b| + 1, |a| + 1];
    for i := 0 to |b| + 1
      invariant forall k :: 0 <= k < i ==> matrix[k, 0] == k
    {
      matrix[i, 0] := i;
    }
    for j := 0 to |a| + 1
      invariant forall k :: 1 <= k <= |b| ==> matrix[k, 0] == k
      invariant forall l :: 0 <= l < j ==> matrix[0, l] == l
    {
      matrix[0, j] := j;
    }
    for i := 1 to |b| + 1
      invariant forall k, l :: 0 <= k < i && 0 <= l <= |a| ==> matrix[k, l] == EditDistance(a[..l], b[..k])
      invariant forall k :: i <= k <= |b| ==> matrix[k, 0] == k
    {
      FillRow(a, b, matrix, i);
    }
    assert a[..|a|] == a && b[..|b|] == b;
    d := matrix[|b|, |a|];
  }

  /** Row i of the table, from the rows above it. */
  method FillRow(a: string, b: string, matrix: array2<nat>, i: nat)
    requires 0 < i <= |b| && matrix.Length0 == |b| + 1 && matrix.Length1 == |a| + 1
    requires forall k, l :: 0 <= k < i && 0 <= l <= |a| ==> matrix[k, l] == EditDistance(a[..l], b[..k])
    requires forall k :: i <= k <= |b| ==> matrix[k, 0] == k
    modifies matrix
    ensures forall k, l :: 0 <= k <= i && 0 <= l <= |a| ==> matrix[k, l] == EditDistance(a[..l], b[..k])
    ensures forall k :: i < k <= |b| ==> matrix[k, 0] == k
  {
    assert matrix[i, 0] == EditDistance(a[..0], b[..i]);
    for j := 1 to |a| + 1
      invariant forall k, l :: 0 <= k < i && 0 <= l <= |a| ==> matrix[k, l] == EditDistance(a[..l], b[..k])
      invariant forall l :: 0 <= l < j ==> matrix[i, l] == EditDistance(a[..l], b[..i])
      invariant forall k :: i < k <= |b| ==> matrix[k, 0] == k
    {
      EditDistanceCell(a, b, i, j);
      if b[i - 1] == a[j - 1] {
        matrix[i, j] := matrix[i - 1, j - 1];
      } else {
        matrix[i, j] := Min3(matrix[i - 1, j - 1] + 1, matrix[i, j - 1] + 1, matrix[i - 1, j] + 1);
      }
    }
  }

  /** The recurrence at table cell [i, j]. */
  lemma EditDistanceCell(a: string, b: string, i: nat, j: nat)
    requires 0 < i <= |b| && 0 < j <= |a|
    ensures EditDistance(a[..j], b[..i])
         == if b[i - 1] == a[j - 1] then EditDistance(a[..j - 1], b[..i - 1])
            else 1 + Min3(EditDistance(a[..j - 1], b[..i - 1]), EditDistance(a[..j - 1], b[..i]), EditDistance(a[..j], b[..i - 1]))
  {
    assert a[..j][..j - 1] == a[..j - 1] && a[..j][j - 1] == a[j - 1];
    assert b[..i][..i - 1] == b[..i - 1] && b[..i][i - 1] == b[i - 1];
  }

  /** The distance is zero exactly for equal strings. */
  lemma {:induction false} EditDistanceZeroIff(a: string, b: string)
    decreases |a| + |b|
    ensures EditDistance(a, b) == 0 <==> a == b
  {
    if |a| > 0 && |b| > 0 && a[|a| - 1] == b[|b| - 1] {
      EditDistanceZeroIff(a[..|a| - 1], b[..|b| - 1]);
      assert a == a[..|a| - 1] + [a[|a| - 1]];
      assert b == b[..|b| - 1] + [b[|b| - 1]];
    }
  }

  /** The distance never exceeds the longer length and is at least the difference in length. */
  lemma {:induction false} EditDistanceBounds(a: string, b: string)
    decreases |a| + |b|
    ensures EditDistance(a, b) <= if |a| >= |b| then |a| else |b|
    ensures EditDistance(a, b) >= if |a| >= |b| then |a| - |b| else |b| - |a|
  {
    if |a| > 0 && |b| > 0 {
      EditDistanceBounds(a[..|a| - 1], b[..|b| - 1]);
      EditDistanceBounds(a[..|a| - 1], b);
      EditDistanceBounds(a, b[..|b| - 1]);
    }
  }

  lemma {:induction false} EditDistanceSymmetric(a: string, b: string)
    decreases |a| + |b|
    ensures EditDistance(a, b) == EditDistance(b, a)
  {
    if |a| > 0 && |b| > 0 {
      EditDistanceSymmetric(a[..|a| - 1], b[..|b| - 1]);
      EditDistanceSymmetric(a[..|a| - 1], b);
      EditDistanceSymmetric(a, b[..|b| - 1]);
    }
  }

  /** How many characters of a do not occur anywhere in b. */
  function MissingCount(a: string, b: string): nat
  {
    if a == [] then 0 else MissingCount(a[..|a| - 1], b) + (if a[|a| - 1] in b then 0 else 1)
  }

  lemma {:induction false} MissingCountShrink(a: string, b: string, c: string)
    requires forall x :: x in c ==> x in b
    ensures MissingCount(a, c) >= MissingCount(a, b)
  {
    if a != [] {
      MissingCountShrink(a[..|a| - 1], b, c);
    }
  }

  /** Every character of a that b lacks must be substituted or deleted, so it adds one to the distance. */
  lemma {:induction false} EditDistanceAtLeastMissing(a: string, b: string)
    decreases |a| + |b|
    ensures EditDistance(a, b) >= MissingCount(a, b)
  {
    if |a| == 0 {
    } else if |b| == 0 {
      MissingCountAll(a, b);
    } else {
      var a', b' := a[..|a| - 1], b[..|b| - 1];
      assert forall x :: x in b' ==> x in b;
      EditDistanceAtLeastMissing(a', b');
      EditDistanceAtLeastMissing(a', b);
      EditDistanceAtLeastMissing(a, b');
      MissingCountShrink(a', b, b');
      MissingCountShrink(a, b, b');
      if a[|a| - 1] == b[|b| - 1] {
        assert a[|a| - 1] in b;
      }
    }
  }

  lemma {:induction false} MissingCountAll(a: string, b: string)
    requires b == []
    ensures MissingCount(a, b) == |a|
  {
    if a != [] {
      MissingCountAll(a[..|a| - 1], b);
    }
  }

  /** Example: swapping two neighbouring letters gives a typo at distance two at most, "hepl" for "help". */
  lemma TranspositionIsClose()
    ensures 0 < EditDistance("hepl", "help") <= 2
  {
    EditDistanceZeroIff("hepl", "help");
    EditDistanceZeroIff("he", "he");
    assert "hepl"[..3] == "hep" && "help"[..3] == "hel";
    assert "hel"[..2] == "he" && "hep"[..2] == "he";
    assert EditDistance("hep", "he") <= 1 + EditDistance("he", "he");
    assert EditDistance("hepl", "hel") == EditDistance("hep", "he");
  }

  // ---------------------------------------------------------------------
  // Typo detection
  // ---------------------------------------------------------------------

  /** A command of three or more characters that is one or two edits away from some valid command. */
  predicate IsTypo(command: string, validCommands: seq<string>)
  {
    |command| >= 3 && exists i :: 0 <= i < |validCommands| && 0 < EditDistance(command, validCommands[i]) <= 2
  }

  /** hasTypo: scans the valid commands and stops at the first close one. */
  method HasTypo(command: string, validCommands: seq<string>) returns (r: bool)
    ensures r == IsTypo(command, validCommands)
  {
    if |command| < 3 {
      return false;
    }
    for i := 0 to |validCommands|
      invariant forall k :: 0 <= k < i ==> !(0 < EditDistance(command, validCommands[k]) <= 2)
    {
      var distance := LevenshteinDistance(command, validCommands[i]);
      if distance > 0 && distance <= 2 {
        return true;
      }
    }
    return false;
  }

  // ---------------------------------------------------------------------
  // Glitch frames
  // ---------------------------------------------------------------------

  const GlitchChars: string := "!@#$%^&*()_+-={}[]|;:,.<>?/\\~`"

  /** The glitch character a draw picks. */
  function GlitchCharFor(draw: real): (c: char)
    requires 0.0 <= draw < 1.0
    ensures IsGlitchChar(c)
  {
    assert |GlitchChars| == 30;
    GlitchChars[PickIndex(draw, 30)]
  }

  /** A glitched copy of `text`: same length, each character kept or replaced by a glitch character. */
  predicate IsGlitchOf(g: string, text: string)
  {
    |g| == |text| && forall i :: 0 <= i < |text| ==> g[i] == text[i] || IsGlitchChar(g[i])
  }

  /** One of the glitch characters. */
  predicate IsGlitchChar(c: char)
  {
    exists k :: 0 <= k < |GlitchChars| && GlitchChars[k] == c
  }

  /**
   * generateGlitchText on the draws random(start), random(start+1), ...:
   * each character takes one draw and, when it is below 0.2, a second one
   * that picks the glitch character. Also gives the first unused draw.
   */
  function Glitch(text: string, random: nat -> real, start: nat): (res: (string, nat))
    requires IsRandomStream(random)
    ensures |res.0| == |text|
    ensures start + |text| <= res.1 <= start + 2 * |text|
  {
    if text == [] then ("", start)
    else
      var init := Glitch(text[..|text| - 1], random, start);
      if random(init.1) < 0.2 then
        (init.0 + [GlitchCharFor(random(init.1 + 1))], init.1 + 2)
      else
        (init.0 + [text[|text| - 1]], init.1 + 1)
  }

  /** One more character of the text: Glitch's own recurrence, at position i. */
  lemma GlitchStep(text: string, random: nat -> real, start: nat, i: nat, prefix: string, next: nat)
    requires IsRandomStream(random) && i < |text|
    requires (prefix, next) == Glitch(text[..i], random, start)
    ensures Glitch(text[..i + 1], random, start)
      == if random(next) < 0.2 then (prefix + [GlitchCharFor(random(next + 1))], next + 2)
         else (prefix + [text[i]], next + 1)
  {
    var t := text[..i + 1];
    assert t[..|t| - 1] == text[..i] && t[|t| - 1] == text[i];
    GlitchLast(t, random, start, prefix, next);
  }

  lemma GlitchLast(t: string, random: nat -> real, start: nat, prefix: string, next: nat)
    requires IsRandomStream(random) && t != []
    requires (prefix, next) == Glitch(t[..|t| - 1], random, start)
    ensures Glitch(t, random, start)
      == if random(next) < 0.2 then (prefix + [GlitchCharFor(random(next + 1))], next + 2)
         else (prefix + [t[|t| - 1]], next + 1)
  {
  }

  /** Every character of the glitched text is the original one or a glitch character. */
  lemma {:induction false} GlitchIsGlitchOf(text: string, random: nat -> real, start: nat)
    requires IsRandomStream(random)
    ensures IsGlitchOf(Glitch(text, random, start).0, text)
  {
    if text != [] {
      var n := |text| - 1;
      GlitchIsGlitchOf(text[..n], random, start);
      var (prefix, next) := Glitch(text[..n], random, start);
      GlitchStep(text, random, start, n, prefix, next);
      assert text[..n + 1] == text;
      var g := Glitch(text, random, start).0;
      forall i | 0 <= i < |text| ensures g[i] == text[i] || IsGlitchChar(g[i]) {
        if i < n {
          assert g[i] == prefix[i] && text[..n][i] == text[i];
        }
      }
    }
  }

  /** generateGlitchText, consuming draws from `start` on. */
  method GenerateGlitchText(text: string, random: nat -> real, start: nat) returns (result: string, next: nat)
    requires IsRandomStream(random)
    ensures (result, next) == Glitch(text, random, start)
  {
    result, next := "", start;
    for i := 0 to |text|
      invariant (result, next) == Glitch(text[..i], random, start)
    {
      GlitchStep(text, random, start, i, result, next);
      if random(next) < 0.2 {
        result := result + [GlitchCharFor(random(next + 1))];
        next := next + 2;
      } else {
        result := result + [text[i]];
        next := next + 1;
      }
    }
    assert text[..|text|] == text;
  }

  /** With no draw below 0.2 the text comes back unchanged. */
  lemma {:induction false} GlitchWithoutHits(text: string, random: nat -> real, start: nat)
    requires IsRandomStream(random)
    requires forall n :: random(n) >= 0.2
    ensures Glitch(text, random, start) == (text, start + |text|)
  {
    if text != [] {
      var n := |text| - 1;
      GlitchWithoutHits(text[..n], random, start);
      GlitchLast(text, random, start, text[..n], start + n);
      assert random(start + n) >= 0.2;
      assert text[..n] + [text[n]] == text;
    }
  }

  function NotFound(command: string): string
  {
    "Command not found: " + command
  }

  const GlitchPrefix: string := "C0mm@nd n0t f0und: "

  /**
   * The eight frames of the blinking "command not found" message: plain in
   * frames 0, 2, 4 and 6, glitched behind the garbled prefix in frames 1, 3
   * and 5, and with the help hint in frame 7.
   */
  predicate BlinkFrames(frames: seq<string>, command: string)
  {
    |frames| == 8
    && frames[0] == NotFound(command) && frames[2] == NotFound(command)
    && frames[4] == NotFound(command) && frames[6] == NotFound(command)
    && frames[7] == NotFound(command) + ". Type 'help' to see available commands."
    && GlitchFrame(frames[1], command) && GlitchFrame(frames[3], command) && GlitchFrame(frames[5], command)
  }

  /** A glitched frame: the garbled prefix, then a glitch of the command. */
  predicate GlitchFrame(frame: string, command: string)
  {
    |frame| >= |GlitchPrefix| && frame[..|GlitchPrefix|] == GlitchPrefix
    && IsGlitchOf(frame[|GlitchPrefix|..], command)
  }

  /**
   * generateBlinkingEffect: the plain message, then three glitched and
   * three plain frames alternating, then the message with the hint.
   */
  lemma PrefixedGlitch(g: string, command: string)
    requires IsGlitchOf(g, command)
    ensures GlitchFrame(GlitchPrefix + g, command)
  {
    assert (GlitchPrefix + g)[..|GlitchPrefix|] == GlitchPrefix;
    assert (GlitchPrefix + g)[|GlitchPrefix|..] == g;
  }

  method GenerateBlinkingEffect(command: string, random: nat -> real) returns (frames: seq<string>)
    requires IsRandomStream(random)
    ensures BlinkFrames(frames, command)
  {
    frames := [NotFound(command)];
    var draw: nat := 0;
    for i := 0 to 6
      invariant |frames| == i + 1
      invariant forall k :: 0 <= k <= i && k % 2 == 0 ==> frames[k] == NotFound(command)
      invariant forall k :: 0 < k <= i && k % 2 == 1 ==> GlitchFrame(frames[k], command)
    {
      if i % 2 == 0 {
        var glitched;
        ghost var from := draw;
        glitched, draw := GenerateGlitchText(command, random, draw);
        GlitchIsGlitchOf(command, random, from);
        PrefixedGlitch(glitched, command);
        frames := frames + [GlitchPrefix + glitched];
      } else {
        frames := frames + [NotFound(command)];
      }
    }
    frames := frames + [NotFound(command) + ". Type 'help' to see available commands."];
    assert 1 % 2 == 1 && 3 % 2 == 1 && 5 % 2 == 1;
  }

  // ---------------------------------------------------------------------
  // Konami code
  // ---------------------------------------------------------------------

  const KonamiSequence: seq<string> :=
    ["ArrowUp", "ArrowUp", "ArrowDown", "ArrowDown", "ArrowLeft", "ArrowRight", "ArrowLeft", "ArrowRight", "b", "a"]

  const KonamiReward: string := "⭐ KONAMI CODE ACTIVATED! ⭐\nUnlocked retro mode!"

  /** One key's effect on the progress count: the new count and whether the code was completed. */
  function KonamiStep(index: nat, key: string): (nat, bool)
    requires index < |KonamiSequence|
  {
    if key == KonamiSequence[index] then
      if index + 1 == |KonamiSequence| then (0, true) else (index + 1, false)
    else (0, false)
  }

  /** The progress count after a run of keys from a fresh start. */
  function KonamiProgress(keys: seq<string>): (index: nat)
    ensures index < |KonamiSequence|
  {
    if keys == [] then 0 else KonamiStep(KonamiProgress(keys[..|keys| - 1]), keys[|keys| - 1]).0
  }

  /** Whether the last key of the run completed the code. */
  function KonamiCompletedBy(keys: seq<string>): bool
  {
    keys != [] && KonamiStep(KonamiProgress(keys[..|keys| - 1]), keys[|keys| - 1]).1
  }

  /** The count is the length of the part of the code just typed. */
  lemma {:induction false} KonamiProgressMeaning(keys: seq<string>)
    ensures KonamiProgress(keys) <= |keys|
    ensures keys[|keys| - KonamiProgress(keys)..] == KonamiSequence[..KonamiProgress(keys)]
  {
    if keys != [] {
      var init := keys[..|keys| - 1];
      KonamiProgressMeaning(init);
      var p := KonamiProgress(init);
      if keys[|keys| - 1] == KonamiSequence[p] && p + 1 < |KonamiSequence| {
        SuffixGrows(keys, KonamiSequence, p);
      }
    }
  }

  /** A suffix matching the first p keys of `code`, followed by code[p], matches the first p + 1. */
  lemma SuffixGrows(keys: seq<string>, code: seq<string>, p: nat)
    requires keys != [] && p < |keys| && p < |code|
    requires keys[|keys| - 1 - p..|keys| - 1] == code[..p] && keys[|keys| - 1] == code[p]
    ensures keys[|keys| - (p + 1)..] == code[..p + 1]
  {
    assert keys[|keys| - (p + 1)..] == keys[|keys| - 1 - p..|keys| - 1] + [keys[|keys| - 1]];
    assert code[..p + 1] == code[..p] + [code[p]];
  }

  /** A completion means the last ten keys are exactly the code. */
  lemma KonamiCompletionSound(keys: seq<string>)
    requires KonamiCompletedBy(keys)
    ensures |keys| >= |KonamiSequence| && keys[|keys| - |KonamiSequence|..] == KonamiSequence
  {
    var init := keys[..|keys| - 1];
    KonamiProgressMeaning(init);
    var p := KonamiProgress(init);
    assert p == 9;
    assert keys[|keys| - 10..] == init[|init| - 9..] + [keys[|keys| - 1]];
    assert KonamiSequence == KonamiSequence[..9] + [KonamiSequence[9]];
  }

  /** Typing the code from a fresh start completes it with the last key, and not before. */
  lemma KonamiFromStart()
    ensures KonamiCompletedBy(KonamiSequence)
    ensures forall n :: 0 < n < |KonamiSequence| ==> !KonamiCompletedBy(KonamiSequence[..n])
  {
    KonamiPrefixProgress(|KonamiSequence| - 1);
    forall n | 0 < n < |KonamiSequence|
      ensures !KonamiCompletedBy(KonamiSequence[..n])
    {
      KonamiPrefixProgress(n - 1);
      assert KonamiSequence[..n][..n - 1] == KonamiSequence[..n - 1];
    }
    assert KonamiSequence[..9] == KonamiSequence[..|KonamiSequence| - 1];
  }

  lemma {:induction false} KonamiPrefixProgress(n: nat)
    requires n < |KonamiSequence|
    ensures KonamiProgress(KonamiSequence[..n]) == n
  {
    if n > 0 {
      KonamiPrefixProgress(n - 1);
      assert KonamiSequence[..n][..n - 1] == KonamiSequence[..n - 1];
    }
  }

  /**
   * A mistake is not re-read as a fresh start: with a third ArrowUp the
   * progress is lost, so the code typed after the first ArrowUp does not
   * complete.
   */
  lemma KonamiExtraKeyRestarts()
    ensures !KonamiCompletedBy(["ArrowUp"] + KonamiSequence)
  {
    var keys := ["ArrowUp"] + KonamiSequence;
    assert keys[..1][..0] == [];
    assert KonamiProgress(keys[..1]) == 1;
    assert keys[..2][..1] == keys[..1];
    assert KonamiProgress(keys[..2]) == 2;
    assert keys[..3][..2] == keys[..2];
    assert KonamiProgress(keys[..3]) == 0;
    forall i | 3 <= i < |keys| ensures keys[i] != "ArrowUp" {
      assert keys[i] == KonamiSequence[i - 1];
    }
    KonamiStaysAtZero(keys, 3, |keys| - 1);
    assert keys[..|keys|][..|keys| - 1] == keys[..|keys| - 1];
  }

  /** Without an ArrowUp nothing can restart the code, so the count stays at zero. */
  lemma {:induction false} KonamiStaysAtZero(keys: seq<string>, m: nat, n: nat)
    requires m <= n <= |keys| && KonamiProgress(keys[..m]) == 0
    requires forall i :: m <= i < |keys| ==> keys[i] != "ArrowUp"
    ensures KonamiProgress(keys[..n]) == 0
    decreases n
  {
    if n > m {
      KonamiStaysAtZero(keys, m, n - 1);
      assert keys[..n][..n - 1] == keys[..n - 1];
    }
  }

  /** The tracker's module-level progress count. */
  class KonamiTracker {
    var currentIndex: nat

    ghost predicate Valid()
      reads this
    {
      currentIndex < |KonamiSequence|
    }

    constructor ()
      ensures Valid() && currentIndex == 0
    {
      currentIndex := 0;
    }

    /** checkKonamiCode: advances on the expected key, resets on any other and after completion. */
    method CheckKonamiCode(key: string) returns (completed: bool, message: Option<string>)
      requires Valid()
      modifies this
      ensures Valid()
      ensures (currentIndex, completed) == KonamiStep(old(currentIndex), key)
      ensures message == if completed then Some(KonamiReward) else None
    {
      if key == KonamiSequence[currentIndex] {
        currentIndex := currentIndex + 1;
        if currentIndex == |KonamiSequence| {
          currentIndex := 0;
          return true, Some(KonamiReward);
        }
        return false, None;
      } else {
        currentIndex := 0;
        return false, None;
      }
    }
  }
}
