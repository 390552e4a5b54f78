/** The command registry and the resolver that turns one submitted line into
    an output: `commands`, `handleCatCommand` and `processCommand` of
    src/components/TerminalPortfolio.tsx. */
module Commands {
  import opened Strings

  datatype Section = Section(heading: string, items: seq<string>)

  datatype FormattedContent = FormattedContent(title: string, sections: seq<Section>)

  /** What a command produces. `Clear` is not shown: it tells the session to
      empty its transcript. */
  datatype Output =
    | Text(text: string)
    | Formatted(content: FormattedContent)
    | Error(message: string)
    | Clear

  datatype Option<T> = None | Some(value: T)

  /** The fixed prose each producer returns. Its wording does not affect
      resolution, so the model keeps it abstract: every property below holds
      whatever the prose is. */
  datatype Content = Content(
    help: string,
    whoami: string,
    about: string,
    resume: FormattedContent,
    portfolio: FormattedContent,
    contact: string,
    skills: FormattedContent,
    ls: string)

  /** The nine names of the `commands` table. */
  const Names: set<string> :=
    {"help", "whoami", "about", "resume", "portfolio", "contact", "skills", "ls", "clear"}

  /** The names `cat` accepts: every registry name but `clear` and `ls`. */
  const Sections: set<string> := Names - {"clear", "ls"}

  /** The `commands` table: one zero-argument producer per name. */
  function Registry(c: Content): (r: map<string, Output>)
    ensures r.Keys == Names
    ensures forall n :: n in r ==> (r[n].Clear? <==> n == "clear")
    ensures forall n :: n in r ==> !r[n].Error?
  {
    map[
      "help" := Text(c.help),
      "whoami" := Text(c.whoami),
      "about" := Text(c.about),
      "resume" := Formatted(c.resume),
      "portfolio" := Formatted(c.portfolio),
      "contact" := Text(c.contact),
      "skills" := Formatted(c.skills),
      "ls" := Text(c.ls),
      "clear" := Clear
    ]
  }

  const MissingOperand: string := "cat: missing operand\nTry 'help' for more information."

  function NoSuchFile(section: string): string {
    "cat: " + section + ": No such file or directory"
  }

  function NotFound(command: string): string {
    "Command not found: " + command + "\nType 'help' for available commands."
  }

  /** `handleCatCommand`: shows the section its first argument names; an
      absent or empty argument, `clear`, `ls` or an unknown name is an
      error. Never clears the screen. */
  function HandleCatCommand(c: Content, args: seq<string>): (r: Output)
    ensures !r.Clear?
    ensures (|args| == 0 || args[0] == "") ==> r == Error(MissingOperand)
    ensures r.Error? <==> (|args| == 0 || args[0] !in Sections)
    ensures !r.Error? ==> r == Registry(c)[args[0]]
  {
    if |args| == 0 || args[0] == "" then
      Error(MissingOperand)
    else
      var section := args[0];
      var commands := Registry(c);
      if section in commands && section != "clear" && section != "ls" then
        commands[section]
      else
        Error(NoSuchFile(section))
  }

  /** The normalised line split into words: `input.trim().toLowerCase().split(' ')`. */
  function Tokens(input: string): (r: seq<string>)
    ensures |r| >= 1 && Join(r) == ToLower(Trim(input))
    ensures forall k :: 0 <= k < |r| ==> ' ' !in r[k]
    ensures r[0] == "" <==> AllWhitespace(input)
  {
    FirstTokenEmpty(input);
    Split(ToLower(Trim(input)))
  }

  lemma FirstTokenEmpty(input: string)
    ensures Split(ToLower(Trim(input)))[0] == "" <==> AllWhitespace(input)
  {
    var t := ToLower(Trim(input));
    ToLowerSolidEnds(Trim(input));
    if t != [] {
      assert t[0] != ' ';
    }
  }

  /** The dispatch step of `processCommand` on the words of the line. */
  function Dispatch(c: Content, command: string, args: seq<string>): (r: Option<Output>)
    ensures r.None? <==> command == ""
  {
    if command == "" then
      None
    else if command == "cat" then
      Some(HandleCatCommand(c, args))
    else
      var commands := Registry(c);
      if command in commands then
        Some(commands[command])
      else
        Some(Error(NotFound(command)))
  }

  /** `processCommand`: `None` for a blank line, otherwise the output of the
      command named by the first word, where `cat` takes the second word as
      its operand and an unknown name is an error. */
  function ProcessCommand(c: Content, input: string): (r: Option<Output>)
    ensures r.None? <==> AllWhitespace(input)
  {
    var tokens := Tokens(input);
    Dispatch(c, tokens[0], tokens[1..])
  }

  /** Resolution sees an input only through its trimmed, lower-cased form. */
  lemma ResolveNormalised(c: Content, input: string)
    ensures ProcessCommand(c, input) == ProcessCommand(c, ToLower(Trim(input)))
  {
    TokensNormalised(input);
  }

  lemma TokensNormalised(input: string)
    ensures Tokens(ToLower(Trim(input))) == Tokens(input)
  {
    var m := Trim(input);
    var t := ToLower(m);
    TrimToLowerCommute(m);
    TrimIdempotent(input);
    ToLowerIdempotent(m);
  }

  /** Letter case does not matter. */
  lemma ResolveIgnoresCase(c: Content, a: string, b: string)
    requires ToLower(a) == ToLower(b)
    ensures ProcessCommand(c, a) == ProcessCommand(c, b)
  {
    TrimToLowerCommute(a);
    TrimToLowerCommute(b);
    ResolveNormalised(c, a);
    ResolveNormalised(c, b);
  }

  /** Surrounding whitespace does not matter. */
  lemma ResolveIgnoresPadding(c: Content, w1: string, s: string, w2: string)
    requires AllWhitespace(w1) && AllWhitespace(w2)
    ensures ProcessCommand(c, w1 + s + w2) == ProcessCommand(c, s)
  {
    TrimIgnoresPadding(w1, s, w2);
  }

  /** A word: non-empty with no whitespace inside. */
  predicate IsWord(w: string) {
    w != [] && forall i :: 0 <= i < |w| ==> !IsWhitespace(w[i])
  }

  lemma LoweredWord(w: string)
    requires IsWord(w)
    ensures IsWord(ToLower(w)) && ' ' !in ToLower(w)
  {
  }

  /** The words of a line made of words joined by single spaces. */
  lemma TokensOfWords(words: seq<string>)
    requires |words| >= 1
    requires forall k :: 0 <= k < |words| ==> IsWord(words[k])
    ensures Tokens(Join(words)) == LowerEach(words)
  {
    SolidJoin(words);
    TrimSolid(Join(words));
    LowerJoin(words);
    LoweredWords(words);
    SplitJoin(LowerEach(words));
  }

  lemma LoweredWords(words: seq<string>)
    requires forall k :: 0 <= k < |words| ==> IsWord(words[k])
    ensures forall k :: 0 <= k < |words| ==> ' ' !in LowerEach(words)[k]
  {
    forall k | 0 <= k < |words| ensures ' ' !in LowerEach(words)[k] {
      LoweredWord(words[k]);
    }
  }

  /** The first word of such a line is the command, lower-cased; the rest
      are its arguments. */
  lemma LeadingWord(w: string, args: seq<string>)
    requires IsWord(w)
    requires forall k :: 0 <= k < |args| ==> IsWord(args[k])
    ensures Tokens(Join([w] + args))[0] == ToLower(w)
    ensures Tokens(Join([w] + args))[1..] == LowerEach(args)
  {
    TokensOfWords([w] + args);
    assert LowerEach([w] + args)[1..] == LowerEach(args);
  }

  function LowerEach(words: seq<string>): (r: seq<string>)
    ensures |r| == |words|
    ensures forall k :: 0 <= k < |words| ==> r[k] == ToLower(words[k])
  {
    if words == [] then [] else [ToLower(words[0])] + LowerEach(words[1..])
  }

  lemma {:induction false} LowerJoin(words: seq<string>)
    requires |words| >= 1
    ensures ToLower(Join(words)) == Join(LowerEach(words))
    decreases |words|
  {
    if |words| > 1 {
      LowerJoin(words[1..]);
      ToLowerConcat(words[0] + " ", Join(words[1..]));
      ToLowerConcat(words[0], " ");
      assert LowerEach(words)[1..] == LowerEach(words[1..]);
    }
  }

  lemma {:induction false} SolidJoin(words: seq<string>)
    requires |words| >= 1
    requires forall k :: 0 <= k < |words| ==> IsWord(words[k])
    ensures HasSolidEnds(Join(words)) && Join(words) != []
    ensures Join(words)[0] == words[0][0]
    decreases |words|
  {
    if |words| > 1 {
      SolidJoin(words[1..]);
    }
  }

  /** A line of words resolves as its lower-cased words dispatch. */
  lemma ResolveWords(c: Content, w: string, args: seq<string>)
    requires IsWord(w)
    requires forall k :: 0 <= k < |args| ==> IsWord(args[k])
    ensures ProcessCommand(c, Join([w] + args)) == Dispatch(c, ToLower(w), LowerEach(args))
  {
    LeadingWord(w, args);
  }

  /** A registered name, in any letter case, runs its producer; words after
      it are ignored. */
  lemma KnownCommand(c: Content, w: string, args: seq<string>)
    requires IsWord(w) && ToLower(w) in Names
    requires forall k :: 0 <= k < |args| ==> IsWord(args[k])
    ensures ProcessCommand(c, Join([w] + args)) == Some(Registry(c)[ToLower(w)])
  {
    ResolveWords(c, w, args);
    DispatchKnown(c, ToLower(w), LowerEach(args));
  }

  lemma DispatchKnown(c: Content, command: string, args: seq<string>)
    requires command in Names
    ensures Dispatch(c, command, args) == Some(Registry(c)[command])
  {
  }

  /** An unregistered first word is reported verbatim (lower-cased) with a
      pointer to `help`. */
  lemma UnknownCommand(c: Content, w: string, args: seq<string>)
    requires IsWord(w) && ToLower(w) !in Names && ToLower(w) != "cat"
    requires forall k :: 0 <= k < |args| ==> IsWord(args[k])
    ensures ProcessCommand(c, Join([w] + args)) ==
      Some(Error("Command not found: " + ToLower(w) + "\nType 'help' for available commands."))
  {
    ResolveWords(c, w, args);
  }

  /** Any line whose first word is neither registered nor `cat` is reported
      with that (lower-cased) word, whatever the rest of the line holds:
      doubled spaces, tabs inside a word, and so on. */
  lemma UnknownFirstWord(c: Content, input: string)
    requires Tokens(input)[0] != "" && Tokens(input)[0] !in Names && Tokens(input)[0] != "cat"
    ensures ProcessCommand(c, input) == Some(Error(NotFound(Tokens(input)[0])))
  {
    DispatchUnknown(c, Tokens(input)[0], Tokens(input)[1..]);
  }

  lemma DispatchUnknown(c: Content, command: string, args: seq<string>)
    requires command != "" && command !in Names && command != "cat"
    ensures Dispatch(c, command, args) == Some(Error(NotFound(command)))
  {
  }

  /** `cat` alone is missing its operand. */
  lemma CatWithoutOperand(c: Content, w: string)
    requires IsWord(w) && ToLower(w) == "cat"
    ensures ProcessCommand(c, w) == Some(Error("cat: missing operand\nTry 'help' for more information."))
  {
    ResolveWords(c, w, []);
    assert Join([w] + []) == w;
  }

  /** The words of `cat  <s>`: the two spaces enclose an empty word. */
  lemma EmptyOperandTokens(w: string, s: string)
    requires IsWord(w) && IsWord(s)
    ensures Tokens(w + "  " + s) == [ToLower(w), "", ToLower(s)]
  {
    var line := w + "  " + s;
    SolidLine(w, s);
    TrimOfPadded([], line, []);
    assert [] + line + [] == line;
    LowerLine(w, s);
    TwoSpaces(ToLower(w), ToLower(s));
    LoweredWord(w);
    LoweredWord(s);
    SplitEmptyMiddle(ToLower(w), ToLower(s));
  }

  lemma SolidLine(w: string, s: string)
    requires IsWord(w) && IsWord(s)
    ensures HasSolidEnds(w + "  " + s)
  {
    var line := w + "  " + s;
    assert line[0] == w[0];
    assert line[|line| - 1] == s[|s| - 1];
  }

  lemma LowerLine(w: string, s: string)
    ensures ToLower(w + "  " + s) == ToLower(w) + "  " + ToLower(s)
  {
    ToLowerConcat(w + "  ", s);
    ToLowerConcat(w, "  ");
    LowerSpaces();
  }

  lemma LowerSpaces()
    ensures ToLower("  ") == "  "
  {
    assert ToLower("  ")[0] == ' ';
  }

  lemma TwoSpaces(a: string, b: string)
    ensures a + "  " + b == a + " " + ("" + " " + b)
  {
  }

  lemma SplitEmptyMiddle(a: string, b: string)
    requires ' ' !in a && ' ' !in b
    ensures Split(a + " " + ("" + " " + b)) == [a, "", b]
  {
    SplitAfterWord(a, "" + " " + b);
    SplitAfterWord("", b);
    SplitWord(b);
  }

  /** Two spaces after `cat` make the operand the empty word, which is
      missing too: `cat  about` does not show `about`. */
  lemma CatEmptyOperand(c: Content, w: string, s: string)
    requires IsWord(w) && ToLower(w) == "cat" && IsWord(s)
    ensures ProcessCommand(c, w + "  " + s) == Some(Error("cat: missing operand\nTry 'help' for more information."))
  {
    var lowered := ToLower(s);
    EmptyOperandTokens(w, s);
    assert [ToLower(w), "", lowered] == ["cat"] + ["", lowered];
    CatEmptyWord(c, w + "  " + s, lowered);
  }

  lemma CatEmptyWord(c: Content, line: string, operand: string)
    requires Tokens(line) == ["cat"] + ["", operand]
    ensures ProcessCommand(c, line) == Some(Error(MissingOperand))
  {
    ResolveTokens(c, line, "cat", ["", operand]);
    DispatchEmptyOperand(c, ["", operand]);
  }

  lemma DispatchEmptyOperand(c: Content, args: seq<string>)
    requires |args| >= 1 && args[0] == ""
    ensures Dispatch(c, "cat", args) == Some(Error(MissingOperand))
  {
  }

  /** `processCommand` reads the line only through its words. */
  lemma ResolveTokens(c: Content, line: string, command: string, args: seq<string>)
    requires Tokens(line) == [command] + args
    ensures ProcessCommand(c, line) == Dispatch(c, command, args)
  {
    assert Tokens(line)[1..] == args;
  }

  /** `cat <name>` shows exactly what `<name>` alone shows, for every
      displayable section. */
  lemma CatShowsSection(c: Content, w: string, s: string)
    requires IsWord(w) && ToLower(w) == "cat" && IsWord(s) && ToLower(s) in Sections
    ensures ProcessCommand(c, w + " " + s) == ProcessCommand(c, s)
    ensures ProcessCommand(c, s) == Some(Registry(c)[ToLower(s)])
  {
    assert Join([w] + [s]) == w + " " + s;
    ResolveWords(c, w, [s]);
    KnownCommand(c, s, []);
    assert Join([s] + []) == s;
    DispatchCat(c, ToLower(s), LowerEach([s]));
  }

  lemma DispatchCat(c: Content, section: string, args: seq<string>)
    requires |args| >= 1 && args[0] == section && section in Sections
    ensures Dispatch(c, "cat", args) == Some(Registry(c)[section])
  {
  }

  /** `cat clear`, `cat ls` and `cat <unknown>` are not files. */
  lemma CatNoSuchFile(c: Content, w: string, s: string)
    requires IsWord(w) && ToLower(w) == "cat" && IsWord(s) && ToLower(s) !in Sections
    ensures ProcessCommand(c, w + " " + s) ==
      Some(Error("cat: " + ToLower(s) + ": No such file or directory"))
  {
    assert Join([w] + [s]) == w + " " + s;
    ResolveWords(c, w, [s]);
    DispatchNoSuchFile(c, LowerEach([s]));
  }

  lemma DispatchNoSuchFile(c: Content, args: seq<string>)
    requires |args| >= 1 && args[0] != "" && args[0] !in Sections
    ensures Dispatch(c, "cat", args) == Some(Error(NoSuchFile(args[0])))
  {
  }

  /** `cat` never clears the screen, and only `clear` does. */
  lemma OnlyClearClears(c: Content, input: string)
    ensures ProcessCommand(c, input).Some? && ProcessCommand(c, input).value.Clear?
            <==> Tokens(input)[0] == "clear"
  {
    var tokens := Tokens(input);
    DispatchClears(c, tokens[0], tokens[1..]);
  }

  lemma DispatchClears(c: Content, command: string, args: seq<string>)
    ensures Dispatch(c, command, args).Some? && Dispatch(c, command, args).value.Clear?
            <==> command == "clear"
  {
  }
}
