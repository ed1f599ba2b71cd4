/**
  Shell quoting as `check` prints it, against a reader of the quoting rules of the
  Shell Command Language of POSIX.1-2017: escape character (2.2.1), single-quotes
  (2.2.2), double-quotes (2.2.3) and token recognition (2.3).  The reader gives up
  on every unquoted character that would be an operator or start an expansion.
*/
module ShellQuote {
  import opened Text

  /////////////// Printing ///////////////

  predicate SafeChar(c: char) {
    'a' <= c <= 'z' || 'A' <= c <= 'Z' || '0' <= c <= '9' || c in "_@%+=:,./-"
  }

  predicate SafeWord(value: string) {
    forall i | 0 <= i < |value| :: SafeChar(value[i])
  }

  predicate IsKeyword(value: string) {
    value in ["case", "coproc", "do", "done", "elif", "else", "esac", "fi", "for", "function", "if", "in",
              "select", "then", "time", "until", "while"]
  }

  const QUOTE: char := '\''
  /** How a single quote is written inside single quotes: close, a double-quoted quote, open again. */
  const QUOTED_QUOTE := "'\"'\"'"

  function Escape(value: string): string {
    if value == "" then "" else (if value[0] == QUOTE then QUOTED_QUOTE else [value[0]]) + Escape(value[1..])
  }

  function QuoteAlways(value: string): string {
    [QUOTE] + Escape(value) + [QUOTE]
  }

  function QuoteWord(value: string): string {
    if value == "" then "''" else if SafeWord(value) then value else QuoteAlways(value)
  }

  function QuoteCommand(value: string): string {
    if '=' in value || IsKeyword(value) then QuoteAlways(value) else QuoteWord(value)
  }

  /** strings.Join(values, " ") */
  function Join(values: seq<string>): string {
    if values == [] then "" else if |values| == 1 then values[0] else values[0] + " " + Join(values[1..])
  }

  function Quoted(args: seq<string>): seq<string> {
    seq(|args|, i requires 0 <= i < |args| => QuoteWord(args[i]))
  }

  function Format(program: string, args: seq<string>): string {
    Join([QuoteCommand(program)] + Quoted(args))
  }

  method IsShellSafeWord(value: string) returns (safe: bool)
    ensures safe <==> SafeWord(value)
  {
    for i := 0 to |value|
      invariant forall k | 0 <= k < i :: SafeChar(value[k])
    {
      if !SafeChar(value[i]) { return false; }
    }
    safe := true;
  }

  method FormatShellInvocation(program: string, args: seq<string>) returns (line: string)
    ensures line == Format(program, args)
    ensures ReadWords(line).Some? && Texts(ReadWords(line).value) == [program] + args
  {
    var values := AppendWords(QuoteCommand(program), args);
    line := Join(values);
    InvocationReadsBack(program, args);
  }

  method AppendWords(first: string, args: seq<string>) returns (values: seq<string>)
    ensures values == [first] + Quoted(args)
  {
    values := [first];
    for i := 0 to |args|
      invariant |values| == i + 1 && values[0] == first
      invariant forall k | 0 <= k < i :: values[k + 1] == QuoteWord(args[k])
    {
      var word := QuoteOne(args[i]);
      values := values + [word];
    }
    AreQuoted(values, first, args);
  }

  /** quoteShellWord. */
  method QuoteOne(value: string) returns (word: string)
    ensures word == QuoteWord(value)
  {
    var safe := IsShellSafeWord(value);
    word := if value == "" then "''" else if safe then value else QuoteAlways(value);
  }

  lemma AreQuoted(values: seq<string>, first: string, args: seq<string>)
    requires |values| == |args| + 1 && values[0] == first && forall k | 0 <= k < |args| :: values[k + 1] == QuoteWord(args[k])
    ensures values == [first] + Quoted(args)
  {
  }

  /////////////// Reading ///////////////

  /** A word read by the shell: its text, and which characters stood outside all quoting. */
  datatype Word = Word(text: string, bare: seq<bool>, quoted: bool) {
    function Bare(c: char): Word {
      Word(text + [c], bare + [true], quoted)
    }
    function Protected(c: char): Word {
      Word(text + [c], bare + [false], true)
    }
    function Quote(): Word {
      Word(text, bare, true)
    }
  }

  const NO_WORD := Word("", [], false)

  datatype Mode = Between | Plain | Single | Double

  predicate IsSeparator(c: char) {
    c == ' ' || c == '\t'
  }

  /** Unquoted, these are operators or start an expansion; # and ~ only where a word starts. */
  predicate Active(c: char, start: bool) {
    c in "|&;<>()$`\n*?[" || (start && c in "#~")
  }

  /** Reads s; `cur` is the word in progress outside Between. */
  function Read(s: string, mode: Mode, cur: Word, words: seq<Word>): Option<seq<Word>>
    decreases |s|
  {
    match mode
    case Between =>
      if s == "" then Some(words)
      else if IsSeparator(s[0]) then Read(s[1..], Between, cur, words)
      else ReadBare(s, NO_WORD, words, true)
    case Plain =>
      if s == "" then Some(words + [cur])
      else if IsSeparator(s[0]) then Read(s[1..], Between, NO_WORD, words + [cur])
      else ReadBare(s, cur, words, false)
    case Single =>
      if s == "" then None
      else if s[0] == QUOTE then Read(s[1..], Plain, cur, words)
      else Read(s[1..], Single, cur.Protected(s[0]), words)
    case Double =>
      if s == "" || s[0] == '$' || s[0] == '`' then None
      else if s[0] == '"' then Read(s[1..], Plain, cur, words)
      else if s[0] == '\\' && |s| > 1 && s[1] in "$`\"\\" then Read(s[2..], Double, cur.Protected(s[1]), words)
      else if s[0] == '\\' && |s| > 1 && s[1] == '\n' then Read(s[2..], Double, cur, words)
      else Read(s[1..], Double, cur.Protected(s[0]), words)
  }

  /** One unquoted, non-blank character. */
  function ReadBare(s: string, cur: Word, words: seq<Word>, start: bool): Option<seq<Word>>
    requires s != ""
    decreases |s|, 0
  {
    if s[0] == QUOTE then Read(s[1..], Single, cur.Quote(), words)
    else if s[0] == '"' then Read(s[1..], Double, cur.Quote(), words)
    else if s[0] == '\\' then
      if |s| == 1 then None
      else if s[1] == '\n' then Read(s[2..], if start then Between else Plain, cur, words)
      else Read(s[2..], Plain, cur.Protected(s[1]), words)
    else if Active(s[0], start) then None
    else Read(s[1..], Plain, cur.Bare(s[0]), words)
  }

  function ReadWords(s: string): Option<seq<Word>> {
    Read(s, Between, NO_WORD, [])
  }

  function Texts(words: seq<Word>): seq<string> {
    seq(|words|, i requires 0 <= i < |words| => words[i].text)
  }

  /** A word with no quoting that spells a reserved word (2.4), one that may be reserved there, or one of bash's own. */
  predicate ReadAsKeyword(w: Word) {
    && !w.quoted
    && w.text in ["!", "{", "}", "case", "do", "done", "elif", "else", "esac", "fi", "for", "if", "in", "then", "until", "while",
                  "function", "select", "coproc", "time"]
  }

  /** A word with an unquoted =. */
  predicate ReadAsAssignment(w: Word) {
    exists i | 0 <= i < |w.text| && i < |w.bare| :: w.text[i] == '=' && w.bare[i]
  }

  /////////////// Reading back what was printed ///////////////

  function Flags(n: nat, flag: bool): (flags: seq<bool>)
    ensures |flags| == n && forall i | 0 <= i < n :: flags[i] == flag
  {
    seq(n, _ => flag)
  }

  /** The word in progress after more of its text. */
  function Extend(cur: Word, value: string, bare: bool): Word {
    Word(cur.text + value, cur.bare + Flags(|value|, bare), cur.quoted)
  }

  lemma ExtendByOne(cur: Word, value: string, bare: bool)
    requires value != ""
    ensures Extend(Word(cur.text + [value[0]], cur.bare + [bare], cur.quoted), value[1..], bare) == Extend(cur, value, bare)
  {
    assert cur.text + [value[0]] + value[1..] == cur.text + value;
    assert cur.bare + [bare] + Flags(|value| - 1, bare) == cur.bare + Flags(|value|, bare);
  }

  lemma ExtendByNone(cur: Word, bare: bool)
    ensures Extend(cur, "", bare) == cur
  {
  }

  function BareWord(value: string): (w: Word)
    ensures w.text == value
  {
    Extend(NO_WORD, value, true)
  }

  function ProtectedWord(value: string): (w: Word)
    ensures w.text == value
  {
    Extend(NO_WORD.Quote(), value, false)
  }

  /** A safe character has no meaning of its own to the shell. */
  lemma SafeIsOrdinary(c: char)
    requires SafeChar(c)
    ensures c != QUOTE && c != '"' && c != '\\' && !IsSeparator(c) && !Active(c, true) && !Active(c, false)
  {
  }

  lemma ReadSafeChar(c: char, next: string, cur: Word, words: seq<Word>)
    requires SafeChar(c)
    ensures Read([c] + next, Plain, cur, words) == Read(next, Plain, cur.Bare(c), words)
    ensures Read([c] + next, Between, NO_WORD, words) == Read(next, Plain, NO_WORD.Bare(c), words)
  {
    SafeIsOrdinary(c);
    assert ([c] + next)[1..] == next;
    assert ReadBare([c] + next, cur, words, false) == Read(next, Plain, cur.Bare(c), words);
    assert ReadBare([c] + next, NO_WORD, words, true) == Read(next, Plain, NO_WORD.Bare(c), words);
  }

  lemma {:induction false} ReadSafe(value: string, rest: string, cur: Word, words: seq<Word>)
    requires SafeWord(value)
    ensures Read(value + rest, Plain, cur, words)
         == Read(rest, Plain, Extend(cur, value, true), words)
  {
    if value == "" {
      assert value + rest == rest;
      ExtendByNone(cur, true);
    } else {
      var c := value[0];
      ReadSafeChar(c, value[1..] + rest, cur, words);
      assert value + rest == [c] + (value[1..] + rest);
      ReadSafe(value[1..], rest, cur.Bare(c), words);
      ExtendByOne(cur, value, true);
    }
  }

  /** From inside single quotes, an escaped value is read literally and then left. */
  lemma {:induction false} ReadEscaped(value: string, rest: string, cur: Word, words: seq<Word>)
    requires cur.quoted
    ensures Read(Escape(value) + [QUOTE] + rest, Single, cur, words)
         == Read(rest, Plain, Extend(cur, value, false), words)
  {
    var s := Escape(value) + [QUOTE] + rest;
    if value == "" {
      assert s[1..] == rest;
      ExtendByNone(cur, false);
    } else {
      var c := value[0];
      var next := Escape(value[1..]) + [QUOTE] + rest;
      ReadEscaped(value[1..], rest, cur.Protected(c), words);
      ExtendByOne(cur, value, false);
      if c == QUOTE {
        assert s == QUOTED_QUOTE + next;
        ReadQuotedQuote(next, cur, words);
      } else {
        assert s == [c] + next && s[1..] == next;
      }
    }
  }

  lemma ReadQuotedQuote(next: string, cur: Word, words: seq<Word>)
    requires cur.quoted
    ensures Read(QUOTED_QUOTE + next, Single, cur, words) == Read(next, Single, cur.Protected(QUOTE), words)
  {
    var s := QUOTED_QUOTE + next;
    assert s[0] == QUOTE && s[1..] == "\"'\"'" + next;
    var s1 := "\"'\"'" + next;
    assert s1[0] == '"' && s1[1..] == "'\"'" + next;
    var s2 := "'\"'" + next;
    assert s2[0] == QUOTE && s2[1..] == "\"'" + next;
    var s3 := "\"'" + next;
    assert s3[0] == '"' && s3[1..] == "'" + next;
    var s4 := "'" + next;
    assert s4[0] == QUOTE && s4[1..] == next;
    assert cur.Quote() == cur;
    var with := cur.Protected(QUOTE);
    assert with.Quote() == with;
    assert Read(s, Single, cur, words) == Read(s1, Plain, cur, words);
    assert ReadBare(s1, cur, words, false) == Read(s2, Double, cur, words);
    assert Read(s2, Double, cur, words) == Read(s3, Double, with, words);
    assert Read(s3, Double, with, words) == Read(s4, Plain, with, words);
    assert ReadBare(s4, with, words, false) == Read(next, Single, with, words);
  }

  lemma ReadAlways(value: string, rest: string, words: seq<Word>)
    ensures Read(QuoteAlways(value) + rest, Between, NO_WORD, words) == Read(rest, Plain, ProtectedWord(value), words)
  {
    var s := QuoteAlways(value) + rest;
    assert s[0] == QUOTE && s[1..] == Escape(value) + [QUOTE] + rest;
    ReadEscaped(value, rest, NO_WORD.Quote(), words);
  }

  function WordFor(value: string): (w: Word)
    ensures w.text == value
  {
    if value != "" && SafeWord(value) then BareWord(value) else ProtectedWord(value)
  }

  lemma ReadSafeWord(value: string, rest: string, words: seq<Word>)
    requires value != "" && SafeWord(value)
    ensures Read(value + rest, Between, NO_WORD, words) == Read(rest, Plain, BareWord(value), words)
  {
    var c := value[0];
    ReadSafeChar(c, value[1..] + rest, NO_WORD, words);
    assert value + rest == [c] + (value[1..] + rest);
    ReadSafe(value[1..], rest, NO_WORD.Bare(c), words);
    ExtendByOne(NO_WORD, value, true);
  }

  lemma ReadWord(value: string, rest: string, words: seq<Word>)
    ensures Read(QuoteWord(value) + rest, Between, NO_WORD, words) == Read(rest, Plain, WordFor(value), words)
  {
    if value != "" && SafeWord(value) {
      ReadSafeWord(value, rest, words);
    } else {
      assert QuoteAlways("") == "''";
      ReadAlways(value, rest, words);
    }
  }

  function WordsFor(args: seq<string>): seq<Word> {
    seq(|args|, i requires 0 <= i < |args| => WordFor(args[i]))
  }

  /** The arguments, each after a space. */
  function Rest(args: seq<string>): string {
    if args == [] then "" else " " + QuoteWord(args[0]) + Rest(args[1..])
  }

  lemma {:induction false} JoinIsRest(first: string, args: seq<string>)
    ensures Join([first] + Quoted(args)) == first + Rest(args)
    decreases |args|
  {
    var values := [first] + Quoted(args);
    if args == [] {
      assert values == [first];
    } else {
      var q, rest := QuoteWord(args[0]), Rest(args[1..]);
      QuotedTail(first, args);
      JoinIsRest(q, args[1..]);
      assert Join(values) == first + " " + (q + rest);
      Regroup(first, " ", q, rest);
    }
  }

  lemma QuotedTail(first: string, args: seq<string>)
    requires args != []
    ensures ([first] + Quoted(args))[1..] == [QuoteWord(args[0])] + Quoted(args[1..])
  {
  }

  lemma Regroup(a: string, b: string, c: string, d: string)
    ensures a + b + (c + d) == a + (b + c + d)
  {
  }

  lemma ReadSpace(next: string, cur: Word, words: seq<Word>)
    ensures Read(" " + next, Plain, cur, words) == Read(next, Between, NO_WORD, words + [cur])
  {
    assert (" " + next)[1..] == next;
  }

  lemma WordsForCons(args: seq<string>)
    requires args != []
    ensures WordsFor(args) == [WordFor(args[0])] + WordsFor(args[1..])
  {
  }

  lemma WordsGrow(words: seq<Word>, w: Word, rest: seq<Word>)
    ensures words + [w] + rest == words + ([w] + rest)
  {
  }

  lemma {:induction false} ReadRest(args: seq<string>, cur: Word, words: seq<Word>)
    ensures Read(Rest(args), Plain, cur, words) == Some(words + [cur] + WordsFor(args))
    decreases |args|
  {
    if args == [] {
      assert WordsFor(args) == [];
      assert words + [cur] + [] == words + [cur];
    } else {
      var next := QuoteWord(args[0]) + Rest(args[1..]);
      assert Rest(args) == " " + next;
      ReadSpace(next, cur, words);
      ReadWord(args[0], Rest(args[1..]), words + [cur]);
      ReadRest(args[1..], WordFor(args[0]), words + [cur]);
      WordsForCons(args);
      WordsGrow(words + [cur], WordFor(args[0]), WordsFor(args[1..]));
    }
  }

  function CommandWord(program: string): Word {
    if '=' in program || IsKeyword(program) then ProtectedWord(program) else WordFor(program)
  }

  lemma ReadCommand(program: string, rest: string, words: seq<Word>)
    ensures Read(QuoteCommand(program) + rest, Between, NO_WORD, words) == Read(rest, Plain, CommandWord(program), words)
    ensures CommandWord(program).text == program
  {
    ReadAlways(program, rest, words);
    ReadWord(program, rest, words);
  }

  /** Main result: the printed line reads back as the program and its arguments, whatever characters they hold. */
  lemma InvocationReadsBack(program: string, args: seq<string>)
    ensures ReadWords(Format(program, args)) == Some([CommandWord(program)] + WordsFor(args))
    ensures Texts([CommandWord(program)] + WordsFor(args)) == [program] + args
  {
    var w := CommandWord(program);
    JoinIsRest(QuoteCommand(program), args);
    ReadCommand(program, Rest(args), []);
    ReadRest(args, w, []);
    assert [] + [w] + WordsFor(args) == [w] + WordsFor(args);
    TextsOf(w, program, args);
  }

  lemma TextsOf(w: Word, program: string, args: seq<string>)
    requires w.text == program
    ensures Texts([w] + WordsFor(args)) == [program] + args
  {
  }

  lemma CommandIsNoKeyword(program: string)
    ensures !ReadAsKeyword(CommandWord(program)) && !ReadAsAssignment(CommandWord(program))
  {
    if program in ["{", "}", "!"] {
      assert !SafeChar(program[0]);
    }
  }

  /** And its first word is read neither as a reserved word nor as an assignment. */
  lemma ProgramIsACommand(program: string, args: seq<string>)
    ensures var read := ReadWords(Format(program, args));
      read.Some? && |read.value| == 1 + |args| && read.value[0].text == program
      && !ReadAsKeyword(read.value[0]) && !ReadAsAssignment(read.value[0])
  {
    InvocationReadsBack(program, args);
    CommandIsNoKeyword(program);
  }

  /////////////// What needs no quoting gets none ///////////////

  /** The letters, the digits and + , - . / : @ % = _, which the shell takes as they are. */
  predicate Ordinary(c: char) {
    '+' <= c <= ':' || '@' <= c <= 'Z' || 'a' <= c <= 'z' || c == '%' || c == '=' || c == '_'
  }

  /** A word that can stand on the line without quotes. */
  predicate Bare(value: string) {
    value != "" && forall i | 0 <= i < |value| :: Ordinary(value[i])
  }

  /** Main result: an argument is printed as it is exactly if it is bare, and a program if it also names no keyword and holds no =. */
  lemma BareWordsStayBare(value: string)
    ensures QuoteWord(value) == value <==> Bare(value)
    ensures QuoteCommand(value) == value <==> Bare(value) && '=' !in value && !ReadAsKeyword(BareWord(value))
  {
    assert SafeWord(value) <==> forall i | 0 <= i < |value| :: Ordinary(value[i]);
    EscapeIsNoShorter(value);
    if value in ["{", "}", "!"] {
      assert !SafeChar(value[0]);
    }
  }

  lemma {:induction false} EscapeIsNoShorter(value: string)
    ensures |Escape(value)| >= |value|
  {
    if value != "" {
      EscapeIsNoShorter(value[1..]);
    }
  }

  /** The parts with this text between them. */
  function JoinedBy(parts: seq<string>, mark: string): string {
    if |parts| <= 1 then (if parts == [] then "" else parts[0]) else parts[0] + mark + JoinedBy(parts[1..], mark)
  }

  lemma {:induction false} EscapeSum(a: string, b: string)
    ensures Escape(a + b) == Escape(a) + Escape(b)
  {
    if a == "" {
      assert a + b == b;
    } else {
      var head := if a[0] == QUOTE then QUOTED_QUOTE else [a[0]];
      EscapeSum(a[1..], b);
      assert (a + b)[1..] == a[1..] + b;
      Sums(head, Escape(a[1..]), Escape(b));
    }
  }

  lemma Sums(a: string, b: string, c: string)
    ensures a + (b + c) == a + b + c
  {
  }

  lemma {:induction false} EscapeKeeps(a: string)
    requires '\'' !in a
    ensures Escape(a) == a
  {
    if a != "" {
      EscapeKeeps(a[1..]);
    }
  }

  /** A quoted word is its text between single quotes, with every single quote replaced and nothing else. */
  lemma {:induction false} QuotesAreReplaced(parts: seq<string>)
    requires parts != [] && forall i | 0 <= i < |parts| :: '\'' !in parts[i]
    ensures QuoteAlways(JoinedBy(parts, "'")) == "'" + JoinedBy(parts, "'\"'\"'") + "'"
  {
    var value := JoinedBy(parts, "'");
    EscapeParts(parts);
    assert QuoteAlways(value) == "'" + Escape(value) + "'";
  }

  lemma {:induction false} EscapeParts(parts: seq<string>)
    requires parts != [] && forall i | 0 <= i < |parts| :: '\'' !in parts[i]
    ensures Escape(JoinedBy(parts, "'")) == JoinedBy(parts, "'\"'\"'")
    decreases |parts|
  {
    EscapeKeeps(parts[0]);
    if |parts| > 1 {
      EscapeParts(parts[1..]);
      EscapeSum(parts[0] + "'", JoinedBy(parts[1..], "'"));
      EscapeSum(parts[0], "'");
      assert Escape("'") == QUOTED_QUOTE + Escape("");
      assert Escape("'") == QUOTED_QUOTE;
    }
  }
}
