/**
 * Instance names: the display names that are accepted, the names derived from config files, and when a derived
 * name is accepted again on reload. Unicode letters and digits are a parameter.
 */
module Names {
  import opened Text

  /** unicode.IsLetter or unicode.IsDigit. */
  type Alphabet = char -> bool

  /** What is used of it: it has the ASCII letters and digits, and no space or punctuation of names. */
  ghost predicate Sensible(word: Alphabet) {
    && (forall c | 'a' <= c <= 'z' || '0' <= c <= '9' :: word(c))
    && (forall c | word(c) :: !IsSpace(c) && c != '_' && c != '.' && c != '-')
  }

  predicate IsMark(c: char) { c == '_' || c == '.' || c == '-' }

  predicate ValidDisplayName(word: Alphabet, name: string) {
    name != "" && forall i | 0 <= i < |name| :: word(name[i]) || (i > 0 && IsMark(name[i]))
  }

  /** Every character not allowed in a name becomes "-", and a run of them becomes one "-". */
  function Normalized(word: Alphabet, base: string, previousSeparator: bool): string {
    if base == "" then ""
    else if word(base[0]) || IsMark(base[0]) then [base[0]] + Normalized(word, base[1..], false)
    else (if previousSeparator then "" else "-") + Normalized(word, base[1..], true)
  }

  predicate IsEdge(c: char) { c == '.' || c == '-' }

  function TrimLeft(s: string): string {
    if s != "" && IsEdge(s[0]) then TrimLeft(s[1..]) else s
  }

  function TrimRight(s: string): string {
    if s != "" && IsEdge(s[|s| - 1]) then TrimRight(s[..|s| - 1]) else s
  }

  /** automaticName, from the file name without its extension. */
  function AutomaticName(word: Alphabet, base: string): string {
    var name := TrimRight(TrimLeft(Normalized(word, base, false)));
    if name == "" then "onderzeeer" else name
  }

  /** The loop of automaticName. */
  method Normalize(word: Alphabet, base: string) returns (normalized: string)
    ensures normalized == Normalized(word, base, false)
  {
    normalized := "";
    var previousSeparator := false;
    var i := 0;
    while i < |base|
      invariant 0 <= i <= |base|
      invariant Normalized(word, base, false) == normalized + Normalized(word, base[i..], previousSeparator)
    {
      var character := base[i];
      NormalizedNext(word, base, i, previousSeparator, normalized);
      if word(character) || IsMark(character) {
        normalized := normalized + [character];
        previousSeparator := false;
      } else if !previousSeparator {
        normalized := normalized + "-";
        previousSeparator := true;
      }
      i := i + 1;
    }
  }

  /** What one more character of base adds to the text so far. */
  lemma NormalizedNext(word: Alphabet, base: string, i: nat, previousSeparator: bool, text: string)
    requires i < |base|
    ensures var kept := word(base[i]) || IsMark(base[i]);
            text + Normalized(word, base[i..], previousSeparator) ==
            (if kept then text + [base[i]] else if previousSeparator then text else text + "-") + Normalized(word, base[i + 1..], !kept)
  {
    assert base[i..][1..] == base[i + 1..];
    var rest := Normalized(word, base[i + 1..], !(word(base[i]) || IsMark(base[i])));
    assert text + ([base[i]] + rest) == text + [base[i]] + rest;
    assert text + ("-" + rest) == text + "-" + rest;
    assert "" + rest == rest;
  }

  /** The first character of base that a name can begin with. */
  function FirstKept(word: Alphabet, base: string): Option<char> {
    if base == "" then None
    else if word(base[0]) || base[0] == '_' then Some(base[0])
    else FirstKept(word, base[1..])
  }

  ghost predicate NameChars(word: Alphabet, s: string) { forall i | 0 <= i < |s| :: word(s[i]) || IsMark(s[i]) }

  lemma {:induction false} TrimmedNormalized(word: Alphabet, base: string, previousSeparator: bool)
    requires Sensible(word)
    ensures var s := TrimLeft(Normalized(word, base, previousSeparator));
            NameChars(word, s) && (if s == "" then FirstKept(word, base) == None else FirstKept(word, base) == Some(s[0]))
  {
    if base != "" {
      var rest := base[1..];
      if word(base[0]) || IsMark(base[0]) {
        TrimmedNormalized(word, rest, false);
        NormalizedChars(word, rest, false);
        assert ([base[0]] + Normalized(word, rest, false))[1..] == Normalized(word, rest, false);
      } else {
        TrimmedNormalized(word, rest, true);
        assert ("-" + Normalized(word, rest, true))[1..] == Normalized(word, rest, true);
        assert "" + Normalized(word, rest, true) == Normalized(word, rest, true);
      }
    }
  }

  lemma {:induction false} NormalizedChars(word: Alphabet, base: string, previousSeparator: bool)
    ensures NameChars(word, Normalized(word, base, previousSeparator))
  {
    if base != "" {
      NormalizedChars(word, base[1..], false);
      NormalizedChars(word, base[1..], true);
    }
  }

  lemma {:induction false} TrimRightKeepsFirst(s: string)
    requires s != "" && !IsEdge(s[0])
    ensures TrimRight(s) != "" && TrimRight(s)[0] == s[0] && TrimRight(s) <= s
  {
    if IsEdge(s[|s| - 1]) {
      TrimRightKeepsFirst(s[..|s| - 1]);
    }
  }

  lemma {:induction false} TrimLeftEnds(s: string)
    ensures TrimLeft(s) != "" ==> !IsEdge(TrimLeft(s)[0])
  {
    if s != "" && IsEdge(s[0]) {
      TrimLeftEnds(s[1..]);
    }
  }

  lemma AutomaticNameShape(word: Alphabet, base: string)
    requires Sensible(word)
    ensures var name := AutomaticName(word, base);
            && name != "" && NameChars(word, name) && !IsEdge(name[0])
            && (FirstKept(word, base).Some? ==> name[0] == FirstKept(word, base).value)
            && (FirstKept(word, base).None? ==> name == "onderzeeer")
  {
    var s := TrimLeft(Normalized(word, base, false));
    TrimmedNormalized(word, base, false);
    TrimLeftEnds(Normalized(word, base, false));
    if s != "" {
      TrimRightKeepsFirst(s);
    }
  }

  /** A derived name is accepted on reload exactly when the file name's first usable character is not "_". */
  lemma AutomaticNameReloads(word: Alphabet, base: string)
    requires Sensible(word)
    ensures ValidDisplayName(word, AutomaticName(word, base)) <==> FirstKept(word, base) != Some('_')
  {
    AutomaticNameShape(word, base);
    var name := AutomaticName(word, base);
    assert FirstKept(word, base) == Some('_') ==> !word(name[0]);
  }

  /** For instance, the config file "_a.yaml" is registered under a name that is rejected on reload. */
  lemma UnderscoreDoesNotReload(word: Alphabet)
    requires Sensible(word)
    ensures AutomaticName(word, "_a") == "_a" && !ValidDisplayName(word, AutomaticName(word, "_a"))
  {
    assert "_a"[1..] == "a" && "a"[1..] == "";
    assert Normalized(word, "a", false) == "a";
    assert Normalized(word, "_a", false) == "_a";
  }

  // ---- What a derived name says ----

  /** Characters that no name has. */
  ghost predicate Gap(word: Alphabet, s: string) { s != "" && forall i | 0 <= i < |s| :: !word(s[i]) && !IsMark(s[i]) }

  lemma {:induction false} GapIsSkipped(word: Alphabet, gap: string, rest: string)
    requires gap == "" || Gap(word, gap)
    ensures Normalized(word, gap + rest, true) == Normalized(word, rest, true)
  {
    if gap == "" {
      assert gap + rest == rest;
    } else {
      assert (gap + rest)[1..] == gap[1..] + rest;
      GapIsSkipped(word, gap[1..], rest);
    }
  }

  lemma {:induction false} AllowedIsKept(word: Alphabet, kept: string)
    requires NameChars(word, kept)
    ensures Normalized(word, kept, false) == kept
  {
    if kept != "" {
      AllowedIsKept(word, kept[1..]);
    }
  }

  /** Main result: what a name may contain stays as it is, and everything between becomes one "-". */
  lemma {:induction false} GapsBecomeDashes(word: Alphabet, kept: string, gap: string, rest: string)
    requires NameChars(word, kept) && Gap(word, gap) && (rest == "" || word(rest[0]) || IsMark(rest[0]))
    ensures Normalized(word, kept + gap + rest, false) == kept + "-" + Normalized(word, rest, false)
    decreases |kept|
  {
    var s := kept + gap + rest;
    if kept == "" {
      assert s == gap + rest && s[1..] == gap[1..] + rest;
      GapIsSkipped(word, gap[1..], rest);
      assert kept + "-" + Normalized(word, rest, false) == "-" + Normalized(word, rest, false);
    } else {
      assert s[1..] == kept[1..] + gap + rest;
      GapsBecomeDashes(word, kept[1..], gap, rest);
      Reassociated(kept, "-", Normalized(word, rest, false));
    }
  }

  lemma Reassociated(kept: string, mark: string, rest: string)
    requires kept != ""
    ensures [kept[0]] + (kept[1..] + mark + rest) == kept + mark + rest
  {
  }

  ghost predicate Edges(s: string) { forall i | 0 <= i < |s| :: s[i] == '.' || s[i] == '-' }

  /** name is s without the dots and dashes at both ends. */
  ghost predicate Trimmed(s: string, name: string, left: string, right: string) {
    && s == left + name + right && Edges(left) && Edges(right)
    && (name != "" ==> name[0] != '.' && name[0] != '-' && name[|name| - 1] != '.' && name[|name| - 1] != '-')
  }

  lemma {:induction false} LeftIsTrimmed(s: string) returns (left: string)
    ensures s == left + TrimLeft(s) && Edges(left)
    ensures TrimLeft(s) != "" ==> !IsEdge(TrimLeft(s)[0])
  {
    left := "";
    if s != "" && IsEdge(s[0]) {
      var more := LeftIsTrimmed(s[1..]);
      left := [s[0]] + more;
    }
  }

  lemma {:induction false} RightIsTrimmed(s: string) returns (right: string)
    ensures s == TrimRight(s) + right && Edges(right)
    ensures TrimRight(s) != "" ==> !IsEdge(TrimRight(s)[|TrimRight(s)| - 1])
  {
    right := "";
    if s != "" && IsEdge(s[|s| - 1]) {
      var more := RightIsTrimmed(s[..|s| - 1]);
      right := more + [s[|s| - 1]];
    }
  }

  /** Main result: the derived name is the normalized one without dots and dashes at its ends, if anything is left. */
  lemma AutomaticNameIsTrimmed(word: Alphabet, base: string)
    ensures exists left, name, right :: Trimmed(Normalized(word, base, false), name, left, right)
              && AutomaticName(word, base) == if name == "" then "onderzeeer" else name
  {
    var s := Normalized(word, base, false);
    var left := LeftIsTrimmed(s);
    var right := RightIsTrimmed(TrimLeft(s));
    var name := TrimRight(TrimLeft(s));
    assert s == left + name + right;
    assert Trimmed(s, name, left, right);
  }

  // ---- Numbered names ----

  function Itoa(n: nat): (s: string)
    ensures s != "" && forall i | 0 <= i < |s| :: '0' <= s[i] <= '9'
  {
    (if n < 10 then "" else Itoa(n / 10)) + [('0' as int + n % 10) as char]
  }

  lemma {:induction false} ItoaInjective(m: nat, n: nat)
    requires Itoa(m) == Itoa(n)
    ensures m == n
  {
    var s, t := Itoa(m), Itoa(n);
    assert s[|s| - 1] == t[|t| - 1];
    assert m % 10 == n % 10;
    assert m >= 10 <==> |s| >= 2;
    assert n >= 10 <==> |t| >= 2;
    if m >= 10 {
      assert s[..|s| - 1] == Itoa(m / 10) && t[..|t| - 1] == Itoa(n / 10);
      ItoaInjective(m / 10, n / 10);
    }
  }

  /** The number that a text of digits spells. */
  function Atoi(s: string): int {
    if s == "" then 0 else 10 * Atoi(s[..|s| - 1]) + (s[|s| - 1] as int - '0' as int)
  }

  /** Itoa spells its number in decimal, without leading zeros. */
  lemma {:induction false} ItoaReadsBack(n: nat)
    ensures Atoi(Itoa(n)) == n && (n > 0 ==> Itoa(n)[0] != '0')
  {
    var s := Itoa(n);
    if n >= 10 {
      ItoaReadsBack(n / 10);
      assert s[..|s| - 1] == Itoa(n / 10);
    } else {
      assert s[..|s| - 1] == "";
    }
  }

  /** The names that availableNameLocked tries in turn. */
  function Numbered(base: string, suffix: nat): string {
    if suffix <= 1 then base else base + "-" + Itoa(suffix)
  }

  lemma NumberedInjective(base: string, m: nat, n: nat)
    requires m >= 1 && n >= 1 && Numbered(base, m) == Numbered(base, n)
    ensures m == n && (m > 1 ==> Numbered(base, m) == base + "-" + Itoa(m)) && Numbered(base, 1) == base
  {
    assert m > 1 <==> |Numbered(base, m)| > |base|;
    assert n > 1 <==> |Numbered(base, n)| > |base|;
    if m > 1 {
      var s := Numbered(base, m);
      assert s[|base| + 1..] == Itoa(m) && s[|base| + 1..] == Itoa(n);
      ItoaInjective(m, n);
    }
  }

  /** Numbering a name changes nothing about whether it is accepted. */
  lemma NumberedIsValid(word: Alphabet, base: string, suffix: nat)
    requires Sensible(word)
    ensures ValidDisplayName(word, Numbered(base, suffix)) <==> ValidDisplayName(word, base)
  {
    if suffix > 1 {
      var name, digits := Numbered(base, suffix), Itoa(suffix);
      assert name[|base|] == '-';
      assert forall i | 0 <= i < |base| :: name[i] == base[i];
      forall i | |base| < i < |name| ensures word(name[i]) {
        assert name[i] == digits[i - |base| - 1];
      }
      assert name[0] == if base == "" then '-' else base[0];
    }
  }

  /** Names can be looked up: they are not blank and trimming does not change them. */
  predicate Findable(name: string) { name != "" && forall i | 0 <= i < |name| :: !IsSpace(name[i]) }

  lemma NameCharsFindable(word: Alphabet, base: string, suffix: nat)
    requires Sensible(word) && base != "" && NameChars(word, base)
    ensures Findable(Numbered(base, suffix))
  {
    var name := Numbered(base, suffix);
    forall i | 0 <= i < |name| ensures !IsSpace(name[i]) {
      if i < |base| {
        assert name[i] == base[i];
      } else if i > |base| {
        assert name[i] == Itoa(suffix)[i - |base| - 1];
      }
    }
  }

  lemma FindableIsTrimmed(name: string)
    requires Findable(name)
    ensures TrimSpace(name) == name
  {
  }
}
