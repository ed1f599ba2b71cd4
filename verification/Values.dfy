/**
 * Config-local template values: "{{name}}" references between values are resolved by a memoised depth-first
 * search that reports reference cycles, and each value is then rewritten by one simultaneous replacement.
 */
module Values {
  import opened Text

  datatype Error = InvalidKey(key: string) | ReservedKey(key: string) | ReferenceCycle(path: seq<string>)
  const RESERVED := {"file", "dir", "basename", "stem", "ext", "job_id"}

  predicate IsLetter(c: char) { 'a' <= c <= 'z' || 'A' <= c <= 'Z' }

  predicate IsNameChar(c: char) { IsLetter(c) || '0' <= c <= '9' || c == '_' }

  /** validTemplateValueName. */
  predicate ValidName(name: string) {
    name != "" && (IsLetter(name[0]) || name[0] == '_') && forall i | 0 <= i < |name| :: IsNameChar(name[i])
  }

  function Token(name: string): string { "{{" + name + "}}" }

  // ---- What a text with references means ----

  /** The name of the reference that starts s, found by its closing brace. */
  function NameAt(s: string): (name: Option<string>)
    ensures name.Some? ==> Token(name.value) <= s
  {
    if |s| < 2 || s[..2] != "{{" then None
    else
      var name := s[2..][..IndexOf(s[2..], '}')];
      if Token(name) <= s then Some(name) else None
  }

  /** A valid name's token starts s only if that name is read there: at most one token starts at any place. */
  lemma NameAtReadsTokens(s: string, name: string)
    requires ValidName(name) && Token(name) <= s
    ensures NameAt(s) == Some(name)
  {
    var rest, e := s[2..], IndexOf(s[2..], '}');
    assert forall i | 0 <= i < |name| :: rest[i] == Token(name)[2 + i] == name[i];
    assert rest[|name|] == Token(name)[2 + |name|];
    assert e == |name|;
    assert rest[..e] == name;
    assert s[..2] == Token(name)[..2];
  }

  /** s with every reference to a key of m filled in, all at once: filled-in text is not read again. */
  function Expand(s: string, m: map<string, string>): string {
    if s == "" then ""
    else
      var name := NameAt(s);
      if name.Some? && name.value in m then m[name.value] + Expand(s[|Token(name.value)|..], m)
      else [s[0]] + Expand(s[1..], m)
  }

  lemma ContainsInRest(s: string, i: nat, t: string)
    requires i <= |s| && Contains(s[i..], t)
    ensures Contains(s, t)
  {
    var k :| 0 <= k <= |s[i..]| && t <= s[i..][k..];
    assert s[i..][k..] == s[i + k..];
  }

  /** The meaning of a text depends only on the values its tokens name. */
  lemma {:induction false} ExpandReadsItsReferences(s: string, m: map<string, string>, n: map<string, string>)
    requires forall k | Contains(s, Token(k)) :: (k in m <==> k in n) && (k in m ==> m[k] == n[k])
    ensures Expand(s, m) == Expand(s, n)
  {
    if s != "" {
      var name := NameAt(s);
      var skip := if name.Some? && name.value in m then |Token(name.value)| else 1;
      if name.Some? {
        assert s[0..] == s;
        assert Contains(s, Token(name.value));
      }
      forall k | Contains(s[skip..], Token(k)) ensures Contains(s, Token(k)) {
        ContainsInRest(s, skip, Token(k));
      }
      ExpandReadsItsReferences(s[skip..], m, n);
    }
  }

  ghost predicate TokenAt(s: string, i: nat, m: map<string, string>) {
    i <= |s| && exists k | k in m :: Token(k) <= s[i..]
  }

  lemma TokenAtRest(s: string, j: nat, m: map<string, string>)
    requires s != "" && TokenAt(s[1..], j, m)
    ensures TokenAt(s, j + 1, m)
  {
    assert s[1..][j..] == s[j + 1..];
  }

  /** In terms of occurrences: text before the first token is kept, the token becomes its key's value, the rest is read on. */
  lemma {:induction false} ExpandFirstToken(s: string, before: string, k: string, after: string, m: map<string, string>)
    requires ValidName(k) && k in m && s == before + Token(k) + after
    requires forall j | 0 <= j < |before| :: !TokenAt(s, j, m)
    ensures Expand(s, m) == before + m[k] + Expand(after, m)
    decreases |before|
  {
    if before == "" {
      NameAtReadsTokens(s, k);
      assert s[|Token(k)|..] == after;
    } else {
      var rest := s[1..];
      assert rest == before[1..] + Token(k) + after;
      forall j | 0 <= j < |before[1..]| ensures !TokenAt(rest, j, m) {
        if TokenAt(rest, j, m) {
          TokenAtRest(s, j, m);
        }
      }
      ExpandFirstToken(rest, before[1..], k, after, m);
      ExpandSkips(s, m);
      Reassociate(before, m[k], Expand(after, m));
    }
  }

  lemma Reassociate(before: string, value: string, after: string)
    requires before != ""
    ensures [before[0]] + (before[1..] + value + after) == before + value + after
  {
    assert before == [before[0]] + before[1..];
  }

  lemma ExpandSkips(s: string, m: map<string, string>)
    requires s != "" && !TokenAt(s, 0, m)
    ensures Expand(s, m) == [s[0]] + Expand(s[1..], m)
  {
    assert s[0..] == s;
  }

  /** Two tokens of valid names never overlap. */
  lemma TokensNeverOverlap(s: string, i: nat, j: nat, a: string, b: string)
    requires ValidName(a) && ValidName(b) && i < j <= |s|
    requires Token(a) <= s[i..] && Token(b) <= s[j..]
    ensures i + |Token(a)| <= j
  {
    assert Token(b)[0] == '{' && Token(b)[1] == '{';
    assert s[j] == s[j..][0] && s[j + 1] == s[j..][1];
    assert forall d | 0 <= d < |Token(a)| :: s[i + d] == s[i..][d] == Token(a)[d];
    assert forall d | 2 <= d < |Token(a)| :: Token(a)[d] == if d < 2 + |a| then a[d - 2] else '}';
  }

  // ---- Braces that survive ----

  /** Position p of s lies inside a token of a key of m. */
  ghost predicate InToken(s: string, p: nat, m: map<string, string>) {
    exists i: nat, k | k in m :: OccursAround(s, i, k, p)
  }

  ghost predicate OccursAround(s: string, i: nat, k: string, p: nat) {
    i <= p < i + |Token(k)| && i <= |s| && Token(k) <= s[i..]
  }

  /** Every "{" of s lies inside a token of a key of m. */
  ghost predicate BracesInTokens(s: string, m: map<string, string>) {
    forall p | 0 <= p < |s| && s[p] == '{' :: InToken(s, p, m)
  }

  predicate BraceFree(s: string) { forall p | 0 <= p < |s| :: s[p] != '{' }

  /** A text without "{" contains no token. */
  lemma BraceFreeHasNoToken(s: string, k: string)
    requires BraceFree(s)
    ensures !Contains(s, Token(k))
  {
    assert Token(k)[0] == '{';
    forall i | 0 <= i <= |s| ensures !(Token(k) <= s[i..]) {
      assert i < |s| ==> s[i..][0] == s[i];
    }
  }

  /** What Expand reads first: a token of a key, or one character. */
  function Skip(s: string, m: map<string, string>): (n: nat)
    requires s != ""
    ensures 0 < n <= |s|
  {
    var name := NameAt(s);
    if name.Some? && name.value in m then |Token(name.value)| else 1
  }

  /** A token that does not begin s begins behind what is read first. */
  lemma LaterToken(s: string, i: nat, k: string, m: map<string, string>)
    requires ValidNames(m) && s != "" && k in m && 0 < i <= |s| && Token(k) <= s[i..]
    ensures Skip(s, m) <= i && Token(k) <= s[Skip(s, m)..][i - Skip(s, m)..]
  {
    var n := Skip(s, m);
    if n > 1 {
      assert s[0..] == s;
      TokensNeverOverlap(s, 0, i, NameAt(s).value, k);
    }
    assert s[n..][i - n..] == s[i..];
  }

  /** Tokens around later positions begin behind what is read first. */
  lemma AroundRest(s: string, i: nat, k: string, p: nat, m: map<string, string>)
    requires ValidNames(m) && s != "" && k in m && OccursAround(s, i, k, p) && Skip(s, m) <= p
    ensures Skip(s, m) <= i && OccursAround(s[Skip(s, m)..], i - Skip(s, m), k, p - Skip(s, m))
  {
    assert s[0..] == s;
    if i == 0 {
      NameAtReadsTokens(s, k);
    } else {
      LaterToken(s, i, k, m);
    }
  }

  lemma RestAround(s: string, n: nat, i: nat, k: string, p: nat)
    requires n <= |s| && OccursAround(s[n..], i, k, p)
    ensures OccursAround(s, n + i, k, n + p)
  {
    assert s[n..][i..] == s[n + i..];
  }

  lemma BracesOfRest(s: string, m: map<string, string>)
    requires ValidNames(m) && s != ""
    ensures BracesInTokens(s, m) <==>
            BracesInTokens(s[Skip(s, m)..], m) && (s[0] == '{' ==> NameAt(s).Some? && NameAt(s).value in m)
  {
    var n := Skip(s, m);
    var rest := s[n..];
    forall p | 0 <= p < |rest| ensures rest[p] == s[n + p] && (InToken(rest, p, m) <==> InToken(s, n + p, m)) {
      InTokenOfRest(s, p, m);
    }
    forall q | n <= q < |s| ensures s[q] == rest[q - n] && (InToken(rest, q - n, m) <==> InToken(s, q, m)) {
      InTokenOfRest(s, q - n, m);
    }
    FirstInToken(s, m);
  }

  lemma InTokenOfRest(s: string, p: nat, m: map<string, string>)
    requires ValidNames(m) && s != "" && Skip(s, m) + p < |s|
    ensures InToken(s[Skip(s, m)..], p, m) <==> InToken(s, Skip(s, m) + p, m)
  {
    var n := Skip(s, m);
    var q := n + p;
    if i: nat, k :| k in m && OccursAround(s[n..], i, k, p) {
      RestAround(s, n, i, k, p);
    }
    if i: nat, k :| k in m && OccursAround(s, i, k, q) {
      AroundRest(s, i, k, q, m);
    }
  }

  /** The first character lies inside a token exactly if one is read there, and then so does all of that token. */
  lemma FirstInToken(s: string, m: map<string, string>)
    requires ValidNames(m) && s != ""
    ensures InToken(s, 0, m) <==> NameAt(s).Some? && NameAt(s).value in m
    ensures NameAt(s).Some? && NameAt(s).value in m ==> forall p | 0 <= p < Skip(s, m) :: InToken(s, p, m)
  {
    assert s[0..] == s;
    if k :| k in m && OccursAround(s, 0, k, 0) {
      NameAtReadsTokens(s, k);
    }
    if NameAt(s).Some? && NameAt(s).value in m {
      forall p | 0 <= p < Skip(s, m) ensures InToken(s, p, m) {
        assert OccursAround(s, 0, NameAt(s).value, p);
      }
    }
  }

  /** The references that Expand fills in. */
  ghost predicate FillsBraceFree(s: string, m: map<string, string>) {
    forall k | k in m && Contains(s, Token(k)) :: BraceFree(m[k])
  }

  lemma FillsOfRest(s: string, m: map<string, string>)
    requires ValidNames(m) && s != ""
    ensures FillsBraceFree(s, m) <==>
            FillsBraceFree(s[Skip(s, m)..], m) && (NameAt(s).Some? && NameAt(s).value in m ==> BraceFree(m[NameAt(s).value]))
  {
    var n := Skip(s, m);
    assert s[0..] == s;
    if NameAt(s).Some? && NameAt(s).value in m {
      assert Contains(s, Token(NameAt(s).value));
    }
    forall k | k in m ensures Contains(s, Token(k)) <==> Contains(s[n..], Token(k)) || NameAt(s) == Some(k) {
      ContainsInFirstOrRest(s, k, m);
    }
  }

  lemma ContainsInFirstOrRest(s: string, k: string, m: map<string, string>)
    requires ValidNames(m) && s != "" && k in m
    ensures Contains(s, Token(k)) <==> Contains(s[Skip(s, m)..], Token(k)) || NameAt(s) == Some(k)
  {
    assert s[0..] == s;
    if Contains(s[Skip(s, m)..], Token(k)) {
      ContainsInRest(s, Skip(s, m), Token(k));
    }
    if i :| 0 <= i <= |s| && Token(k) <= s[i..] {
      if i == 0 {
        NameAtReadsTokens(s, k);
      } else {
        LaterToken(s, i, k, m);
      }
    }
  }

  /** A filled-in text is free of "{" exactly if every "{" stood in a token, and only such values were filled in. */
  lemma {:induction false} ExpandBraceFree(s: string, m: map<string, string>)
    requires ValidNames(m)
    ensures BraceFree(Expand(s, m)) <==> BracesInTokens(s, m) && FillsBraceFree(s, m)
    decreases |s|
  {
    if s == "" {
      forall k ensures !Contains(s, Token(k)) {
        BraceFreeHasNoToken(s, k);
      }
    } else {
      var n := Skip(s, m);
      BracesOfRest(s, m);
      FillsOfRest(s, m);
      ExpandBraceFree(s[n..], m);
      var name := NameAt(s);
      if name.Some? && name.value in m {
        assert Expand(s, m) == m[name.value] + Expand(s[n..], m);
        BraceFreeJoin(m[name.value], Expand(s[n..], m));
      } else {
        assert Expand(s, m) == [s[0]] + Expand(s[n..], m);
        assert [s[0]][0] == s[0];
        assert BraceFree([s[0]]) <==> s[0] != '{';
        BraceFreeJoin([s[0]], Expand(s[n..], m));
      }
    }
  }

  lemma BraceFreeJoin(a: string, b: string)
    ensures BraceFree(a + b) <==> BraceFree(a) && BraceFree(b)
  {
    assert forall p | 0 <= p < |a| :: (a + b)[p] == a[p];
    assert forall p | 0 <= p < |b| :: (a + b)[|a| + p] == b[p];
  }

  // ---- strings.NewReplacer ----

  /** The first pair, in argument order, whose old string starts s; |pairs| when there is none. */
  function FirstMatch(s: string, pairs: seq<(string, string)>): (i: nat)
    ensures i <= |pairs|
    ensures i < |pairs| ==> pairs[i].0 <= s
    ensures forall j | 0 <= j < i :: !(pairs[j].0 <= s)
  {
    if pairs == [] || pairs[0].0 <= s then 0 else 1 + FirstMatch(s, pairs[1..])
  }

  /** strings.NewReplacer(pairs...).Replace(s): left to right, no overlaps, earlier pairs first. */
  function Replace(s: string, pairs: seq<(string, string)>): string
    requires forall p | p in pairs :: p.0 != ""
  {
    if s == "" then ""
    else
      var i := FirstMatch(s, pairs);
      if i < |pairs| then pairs[i].1 + Replace(s[|pairs[i].0|..], pairs) else [s[0]] + Replace(s[1..], pairs)
  }

  /** The pairs are tokens with their values in m, and among them is every token of m's keys that s contains. */
  ghost predicate Covers(pairs: seq<(string, string)>, s: string, m: map<string, string>) {
    && (forall p | p in pairs :: IsPairOf(p, m))
    && (forall k | k in m && Contains(s, Token(k)) :: (Token(k), m[k]) in pairs)
  }

  ghost predicate IsPairOf(p: (string, string), m: map<string, string>) {
    exists k | k in m :: p == (Token(k), m[k])
  }

  ghost predicate ValidNames(m: map<string, string>) { forall k | k in m :: ValidName(k) }

  /** Go's replacer computes the simultaneous replacement, in whatever order it was given the pairs. */
  lemma {:induction false} ReplacerMeansExpand(s: string, pairs: seq<(string, string)>, m: map<string, string>)
    requires ValidNames(m) && Covers(pairs, s, m)
    ensures (forall p | p in pairs :: p.0 != "") && Replace(s, pairs) == Expand(s, m)
    decreases |s|
  {
    forall p | p in pairs ensures p.0 != "" {
      assert IsPairOf(p, m);
    }
    if s != "" {
      var i, name := FirstMatch(s, pairs), NameAt(s);
      assert s[0..] == s;
      if name.Some? && name.value in m {
        assert Contains(s, Token(name.value));
        assert (Token(name.value), m[name.value]) in pairs;
        assert i < |pairs|;
      }
      if i < |pairs| {
        assert IsPairOf(pairs[i], m);
        var k :| k in m && pairs[i] == (Token(k), m[k]);
        NameAtReadsTokens(s, k);
        RestCovers(s, |Token(k)|, pairs, m);
        ReplacerMeansExpand(s[|Token(k)|..], pairs, m);
      } else {
        RestCovers(s, 1, pairs, m);
        ReplacerMeansExpand(s[1..], pairs, m);
      }
    }
  }

  lemma {:induction false} NothingToReplace(s: string)
    ensures Replace(s, []) == s
  {
    if s != "" {
      NothingToReplace(s[1..]);
    }
  }

  lemma RestCovers(s: string, i: nat, pairs: seq<(string, string)>, m: map<string, string>)
    requires i <= |s| && Covers(pairs, s, m)
    ensures Covers(pairs, s[i..], m)
  {
    forall k | k in m && Contains(s[i..], Token(k)) ensures (Token(k), m[k]) in pairs {
      ContainsInRest(s, i, Token(k));
    }
  }

  // ---- The reference graph ----

  /** values[k] mentions {{c}}. */
  predicate Refers(values: map<string, string>, k: string, c: string) {
    k in values && c in values && Contains(values[k], Token(c))
  }

  ghost predicate Walk(values: map<string, string>, p: seq<string>) {
    forall i, j | 0 <= i && j == i + 1 && j < |p| :: Refers(values, p[i], p[j])
  }

  ghost predicate Cycle(values: map<string, string>, p: seq<string>) {
    |p| >= 2 && p[0] == p[|p| - 1] && Walk(values, p)
  }

  /** order lists keys without repetition, each after all keys it refers to. */
  ghost predicate Topological(values: map<string, string>, order: seq<string>) {
    && (forall i, j | 0 <= i < j < |order| :: order[i] != order[j])
    && (forall i | 0 <= i < |order| :: order[i] in values)
    && (forall i, c | 0 <= i < |order| && Refers(values, order[i], c) :: c in order[..i])
  }

  /** m gives every key its value with the references filled in from m itself. */
  ghost predicate Solves(values: map<string, string>, m: map<string, string>) {
    m.Keys == values.Keys && forall k | k in values :: m[k] == Expand(values[k], m)
  }

  lemma {:induction false} WalksDescend(values: map<string, string>, order: seq<string>, p: seq<string>, i: nat, n: nat)
    requires Topological(values, order) && Walk(values, p) && n < |p|
    requires i < |order| && p[0] == order[i]
    ensures exists j | 0 <= j <= i - n :: p[n] == order[j]
    decreases n
  {
    if n == 0 {
      assert p[0] == order[i];
    } else {
      WalksDescend(values, order, p, i, n - 1);
      var j :| 0 <= j <= i - (n - 1) && p[n - 1] == order[j];
      assert Refers(values, p[n - 1], p[n - 1 + 1]);
      assert p[n] in order[..j];
      var h :| 0 <= h < j && order[..j][h] == p[n];
      assert order[h] == p[n];
    }
  }

  /** The stack from the key's own entry on, and the key again, is a cycle. */
  lemma ClosesACycle(values: map<string, string>, stack: seq<string>, start: nat, key: string)
    requires start < |stack| && stack[start] == key
    requires Walk(values, stack) && Refers(values, stack[|stack| - 1], key)
    ensures Cycle(values, stack[start..] + [key])
  {
    var p := stack[start..] + [key];
    forall i, j | 0 <= i && j == i + 1 && j < |p| ensures Refers(values, p[i], p[j]) {
      if j < |p| - 1 {
        assert Refers(values, stack[start + i], stack[start + j]);
      }
    }
  }

  /** A reference graph that can be listed this way has no cycle. */
  lemma OrderedMeansAcyclic(values: map<string, string>, order: seq<string>, p: seq<string>)
    requires Topological(values, order) && forall k | k in values :: k in order
    ensures !Cycle(values, p)
  {
    if Cycle(values, p) {
      assert Refers(values, p[0], p[0 + 1]);
      var i :| 0 <= i < |order| && order[i] == p[0];
      WalksDescend(values, order, p, i, |p| - 1);
    }
  }

  /** ... and at most one solution. */
  lemma {:induction false} SolutionsAgree(values: map<string, string>, order: seq<string>, n: nat,
      a: map<string, string>, b: map<string, string>)
    requires Topological(values, order) && n <= |order| && ValidNames(values)
    requires Solves(values, a) && Solves(values, b)
    ensures forall i | 0 <= i < n :: a[order[i]] == b[order[i]]
  {
    if n > 0 {
      SolutionsAgree(values, order, n - 1, a, b);
      var k := order[n - 1];
      forall c | Contains(values[k], Token(c)) ensures (c in a <==> c in b) && (c in a ==> a[c] == b[c]) {
        if c in values {
          assert Refers(values, k, c);
          assert c in order[..n - 1];
        }
      }
      ExpandReadsItsReferences(values[k], a, b);
    }
  }

  lemma SolutionIsUnique(values: map<string, string>, order: seq<string>, a: map<string, string>, b: map<string, string>)
    requires Topological(values, order) && ValidNames(values) && forall k | k in values :: k in order
    requires Solves(values, a) && Solves(values, b)
    ensures a == b
  {
    SolutionsAgree(values, order, |order|, a, b);
    assert forall k | k in values :: exists i | 0 <= i < |order| :: order[i] == k;
  }

  lemma FinishedAreClosed(values: map<string, string>, order: seq<string>, k: string, c: string)
    requires Topological(values, order) && k in order && Refers(values, k, c)
    ensures c in order
  {
    var i :| 0 <= i < |order| && order[i] == k;
    assert c in order[..i];
  }

  // ---- The search ----

  /** The closure variables of resolveTemplateValues, with the order in which keys were finished. */
  datatype Search = Search(resolved: map<string, string>, state: map<string, nat>, stack: seq<string>, order: seq<string>)

  /** 1 marks the keys on the stack, which is a walk; 2 marks the finished keys, whose values are final. */
  ghost predicate Sound(values: map<string, string>, s: Search) {
    && ValidNames(values)
    && (forall k | k in s.state :: k in values && (s.state[k] == 1 || s.state[k] == 2))
    && (forall k :: k in s.stack <==> k in s.state && s.state[k] == 1)
    && Walk(values, s.stack)
    && Finished(values, s)
  }

  ghost predicate Finished(values: map<string, string>, s: Search) {
    && (forall k :: k in s.resolved <==> k in s.state && s.state[k] == 2)
    && (forall k :: k in s.order <==> k in s.resolved)
    && Topological(values, s.order)
    && Final(values, s.resolved)
  }

  ghost predicate Final(values: map<string, string>, m: map<string, string>) {
    forall k | k in m :: k in values && m[k] == Expand(values[k], m)
  }

  /** What a successful call leaves alone, and what it may add to. */
  ghost predicate Extends(s: Search, u: Search) {
    && u.stack == s.stack && s.order <= u.order
    && (forall k | k in s.state :: k in u.state && u.state[k] == s.state[k])
    && (forall k | k in s.resolved :: k in u.resolved && u.resolved[k] == s.resolved[k])
  }

  lemma ExtendsFurther(s: Search, t: Search, u: Search)
    requires Extends(s, t) && Extends(t, u)
    ensures Extends(s, u)
  {
  }

  function Enter(s: Search, key: string): Search {
    s.(state := s.state[key := 1], stack := s.stack + [key])
  }

  function Finish(s: Search, key: string, value: string): Search
    requires |s.stack| > 0
  {
    Search(s.resolved[key := value], s.state[key := 2], s.stack[..|s.stack| - 1], s.order + [key])
  }

  lemma FinishingExtends(s: Search, u: Search, key: string, value: string)
    requires key !in s.state && key !in u.resolved && Extends(Enter(s, key), u)
    ensures |u.stack| > 0 && Extends(s, Finish(u, key, value))
  {
    assert Enter(s, key).stack[..|s.stack|] == s.stack;
    forall k | k in s.state ensures k in u.state && u.state[k] == s.state[k] {
      assert k in Enter(s, key).state;
    }
  }

  lemma EnterKeepsSound(values: map<string, string>, s: Search, key: string)
    requires Sound(values, s) && key in values && key !in s.state
    requires s.stack != [] ==> Refers(values, s.stack[|s.stack| - 1], key)
    ensures Sound(values, Enter(s, key))
  {
    var p := s.stack + [key];
    forall i, j | 0 <= i && j == i + 1 && j < |p| ensures Refers(values, p[i], p[j]) {
      if j < |s.stack| {
        assert Refers(values, s.stack[i], s.stack[j]);
      }
    }
  }

  /** A value computed from finished references leaves all earlier values right. */
  lemma ValuesStayFinal(values: map<string, string>, order: seq<string>, m: map<string, string>, key: string)
    requires Topological(values, order) && (forall k :: k in order <==> k in m) && Final(values, m)
    requires key in values && key !in m && forall c | Refers(values, key, c) :: c in m
    ensures Final(values, m[key := Expand(values[key], m)])
  {
    var n := m[key := Expand(values[key], m)];
    forall k | k in n ensures n[k] == Expand(values[k], n) {
      forall c | Contains(values[k], Token(c)) ensures (c in m <==> c in n) && (c in m ==> m[c] == n[c]) {
        if c in values {
          assert Refers(values, k, c);
          if k != key {
            FinishedAreClosed(values, order, k, c);
          }
        }
      }
      ExpandReadsItsReferences(values[k], m, n);
    }
  }

  lemma OrderGrows(values: map<string, string>, order: seq<string>, key: string)
    requires Topological(values, order) && key in values && key !in order
    requires forall c | Refers(values, key, c) :: c in order
    ensures Topological(values, order + [key])
  {
    var grown := order + [key];
    forall i, c | 0 <= i < |grown| && Refers(values, grown[i], c) ensures c in grown[..i] {
      assert grown[..i] == order[..i];
      assert order[..|order|] == order;
    }
  }

  lemma PopKeepsMarks(stack: seq<string>, state: map<string, nat>, key: string, rest: seq<string>, marks: map<string, nat>)
    requires stack == rest + [key] && key !in rest && marks == state[key := 2]
    requires forall k :: k in stack <==> k in state && state[k] == 1
    ensures forall k :: k in rest <==> k in marks && marks[k] == 1
  {
    forall k ensures k in rest <==> k in stack && k != key {
    }
  }

  lemma PopKeepsWalk(values: map<string, string>, stack: seq<string>)
    requires |stack| > 0 && Walk(values, stack)
    ensures Walk(values, stack[..|stack| - 1])
  {
    var rest := stack[..|stack| - 1];
    forall i, j | 0 <= i && j == i + 1 && j < |rest| ensures Refers(values, rest[i], rest[j]) {
      assert Refers(values, stack[i], stack[j]);
    }
  }

  lemma FinishKeepsSound(values: map<string, string>, s: Search, key: string)
    requires Sound(values, s) && |s.stack| > 0 && s.stack[|s.stack| - 1] == key && key !in s.stack[..|s.stack| - 1]
    requires forall c | Refers(values, key, c) :: c in s.resolved
    ensures Sound(values, Finish(s, key, Expand(values[key], s.resolved)))
  {
    assert s.stack[|s.stack| - 1] in s.stack;
    OrderGrows(values, s.order, key);
    assert s.stack == s.stack[..|s.stack| - 1] + [key];
    PopKeepsMarks(s.stack, s.state, key, s.stack[..|s.stack| - 1], s.state[key := 2]);
    PopKeepsWalk(values, s.stack);
    ValuesStayFinal(values, s.order, s.resolved, key);
  }

  /** The pairs collected from the first i candidates: every token among them that value contains. */
  ghost predicate Collected(pairs: seq<(string, string)>, value: string, candidates: seq<string>, m: map<string, string>) {
    && (forall p | p in pairs :: IsPairOf(p, m))
    && (forall c | c in candidates && Contains(value, Token(c)) :: c in m && (Token(c), m[c]) in pairs)
  }

  lemma CollectedGrows(pairs: seq<(string, string)>, value: string, candidates: seq<string>, s: Search, u: Search)
    requires Collected(pairs, value, candidates, s.resolved) && Extends(s, u)
    ensures Collected(pairs, value, candidates, u.resolved)
  {
    forall p | p in pairs ensures IsPairOf(p, u.resolved) {
      assert IsPairOf(p, s.resolved);
    }
  }

  lemma CollectedMore(pairs: seq<(string, string)>, value: string, keys: seq<string>, i: nat, m: map<string, string>)
    requires i < |keys| && Collected(pairs, value, keys[..i], m)
    requires Contains(value, Token(keys[i])) ==> keys[i] in m
    ensures Contains(value, Token(keys[i])) ==> Collected(pairs + [(Token(keys[i]), m[keys[i]])], value, keys[..i + 1], m)
    ensures !Contains(value, Token(keys[i])) ==> Collected(pairs, value, keys[..i + 1], m)
  {
    assert keys[..i + 1] == keys[..i] + [keys[i]];
    if Contains(value, Token(keys[i])) {
      assert IsPairOf((Token(keys[i]), m[keys[i]]), m);
    }
  }

  /** A candidate that value refers to has been resolved, in the step from s to u. */
  lemma CollectedOne(pairs: seq<(string, string)>, value: string, keys: seq<string>, i: nat, start: Search, s: Search, u: Search)
    requires i < |keys| && Extends(start, s) && Extends(s, u) && Collected(pairs, value, keys[..i], s.resolved)
    requires keys[i] in u.resolved
    ensures Extends(start, u)
    ensures Contains(value, Token(keys[i])) ==>
              Collected(pairs + [(Token(keys[i]), u.resolved[keys[i]])], value, keys[..i + 1], u.resolved)
  {
    ExtendsFurther(start, s, u);
    CollectedGrows(pairs, value, keys[..i], s, u);
    CollectedMore(pairs, value, keys, i, u.resolved);
  }

  lemma FewerLeft(values: map<string, string>, s: Search, u: Search)
    requires Extends(s, u)
    ensures values.Keys - u.state.Keys <= values.Keys - s.state.Keys
  {
  }

  ghost predicate AllIn(keys: seq<string>, m: map<string, string>) { forall k | k in keys :: k in m }

  lemma AllInGrows(keys: seq<string>, i: nat, s: Search, u: Search)
    requires i < |keys| && AllIn(keys[..i], s.resolved) && Extends(s, u) && keys[i] in u.resolved
    ensures AllIn(keys[..i + 1], u.resolved)
  {
    assert keys[..i + 1] == keys[..i] + [keys[i]];
  }

  /** Once the references of the entered key are collected, its value can be filled in and the key finished. */
  lemma CollectedIsReady(values: map<string, string>, keys: seq<string>, s: Search, u: Search, key: string,
      pairs: seq<(string, string)>)
    requires (forall k :: k in keys <==> k in values) && key in values && key !in s.state
    requires Sound(values, s) && Sound(values, u) && Extends(Enter(s, key), u)
    requires Collected(pairs, values[key], keys, u.resolved)
    ensures Covers(pairs, values[key], u.resolved) && |u.stack| > 0
    ensures Sound(values, Finish(u, key, Expand(values[key], u.resolved)))
    ensures Extends(s, Finish(u, key, Expand(values[key], u.resolved)))
  {
    assert u.stack == s.stack + [key];
    assert u.stack[..|u.stack| - 1] == s.stack;
    FinishKeepsSound(values, u, key);
    FinishingExtends(s, u, key, Expand(values[key], u.resolved));
  }

  method Fill(text: string, replacements: seq<(string, string)>, ghost m: map<string, string>) returns (value: string)
    requires ValidNames(m) && Covers(replacements, text, m)
    ensures value == Expand(text, m)
  {
    value := text;
    ReplacerMeansExpand(text, replacements, m);
    NothingToReplace(text);
    if |replacements| > 0 {
      value := Replace(text, replacements);
    }
  }

  class Resolver {
    const values: map<string, string>
    const keys: seq<string>
    var resolved: map<string, string>
    var state: map<string, nat>
    var stack: seq<string>
    ghost var order: seq<string>

    constructor (values: map<string, string>, keys: seq<string>)
      requires ValidNames(values) && forall k :: k in keys <==> k in values
      ensures this.values == values && this.keys == keys
      ensures Valid() && Now() == Search(map[], map[], [], [])
    {
      this.values, this.keys := values, keys;
      resolved, state, stack, order := map[], map[], [], [];
    }

    ghost function Now(): Search
      reads this
    {
      Search(resolved, state, stack, order)
    }

    ghost predicate Valid()
      reads this
    {
      (forall k :: k in keys <==> k in values) && Sound(values, Now())
    }

    /** The case of a key that is already on the stack. */
    method ReportCycle(key: string) returns (path: seq<string>)
      requires stack != [] && Walk(values, stack) && key in stack && Refers(values, stack[|stack| - 1], key)
      ensures Cycle(values, path)
    {
      var cycleStart := 0;
      while cycleStart < |stack| && stack[cycleStart] != key
        invariant 0 <= cycleStart <= |stack| && key !in stack[..cycleStart]
      {
        cycleStart := cycleStart + 1;
      }
      ClosesACycle(values, stack, cycleStart, key);
      path := stack[cycleStart..] + [key];
    }

    /** resolve(key): the key's final value, or a cycle of references that the search has closed. */
    method Resolve(key: string) returns (r: Result<string, Error>)
      requires Valid() && key in values
      requires stack != [] ==> Refers(values, stack[|stack| - 1], key)
      modifies this
      ensures r.Ok? ==> Valid() && Extends(old(Now()), Now()) && key in resolved && r.value == resolved[key]
      ensures r.Err? ==> r.error.ReferenceCycle? && Cycle(values, r.error.path)
      decreases values.Keys - state.Keys, 1
    {
      if key in state && state[key] == 2 {
        return Ok(resolved[key]);
      }
      if key in state && state[key] == 1 {
        var path := ReportCycle(key);
        return Err(ReferenceCycle(path));
      }
      r := ResolveNew(key);
    }

    /** The case of a key that the search has not met yet. */
    method ResolveNew(key: string) returns (r: Result<string, Error>)
      requires Valid() && key in values && key !in state
      requires stack != [] ==> Refers(values, stack[|stack| - 1], key)
      modifies this
      ensures r.Ok? ==> Valid() && Extends(old(Now()), Now()) && key in resolved && r.value == resolved[key]
      ensures r.Err? ==> r.error.ReferenceCycle? && Cycle(values, r.error.path)
      decreases values.Keys - state.Keys, 0
    {
      ghost var before := Now();
      EnterKeepsSound(values, before, key);
      Push(key);
      var replacements := CollectReady(key, before);
      if replacements.Err? {
        return Err(replacements.error);
      }
      var value := Fill(values[key], replacements.value, resolved);
      Leave(key, value);
      return Ok(value);
    }

    /** What the key's references give, and what finishing the key with them leads to. */
    method CollectReady(key: string, ghost before: Search) returns (r: Result<seq<(string, string)>, Error>)
      requires Valid() && key in values && Sound(values, before) && key !in before.state && Now() == Enter(before, key)
      modifies this
      ensures r.Ok? ==> ValidNames(resolved) && Covers(r.value, values[key], resolved) && |stack| > 0
      ensures r.Ok? ==> Ready(before, Finish(Now(), key, Expand(values[key], resolved)))
      ensures r.Err? ==> r.error.ReferenceCycle? && Cycle(values, r.error.path)
      decreases values.Keys - state.Keys, 5
    {
      r := CollectReplacements(key);
      if r.Ok? {
        CollectedIsReady(values, keys, before, Now(), key, r.value);
      }
    }

    ghost predicate Ready(before: Search, s: Search) {
      (forall k :: k in keys <==> k in values) && Sound(values, s) && Extends(before, s)
    }

    method Push(key: string)
      modifies this`state, this`stack
      ensures Now() == Enter(old(Now()), key)
    {
      state := state[key := 1];
      stack := stack + [key];
    }

    /** The end of resolve(key): leave the stack and store the value. */
    method Leave(key: string, value: string)
      requires |stack| > 0
      modifies this
      ensures Now() == Finish(old(Now()), key, value)
    {
      stack := stack[..|stack| - 1];
      state := state[key := 2];
      resolved := resolved[key := value];
      order := order + [key];
    }

    /** The loop that starts a search from every key. */
    method ResolveAll() returns (failed: Option<Error>)
      requires Valid() && stack == []
      modifies this
      ensures failed.None? ==> Sound(values, Now()) && AllIn(keys, resolved)
      ensures failed.Some? ==> failed.value.ReferenceCycle? && Cycle(values, failed.value.path)
    {
      var i := 0;
      while i < |keys|
        invariant 0 <= i <= |keys|
        invariant Valid() && stack == []
        invariant AllIn(keys[..i], resolved)
      {
        ghost var before := Now();
        var value := Resolve(keys[i]);
        if value.Err? {
          return Some(value.error);
        }
        AllInGrows(keys, i, before, Now());
        i := i + 1;
      }
      assert keys[..i] == keys;
      return None;
    }

    /** The loop of resolve(key), started in `start`, has looked at the first i candidates. */
    ghost predicate Collecting(start: Search, key: string, i: nat, replacements: seq<(string, string)>)
      reads this
    {
      && key in values && i <= |keys| && Valid() && Extends(start, Now())
      && stack != [] && stack[|stack| - 1] == key
      && Collected(replacements, values[key], keys[..i], resolved)
    }

    /** The value refers to this candidate, so it is resolved first. */
    method CollectReference(key: string, i: nat, replacements: seq<(string, string)>, ghost start: Search)
      returns (r: Result<seq<(string, string)>, Error>)
      requires Collecting(start, key, i, replacements) && i < |keys| && Refers(values, key, keys[i])
      modifies this
      ensures r.Ok? ==> Collecting(start, key, i + 1, r.value)
      ensures r.Err? ==> r.error.ReferenceCycle? && Cycle(values, r.error.path)
      decreases values.Keys - state.Keys, 2
    {
      ghost var before := Now();
      var replacement := Resolve(keys[i]);
      if replacement.Err? {
        return Err(replacement.error);
      }
      CollectedOne(replacements, values[key], keys, i, start, before, Now());
      return Ok(replacements + [(Token(keys[i]), replacement.value)]);
    }

    /** One turn of the loop of resolve(key): a candidate that the value refers to gives a token and a final value. */
    method CollectOne(key: string, i: nat, replacements: seq<(string, string)>, ghost start: Search)
      returns (r: Result<seq<(string, string)>, Error>)
      requires Collecting(start, key, i, replacements) && i < |keys|
      modifies this
      ensures r.Ok? ==> Collecting(start, key, i + 1, r.value)
      ensures r.Err? ==> r.error.ReferenceCycle? && Cycle(values, r.error.path)
      decreases values.Keys - state.Keys, 3
    {
      if Contains(values[key], Token(keys[i])) {
        r := CollectReference(key, i, replacements, start);
      } else {
        CollectedMore(replacements, values[key], keys, i, resolved);
        r := Ok(replacements);
      }
    }

    /** The loop of resolve(key). */
    method CollectReplacements(key: string) returns (r: Result<seq<(string, string)>, Error>)
      requires Valid() && key in values && stack != [] && stack[|stack| - 1] == key
      modifies this
      ensures r.Ok? ==> Valid() && Extends(old(Now()), Now()) && Collected(r.value, values[key], keys, resolved)
      ensures r.Err? ==> r.error.ReferenceCycle? && Cycle(values, r.error.path)
      decreases values.Keys - state.Keys, 4
    {
      var replacements: seq<(string, string)> := [];
      var i := 0;
      while i < |keys|
        invariant 0 <= i <= |keys| && Collecting(old(Now()), key, i, replacements)
      {
        FewerLeft(values, old(Now()), Now());
        var more := CollectOne(key, i, replacements, old(Now()));
        if more.Err? {
          return Err(more.error);
        }
        replacements := more.value;
        i := i + 1;
      }
      assert keys[..i] == keys;
      return Ok(replacements);
    }
  }

  /**
   * resolveTemplateValues. The keys are the map's keys in any order: a reference cycle is reported exactly when
   * there is one, and otherwise the result is the one map in which every value has its references filled in.
   */
  method ResolveTemplateValues(values: map<string, string>, keys: seq<string>) returns (r: Result<map<string, string>, Error>)
    requires forall k :: k in keys <==> k in values
    ensures (r.Err? && !r.error.ReferenceCycle?) ==> exists i | 0 <= i < |keys| :: FirstBad(keys, i) && r.error.key == keys[i]
    ensures (r.Err? && !r.error.ReferenceCycle?) ==> (r.error.InvalidKey? <==> !ValidName(r.error.key))
    ensures (r.Err? && !r.error.ReferenceCycle?) <==> exists k | k in values :: !Free(k)
    ensures (r.Err? && r.error.ReferenceCycle?) ==> Cycle(values, r.error.path)
    ensures r.Ok? ==> forall p :: !Cycle(values, p)
    ensures r.Ok? ==> Solves(values, r.value) && forall m | Solves(values, m) :: m == r.value
    ensures r.Ok? ==> (AllBraceFree(r.value) <==> AllBracesInTokens(values))
  {
    var bad := CheckKeys(keys);
    if bad.Some? {
      return Err(bad.value);
    }
    var resolver := new Resolver(values, keys);
    var failed := resolver.ResolveAll();
    if failed.Some? {
      return Err(failed.value);
    }
    ResolvedAllIsSolved(values, keys, resolver.Now());
    return Ok(resolver.resolved);
  }

  /** A name of ASCII letters, digits and _ that starts with no digit and that none of the file and job values has. */
  predicate Free(k: string) {
    && k != "" && !('0' <= k[0] <= '9')
    && (forall i | 0 <= i < |k| :: 'A' <= k[i] <= 'Z' || k[i] == '_' || 'a' <= k[i] <= 'z' || '0' <= k[i] <= '9')
    && k != "file" && k != "dir" && k != "basename" && k != "stem" && k != "ext" && k != "job_id"
  }

  ghost predicate FirstBad(keys: seq<string>, i: nat)
    requires i < |keys|
  {
    !Free(keys[i]) && forall j | 0 <= j < i :: Free(keys[j])
  }

  /** The loop over the keys that rejects invalid and reserved ones. */
  method CheckKeys(keys: seq<string>) returns (bad: Option<Error>)
    ensures bad.None? ==> forall k | k in keys :: Free(k)
    ensures bad.Some? ==> !bad.value.ReferenceCycle? && exists i | 0 <= i < |keys| :: FirstBad(keys, i) && bad.value.key == keys[i]
    ensures bad.Some? ==> (bad.value.InvalidKey? <==> !ValidName(bad.value.key))
  {
    var i := 0;
    while i < |keys|
      invariant 0 <= i <= |keys|
      invariant forall j | 0 <= j < i :: Free(keys[j])
    {
      assert Free(keys[i]) <==> ValidName(keys[i]) && keys[i] !in RESERVED;
      assert !Free(keys[i]) ==> FirstBad(keys, i);
      if !ValidName(keys[i]) {
        return Some(InvalidKey(keys[i]));
      }
      if keys[i] in RESERVED {
        return Some(ReservedKey(keys[i]));
      }
      i := i + 1;
    }
    return None;
  }

  ghost predicate AllBracesInTokens(values: map<string, string>) {
    forall k | k in values :: BracesInTokens(values[k], values)
  }

  ghost predicate AllBraceFree(m: map<string, string>) { forall k | k in m :: BraceFree(m[k]) }

  lemma SameTokens(s: string, values: map<string, string>, m: map<string, string>)
    requires values.Keys == m.Keys
    ensures BracesInTokens(s, values) <==> BracesInTokens(s, m)
  {
    forall p | 0 <= p < |s| ensures InToken(s, p, values) <==> InToken(s, p, m) {
    }
  }

  lemma {:induction false} BraceFreeInOrder(values: map<string, string>, order: seq<string>, n: nat, m: map<string, string>)
    requires Topological(values, order) && n <= |order| && ValidNames(values) && Solves(values, m) && AllBracesInTokens(values)
    ensures forall i | 0 <= i < n :: BraceFree(m[order[i]])
  {
    if n > 0 {
      BraceFreeInOrder(values, order, n - 1, m);
      var k := order[n - 1];
      forall c | c in m && Contains(values[k], Token(c)) ensures BraceFree(m[c]) {
        assert Refers(values, k, c);
        assert c in order[..n - 1];
      }
      FilledBraceFree(values[k], values, m);
    }
  }

  /** A value whose "{" all lie inside tokens, filled in with texts without "{". */
  lemma FilledBraceFree(text: string, values: map<string, string>, m: map<string, string>)
    requires values.Keys == m.Keys && ValidNames(m) && BracesInTokens(text, values)
    requires forall c | c in m && Contains(text, Token(c)) :: BraceFree(m[c])
    ensures BraceFree(Expand(text, m))
  {
    SameTokens(text, values, m);
    ExpandBraceFree(text, m);
  }

  /** The solution is free of "{" exactly if every "{" of every value lies inside a token of a key. */
  lemma SolutionIsBraceFreeIff(values: map<string, string>, order: seq<string>, m: map<string, string>)
    requires Topological(values, order) && ValidNames(values) && (forall k | k in values :: k in order) && Solves(values, m)
    ensures AllBraceFree(m) <==> AllBracesInTokens(values)
  {
    if AllBracesInTokens(values) {
      BraceFreeInOrder(values, order, |order|, m);
      assert forall k | k in values :: exists i | 0 <= i < |order| :: order[i] == k;
    }
    if AllBraceFree(m) {
      forall k | k in values ensures BracesInTokens(values[k], values) {
        ExpandBraceFree(values[k], m);
        SameTokens(values[k], values, m);
      }
    }
  }

  lemma ResolvedAllIsSolved(values: map<string, string>, keys: seq<string>, s: Search)
    requires (forall k :: k in keys <==> k in values) && Sound(values, s)
    requires AllIn(keys, s.resolved)
    ensures forall p :: !Cycle(values, p)
    ensures Solves(values, s.resolved) && forall m | Solves(values, m) :: m == s.resolved
    ensures AllBraceFree(s.resolved) <==> AllBracesInTokens(values)
  {
    forall p ensures !Cycle(values, p) {
      OrderedMeansAcyclic(values, s.order, p);
    }
    assert Solves(values, s.resolved);
    SolutionIsBraceFreeIff(values, s.order, s.resolved);
    forall m | Solves(values, m) ensures m == s.resolved {
      SolutionIsUnique(values, s.order, m, s.resolved);
    }
  }

  lemma {:induction false} ExpandShort(s: string, m: map<string, string>)
    requires |s| < 5 && ValidNames(m)
    ensures Expand(s, m) == s
  {
    if s != "" {
      ExpandShort(s[1..], m);
    }
  }

  lemma SpellsToken(text: string, m: map<string, string>)
    requires ValidNames(m) && "a" in m && m["a"] == "{{" && text == Token("a") + "c}}"
    ensures Expand(text, m) == Token("c")
  {
    ExpandFirstToken(text, "", "a", "c}}", m);
    ExpandShort("c}}", m);
  }

  /** These values have exactly one solution, and in it the value of "b" spells the token of "c". */
  lemma ExampleSolves(values: map<string, string>, m: map<string, string>)
    requires values.Keys == m.Keys == {"a", "b", "c"}
    requires values["a"] == "{{" && values["b"] == Token("a") + "c}}" && values["c"] == "x"
    ensures Solves(values, m) <==> m["a"] == "{{" && m["b"] == Token("c") && m["c"] == "x"
  {
    ExpandShort(values["a"], m);
    ExpandShort(values["c"], m);
    if m["a"] == "{{" {
      SpellsToken(values["b"], m);
    }
  }

  /** A resolved value can still spell a token, "{{" followed by "c}}"; such text is never read again. */
  lemma ResultMaySpellAToken()
    ensures var values := map["a" := "{{", "b" := "{{a}}c}}", "c" := "x"];
            && Solves(values, map["a" := "{{", "b" := "{{c}}", "c" := "x"])
            && forall m | Solves(values, m) :: m["b"] == Token("c")
  {
    var values := map["a" := "{{", "b" := "{{a}}c}}", "c" := "x"];
    assert Token("a") + "c}}" == "{{a}}c}}" && Token("c") == "{{c}}";
    ExampleSolves(values, map["a" := "{{", "b" := "{{c}}", "c" := "x"]);
    forall m | Solves(values, m) ensures m["b"] == Token("c") {
      ExampleSolves(values, m);
    }
  }
}
