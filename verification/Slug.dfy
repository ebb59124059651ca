/** Slugs from category names: the chain of string replacements, and what it amounts to. */
module Slug {

  // ---- Character classes of JavaScript's regular expressions ----

  predicate AlphaNum(c: char) {
    'a' <= c <= 'z' || '0' <= c <= '9'
  }

  predicate Upper(c: char) {
    'A' <= c <= 'Z'
  }

  /** `\s`, which is also what `trim` removes. */
  predicate Space(c: char) {
    || '\t' <= c <= '\r' || c == ' ' || c == '\U{A0}' || c == '\U{1680}' || '\U{2000}' <= c <= '\U{200A}'
    || c == '\U{2028}' || c == '\U{2029}' || c == '\U{202F}' || c == '\U{205F}' || c == '\U{3000}' || c == '\U{FEFF}'
  }

  /** `[\s_-]` */
  predicate Separator(c: char) {
    Space(c) || c == '_' || c == '-'
  }

  /** `[\w\s-]` */
  predicate Kept(c: char) {
    AlphaNum(c) || Upper(c) || Separator(c)
  }

  // ---- The steps ----

  function TrimLeft(s: string): string {
    if s != "" && Space(s[0]) then TrimLeft(s[1..]) else s
  }

  function TrimRight(s: string): string {
    if s != "" && Space(s[|s| - 1]) then TrimRight(s[..|s| - 1]) else s
  }

  function Keep(s: string): string {
    if s == "" then ""
    else if Kept(s[0]) then [s[0]] + Keep(s[1..])
    else Keep(s[1..])
  }

  function SkipSeparators(s: string): (rest: string)
    ensures |rest| <= |s|
    ensures rest != "" ==> !Separator(rest[0])
  {
    if s != "" && Separator(s[0]) then SkipSeparators(s[1..]) else s
  }

  /** Each run of separators becomes one hyphen. */
  function Collapse(s: string): string
    decreases |s|
  {
    if s == "" then ""
    else if Separator(s[0]) then "-" + Collapse(SkipSeparators(s[1..]))
    else [s[0]] + Collapse(s[1..])
  }

  function StripLeft(s: string): string {
    if s != "" && s[0] == '-' then StripLeft(s[1..]) else s
  }

  function StripRight(s: string): string {
    if s != "" && s[|s| - 1] == '-' then StripRight(s[..|s| - 1]) else s
  }

  function GenerateSlug(lower: string -> string, name: string): string {
    StripRight(StripLeft(Collapse(Keep(TrimRight(TrimLeft(lower(name)))))))
  }

  /** What the slug relies on in `toLowerCase`: no ASCII capital is left, and slugs stay as they are. */
  ghost predicate LowerCases(lower: string -> string) {
    && (forall s :: forall c :: c in lower(s) ==> !Upper(c))
    && (forall s :: (forall c :: c in s ==> AlphaNum(c) || c == '-') ==> lower(s) == s)
  }

  // ---- The words of a string ----

  function WordLength(s: string): (n: nat)
    ensures n <= |s| && forall i :: 0 <= i < n ==> !Separator(s[i])
    ensures n < |s| ==> Separator(s[n])
  {
    if s == "" || Separator(s[0]) then 0 else 1 + WordLength(s[1..])
  }

  /** The maximal stretches without separators. */
  function Words(s: string): seq<string>
    decreases |s|
  {
    if s == "" then []
    else if Separator(s[0]) then Words(s[1..])
    else [s[..WordLength(s)]] + Words(s[WordLength(s)..])
  }

  function Join(words: seq<string>): string {
    if words == [] then ""
    else if |words| == 1 then words[0]
    else words[0] + "-" + Join(words[1..])
  }

  predicate Solid(s: string) {
    s != "" && forall c :: c in s ==> !Separator(c)
  }

  predicate IsWord(s: string) {
    s != "" && forall c :: c in s ==> AlphaNum(c)
  }

  predicate AllWords(words: seq<string>) {
    forall w :: w in words ==> IsWord(w)
  }

  /** `^[a-z0-9]+(-[a-z0-9]+)*$` */
  ghost predicate IsSlug(s: string) {
    exists words :: words != [] && AllWords(words) && s == Join(words)
  }

  // ---- The replacements join the words ----

  lemma {:induction false} CollapseAfterWord(s: string, n: nat)
    requires n <= |s| && forall i :: 0 <= i < n ==> !Separator(s[i])
    ensures Collapse(s) == s[..n] + Collapse(s[n..])
  {
    if n == 0 {
      assert s[0..] == s;
    } else {
      CollapseAfterWord(s[1..], n - 1);
      assert s[1..][n - 1..] == s[n..];
      assert [s[0]] + s[1..][..n - 1] == s[..n];
    }
  }

  lemma {:induction false} WordsSkipSeparators(s: string)
    ensures Words(s) == Words(SkipSeparators(s))
  {
    if s != "" && Separator(s[0]) {
      WordsSkipSeparators(s[1..]);
    }
  }

  lemma JoinCons(word: string, words: seq<string>)
    requires words != []
    ensures Join([word] + words) == word + ("-" + Join(words))
  {
    assert ([word] + words)[1..] == words;
    assert word + "-" + Join(words) == word + ("-" + Join(words));
  }

  lemma WithTail(word: string, joined: string, collapsed: string)
    requires collapsed == joined || collapsed == joined + "-"
    ensures word + ("-" + collapsed) == word + ("-" + joined) || word + ("-" + collapsed) == word + ("-" + joined) + "-"
  {
    assert word + ("-" + (joined + "-")) == word + ("-" + joined) + "-";
  }

  /** From a non-separator on, collapsing gives the joined words and perhaps one trailing hyphen. */
  lemma {:induction false} CollapseJoinsWords(s: string)
    requires s != "" && !Separator(s[0])
    ensures Words(s) != []
    ensures Collapse(s) == Join(Words(s)) || Collapse(s) == Join(Words(s)) + "-"
    decreases |s|
  {
    var n := WordLength(s);
    CollapseAfterWord(s, n);
    var word, rest := s[..n], s[n..];
    assert Words(s) == [word] + Words(rest);
    if rest == "" {
      assert Words(s) == [word];
    } else {
      var next := SkipSeparators(rest[1..]);
      WordsSkipSeparators(rest[1..]);
      assert Collapse(s) == word + ("-" + Collapse(next));
      if next == "" {
        assert Words(s) == [word];
      } else {
        CollapseJoinsWords(next);
        JoinCons(word, Words(next));
        WithTail(word, Join(Words(next)), Collapse(next));
      }
    }
  }

  lemma {:induction false} JoinEnds(words: seq<string>)
    requires words != [] && forall w :: w in words ==> Solid(w)
    ensures Join(words) != "" && !Separator(Join(words)[0]) && !Separator(Join(words)[|Join(words)| - 1])
  {
    var word := words[0];
    assert word in words;
    assert word[0] in word && word[|word| - 1] in word;
    if |words| > 1 {
      JoinEnds(words[1..]);
    }
  }

  lemma {:induction false} WordsHaveNoSeparators(s: string)
    ensures forall w :: w in Words(s) ==> Solid(w) && forall c :: c in w ==> c in s
    decreases |s|
  {
    if s != "" {
      if Separator(s[0]) {
        WordsHaveNoSeparators(s[1..]);
      } else {
        WordsHaveNoSeparators(s[WordLength(s)..]);
        forall c | c in s[..WordLength(s)]
          ensures c in s && !Separator(c)
        {
          var i :| 0 <= i < WordLength(s) && s[i] == c;
        }
      }
    }
  }

  lemma StripJoined(j: string, tail: string)
    requires j != "" && j[0] != '-' && j[|j| - 1] != '-' && (tail == "" || tail == "-")
    ensures StripRight(StripLeft(j + tail)) == j && StripRight(StripLeft("-" + (j + tail))) == j
  {
    assert ("-" + (j + tail))[1..] == j + tail;
    if tail == "" {
      assert j + tail == j;
    } else {
      assert (j + tail)[..|j + tail| - 1] == j;
    }
  }

  lemma CollapsedAndStripped(s: string)
    ensures StripRight(StripLeft(Collapse(s))) == Join(Words(s))
  {
    if s != "" {
      WordsHaveNoSeparators(s);
      var from := SkipSeparators(s);
      WordsSkipSeparators(s);
      if from != "" {
        CollapseJoinsWords(from);
        JoinEnds(Words(s));
        var j := Join(Words(s));
        var tail := if Collapse(from) == j then "" else "-";
        assert Collapse(from) == j + tail;
        StripJoined(j, tail);
      }
    }
  }

  // ---- Trimming does not change the words ----

  lemma {:induction false} WordsWithoutLastSeparator(s: string, c: char)
    requires Separator(c)
    ensures Words(s + [c]) == Words(s)
    decreases |s|
  {
    var longer := s + [c];
    if s == "" {
      assert longer[1..] == "";
    } else if Separator(s[0]) {
      assert longer[1..] == s[1..] + [c];
      WordsWithoutLastSeparator(s[1..], c);
    } else {
      var n := WordLength(s);
      WordLengthIs(longer, n);
      assert longer[..n] == s[..n] && longer[n..] == s[n..] + [c];
      WordsWithoutLastSeparator(s[n..], c);
    }
  }

  lemma {:induction false} WordLengthIs(s: string, n: nat)
    requires n <= |s| && forall i :: 0 <= i < n ==> !Separator(s[i])
    requires n < |s| ==> Separator(s[n])
    ensures WordLength(s) == n
  {
    if n > 0 {
      WordLengthIs(s[1..], n - 1);
    }
  }

  lemma {:induction false} KeepAdds(s: string, t: string)
    ensures Keep(s + t) == Keep(s) + Keep(t)
  {
    if s == "" {
      assert s + t == t;
    } else {
      var tail := s[1..];
      KeepAdds(tail, t);
      assert (s + t)[0] == s[0] && (s + t)[1..] == tail + t;
      assert [s[0]] + (Keep(tail) + Keep(t)) == ([s[0]] + Keep(tail)) + Keep(t);
    }
  }

  lemma {:induction false} TrimmedLeft(s: string)
    ensures Words(Keep(TrimLeft(s))) == Words(Keep(s))
  {
    if s != "" && Space(s[0]) {
      TrimmedLeft(s[1..]);
      assert Keep(s)[1..] == Keep(s[1..]);
    }
  }

  lemma {:induction false} TrimmedRight(s: string)
    ensures Words(Keep(TrimRight(s))) == Words(Keep(s))
    decreases |s|
  {
    if s != "" && Space(s[|s| - 1]) {
      var front, last := s[..|s| - 1], s[|s| - 1];
      TrimmedRight(front);
      assert s == front + [last];
      KeepAdds(front, [last]);
      assert Keep([last]) == [last];
      WordsWithoutLastSeparator(Keep(front), last);
    }
  }

  /** The slug is the words of the lower-cased name, other characters dropped, joined by hyphens. */
  lemma SlugJoinsWords(lower: string -> string, name: string)
    ensures GenerateSlug(lower, name) == Join(Words(Keep(lower(name))))
  {
    var s := lower(name);
    TrimmedLeft(s);
    TrimmedRight(TrimLeft(s));
    CollapsedAndStripped(Keep(TrimRight(TrimLeft(s))));
  }

  const WHITE_SPACE := {'\t', '\n', '\U{B}', '\U{C}', '\r', ' ', '\U{A0}', '\U{1680}', '\U{2000}', '\U{2001}', '\U{2002}',
                        '\U{2003}', '\U{2004}', '\U{2005}', '\U{2006}', '\U{2007}', '\U{2008}', '\U{2009}', '\U{200A}',
                        '\U{2028}', '\U{2029}', '\U{202F}', '\U{205F}', '\U{3000}', '\U{FEFF}'}

  /** A word is its only word. */
  lemma WordOf(w: string)
    requires IsWord(w)
    ensures Words(w) == [w]
  {
    forall i | 0 <= i < |w|
      ensures !Separator(w[i])
    {
      assert w[i] in w;
    }
    WordLengthIs(w, |w|);
    assert w[0] in w && w[..|w|] == w;
  }

  lemma SpaceIsListed(c: char)
    ensures Space(c) <==> c in WHITE_SPACE
  {
  }

  lemma TwoWords(u: string, c: char, v: string)
    requires IsWord(u) && IsWord(v) && Separator(c)
    ensures Words(u + [c] + v) == [u, v]
  {
    var s := u + [c] + v;
    forall i | 0 <= i < |u|
      ensures !Separator(s[i])
    {
      assert s[i] == u[i] && u[i] in u;
    }
    WordLengthIs(s, |u|);
    WordOf(v);
    assert u[0] in u && s[0] == u[0];
    assert s[..|u|] == u && s[|u|..] == [c] + v && ([c] + v)[1..] == v;
  }

  lemma KeepOfThree(u: string, c: char, v: string)
    requires IsWord(u) && IsWord(v)
    ensures Keep(u + [c] + v) == if Kept(c) then u + [c] + v else u + v
  {
    var k := Keep([c]);
    KeepOne(c);
    assert Keep(u + [c] + v) == u + k + v by {
      KeepAdds(u + [c], v);
      KeepAdds(u, [c]);
      KeepAll(u);
      KeepAll(v);
    }
    if !Kept(c) {
      assert u + k == u;
    }
  }

  lemma KeepOne(c: char)
    ensures Keep([c]) == if Kept(c) then [c] else ""
  {
    assert [c][1..] == "";
  }

  /** Where two words meet: white space, an underscore or a hyphen between them becomes a hyphen, any other
      character is dropped and they run together. */
  lemma SlugOfTwoWords(lower: string -> string, name: string, u: string, c: char, v: string)
    requires lower(name) == u + [c] + v && IsWord(u) && IsWord(v)
    requires !('a' <= c <= 'z' || 'A' <= c <= 'Z' || '0' <= c <= '9')
    ensures GenerateSlug(lower, name) == if c in WHITE_SPACE || c == '_' || c == '-' then u + "-" + v else u + v
  {
    SlugJoinsWords(lower, name);
    KeepOfThree(u, c, v);
    SpaceIsListed(c);
    if Separator(c) {
      TwoWords(u, c, v);
    } else {
      WordOf(u + v);
    }
  }

  // ---- Normal form ----

  lemma {:induction false} KeepKeeps(s: string)
    ensures forall c :: c in Keep(s) ==> c in s && Kept(c)
  {
    if s != "" {
      KeepKeeps(s[1..]);
    }
  }

  lemma {:induction false} KeepAll(s: string)
    requires forall c :: c in s ==> Kept(c)
    ensures Keep(s) == s
  {
    if s != "" {
      KeepAll(s[1..]);
    }
  }

  /** Every slug is empty or matches the pattern that requests are held to. */
  lemma SlugIsNormal(lower: string -> string, name: string)
    requires LowerCases(lower)
    ensures GenerateSlug(lower, name) == "" || IsSlug(GenerateSlug(lower, name))
  {
    SlugJoinsWords(lower, name);
    var kept := Keep(lower(name));
    KeepKeeps(lower(name));
    WordsHaveNoSeparators(kept);
    assert AllWords(Words(kept));
  }

  lemma {:induction false} JoinChars(words: seq<string>)
    requires AllWords(words)
    ensures forall c :: c in Join(words) ==> AlphaNum(c) || c == '-'
  {
    if words != [] {
      assert IsWord(words[0]);
      JoinChars(words[1..]);
    }
  }

  /** Splitting undoes joining. */
  lemma {:induction false} WordsOfJoin(words: seq<string>)
    requires AllWords(words)
    ensures Words(Join(words)) == words
  {
    if words != [] {
      var word, s := words[0], Join(words);
      assert IsWord(word);
      assert s[..|word|] == word;
      forall i | 0 <= i < |word|
        ensures !Separator(s[i])
      {
        assert s[i] == word[i] && word[i] in word;
      }
      WordLengthIs(s, |word|);
      if |words| == 1 {
        assert words == [word];
      } else {
        var tail := Join(words[1..]);
        assert s[|word|..] == "-" + tail;
        assert ("-" + tail)[1..] == tail;
        WordsOfJoin(words[1..]);
        assert words == [word] + words[1..];
      }
    }
  }

  /** A string in normal form is its own slug. */
  lemma SlugKeepsNormal(lower: string -> string, s: string)
    requires LowerCases(lower) && (s == "" || IsSlug(s))
    ensures GenerateSlug(lower, s) == s
  {
    var words: seq<string> := [];
    if s != "" {
      words :| words != [] && AllWords(words) && s == Join(words);
    }
    JoinChars(words);
    assert lower(s) == s;
    KeepAll(s);
    WordsOfJoin(words);
    SlugJoinsWords(lower, s);
  }

  lemma SlugIdempotent(lower: string -> string, name: string)
    requires LowerCases(lower)
    ensures GenerateSlug(lower, GenerateSlug(lower, name)) == GenerateSlug(lower, name)
  {
    SlugIsNormal(lower, name);
    SlugKeepsNormal(lower, GenerateSlug(lower, name));
  }
}
