/** The slug step of `cafef_company_url` (finb/utils/common.py:12-14):
    `"-".join(name.strip().lower().split())`, applied to the ASCII text that
    `unidecode` produced from the company name. */
module Slug {

  /** Python's `str.isspace` on the ASCII range: space, tab, line feed, vertical tab,
      form feed, carriage return, and the four separators 0x1C..0x1F. */
  predicate IsSpace(c: char) {
    c == ' ' || (9 <= c as int <= 13) || (28 <= c as int <= 31)
  }

  predicate AllSpace(s: string) {
    forall i :: 0 <= i < |s| ==> IsSpace(s[i])
  }

  predicate NoSpace(s: string) {
    forall i :: 0 <= i < |s| ==> !IsSpace(s[i])
  }

  predicate IsUpper(c: char) {
    'A' <= c <= 'Z'
  }

  function LowerChar(c: char): char {
    if IsUpper(c) then (c as int + 32) as char else c
  }

  /** `str.lower` on ASCII text. */
  function Lower(s: string): (r: string)
    ensures |r| == |s|
    ensures forall i :: 0 <= i < |s| ==> r[i] == LowerChar(s[i])
  {
    seq(|s|, i requires 0 <= i < |s| => LowerChar(s[i]))
  }

  function StripLeft(s: string): string
    decreases |s|
  {
    if s != [] && IsSpace(s[0]) then StripLeft(s[1..]) else s
  }

  function StripRight(s: string): string
    decreases |s|
  {
    if s != [] && IsSpace(s[|s| - 1]) then StripRight(s[..|s| - 1]) else s
  }

  /** `str.strip()`. */
  function Strip(s: string): string {
    StripRight(StripLeft(s))
  }

  /** Length of the run of non-space characters at the front of `s`. */
  function WordLength(s: string): (n: nat)
    ensures n <= |s|
    decreases |s|
  {
    if s == [] || IsSpace(s[0]) then 0 else 1 + WordLength(s[1..])
  }

  /** `str.split()` with no separator: the maximal runs of non-space characters. */
  function Words(s: string): seq<string>
    decreases |s|
  {
    if s == [] then []
    else if IsSpace(s[0]) then Words(s[1..])
    else
      var n := WordLength(s);
      [s[..n]] + Words(s[n..])
  }

  /** `sep.join(words)`. */
  function Join(sep: string, words: seq<string>): string
    decreases |words|
  {
    if words == [] then ""
    else if |words| == 1 then words[0]
    else words[0] + sep + Join(sep, words[1..])
  }

  /** The slug of a name. */
  function MakeSlug(name: string): string {
    Join("-", Words(Lower(Strip(name))))
  }

  function LowerAll(words: seq<string>): (r: seq<string>)
    ensures |r| == |words|
    ensures forall i :: 0 <= i < |words| ==> r[i] == Lower(words[i])
  {
    seq(|words|, i requires 0 <= i < |words| => Lower(words[i]))
  }

  // ---------------------------------------------------------------- lemmas about words

  lemma {:induction false} WordLengthFacts(s: string)
    ensures NoSpace(s[..WordLength(s)])
    ensures WordLength(s) < |s| ==> IsSpace(s[WordLength(s)])
    ensures s != [] && !IsSpace(s[0]) ==> WordLength(s) >= 1
    decreases |s|
  {
    if s != [] && !IsSpace(s[0]) {
      WordLengthFacts(s[1..]);
      assert s[..WordLength(s)] == [s[0]] + s[1..][..WordLength(s[1..])];
    }
  }

  /** A word never runs past a space: the word at the front of `a + rest` is the one of `a`
      when `a` contains a space, or `a` whole when `rest` starts with one. */
  lemma {:induction false} WordLengthOfPrefix(a: string, rest: string)
    requires rest != [] && IsSpace(rest[0])
    ensures WordLength(a + rest) == WordLength(a)
    decreases |a|
  {
    if a == [] {
      assert a + rest == rest;
    } else if !IsSpace(a[0]) {
      assert (a + rest)[1..] == a[1..] + rest;
      WordLengthOfPrefix(a[1..], rest);
    }
  }

  /** The words of a string cut at a space character are the words of the two pieces. */
  lemma {:induction false} WordsSplitAtSpace(a: string, c: char, b: string)
    requires IsSpace(c)
    ensures Words(a + [c] + b) == Words(a) + Words(b)
    decreases |a|
  {
    var s := a + [c] + b;
    if a == [] {
      assert s == [c] + b;
      assert s[1..] == b;
    } else if IsSpace(a[0]) {
      assert s[1..] == a[1..] + [c] + b;
      WordsSplitAtSpace(a[1..], c, b);
    } else {
      WordLengthOfPrefix(a, [c] + b);
      assert s == a + ([c] + b);
      var n := WordLength(a);
      WordLengthFacts(a);
      assert s[..n] == a[..n];
      assert s[n..] == a[n..] + [c] + b;
      WordsSplitAtSpace(a[n..], c, b);
    }
  }

  lemma {:induction false} WordsOfAllSpace(s: string)
    requires AllSpace(s)
    ensures Words(s) == []
    decreases |s|
  {
    if s != [] {
      WordsOfAllSpace(s[1..]);
    }
  }

  /** Words are never empty and never contain a space. */
  lemma {:induction false} WordsAreNonEmptyWithoutSpace(s: string)
    ensures forall i :: 0 <= i < |Words(s)| ==> Words(s)[i] != [] && NoSpace(Words(s)[i])
    decreases |s|
  {
    if s != [] {
      if IsSpace(s[0]) {
        WordsAreNonEmptyWithoutSpace(s[1..]);
      } else {
        WordLengthFacts(s);
        WordsAreNonEmptyWithoutSpace(s[WordLength(s)..]);
      }
    }
  }

  /** A string has no words exactly when it is all space. */
  lemma {:induction false} WordsEmptyIffAllSpace(s: string)
    ensures Words(s) == [] <==> AllSpace(s)
    decreases |s|
  {
    if s != [] {
      if IsSpace(s[0]) {
        WordsEmptyIffAllSpace(s[1..]);
        if AllSpace(s[1..]) {
          assert forall i :: 1 <= i < |s| ==> s[i] == s[1..][i - 1];
        }
      }
    }
  }

  /** A non-empty string without space is one word. */
  lemma {:induction false} WordsOfOneWord(s: string)
    requires s != [] && NoSpace(s)
    ensures Words(s) == [s]
  {
    WordLengthAll(s);
    assert s[..|s|] == s;
    assert s[|s|..] == [];
  }

  lemma {:induction false} WordLengthAll(s: string)
    requires NoSpace(s)
    ensures WordLength(s) == |s|
    decreases |s|
  {
    if s != [] {
      WordLengthAll(s[1..]);
    }
  }

  lemma {:induction false} WordsAfterSpace(w: string, s: string)
    requires AllSpace(w)
    ensures Words(w + s) == Words(s)
    decreases |w|
  {
    if w == [] {
      assert w + s == s;
    } else {
      assert (w + s)[0] == w[0];
      assert (w + s)[1..] == w[1..] + s;
      WordsAfterSpace(w[1..], s);
    }
  }

  lemma {:induction false} WordsBeforeSpace(s: string, w: string)
    requires AllSpace(w)
    ensures Words(s + w) == Words(s)
  {
    if w == [] {
      assert s + w == s;
    } else {
      assert s + w == s + [w[0]] + w[1..];
      WordsSplitAtSpace(s, w[0], w[1..]);
      WordsOfAllSpace(w[1..]);
    }
  }

  // ---------------------------------------------------------------- strip and lower

  /** How many space characters `s` starts with. */
  function LeadingSpace(s: string): (k: nat)
    ensures k <= |s|
    decreases |s|
  {
    if s != [] && IsSpace(s[0]) then 1 + LeadingSpace(s[1..]) else 0
  }

  /** Where the run of space characters that `s` ends with begins. */
  function TrailingSpace(s: string): (k: nat)
    ensures k <= |s|
    decreases |s|
  {
    if s != [] && IsSpace(s[|s| - 1]) then TrailingSpace(s[..|s| - 1]) else |s|
  }

  /** `lstrip` drops exactly the leading run of space characters. */
  lemma {:induction false} StripLeftShape(s: string)
    ensures AllSpace(s[..LeadingSpace(s)])
    ensures StripLeft(s) == s[LeadingSpace(s)..]
    decreases |s|
  {
    if s != [] && IsSpace(s[0]) {
      StripLeftShape(s[1..]);
      var k := LeadingSpace(s[1..]);
      assert s[..k + 1] == [s[0]] + s[1..][..k];
      assert s[k + 1..] == s[1..][k..];
    } else {
      assert s[0..] == s;
    }
  }

  /** `rstrip` drops exactly the trailing run of space characters. */
  lemma {:induction false} StripRightShape(s: string)
    ensures AllSpace(s[TrailingSpace(s)..])
    ensures StripRight(s) == s[..TrailingSpace(s)]
    decreases |s|
  {
    if s != [] && IsSpace(s[|s| - 1]) {
      var s' := s[..|s| - 1];
      StripRightShape(s');
      var k := TrailingSpace(s');
      assert s[k..] == s'[k..] + [s[|s| - 1]];
      assert s[..k] == s'[..k];
    } else {
      assert s[..|s|] == s;
    }
  }

  lemma WordsOfStripLeft(s: string)
    ensures Words(StripLeft(s)) == Words(s)
  {
    StripLeftShape(s);
    var k := LeadingSpace(s);
    assert s == s[..k] + s[k..];
    WordsAfterSpace(s[..k], s[k..]);
  }

  lemma WordsOfStripRight(t: string)
    ensures Words(StripRight(t)) == Words(t)
  {
    StripRightShape(t);
    var j := TrailingSpace(t);
    assert t == t[..j] + t[j..];
    WordsBeforeSpace(t[..j], t[j..]);
  }

  /** Stripping never changes the words. */
  lemma WordsOfStrip(s: string)
    ensures Words(Strip(s)) == Words(s)
  {
    WordsOfStripLeft(s);
    WordsOfStripRight(StripLeft(s));
  }

  lemma LowerKeepsSpace(c: char)
    ensures IsSpace(LowerChar(c)) <==> IsSpace(c)
  {
  }

  lemma {:induction false} WordLengthOfLower(s: string)
    ensures WordLength(Lower(s)) == WordLength(s)
    decreases |s|
  {
    if s != [] {
      LowerKeepsSpace(s[0]);
      assert Lower(s)[1..] == Lower(s[1..]);
      WordLengthOfLower(s[1..]);
    }
  }

  /** Lowering commutes with splitting. */
  lemma {:induction false} WordsOfLower(s: string)
    ensures Words(Lower(s)) == LowerAll(Words(s))
    decreases |s|
  {
    if s != [] {
      LowerKeepsSpace(s[0]);
      if IsSpace(s[0]) {
        assert Lower(s)[1..] == Lower(s[1..]);
        WordsOfLower(s[1..]);
      } else {
        WordLengthOfLower(s);
        var n := WordLength(s);
        assert Lower(s)[..n] == Lower(s[..n]);
        assert Lower(s)[n..] == Lower(s[n..]);
        WordLengthFacts(s);
        WordsOfLower(s[n..]);
        assert LowerAll([s[..n]] + Words(s[n..])) == [Lower(s[..n])] + LowerAll(Words(s[n..]));
      }
    }
  }

  /** The slug is the lower-cased words of the name joined by single hyphens. */
  lemma SlugIsJoinedLowerWords(name: string)
    ensures MakeSlug(name) == Join("-", LowerAll(Words(name)))
  {
    WordsOfLower(Strip(name));
    WordsOfStrip(name);
  }

  // ---------------------------------------------------------------- lemmas about join

  lemma {:induction false} JoinAppend(sep: string, a: seq<string>, b: seq<string>)
    requires a != [] && b != []
    ensures Join(sep, a + b) == Join(sep, a) + sep + Join(sep, b)
    decreases |a|
  {
    if |a| == 1 {
      assert (a + b)[1..] == b;
    } else {
      assert (a + b)[1..] == a[1..] + b;
      JoinAppend(sep, a[1..], b);
    }
  }

  lemma {:induction false} JoinHasNoSpace(words: seq<string>)
    requires forall i :: 0 <= i < |words| ==> NoSpace(words[i])
    ensures NoSpace(Join("-", words))
    decreases |words|
  {
    if |words| > 1 {
      JoinHasNoSpace(words[1..]);
    }
  }

  lemma {:induction false} JoinHasNoUpper(words: seq<string>)
    requires forall i, j :: 0 <= i < |words| && 0 <= j < |words[i]| ==> !IsUpper(words[i][j])
    ensures forall j :: 0 <= j < |Join("-", words)| ==> !IsUpper(Join("-", words)[j])
    decreases |words|
  {
    if |words| > 1 {
      JoinHasNoUpper(words[1..]);
      var r := Join("-", words);
      assert r == words[0] + "-" + Join("-", words[1..]);
      forall j | 0 <= j < |r| ensures !IsUpper(r[j]) {
        if j < |words[0]| {
          assert r[j] == words[0][j];
        } else if j > |words[0]| {
          assert r[j] == Join("-", words[1..])[j - |words[0]| - 1];
        }
      }
    }
  }

  lemma {:induction false} JoinNonEmpty(words: seq<string>)
    requires words != [] && words[0] != []
    ensures Join("-", words) != []
  {
  }

  // ---------------------------------------------------------------- properties of the slug

  /** The slug holds no whitespace and no upper-case letter. */
  lemma SlugHasNoSpaceNoUpper(name: string)
    ensures NoSpace(MakeSlug(name))
    ensures forall j :: 0 <= j < |MakeSlug(name)| ==> !IsUpper(MakeSlug(name)[j])
  {
    var s := Lower(Strip(name));
    WordsAreNonEmptyWithoutSpace(s);
    JoinHasNoSpace(Words(s));
    forall i, j | 0 <= i < |Words(s)| && 0 <= j < |Words(s)[i]| ensures !IsUpper(Words(s)[i][j]) {
      WordsOfLower(Strip(name));
      assert Words(s)[i] == Lower(Words(Strip(name))[i]);
    }
    JoinHasNoUpper(Words(s));
  }

  /** An empty or all-whitespace name, and only such a name, has the empty slug. */
  lemma SlugEmptyIffBlank(name: string)
    ensures MakeSlug(name) == "" <==> AllSpace(name)
  {
    SlugIsJoinedLowerWords(name);
    WordsEmptyIffAllSpace(name);
    var ws := LowerAll(Words(name));
    if ws != [] {
      WordsAreNonEmptyWithoutSpace(name);
      assert |ws[0]| == |Words(name)[0]|;
      JoinNonEmpty(ws);
    }
  }

  /** Whitespace around the name contributes no hyphen. */
  lemma SlugIgnoresOuterSpace(w1: string, name: string, w2: string)
    requires AllSpace(w1) && AllSpace(w2)
    ensures MakeSlug(w1 + name + w2) == MakeSlug(name)
  {
    SlugIsJoinedLowerWords(w1 + name + w2);
    SlugIsJoinedLowerWords(name);
    assert w1 + name + w2 == w1 + (name + w2);
    WordsAfterSpace(w1, name + w2);
    WordsBeforeSpace(name, w2);
  }

  /** A run of whitespace between two parts that hold a word becomes exactly one hyphen. */
  lemma SlugJoinsAcrossSpace(a: string, w: string, b: string)
    requires w != [] && AllSpace(w)
    requires !AllSpace(a) && !AllSpace(b)
    ensures MakeSlug(a + w + b) == MakeSlug(a) + "-" + MakeSlug(b)
  {
    SlugIsJoinedLowerWords(a + w + b);
    SlugIsJoinedLowerWords(a);
    SlugIsJoinedLowerWords(b);
    WordsAcrossSpace(a, w, b);
    WordsEmptyIffAllSpace(a);
    WordsEmptyIffAllSpace(b);
    LowerAllAppend(Words(a), Words(b));
    JoinAppend("-", LowerAll(Words(a)), LowerAll(Words(b)));
  }

  lemma LowerAllAppend(u: seq<string>, v: seq<string>)
    ensures LowerAll(u + v) == LowerAll(u) + LowerAll(v)
  {
    var l, r := LowerAll(u + v), LowerAll(u) + LowerAll(v);
    forall i | 0 <= i < |l|
      ensures l[i] == r[i]
    {
      if i < |u| {
        assert (u + v)[i] == u[i];
      } else {
        assert (u + v)[i] == v[i - |u|];
      }
    }
  }

  lemma WordsAcrossSpace(a: string, w: string, b: string)
    requires w != [] && AllSpace(w)
    ensures Words(a + w + b) == Words(a) + Words(b)
  {
    assert a + w + b == a + [w[0]] + (w[1..] + b);
    WordsSplitAtSpace(a, w[0], w[1..] + b);
    WordsAfterSpace(w[1..], b);
  }

  /** A slug is its own slug. */
  lemma SlugIdempotent(name: string)
    ensures MakeSlug(MakeSlug(name)) == MakeSlug(name)
  {
    var s := MakeSlug(name);
    SlugHasNoSpaceNoUpper(name);
    SlugIsJoinedLowerWords(s);
    if s == [] {
      assert Words(s) == [];
    } else {
      WordsOfOneWord(s);
      assert Lower(s) == s;
    }
  }
}
