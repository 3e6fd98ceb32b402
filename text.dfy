/** The two Python string operations the dataset reader relies on: str.strip()
    and str.split() with no arguments. Both treat exactly the characters for
    which str.isspace() holds as whitespace. */
module Text {

  /** Python's str.isspace() for one character. */
  predicate IsSpace(c: char) {
    ('\t' <= c <= '\r') || ('\U{1C}' <= c <= '\U{1F}') || c == ' ' ||
    c == '\U{85}' || c == '\U{A0}' || c == '\U{1680}' ||
    ('\U{2000}' <= c <= '\U{200A}') || c == '\U{2028}' || c == '\U{2029}' ||
    c == '\U{202F}' || c == '\U{205F}' || c == '\U{3000}'
  }

  predicate AllSpace(s: string) {
    forall i :: 0 <= i < |s| ==> IsSpace(s[i])
  }

  predicate NoSpace(s: string) {
    forall i :: 0 <= i < |s| ==> !IsSpace(s[i])
  }

  /** A token as str.split() yields it: non-empty and free of whitespace. */
  predicate IsWord(s: string) {
    |s| > 0 && NoSpace(s)
  }

  /** Neither begins nor ends with whitespace, as every result of str.strip(). */
  predicate IsStripped(s: string) {
    s == [] || (!IsSpace(s[0]) && !IsSpace(s[|s| - 1]))
  }

  /** str.lstrip(): drop the longest whitespace prefix (see TrimStartSuffix
      and TrimStartDropsSpace). */
  function TrimStart(s: string): (r: string)
    ensures |r| <= |s|
    ensures r == [] || !IsSpace(r[0])
  {
    if |s| > 0 && IsSpace(s[0]) then TrimStart(s[1..]) else s
  }

  /** str.rstrip(): drop the longest whitespace suffix (see TrimEndPrefix
      and TrimEndDropsSpace). */
  function TrimEnd(s: string): (r: string)
    ensures |r| <= |s|
    ensures r == [] || !IsSpace(r[|r| - 1])
  {
    if |s| > 0 && IsSpace(s[|s| - 1]) then TrimEnd(s[..|s| - 1]) else s
  }

  /** str.strip(). */
  function Strip(s: string): (r: string)
    ensures IsStripped(r) && |r| <= |s|
  {
    TrimEndPrefix(TrimStart(s));
    TrimEnd(TrimStart(s))
  }

  /** The number of characters before the first whitespace character. */
  function WordLength(s: string): (n: nat)
    ensures n <= |s| && (n == |s| || IsSpace(s[n]))
    ensures s != [] && !IsSpace(s[0]) ==> n > 0
  {
    if |s| > 0 && !IsSpace(s[0]) then 1 + WordLength(s[1..]) else 0
  }

  /** str.split(): the maximal runs of non-whitespace characters, in order. */
  function Split(s: string): seq<string>
    decreases |s|
  {
    var t := TrimStart(s);
    if t == [] then []
    else
      var n := WordLength(t);
      [t[..n]] + Split(t[n..])
  }

  /** Whitespace runs that may stand between two tokens: non-empty and
      made only of whitespace (a single space, a tab, several of them). */
  predicate Separators(seps: seq<string>) {
    forall k :: 0 <= k < |seps| ==> seps[k] != [] && AllSpace(seps[k])
  }

  /** n single spaces, the separators " ".join writes. */
  function SingleSpaces(n: nat): (seps: seq<string>)
    ensures |seps| == n && Separators(seps)
  {
    seq(n, _ => " ")
  }

  /** The words written out with separator k between word k and word k + 1:
      the inverse of Split on non-empty sequences of words. */
  function JoinWith(words: seq<string>, seps: seq<string>): string
    requires |words| == |seps| + 1
  {
    if seps == [] then words[0]
    else words[0] + seps[0] + JoinWith(words[1..], seps[1..])
  }

  // ---------------------------------------------------------------------
  // What the trimming functions drop

  /** str.lstrip() keeps a suffix of its argument. */
  lemma {:induction false} TrimStartSuffix(s: string)
    ensures TrimStart(s) == s[|s| - |TrimStart(s)|..]
  {
    if |s| > 0 && IsSpace(s[0]) {
      TrimStartSuffix(s[1..]);
      assert s[1..][|s| - 1 - |TrimStart(s)|..] == s[|s| - |TrimStart(s)|..];
    }
  }

  /** str.rstrip() keeps a prefix of its argument. */
  lemma {:induction false} TrimEndPrefix(s: string)
    ensures TrimEnd(s) == s[..|TrimEnd(s)|]
  {
    if |s| > 0 && IsSpace(s[|s| - 1]) {
      TrimEndPrefix(s[..|s| - 1]);
      assert s[..|s| - 1][..|TrimEnd(s)|] == s[..|TrimEnd(s)|];
    }
  }

  lemma {:induction false} TrimStartDropsSpace(s: string)
    ensures AllSpace(s[..|s| - |TrimStart(s)|])
  {
    if |s| > 0 && IsSpace(s[0]) {
      TrimStartDropsSpace(s[1..]);
      var k := |s| - |TrimStart(s)|;
      forall i | 0 <= i < k ensures IsSpace(s[..k][i]) {
        if i > 0 { assert s[..k][i] == s[1..][..k - 1][i - 1]; }
      }
    }
  }

  lemma {:induction false} TrimEndDropsSpace(s: string)
    ensures AllSpace(s[|TrimEnd(s)|..])
  {
    if |s| > 0 && IsSpace(s[|s| - 1]) {
      var init := s[..|s| - 1];
      TrimEndDropsSpace(init);
      var k := |TrimEnd(s)|;
      forall i | 0 <= i < |s| - k ensures IsSpace(s[k..][i]) {
        if k + i < |s| - 1 { assert s[k..][i] == init[k..][i]; }
      }
    }
  }

  lemma {:induction false} WordLengthNoSpace(s: string)
    ensures NoSpace(s[..WordLength(s)])
  {
    if |s| > 0 && !IsSpace(s[0]) {
      WordLengthNoSpace(s[1..]);
      var n := WordLength(s);
      forall i | 0 <= i < n ensures !IsSpace(s[..n][i]) {
        if i > 0 { assert s[..n][i] == s[1..][..n - 1][i - 1]; }
      }
    }
  }

  /** Every token str.split() yields is a word. */
  lemma {:induction false} SplitWords(s: string)
    ensures forall k :: 0 <= k < |Split(s)| ==> IsWord(Split(s)[k])
    decreases |s|
  {
    var t := TrimStart(s);
    if t != [] {
      var n := WordLength(t);
      WordLengthNoSpace(t);
      SplitWords(t[n..]);
    }
  }

  // ---------------------------------------------------------------------
  // Properties of Strip

  lemma {:induction false} TrimStartPadded(a: string, s: string)
    requires AllSpace(a) && (s == [] || !IsSpace(s[0]))
    ensures TrimStart(a + s) == s
  {
    if a != [] {
      assert (a + s)[1..] == a[1..] + s;
      TrimStartPadded(a[1..], s);
    } else {
      assert a + s == s;
    }
  }

  lemma {:induction false} TrimEndPadded(s: string, b: string)
    requires AllSpace(b) && (s == [] || !IsSpace(s[|s| - 1]))
    ensures TrimEnd(s + b) == s
  {
    if b != [] {
      assert (s + b)[..|s + b| - 1] == s + b[..|b| - 1];
      TrimEndPadded(s, b[..|b| - 1]);
    } else {
      assert s + b == s;
    }
  }

  lemma AllSpaceAppend(x: string, b: string)
    requires AllSpace(x) && AllSpace(b)
    ensures AllSpace(x + b)
  {
    forall i | 0 <= i < |x + b| ensures IsSpace((x + b)[i]) {
      if i >= |x| { assert (x + b)[i] == b[i - |x|]; }
    }
  }

  /** Stripping undoes any whitespace padding of an already stripped string. */
  lemma StripPadded(a: string, t: string, b: string)
    requires AllSpace(a) && AllSpace(b) && IsStripped(t)
    ensures Strip(a + t + b) == t
  {
    if t == [] {
      AllSpaceAppend(a, b);
      assert a + t + b == a + b;
      TrimStartPadded(a + b, []);
      assert (a + b) + [] == a + b;
    } else {
      assert a + t + b == a + (t + b);
      TrimStartPadded(a, t + b);
      TrimEndPadded(t, b);
    }
  }

  lemma StripIdempotent(s: string)
    ensures Strip(Strip(s)) == Strip(s)
  {
    var t := Strip(s);
    assert [] + t + [] == t;
    StripPadded([], t, []);
  }

  /** A line strips to the empty string exactly when it is all whitespace. */
  lemma StripEmptyIff(s: string)
    ensures Strip(s) == [] <==> AllSpace(s)
  {
    var t := TrimStart(s);
    if Strip(s) == [] {
      TrimStartDropsSpace(s);
      TrimEndDropsSpace(t);
      assert t[0..] == t;
      AllSpaceAppend(s[..|s| - |t|], t);
      assert s == s[..|s| - |t|] + t;
    }
    if AllSpace(s) {
      TrimStartPadded(s, []);
      assert s + [] == s;
    }
  }

  // ---------------------------------------------------------------------
  // Properties of Split

  /** Split, one token at a time: the first token is the leading word. */
  lemma SplitWord(s: string)
    requires s != [] && !IsSpace(s[0])
    ensures Split(s) == [s[..WordLength(s)]] + Split(s[WordLength(s)..])
  {
    TrimStartPadded([], s);
    assert [] + s == s;
  }

  /** Splitting already leading-trimmed text changes nothing. */
  lemma SplitTrimStart(s: string)
    ensures Split(TrimStart(s)) == Split(s)
  {
    var t := TrimStart(s);
    TrimStartPadded([], t);
    assert [] + t == t;
  }

  lemma {:induction false} WordLengthOf(w: string, s: string)
    requires NoSpace(w) && (s == [] || IsSpace(s[0]))
    ensures WordLength(w + s) == |w|
  {
    if w != [] {
      assert (w + s)[1..] == w[1..] + s;
      WordLengthOf(w[1..], s);
    } else {
      assert w + s == s;
    }
  }

  lemma {:induction false} JoinWithStripped(words: seq<string>, seps: seq<string>)
    requires |words| == |seps| + 1
    requires forall k :: 0 <= k < |words| ==> IsWord(words[k])
    ensures var s := JoinWith(words, seps);
      s != [] && IsStripped(s)
  {
    assert IsWord(words[0]);
    if seps != [] {
      assert IsWord(words[1..][0]);
      JoinWithStripped(words[1..], seps[1..]);
      var rest := JoinWith(words[1..], seps[1..]);
      var s := words[0] + seps[0] + rest;
      assert s[|s| - 1] == rest[|rest| - 1];
    }
  }

  /** Split depends on its argument only through the leading-trimmed text. */
  lemma SplitSameTrim(u: string, v: string)
    requires TrimStart(u) == TrimStart(v)
    ensures Split(u) == Split(v)
  {
  }

  lemma {:induction false} TrimStartSpacePrefix(a: string, s: string)
    requires AllSpace(a)
    ensures TrimStart(a + s) == TrimStart(s)
  {
    if a != [] {
      assert (a + s)[1..] == a[1..] + s;
      TrimStartSpacePrefix(a[1..], s);
    } else {
      assert a + s == s;
    }
  }

  /** Leading whitespace never adds or changes a token. */
  lemma SplitAfterSpace(sp: string, rest: string)
    requires AllSpace(sp)
    ensures Split(sp + rest) == Split(rest)
  {
    TrimStartSpacePrefix(sp, rest);
    SplitSameTrim(sp + rest, rest);
  }

  /** A word followed by any run of whitespace: the word is the first token,
      and the rest is split on its own. */
  lemma SplitWordSeparator(w: string, sp: string, rest: string)
    requires IsWord(w) && sp != [] && AllSpace(sp)
    ensures Split(w + sp + rest) == [w] + Split(rest)
  {
    var s := w + sp + rest;
    assert s == w + (sp + rest);
    assert (sp + rest)[0] == sp[0];
    SplitWord(s);
    WordLengthOf(w, sp + rest);
    assert s[..|w|] == w;
    assert s[|w|..] == sp + rest;
    SplitAfterSpace(sp, rest);
  }

  lemma SplitOneWord(w: string)
    requires IsWord(w)
    ensures Split(w) == [w]
  {
    SplitWord(w);
    WordLengthOf(w, []);
    assert w + [] == w;
  }

  lemma ConsTail<T>(s: seq<T>)
    requires s != []
    ensures [s[0]] + s[1..] == s
  {
  }

  /** Splitting words written out with any whitespace runs between them gives
      back exactly those words. */
  lemma {:induction false} SplitJoinWith(words: seq<string>, seps: seq<string>)
    requires |words| == |seps| + 1 && Separators(seps)
    requires forall k :: 0 <= k < |words| ==> IsWord(words[k])
    ensures Split(JoinWith(words, seps)) == words
  {
    if seps == [] {
      SplitOneWord(words[0]);
      assert words == [words[0]];
    } else {
      assert Separators(seps[1..]) by {
        forall k | 0 <= k < |seps[1..]| ensures seps[1..][k] != [] && AllSpace(seps[1..][k]) {
          assert seps[1..][k] == seps[k + 1];
        }
      }
      assert forall k :: 0 <= k < |words[1..]| ==> words[1..][k] == words[k + 1];
      SplitJoinWith(words[1..], seps[1..]);
      SplitWordSeparator(words[0], seps[0], JoinWith(words[1..], seps[1..]));
      ConsTail(words);
    }
  }

  /** A string has no tokens exactly when it is all whitespace. */
  lemma SplitEmptyIff(s: string)
    ensures Split(s) == [] <==> AllSpace(s)
  {
    var t := TrimStart(s);
    if t == [] {
      TrimStartDropsSpace(s);
      assert s[..|s|] == s;
    }
    if AllSpace(s) {
      TrimStartPadded(s, []);
      assert s + [] == s;
    }
  }

  lemma {:induction false} WordLengthAppendSpace(t: string, b: string)
    requires AllSpace(b)
    ensures WordLength(t + b) == WordLength(t)
  {
    if t != [] {
      assert (t + b)[1..] == t[1..] + b;
      WordLengthAppendSpace(t[1..], b);
    } else {
      assert t + b == b;
    }
  }

  lemma {:induction false} TrimStartAppend(x: string, b: string)
    requires !AllSpace(x)
    ensures TrimStart(x + b) == TrimStart(x) + b
  {
    assert x != [];
    if IsSpace(x[0]) {
      assert (x + b)[1..] == x[1..] + b;
      assert !AllSpace(x[1..]) by {
        var i :| 0 <= i < |x| && !IsSpace(x[i]);
        assert x[1..][i - 1] == x[i];
      }
      TrimStartAppend(x[1..], b);
    }
  }

  lemma SliceAppend(t: string, b: string, n: nat)
    requires n <= |t|
    ensures (t + b)[..n] == t[..n] && (t + b)[n..] == t[n..] + b
  {
  }

  lemma SplitWordAppendSpaceAt(t: string, b: string, n: nat)
    requires AllSpace(b) && t != [] && !IsSpace(t[0]) && n == WordLength(t)
    ensures Split(t + b) == [(t + b)[..n]] + Split((t + b)[n..])
  {
    var s := t + b;
    assert s[0] == t[0];
    WordLengthAppendSpace(t, b);
    SplitWord(s);
  }

  /** The first token of `t + b` and what follows it, for trailing whitespace `b`. */
  lemma SplitWordAppendSpace(t: string, b: string)
    requires AllSpace(b) && t != [] && !IsSpace(t[0])
    ensures var n := WordLength(t);
      Split(t + b) == [t[..n]] + Split(t[n..] + b)
  {
    var n := WordLength(t);
    SplitWordAppendSpaceAt(t, b, n);
    SliceAppend(t, b, n);
  }

  lemma SplitAppendSpaceTrimmed(t: string, b: string)
    requires AllSpace(b) && t != [] && !IsSpace(t[0])
    requires Split(t[WordLength(t)..] + b) == Split(t[WordLength(t)..])
    ensures Split(t + b) == Split(t)
  {
    SplitWordAppendSpace(t, b);
    SplitWord(t);
  }

  lemma TrimStartEmptyIff(s: string)
    ensures TrimStart(s) == [] <==> AllSpace(s)
  {
    if TrimStart(s) == [] {
      TrimStartDropsSpace(s);
      assert s[..|s|] == s;
    }
    if AllSpace(s) {
      TrimStartPadded(s, []);
      assert s + [] == s;
    }
  }

  /** Text whose leading-trimmed form starts with a word splits like that form. */
  lemma SplitTrimmed(u: string, v: string)
    requires TrimStart(u) == v && (v == [] || !IsSpace(v[0]))
    ensures Split(u) == Split(v)
  {
    TrimStartPadded([], v);
    assert [] + v == v;
    SplitSameTrim(u, v);
  }

  /** Trailing whitespace never adds or changes a token. */
  lemma {:induction false} SplitAppendSpace(x: string, b: string)
    requires AllSpace(b)
    ensures Split(x + b) == Split(x)
    decreases |x|
  {
    if AllSpace(x) {
      AllSpaceAppend(x, b);
      SplitEmptyIff(x);
      SplitEmptyIff(x + b);
    } else {
      var t := TrimStart(x);
      TrimStartEmptyIff(x);
      TrimStartAppend(x, b);
      SplitTrimStart(x);
      assert (t + b)[0] == t[0];
      SplitTrimmed(x + b, t + b);
      SplitAppendSpace(t[WordLength(t)..], b);
      SplitAppendSpaceTrimmed(t, b);
    }
  }

  /** Stripping a line before splitting it does not change its tokens. */
  lemma SplitStrip(s: string)
    ensures Split(Strip(s)) == Split(s)
  {
    var t := TrimStart(s);
    var u := TrimEnd(t);
    TrimEndDropsSpace(t);
    TrimEndPrefix(t);
    assert t == u + t[|u|..];
    SplitAppendSpace(u, t[|u|..]);
    SplitTrimStart(s);
  }
}
