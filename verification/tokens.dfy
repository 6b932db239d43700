/**
 * Python's whitespace tokenizer: `str.split()` with no separator (`Words`) and with a split limit,
 * `str.split(maxsplit=k)` (`SplitMax`), as CPython's `split_whitespace` computes them.
 */
module Tokens {
  import opened Chars

  /** `x` is a suffix of `s`. */
  predicate IsSuffix(x: string, s: string) {
    |x| <= |s| && s[|s| - |x|..] == x
  }

  /** One step of the tokenizer: either only whitespace is left, or the next word and what follows it. */
  datatype Step = Done | Next(word: string, rest: string, from: string)

  /** Length of the run of non-whitespace characters at the front of `s`. */
  function WordLen(s: string): nat
    decreases |s|
  {
    if s == [] || IsSpace(s[0]) then 0 else 1 + WordLen(s[1..])
  }

  lemma {:induction false} WordLenSpec(s: string)
    ensures WordLen(s) <= |s|
    ensures AllOf(s[..WordLen(s)], IsNonSpace)
    ensures WordLen(s) < |s| ==> IsSpace(s[WordLen(s)])
    decreases |s|
  {
    if s != [] && !IsSpace(s[0]) {
      WordLenSpec(s[1..]);
      var n := WordLen(s[1..]);
      assert s[..n + 1] == [s[0]] + s[1..][..n];
    }
  }

  /** A word followed by nothing or whitespace is exactly the front run. */
  lemma {:induction false} WordLenOfConcat(w: string, r: string)
    requires AllOf(w, IsNonSpace)
    requires r == [] || IsSpace(r[0])
    ensures WordLen(w + r) == |w|
    decreases |w|
  {
    if w == [] {
      assert w + r == r;
    } else {
      assert (w + r)[0] == w[0];
      assert (w + r)[1..] == w[1..] + r;
      WordLenOfConcat(w[1..], r);
    }
  }

  /** The step at a non-whitespace character: split off the word that starts there. */
  function NextHere(s: string): (st: Step)
    requires s != [] && !IsSpace(s[0])
    ensures st.Next? && |st.rest| < |s|
  {
    WordLenSpec(s);
    var n := WordLen(s);
    Next(s[..n], s[n..], s)
  }

  /**
   * Skip leading whitespace; if anything is left (`from`), split off its maximal run of non-whitespace
   * characters (`word`) and return the remainder (`rest`), which is empty or starts with whitespace.
   */
  function NextWord(s: string): (st: Step)
    ensures st.Next? ==> |st.rest| < |s|
    decreases |s|
  {
    if s == [] then Done
    else if IsSpace(s[0]) then NextWord(s[1..])
    else NextHere(s)
  }

  /** What `NextWord` computes, stated without reference to how. */
  lemma {:induction false} NextWordSpec(s: string)
    ensures NextWord(s).Done? ==> AllOf(s, IsSpace)
    ensures NextWord(s).Next? ==> var st := NextWord(s);
                                  && Token(st.word)
                                  && st.from == st.word + st.rest
                                  && IsSuffix(st.from, s)
                                  && AllOf(s[..|s| - |st.from|], IsSpace)
                                  && (st.rest == [] || IsSpace(st.rest[0]))
    decreases |s|
  {
    if s == [] {
    } else if IsSpace(s[0]) {
      NextWordSpec(s[1..]);
      var st := NextWord(s[1..]);
      if st.Next? {
        LeadingSpace(s, st.from);
      } else {
        assert s == [s[0]] + s[1..];
      }
    } else {
      WordLenSpec(s);
      var n := WordLen(s);
      assert s == s[..n] + s[n..];
      assert s[..0] == [];
    }
  }

  /** A whitespace character in front of the text before a suffix joins that text. */
  lemma LeadingSpace(s: string, from: string)
    requires s != [] && IsSpace(s[0])
    requires IsSuffix(from, s[1..]) && AllOf(s[1..][..|s| - 1 - |from|], IsSpace)
    ensures IsSuffix(from, s) && AllOf(s[..|s| - |from|], IsSpace)
  {
    var p := s[1..][..|s| - 1 - |from|];
    assert s[..|s| - |from|] == [s[0]] + p;
    assert s[|s| - |from|..] == s[1..][|s| - 1 - |from|..];
  }

  /** The step is determined by the decomposition: leading whitespace, a word, then nothing or whitespace. */
  lemma {:induction false} NextWordUnique(sp: string, w: string, r: string)
    requires AllOf(sp, IsSpace)
    requires Token(w)
    requires r == [] || IsSpace(r[0])
    ensures NextWord(sp + (w + r)) == Next(w, r, w + r)
    decreases |sp|
  {
    var s := sp + (w + r);
    if sp == [] {
      assert s == w + r;
      assert s[0] == w[0];
      WordLenOfConcat(w, r);
      assert s[..|w|] == w;
      assert s[|w|..] == r;
    } else {
      assert s[0] == sp[0];
      assert s[1..] == sp[1..] + (w + r);
      NextWordUnique(sp[1..], w, r);
    }
  }

  /** A string of whitespace has no next word. */
  lemma {:induction false} AllSpaceDone(s: string)
    requires AllOf(s, IsSpace)
    ensures NextWord(s) == Done
    decreases |s|
  {
    if s != [] {
      assert s[0] == s[0];
      AllSpaceDone(s[1..]);
    }
  }

  /** `s.split()`: the maximal runs of non-whitespace characters, in order. */
  function Words(s: string): (ws: seq<string>)
    decreases |s|
  {
    match NextWord(s)
    case Done => []
    case Next(w, r, _) => [w] + Words(r)
  }

  /**
   * `s.split(maxsplit=k)`: at most `k` words are split off the front; whatever follows them, after its
   * leading whitespace is skipped, becomes one final element (trailing whitespace included).
   */
  function SplitMax(s: string, k: nat): (ts: seq<string>)
    ensures |ts| <= k + 1
    decreases |s|
  {
    match NextWord(s)
    case Done => []
    case Next(w, r, t) => if k == 0 then [t] else [w] + SplitMax(r, k - 1)
  }

  /** Every word is a non-empty, whitespace-free token. */
  lemma {:induction false} WordsAreTokens(s: string)
    ensures forall i :: 0 <= i < |Words(s)| ==> Token(Words(s)[i])
    decreases |s|
  {
    match NextWord(s)
    case Done =>
    case Next(w, r, _) =>
      NextWordSpec(s);
      WordsAreTokens(r);
      ConsAll(w, Words(r), Words(s));
  }

  /** Consing a token onto a sequence of tokens gives a sequence of tokens. */
  lemma ConsAll(w: string, xs: seq<string>, ys: seq<string>)
    requires ys == [w] + xs
    requires Token(w)
    requires forall i :: 0 <= i < |xs| ==> Token(xs[i])
    ensures forall i :: 0 <= i < |ys| ==> Token(ys[i])
  {
    forall i | 0 <= i < |ys| ensures Token(ys[i]) {
      if i > 0 { assert ys[i] == xs[i - 1]; }
    }
  }

  /** A word followed by whitespace (or nothing) is the first word. */
  lemma WordsCons(w: string, r: string)
    requires Token(w)
    requires r == [] || IsSpace(r[0])
    ensures Words(w + r) == [w] + Words(r)
  {
    NextWordUnique([], w, r);
    assert [] + (w + r) == w + r;
  }

  /** Leading whitespace is skipped, so it never changes the words. */
  lemma {:induction false} WordsLeadingSpace(sp: string, x: string)
    requires AllOf(sp, IsSpace)
    ensures Words(sp + x) == Words(x)
    decreases |sp|
  {
    if sp != [] {
      assert (sp + x)[0] == sp[0];
      assert (sp + x)[1..] == sp[1..] + x;
      WordsLeadingSpace(sp[1..], x);
    } else {
      assert sp + x == x;
    }
  }

  /** Trailing whitespace produces no word. */
  lemma {:induction false} WordsTrailingSpace(x: string, sp: string)
    requires AllOf(sp, IsSpace)
    ensures Words(x + sp) == Words(x)
    decreases |x|
  {
    if x == [] {
      assert x + sp == sp;
      AllSpaceDone(sp);
    } else if IsSpace(x[0]) {
      assert (x + sp)[0] == x[0];
      assert (x + sp)[1..] == x[1..] + sp;
      WordsTrailingSpace(x[1..], sp);
    } else {
      NextWordSpec(x);
      var st := NextWord(x);
      var w, r := st.word, st.rest;
      assert x == [] + (w + r);
      assert x + sp == [] + (w + (r + sp));
      assert r + sp == [] || IsSpace((r + sp)[0]) by {
        if r == [] { assert r + sp == sp; }
      }
      NextWordUnique([], w, r + sp);
      WordsTrailingSpace(r, sp);
    }
  }

  /** `Words` does not see the whitespace `str.strip()` removes. */
  lemma WordsStrip(s: string)
    ensures Words(Strip(s)) == Words(s)
  {
    var r := Strip(s);
    var a := StripStart(s);
    var sp1 := s[..a];
    var sp2 := s[a + |r|..];
    assert s == sp1 + (r + sp2);
    assert AllOf(sp1, IsSpace) by {
      forall i | 0 <= i < |sp1| ensures IsSpace(sp1[i]) { assert sp1[i] == s[i]; }
    }
    assert AllOf(sp2, IsSpace) by {
      forall i | 0 <= i < |sp2| ensures IsSpace(sp2[i]) { assert sp2[i] == s[a + |r| + i]; }
    }
    WordsLeadingSpace(sp1, r + sp2);
    WordsTrailingSpace(r, sp2);
  }

  /** Splitting the single-space join of whitespace-free words gives the words back. */
  lemma {:induction false} WordsOfJoin(ts: seq<string>)
    requires forall i :: 0 <= i < |ts| ==> Token(ts[i])
    ensures Words(JoinWith(" ", ts)) == ts
  {
    if ts == [] {
      AllSpaceDone([]);
    } else if |ts| == 1 {
      WordsCons(ts[0], []);
      AllSpaceDone([]);
      assert ts[0] + [] == ts[0];
    } else {
      var rest := JoinWith(" ", ts[1..]);
      assert JoinWith(" ", ts) == ts[0] + (" " + rest);
      WordsCons(ts[0], " " + rest);
      WordsLeadingSpace(" ", rest);
      WordsOfJoin(ts[1..]);
    }
  }

  function Min(a: int, b: int): int { if a < b then a else b }

  /**
   * `xs` is what splitting with limit `k` makes of the words `ys`: min(|ys|, k+1) elements, of which
   * the first `k` are the first `k` words.
   */
  predicate SplitsLike(xs: seq<string>, ys: seq<string>, k: nat) {
    && |xs| == (if |ys| <= k then |ys| else k + 1)
    && xs[..Min(|xs|, k)] == ys[..Min(|xs|, k)]
  }

  /** Putting the same word in front of both keeps the relation, with one more split allowed. */
  lemma SplitsLikeCons(w: string, a: seq<string>, b: seq<string>, c: seq<string>, d: seq<string>, k: nat)
    requires k > 0 && SplitsLike(a, b, k - 1)
    requires c == [w] + a && d == [w] + b
    ensures SplitsLike(c, d, k)
  {
    var m := Min(|a|, k - 1);
    assert c[..m + 1] == [w] + a[..m];
    assert d[..m + 1] == [w] + b[..m];
  }

  /** `SplitMax` agrees with `Words` on the front. */
  lemma {:induction false} SplitMaxWords(s: string, k: nat)
    ensures SplitsLike(SplitMax(s, k), Words(s), k)
    decreases |s|
  {
    var st := NextWord(s);
    if st.Next? && k > 0 {
      SplitMaxWords(st.rest, k - 1);
      SplitsLikeCons(st.word, SplitMax(st.rest, k - 1), Words(st.rest), SplitMax(s, k), Words(s), k);
    }
  }

  /**
   * When there are more than `k` words, the last element of `SplitMax(s, k)` is a suffix of `s` that holds
   * exactly the words after the first `k`.
   */
  lemma {:induction false} SplitMaxRemainder(s: string, k: nat)
    requires |Words(s)| > k
    ensures |SplitMax(s, k)| == k + 1
    ensures Words(SplitMax(s, k)[k]) == Words(s)[k..]
    ensures IsSuffix(SplitMax(s, k)[k], s)
    decreases |s|
  {
    SplitMaxWords(s, k);
    var st := NextWord(s);
    NextWordSpec(s);
    if k == 0 {
      WordsCons(st.word, st.rest);
      assert SplitMax(s, k)[k] == st.from;
    } else {
      SplitMaxRemainder(st.rest, k - 1);
      RemainderStep(s, k, SplitMax(st.rest, k - 1)[k - 1]);
    }
  }

  /** One step of `SplitMaxRemainder`: the remainder of the tail is the remainder of the whole. */
  lemma RemainderStep(s: string, k: nat, x: string)
    requires k > 0 && NextWord(s).Next?
    requires |SplitMax(NextWord(s).rest, k - 1)| == k && SplitMax(NextWord(s).rest, k - 1)[k - 1] == x
    requires |Words(NextWord(s).rest)| >= k - 1
    requires Words(x) == Words(NextWord(s).rest)[k - 1..]
    requires IsSuffix(x, NextWord(s).rest)
    requires IsSuffix(NextWord(s).rest, s)
    ensures |SplitMax(s, k)| == k + 1 && SplitMax(s, k)[k] == x
    ensures |Words(s)| >= k && Words(x) == Words(s)[k..]
    ensures IsSuffix(x, s)
  {
    var st := NextWord(s);
    assert SplitMax(s, k) == [st.word] + SplitMax(st.rest, k - 1);
    assert Words(s) == [st.word] + Words(st.rest);
    var r := st.rest;
    assert s[|s| - |x|..] == r[|r| - |x|..];
  }

  /** The first `k` elements of a split are words; a final remainder is non-empty and starts with a non-space. */
  lemma SplitMaxTokens(s: string, k: nat)
    ensures forall i :: 0 <= i < |SplitMax(s, k)| && i < k ==> Token(SplitMax(s, k)[i])
    ensures |SplitMax(s, k)| == k + 1 ==> |SplitMax(s, k)[k]| > 0 && !IsSpace(SplitMax(s, k)[k][0])
  {
    SplitMaxWords(s, k);
    WordsAreTokens(s);
    var xs, ys := SplitMax(s, k), Words(s);
    var m := Min(|xs|, k);
    forall i | 0 <= i < |xs| && i < k ensures Token(xs[i]) {
      assert xs[i] == xs[..m][i] == ys[..m][i] == ys[i];
    }
    if |xs| == k + 1 {
      SplitMaxLastStarts(s, k);
    }
  }

  /** The final element of a full split is non-empty and starts with a non-space. */
  lemma {:induction false} SplitMaxLastStarts(s: string, k: nat)
    requires |SplitMax(s, k)| == k + 1
    ensures |SplitMax(s, k)[k]| > 0 && !IsSpace(SplitMax(s, k)[k][0])
    decreases |s|
  {
    NextWordSpec(s);
    var st := NextWord(s);
    if k == 0 {
      assert SplitMax(s, k)[k] == st.word + st.rest;
      assert (st.word + st.rest)[0] == st.word[0];
    } else {
      assert SplitMax(s, k) == [st.word] + SplitMax(st.rest, k - 1);
      SplitMaxLastStarts(st.rest, k - 1);
      assert SplitMax(s, k)[k] == SplitMax(st.rest, k - 1)[k - 1];
    }
  }

  /** A line with at most `k` words, split with limit `k`, yields exactly its words. */
  lemma SplitMaxOfFewWords(s: string, k: nat)
    requires |Words(s)| <= k
    ensures SplitMax(s, k) == Words(s)
  {
    SplitMaxWords(s, k);
    assert SplitMax(s, k)[..|Words(s)|] == SplitMax(s, k);
  }
}
