/**
 * The keyword tokenizer: `re.findall(r"\b[a-zA-Z]{5,}\b", text)` over ASCII text.
 * A token is a maximal run of word characters (letters, digits, underscore) that is
 * made of letters only and is at least five characters long.
 */
module Tokenizer {
  import opened Strings

  /** Length of the longest prefix of `s` made of word characters. */
  function WordRunLength(s: string): (n: nat)
    ensures n <= |s|
    ensures forall i :: 0 <= i < n ==> IsWordChar(s[i])
    ensures n < |s| ==> !IsWordChar(s[n])
  {
    if s == [] || !IsWordChar(s[0]) then 0 else 1 + WordRunLength(s[1..])
  }

  /** The characters `[a-zA-Z]{5,}` accepts. */
  predicate IsKeyword(w: string) {
    |w| >= 5 && forall i :: 0 <= i < |w| ==> IsLetter(w[i])
  }

  /** A keyword of lower-case letters only, as every extracted term is. */
  predicate IsLowerKeyword(w: string) {
    |w| >= 5 && forall i :: 0 <= i < |w| ==> IsLowerLetter(w[i])
  }

  /** `s[i..j]` is a maximal run of word characters: `\b` holds at both ends. */
  predicate IsRunAt(s: string, i: int, j: int) {
    && 0 <= i < j <= |s|
    && (forall k :: i <= k < j ==> IsWordChar(s[k]))
    && (i == 0 || !IsWordChar(s[i - 1]))
    && (j == |s| || !IsWordChar(s[j]))
  }

  /** The tokens of `s`, left to right. */
  function Tokens(s: string): seq<string>
    decreases |s|
  {
    if s == [] then []
    else if !IsWordChar(s[0]) then Tokens(s[1..])
    else
      var n := WordRunLength(s);
      (if IsKeyword(s[..n]) then [s[..n]] else []) + Tokens(s[n..])
  }

  /** Soundness: every token is a keyword that stands in `s` as a maximal run of word characters. */
  lemma {:induction false} TokensSound(s: string)
    ensures forall t :: t in Tokens(s) ==> IsKeyword(t)
    ensures forall t :: t in Tokens(s) ==> exists i, j :: IsRunAt(s, i, j) && s[i..j] == t
    decreases |s|
  {
    if s == [] {
    } else if !IsWordChar(s[0]) {
      TokensSound(s[1..]);
      forall t | t in Tokens(s[1..]) ensures exists i, j :: IsRunAt(s, i, j) && s[i..j] == t {
        var i, j :| IsRunAt(s[1..], i, j) && s[1..][i..j] == t;
        RunShift(s, 1, i, j);
      }
    } else {
      var n := WordRunLength(s);
      assert IsRunAt(s, 0, n);
      TokensSound(s[n..]);
      forall t | t in Tokens(s[n..]) ensures exists i, j :: IsRunAt(s, i, j) && s[i..j] == t {
        var i, j :| IsRunAt(s[n..], i, j) && s[n..][i..j] == t;
        if i == 0 {
          assert false;
        }
        RunShift(s, n, i, j);
      }
    }
  }

  /** A run found in the suffix `s[d..]` that does not start right at `d` is a run of `s`. */
  lemma RunShift(s: string, d: nat, i: int, j: int)
    requires d <= |s| && IsRunAt(s[d..], i, j)
    requires d == 0 || i > 0 || !IsWordChar(s[d - 1])
    ensures IsRunAt(s, i + d, j + d) && s[i + d..j + d] == s[d..][i..j]
  {
    assert forall k :: i + d <= k < j + d ==> s[k] == s[d..][k - d];
  }

  /** Completeness: every maximal run of `s` that is a keyword is among its tokens. */
  lemma {:induction false} TokensComplete(s: string, i: int, j: int)
    requires IsRunAt(s, i, j) && IsKeyword(s[i..j])
    ensures s[i..j] in Tokens(s)
    decreases |s|
  {
    assert IsWordChar(s[i]);
    if !IsWordChar(s[0]) {
      RunUnshift(s, 1, i, j);
      TokensComplete(s[1..], i - 1, j - 1);
    } else {
      var n := WordRunLength(s);
      if i == 0 {
        RunFromStart(s, j);
        assert s[..n] == s[i..j];
      } else {
        assert i > n by {
          assert !IsWordChar(s[i - 1]);
        }
        RunUnshift(s, n, i, j);
        TokensComplete(s[n..], i - n, j - n);
      }
    }
  }

  /** A maximal run at the start of `s` is the longest word-character prefix. */
  lemma RunFromStart(s: string, j: int)
    requires IsRunAt(s, 0, j)
    ensures j == WordRunLength(s)
  {
    var n := WordRunLength(s);
    assert j < |s| ==> !IsWordChar(s[j]);
    assert n < |s| ==> !IsWordChar(s[n]);
  }

  /** A run of `s` lying past offset `d` is a run of the suffix `s[d..]`. */
  lemma RunUnshift(s: string, d: int, i: int, j: int)
    requires 0 < d <= i && IsRunAt(s, i, j)
    ensures IsRunAt(s[d..], i - d, j - d) && s[d..][i - d..j - d] == s[i..j]
  {
    assert forall k :: i - d <= k < j - d ==> s[d..][k] == s[k + d];
  }

  /** A run never reaches past a non-word character. */
  lemma {:induction false} WordRunLengthStops(a: string, rest: string)
    requires rest == [] || !IsWordChar(rest[0])
    ensures WordRunLength(a + rest) == WordRunLength(a)
    decreases |a|
  {
    if a != [] && IsWordChar(a[0]) {
      assert (a + rest)[1..] == a[1..] + rest;
      WordRunLengthStops(a[1..], rest);
    } else if a == [] {
      assert a + rest == rest;
    }
  }

  /** A non-word separator splits the token stream: no token spans it. */
  lemma {:induction false} TokensSeparated(a: string, c: char, b: string)
    requires !IsWordChar(c)
    ensures Tokens(a + [c] + b) == Tokens(a) + Tokens(b)
    decreases |a|
  {
    var s := a + [c] + b;
    if a == [] {
      assert s[1..] == b;
    } else if !IsWordChar(a[0]) {
      assert s[1..] == a[1..] + [c] + b;
      TokensSeparated(a[1..], c, b);
    } else {
      var n := WordRunLength(a);
      WordRunLengthStops(a, [c] + b);
      assert s == a + ([c] + b);
      assert s[..n] == a[..n];
      assert s[n..] == a[n..] + [c] + b;
      TokensSeparated(a[n..], c, b);
    }
  }

  /** Tokens of lower-cased text are lower-case keywords. */
  lemma LowerTokens(s: string)
    ensures forall t :: t in Tokens(Lower(s)) ==> IsLowerKeyword(t)
  {
    var l := Lower(s);
    TokensSound(l);
    forall t | t in Tokens(l) ensures IsLowerKeyword(t) {
      var i, j :| IsRunAt(l, i, j) && l[i..j] == t;
      forall k | 0 <= k < |t| ensures IsLowerLetter(t[k]) {
        assert t[k] == l[i + k];
        assert !IsUpper(l[i + k]);
      }
    }
  }

  /** A lone keyword between non-word characters is exactly one token. */
  lemma SingleKeyword(w: string)
    requires IsKeyword(w)
    ensures Tokens(w) == [w]
  {
    assert IsRunAt(w, 0, |w|);
    WordRunLengthAll(w);
    assert w[|w|..] == [];
    assert w[..|w|] == w;
  }

  lemma {:induction false} WordRunLengthAll(w: string)
    requires forall i :: 0 <= i < |w| ==> IsWordChar(w[i])
    ensures WordRunLength(w) == |w|
  {
    if w != [] {
      WordRunLengthAll(w[1..]);
    }
  }
}
