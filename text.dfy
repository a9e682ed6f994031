/** String primitives the application relies on: the whitespace class of
    Python's str.split() and str.strip(), lower-casing (ASCII only), the
    whitespace tokeniser behind str.split(), and str.strip(). */
module Text {

  /** The characters Python's str.isspace() accepts, which are exactly the
      separators of str.split() with no argument and what str.strip() removes. */
  predicate IsSpace(c: char) {
    || c == ' '
    || '\t' <= c <= '\r'                  // \t \n \v \f \r
    || '\U{1C}' <= c <= '\U{1F}'          // file, group, record and unit separators
    || c == '\U{85}' || c == '\U{A0}'
    || c == '\U{1680}'
    || '\U{2000}' <= c <= '\U{200A}'
    || c == '\U{2028}' || c == '\U{2029}'
    || c == '\U{202F}' || c == '\U{205F}' || c == '\U{3000}'
  }

  predicate AllSpace(s: string) {
    forall i :: 0 <= i < |s| ==> IsSpace(s[i])
  }

  /** A token of str.split(): a non-empty run of non-whitespace characters. */
  predicate IsWord(w: string) {
    w != [] && forall i :: 0 <= i < |w| ==> !IsSpace(w[i])
  }

  // ---------------------------------------------------------------------
  // Lower-casing

  function LowerChar(c: char): char {
    if 'A' <= c <= 'Z' then (c as int + 32) as char else c
  }

  /** str.lower(), restricted to ASCII letters. */
  function Lower(s: string): (r: string)
    ensures |r| == |s|
    ensures forall i :: 0 <= i < |s| ==> r[i] == LowerChar(s[i])
  {
    if s == [] then [] else [LowerChar(s[0])] + Lower(s[1..])
  }

  /** Two strings that differ only in the case of their letters. */
  predicate SameUpToCase(s: string, t: string) {
    |s| == |t| && forall i :: 0 <= i < |s| ==> LowerChar(s[i]) == LowerChar(t[i])
  }

  function UpperChar(c: char): char {
    if 'a' <= c <= 'z' then (c as int - 32) as char else c
  }

  /** str.upper(), restricted to ASCII letters; used to state case-insensitivity. */
  function Upper(s: string): (r: string)
    ensures |r| == |s|
    ensures forall i :: 0 <= i < |s| ==> r[i] == UpperChar(s[i])
  {
    if s == [] then [] else [UpperChar(s[0])] + Upper(s[1..])
  }

  lemma LowerIdempotent(s: string)
    ensures Lower(Lower(s)) == Lower(s)
  {
  }

  lemma SameUpToCaseLower(s: string, t: string)
    ensures SameUpToCase(s, t) <==> Lower(s) == Lower(t)
  {
  }

  lemma UpperSameUpToCase(s: string)
    ensures SameUpToCase(s, Upper(s)) && SameUpToCase(s, Lower(s))
  {
  }

  /** Lower-casing never turns a separator into a word character or back. */
  lemma LowerKeepsSpaces(c: char)
    ensures IsSpace(LowerChar(c)) == IsSpace(c)
  {
  }

  lemma LowerConcat(a: string, b: string)
    ensures Lower(a + b) == Lower(a) + Lower(b)
  {
  }

  /** Lower-casing each of a sequence of strings. */
  function LowerAll(ws: seq<string>): (r: seq<string>)
    ensures |r| == |ws|
    ensures forall k :: 0 <= k < |ws| ==> r[k] == Lower(ws[k])
  {
    if ws == [] then [] else [Lower(ws[0])] + LowerAll(ws[1..])
  }

  // ---------------------------------------------------------------------
  // Tokenising: str.split() with no argument

  /** Length of the run of non-whitespace characters at the start of s. */
  function WordLen(s: string): (n: nat)
    ensures n <= |s|
    ensures forall i :: 0 <= i < n ==> !IsSpace(s[i])
    ensures n < |s| ==> IsSpace(s[n])
  {
    if s == [] || IsSpace(s[0]) then 0 else 1 + WordLen(s[1..])
  }

  /** str.split(): the maximal runs of non-whitespace characters of s, in order;
      leading, trailing and repeated whitespace produce no empty tokens. */
  function Words(s: string): (ws: seq<string>)
    ensures forall k :: 0 <= k < |ws| ==> IsWord(ws[k])
    decreases |s|
  {
    if s == [] then []
    else if IsSpace(s[0]) then Words(s[1..])
    else
      var n := WordLen(s);
      [s[..n]] + Words(s[n..])
  }

  /** " ".join(ws): the inverse of Words on sequences of tokens. */
  function JoinWords(ws: seq<string>): string {
    if |ws| == 0 then "" else if |ws| == 1 then ws[0] else ws[0] + " " + JoinWords(ws[1..])
  }

  /** The characters of all tokens, concatenated. */
  function Concat(ws: seq<string>): string {
    if ws == [] then "" else ws[0] + Concat(ws[1..])
  }

  /** The non-whitespace characters of s, in order. */
  function NonSpace(s: string): string {
    if s == [] then "" else (if IsSpace(s[0]) then "" else [s[0]]) + NonSpace(s[1..])
  }

  lemma {:induction false} WordLenConcat(a: string, c: char, b: string)
    requires IsSpace(c)
    ensures WordLen(a + [c] + b) == WordLen(a)
    decreases |a|
  {
    if a == [] {
    } else if IsSpace(a[0]) {
      assert (a + [c] + b)[0] == a[0];
    } else {
      assert (a + [c] + b)[1..] == a[1..] + [c] + b;
      WordLenConcat(a[1..], c, b);
    }
  }

  /** Tokenising a + c + b, where c is whitespace, tokenises the two halves apart. */
  lemma {:induction false} WordsConcat(a: string, c: char, b: string)
    requires IsSpace(c)
    ensures Words(a + [c] + b) == Words(a) + Words(b)
    decreases |a|
  {
    var s := a + [c] + b;
    if a == [] {
      assert s == [c] + b;
      assert s[1..] == b;
    } else if IsSpace(a[0]) {
      assert s[0] == a[0];
      assert s[1..] == a[1..] + [c] + b;
      WordsConcat(a[1..], c, b);
    } else {
      assert s[0] == a[0];
      WordLenConcat(a, c, b);
      var n := WordLen(a);
      assert s[..n] == a[..n];
      assert s[n..] == a[n..] + [c] + b;
      WordsConcat(a[n..], c, b);
    }
  }

  /** The tokeniser finds no token exactly when the text is all whitespace. */
  lemma {:induction false} WordsEmptyIff(s: string)
    ensures Words(s) == [] <==> AllSpace(s)
    decreases |s|
  {
    if s != [] && IsSpace(s[0]) {
      WordsEmptyIff(s[1..]);
      if AllSpace(s[1..]) {
        forall i | 0 <= i < |s| ensures IsSpace(s[i]) {
          if i > 0 { assert s[i] == s[1..][i - 1]; }
        }
      }
    }
  }

  /** Tokens lose no non-whitespace character and add none. */
  lemma {:induction false} WordsKeepText(s: string)
    ensures Concat(Words(s)) == NonSpace(s)
    decreases |s|
  {
    if s == [] {
    } else if IsSpace(s[0]) {
      WordsKeepText(s[1..]);
    } else {
      var n := WordLen(s);
      NonSpaceOfWord(s[..n], s[n..]);
      assert s == s[..n] + s[n..];
      WordsKeepText(s[n..]);
      ConcatCons(s[..n], Words(s[n..]));
    }
  }

  lemma ConcatCons(w: string, ws: seq<string>)
    ensures Concat([w] + ws) == w + Concat(ws)
  {
  }

  lemma {:induction false} NonSpaceOfWord(w: string, rest: string)
    requires forall i :: 0 <= i < |w| ==> !IsSpace(w[i])
    ensures NonSpace(w + rest) == w + NonSpace(rest)
    decreases |w|
  {
    if w != [] {
      assert (w + rest)[0] == w[0];
      assert (w + rest)[1..] == w[1..] + rest;
      assert !IsSpace(w[0]);
      NonSpaceOfWord(w[1..], rest);
      calc {
        NonSpace(w + rest);
        [w[0]] + NonSpace(w[1..] + rest);
        [w[0]] + (w[1..] + NonSpace(rest));
        { assert w == [w[0]] + w[1..]; }
        w + NonSpace(rest);
      }
    } else {
      assert w + rest == rest;
    }
  }

  /** Tokenising the single-space join of tokens gives those tokens back. */
  lemma {:induction false} WordsOfJoin(ws: seq<string>)
    requires forall k :: 0 <= k < |ws| ==> IsWord(ws[k])
    ensures Words(JoinWords(ws)) == ws
    decreases |ws|
  {
    if |ws| == 1 {
      WordOfWord(ws[0]);
    } else if |ws| > 1 {
      WordsConcat(ws[0], ' ', JoinWords(ws[1..]));
      WordOfWord(ws[0]);
      WordsOfJoin(ws[1..]);
      assert ws == [ws[0]] + ws[1..];
    }
  }

  /** Lower-casing a single-space join lower-cases each joined part. */
  lemma {:induction false} LowerJoinWords(ws: seq<string>)
    ensures Lower(JoinWords(ws)) == JoinWords(LowerAll(ws))
    decreases |ws|
  {
    if |ws| > 1 {
      LowerJoinWords(ws[1..]);
      LowerConcat(ws[0] + " ", JoinWords(ws[1..]));
      LowerConcat(ws[0], " ");
      assert LowerAll(ws)[1..] == LowerAll(ws[1..]);
    } else if |ws| == 1 {
      assert LowerAll(ws) == [Lower(ws[0])];
    }
  }

  lemma WordOfWord(w: string)
    requires IsWord(w)
    ensures Words(w) == [w]
  {
    assert WordLen(w) == |w| by { WordLenOfWord(w); }
    assert w[..|w|] == w;
    assert w[|w|..] == [];
  }

  lemma WordLenOfWord(w: string)
    requires forall i :: 0 <= i < |w| ==> !IsSpace(w[i])
    ensures WordLen(w) == |w|
    decreases |w|
  {
  }

  // ---------------------------------------------------------------------
  // Stripping: str.strip() with no argument

  function StripLeft(s: string): (r: string)
    ensures |r| <= |s|
  {
    if s != [] && IsSpace(s[0]) then StripLeft(s[1..]) else s
  }

  function StripRight(s: string): (r: string)
    ensures |r| <= |s|
  {
    if s != [] && IsSpace(s[|s| - 1]) then StripRight(s[..|s| - 1]) else s
  }

  /** str.strip(): s without its leading and trailing whitespace. */
  function Strip(s: string): string {
    StripRight(StripLeft(s))
  }

  /** A string with no whitespace at either end (or empty). */
  predicate Trimmed(t: string) {
    t == [] || (!IsSpace(t[0]) && !IsSpace(t[|t| - 1]))
  }

  lemma {:induction false} StripLeftOf(p: string, t: string)
    requires AllSpace(p)
    requires t == [] || !IsSpace(t[0])
    ensures StripLeft(p + t) == t
    decreases |p|
  {
    if p != [] {
      assert (p + t)[0] == p[0];
      assert (p + t)[1..] == p[1..] + t;
      StripLeftOf(p[1..], t);
    }
  }

  lemma {:induction false} StripRightOf(t: string, q: string)
    requires AllSpace(q)
    requires t == [] || !IsSpace(t[|t| - 1])
    ensures StripRight(t + q) == t
    decreases |q|
  {
    if q != [] {
      var s := t + q;
      assert s[|s| - 1] == q[|q| - 1];
      assert s[..|s| - 1] == t + q[..|q| - 1];
      StripRightOf(t, q[..|q| - 1]);
    } else {
      assert t + q == t;
    }
  }

  /** str.strip() removes exactly the surrounding whitespace: whatever text with
      no whitespace at its ends is padded by whitespace, stripping gives it back. */
  lemma StripOfPadded(p: string, t: string, q: string)
    requires AllSpace(p) && AllSpace(q) && Trimmed(t)
    ensures Strip(p + t + q) == t
  {
    if t == [] {
      assert p + t + q == p + q;
      StripLeftOf(p + q, []);
      assert p + q + [] == p + q;
      StripRightOf([], []);
    } else {
      assert p + t + q == p + (t + q);
      assert (t + q)[0] == t[0];
      StripLeftOf(p, t + q);
      StripRightOf(t, q);
    }
  }

  /** The result of str.strip() has no whitespace at its ends, and it is empty
      exactly when the input is all whitespace. */
  lemma {:induction false} StripTrimmed(s: string)
    ensures Trimmed(Strip(s))
    ensures Strip(s) == [] <==> AllSpace(s)
    decreases |s|
  {
    var l := StripLeftSplit(s);
    var t := StripLeft(s);
    var m := StripRightSplit(t);
    assert t == t[..m] + t[m..];
    if t[..m] == [] {
      assert t == t[m..];
      assert s == s[..l] + t;
      AllSpaceConcat(s[..l], t);
    } else {
      assert !IsSpace(s[l]) by { assert s[l] == t[0]; }
    }
  }

  /** The result of str.strip() is the input without a whitespace prefix and a
      whitespace suffix: together with StripOfPadded, this pins it down. */
  lemma StripPadding(s: string)
    ensures exists p, q :: AllSpace(p) && AllSpace(q) && s == p + Strip(s) + q
  {
    var l := StripLeftSplit(s);
    var t := StripLeft(s);
    var m := StripRightSplit(t);
    assert s == s[..l] + t[..m] + t[m..];
  }

  lemma AllSpaceConcat(a: string, b: string)
    requires AllSpace(a) && AllSpace(b)
    ensures AllSpace(a + b)
  {
  }

  /** StripLeft drops a whitespace prefix of length l and stops at a non-space. */
  lemma {:induction false} StripLeftSplit(s: string) returns (l: nat)
    ensures l <= |s| && AllSpace(s[..l]) && StripLeft(s) == s[l..]
    ensures l < |s| ==> !IsSpace(s[l])
    decreases |s|
  {
    if s != [] && IsSpace(s[0]) {
      var l' := StripLeftSplit(s[1..]);
      l := l' + 1;
      assert s[1..][l'..] == s[l..];
      forall i | 0 <= i < l ensures IsSpace(s[..l][i]) {
        if i > 0 { assert s[..l][i] == s[1..][..l'][i - 1]; }
      }
    } else {
      l := 0;
    }
  }

  /** StripRight keeps a prefix of length m followed only by whitespace, and the
      kept prefix is empty or ends in a non-space. */
  lemma {:induction false} StripRightSplit(s: string) returns (m: nat)
    ensures m <= |s| && AllSpace(s[m..]) && StripRight(s) == s[..m]
    ensures m > 0 ==> !IsSpace(s[m - 1])
    decreases |s|
  {
    if s != [] && IsSpace(s[|s| - 1]) {
      var s' := s[..|s| - 1];
      m := StripRightSplit(s');
      assert s'[..m] == s[..m];
      forall i | 0 <= i < |s| - m ensures IsSpace(s[m..][i]) {
        if m + i < |s| - 1 { assert s[m..][i] == s'[m..][i]; }
      }
    } else {
      m := |s|;
    }
  }
}
