/**
 * The string primitives both analyzers rely on: `str.split()` with no
 * separator, `" ".join(...)`, `str.lower()` and `str.isalpha()`.
 */
module Text {

  /** The characters `str.isspace()` accepts, which are the ones `str.split()` breaks on. */
  predicate IsSpace(c: char) {
    var n := c as int;
    (9 <= n <= 13) || (28 <= n <= 32) || n == 0x85 || n == 0xA0 || n == 0x1680
    || (0x2000 <= n <= 0x200A) || n == 0x2028 || n == 0x2029 || n == 0x202F
    || n == 0x205F || n == 0x3000
  }

  /** A token produced by `str.split()`: non-empty and free of whitespace. */
  predicate IsWord(w: string) {
    |w| > 0 && forall i :: 0 <= i < |w| ==> !IsSpace(w[i])
  }

  /** Length of the run of non-whitespace characters at the start of `s`. */
  function WordLength(s: string): (k: nat)
    ensures k <= |s|
    ensures forall i :: 0 <= i < k ==> !IsSpace(s[i])
    ensures k < |s| ==> IsSpace(s[k])
  {
    if s == [] || IsSpace(s[0]) then 0 else 1 + WordLength(s[1..])
  }

  /**
   * `s.split()`: the maximal runs of non-whitespace characters, in order.
   * Tokens are separated by at least one character, so there are at most
   * half as many as characters, rounded up.
   */
  function Split(s: string): (r: seq<string>)
    ensures 2 * |r| <= |s| + 1
    decreases |s|
  {
    if s == [] then []
    else if IsSpace(s[0]) then Split(s[1..])
    else
      var k := WordLength(s);
      [s[..k]] + Split(s[k..])
  }

  /** Every token `Split` returns is a non-empty run free of whitespace. */
  lemma {:induction false} SplitWords(s: string)
    ensures forall i :: 0 <= i < |Split(s)| ==> IsWord(Split(s)[i])
    decreases |s|
  {
    if s == [] {
    } else if IsSpace(s[0]) {
      SplitWords(s[1..]);
    } else {
      SplitWords(s[WordLength(s)..]);
    }
  }

  /** The total number of characters in `ws`. */
  function TotalLength(ws: seq<string>): nat {
    if ws == [] then 0 else |ws[0]| + TotalLength(ws[1..])
  }

  /** `" ".join(ws)`: the words and one separator between each two of them. */
  function Join(ws: seq<string>): (r: string)
    ensures ws != [] ==> |r| == TotalLength(ws) + |ws| - 1
    ensures ws == [] ==> r == []
  {
    if ws == [] then ""
    else if |ws| == 1 then ws[0]
    else ws[0] + " " + Join(ws[1..])
  }

  /** A word followed by whitespace or by nothing is split off as one token. */
  lemma SplitAfterWord(w: string, rest: string)
    requires IsWord(w)
    requires rest == [] || IsSpace(rest[0])
    ensures Split(w + rest) == [w] + Split(rest)
  {
    var s := w + rest;
    var k := WordLength(s);
    assert forall i :: 0 <= i < |w| ==> s[i] == w[i];
    assert |w| < |s| ==> s[|w|] == rest[0];
    assert k == |w|;
    assert s[..k] == w;
    assert s[k..] == rest;
  }

  /** Splitting the space-joined words gives the words back. */
  lemma {:induction false} SplitJoin(ws: seq<string>)
    requires forall i :: 0 <= i < |ws| ==> IsWord(ws[i])
    ensures Split(Join(ws)) == ws
  {
    if ws == [] {
    } else if |ws| == 1 {
      SplitAfterWord(ws[0], "");
      assert ws[0] + "" == ws[0];
    } else {
      var tail := Join(ws[1..]);
      var rest := " " + tail;
      assert Join(ws) == ws[0] + rest;
      SplitAfterWord(ws[0], rest);
      assert rest[1..] == tail;
      assert Split(rest) == Split(tail);
      SplitJoin(ws[1..]);
      assert ws == [ws[0]] + ws[1..];
    }
  }

  /** Text made only of whitespace (including the empty text) has no tokens. */
  lemma {:induction false} SplitBlank(s: string)
    requires forall i :: 0 <= i < |s| ==> IsSpace(s[i])
    ensures Split(s) == []
    decreases |s|
  {
    if s != [] {
      SplitBlank(s[1..]);
    }
  }

  /** A text with no tokens is made only of whitespace. */
  lemma {:induction false} SplitEmptyIsBlank(s: string)
    requires Split(s) == []
    ensures forall i :: 0 <= i < |s| ==> IsSpace(s[i])
    decreases |s|
  {
    if s != [] {
      assert IsSpace(s[0]);
      SplitEmptyIsBlank(s[1..]);
      forall i | 0 < i < |s| ensures IsSpace(s[i]) {
        assert s[i] == s[1..][i - 1];
      }
    }
  }

  /** The lower-case form of one character (ASCII letters only). */
  function LowerChar(c: char): char {
    if 'A' <= c <= 'Z' then (c as int + 32) as char else c
  }

  /**
   * `s.lower()`, restricted to ASCII letters: same length, no upper-case
   * letter left, and every character that is not an upper-case letter kept.
   */
  function Lower(s: string): (r: string)
    ensures |r| == |s|
    ensures forall i :: 0 <= i < |s| ==> !('A' <= r[i] <= 'Z') && ('A' <= s[i] <= 'Z' || r[i] == s[i])
  {
    seq(|s|, i requires 0 <= i < |s| => LowerChar(s[i]))
  }

  /** Lower-casing twice is lower-casing once. */
  lemma LowerTwice(s: string)
    ensures Lower(Lower(s)) == Lower(s)
  {
    assert forall i :: 0 <= i < |s| ==> LowerChar(LowerChar(s[i])) == LowerChar(s[i]);
  }

  /** Each token, lower-cased. */
  function LowerEach(ws: seq<string>): seq<string> {
    seq(|ws|, i requires 0 <= i < |ws| => Lower(ws[i]))
  }

  /**
   * `s.isalpha()`, restricted to ASCII letters: non-empty and letters only.
   * Such a string is a whole token: no whitespace splits it.
   */
  predicate IsAlpha(w: string): (b: bool)
    ensures b ==> IsWord(w)
  {
    |w| > 0 && forall i :: 0 <= i < |w| ==> ('a' <= w[i] <= 'z' || 'A' <= w[i] <= 'Z')
  }

  lemma {:induction false} WordLengthLower(s: string)
    ensures WordLength(Lower(s)) == WordLength(s)
    decreases |s|
  {
    if s != [] {
      assert Lower(s)[0] == LowerChar(s[0]);
      assert Lower(s)[1..] == Lower(s[1..]);
      WordLengthLower(s[1..]);
    }
  }

  /** Lower-casing each token of a list distributes over putting a token in front. */
  lemma LowerEachCons(w: string, ws: seq<string>)
    ensures LowerEach([w] + ws) == [Lower(w)] + LowerEach(ws)
  {
  }

  /** Lower-casing a slice is slicing the lower-cased text. */
  lemma LowerSlices(s: string, k: nat)
    requires k <= |s|
    ensures Lower(s)[..k] == Lower(s[..k]) && Lower(s)[k..] == Lower(s[k..])
  {
  }

  /** Lower-casing and then splitting is splitting and then lower-casing each token. */
  lemma {:induction false} SplitLower(s: string)
    ensures Split(Lower(s)) == LowerEach(Split(s))
    decreases |s|
  {
    if s != [] {
      var l := Lower(s);
      assert l[0] == LowerChar(s[0]);
      if IsSpace(s[0]) {
        assert l[1..] == Lower(s[1..]);
        SplitLower(s[1..]);
      } else {
        var k := WordLength(s);
        WordLengthLower(s);
        LowerSlices(s, k);
        SplitLower(s[k..]);
        LowerEachCons(s[..k], Split(s[k..]));
      }
    }
  }

  /** Lower-casing never changes how many tokens a text has. */
  lemma WordCountLower(s: string)
    ensures |Split(Lower(s))| == |Split(s)|
  {
    SplitLower(s);
  }
}
