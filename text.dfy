/** String normalisation used by the speech matcher: the ASCII part of
    JavaScript's `String.prototype.trim` and `String.prototype.toLowerCase`. */
module Text {

  /** ASCII white space as `trim` strips it: space, tab, line feed,
      vertical tab, form feed and carriage return. */
  predicate IsSpace(c: char) {
    c == ' ' || c == '\t' || c == '\n' || c == '\U{B}' || c == '\U{C}' || c == '\r'
  }

  predicate IsUpper(c: char) {
    'A' <= c <= 'Z'
  }

  predicate AllSpace(s: string) {
    forall k :: 0 <= k < |s| ==> IsSpace(s[k])
  }

  /** `toLowerCase` on one character: ASCII capitals map to their small letter. */
  function LowerChar(c: char): (r: char)
    ensures !IsUpper(r)
    ensures IsUpper(c) ==> r as int == c as int + 32
    ensures !IsUpper(c) ==> r == c
  {
    if IsUpper(c) then (c as int + 32) as char else c
  }

  /** `toLowerCase` on a string: every character lowered in place. */
  function Lower(s: string): (r: string)
    ensures |r| == |s|
    ensures forall k :: 0 <= k < |s| ==> r[k] == LowerChar(s[k])
    ensures forall k :: 0 <= k < |r| ==> !IsUpper(r[k])
  {
    if s == [] then [] else [LowerChar(s[0])] + Lower(s[1..])
  }

  /** Drops the leading white space. */
  function TrimStart(s: string): (r: string)
    ensures |r| <= |s| && r == s[|s| - |r|..]
    ensures AllSpace(s[..|s| - |r|])
    ensures r == [] || !IsSpace(r[0])
  {
    if s != [] && IsSpace(s[0]) then
      var r := TrimStart(s[1..]);
      assert s[..|s| - |r|] == [s[0]] + s[1..][..|s| - 1 - |r|];
      r
    else s
  }

  /** Drops the trailing white space. */
  function TrimEnd(s: string): (r: string)
    ensures |r| <= |s| && r == s[..|r|]
    ensures AllSpace(s[|r|..])
    ensures r == [] || !IsSpace(r[|r| - 1])
  {
    if s != [] && IsSpace(s[|s| - 1]) then TrimEnd(s[..|s| - 1]) else s
  }

  /** `trim`: white space removed from both ends. */
  function Trim(s: string): (r: string)
    ensures |r| <= |s|
    ensures r == [] || (!IsSpace(r[0]) && !IsSpace(r[|r| - 1]))
  {
    TrimEnd(TrimStart(s))
  }

  /** The key the matcher compares labels with: `t.trim().toLowerCase()`. */
  function Normalize(t: string): string {
    Lower(Trim(t))
  }

  /** Leading padding of white space is exactly what TrimStart removes. */
  lemma {:induction false} TrimStartPadding(pad: string, s: string)
    requires AllSpace(pad)
    requires s == [] || !IsSpace(s[0])
    ensures TrimStart(pad + s) == s
  {
    if pad != [] {
      assert (pad + s)[1..] == pad[1..] + s;
      TrimStartPadding(pad[1..], s);
    } else {
      assert pad + s == s;
    }
  }

  /** Trailing padding of white space is exactly what TrimEnd removes. */
  lemma {:induction false} TrimEndPadding(s: string, pad: string)
    requires AllSpace(pad)
    requires s == [] || !IsSpace(s[|s| - 1])
    ensures TrimEnd(s + pad) == s
  {
    if pad != [] {
      assert (s + pad)[..|s + pad| - 1] == s + pad[..|pad| - 1];
      TrimEndPadding(s, pad[..|pad| - 1]);
    } else {
      assert s + pad == s;
    }
  }

  /** A word with white space on either side trims back to the word, and a
      string that is all white space trims to the empty string. */
  lemma {:induction false} TrimStripsPadding(front: string, word: string, back: string)
    requires AllSpace(front) && AllSpace(back)
    requires word == [] || (!IsSpace(word[0]) && !IsSpace(word[|word| - 1]))
    ensures Trim(front + word + back) == word
  {
    if word == [] {
      assert front + word + back == front + back;
      assert AllSpace(front + back);
      TrimStartPadding(front + back, []);
      assert front + back + [] == front + back;
      TrimEndPadding([], []);
    } else {
      assert front + word + back == front + (word + back);
      TrimStartPadding(front, word + back);
      TrimEndPadding(word, back);
    }
  }

  /** A string with no white space at either end is its own trim. */
  lemma {:induction false} TrimFixesTrimmed(t: string)
    requires t == [] || (!IsSpace(t[0]) && !IsSpace(t[|t| - 1]))
    ensures Trim(t) == t
  {
    var none: string := [];
    assert none + t + none == t;
    TrimStripsPadding(none, t, none);
  }

  /** Trimming is idempotent. */
  lemma {:induction false} TrimIdempotent(s: string)
    ensures Trim(Trim(s)) == Trim(s)
  {
    TrimFixesTrimmed(Trim(s));
  }

  /** Lowering forgets case and nothing else. */
  lemma LowerIgnoresCase(s: string, t: string)
    requires |s| == |t| && forall k :: 0 <= k < |s| ==> LowerChar(s[k]) == LowerChar(t[k])
    ensures Lower(s) == Lower(t)
  {
  }

  /** A word said with white space around it has the key of the word. */
  lemma {:induction false} NormalizePadded(front: string, word: string, back: string)
    requires AllSpace(front) && AllSpace(back)
    requires word == [] || (!IsSpace(word[0]) && !IsSpace(word[|word| - 1]))
    ensures Normalize(front + word + back) == Lower(word)
  {
    TrimStripsPadding(front, word, back);
  }
}
