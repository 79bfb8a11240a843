/** Python's `str.split()` with no separator: the text is cut at runs of
    whitespace and the empty pieces are dropped. */
module Tokens {

  /** The characters for which Python's `str.isspace()` holds, by code point:
      tab to carriage return, the four ASCII separators, space, next-line,
      no-break space, ogham space, the typographic spaces U+2000 to U+200A,
      the line and paragraph separators, narrow no-break space, medium
      mathematical space and ideographic space. */
  predicate IsWhitespace(c: char)
  {
    var u := c as int;
    || 0x09 <= u <= 0x0D
    || 0x1C <= u <= 0x20
    || u == 0x85 || u == 0xA0 || u == 0x1680
    || 0x2000 <= u <= 0x200A
    || u == 0x2028 || u == 0x2029 || u == 0x202F || u == 0x205F || u == 0x3000
  }

  /** A piece `split()` can return: non-empty and free of whitespace. */
  predicate IsToken(t: string)
  {
    |t| > 0 && forall k :: 0 <= k < |t| ==> !IsWhitespace(t[k])
  }

  /** Text made of whitespace only (possibly empty). */
  predicate AllWhitespace(s: string)
  {
    forall k :: 0 <= k < |s| ==> IsWhitespace(s[k])
  }

  /** Length of the longest whitespace-free prefix of `s`. */
  function TokenEnd(s: string): (k: nat)
    ensures k <= |s|
    ensures forall j :: 0 <= j < k ==> !IsWhitespace(s[j])
    ensures k == |s| || IsWhitespace(s[k])
  {
    if |s| == 0 || IsWhitespace(s[0]) then 0 else 1 + TokenEnd(s[1..])
  }

  /** `s.split()`. */
  function Split(s: string): (tokens: seq<string>)
    ensures forall k :: 0 <= k < |tokens| ==> IsToken(tokens[k])
    decreases |s|
  {
    if |s| == 0 then []
    else if IsWhitespace(s[0]) then Split(s[1..])
    else
      var k := TokenEnd(s);
      [s[..k]] + Split(s[k..])
  }

  /** Whitespace-only text splits into nothing. */
  lemma {:induction false} SplitWhitespace(s: string)
    requires AllWhitespace(s)
    ensures Split(s) == []
    decreases |s|
  {
    if |s| > 0 {
      SplitWhitespace(s[1..]);
    }
  }

  /** Leading whitespace does not change the split. */
  lemma {:induction false} SplitSkipsWhitespace(w: string, s: string)
    requires AllWhitespace(w)
    ensures Split(w + s) == Split(s)
    decreases |w|
  {
    if |w| == 0 {
      assert w + s == s;
    } else {
      assert (w + s)[0] == w[0];
      assert (w + s)[1..] == w[1..] + s;
      SplitSkipsWhitespace(w[1..], s);
    }
  }

  /** A token runs up to the first whitespace character after it. */
  lemma {:induction false} TokenEndOfToken(t: string, s: string)
    requires IsToken(t)
    requires |s| == 0 || IsWhitespace(s[0])
    ensures TokenEnd(t + s) == |t|
    decreases |t|
  {
    if |t| > 1 {
      assert (t + s)[1..] == t[1..] + s;
      TokenEndOfToken(t[1..], s);
    } else {
      assert (t + s)[1..] == s;
    }
  }

  /** A token followed by whitespace (or the end of the text) is split off
      whole. */
  lemma {:induction false} SplitToken(t: string, s: string)
    requires IsToken(t)
    requires |s| == 0 || IsWhitespace(s[0])
    ensures Split(t + s) == [t] + Split(s)
  {
    TokenEndOfToken(t, s);
    assert (t + s)[..|t|] == t;
    assert (t + s)[|t|..] == s;
  }
}
