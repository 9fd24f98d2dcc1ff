/**
 * The parts of JavaScript's string semantics that the components rely on:
 * `String.prototype.trim`, `startsWith` and the falsiness of the empty string.
 */
module JsString {

  /**
   * The code points `trim` strips: ECMAScript WhiteSpace (tab, vertical tab, form
   * feed, space, no-break space, the byte order mark and the Unicode space
   * separators) and LineTerminator (line feed, carriage return, U+2028, U+2029).
   */
  predicate IsWhitespace(c: char)
  {
    || '\t' <= c <= '\r'
    || c == ' ' || c == '\U{00A0}' || c == '\U{1680}'
    || '\U{2000}' <= c <= '\U{200A}'
    || c == '\U{2028}' || c == '\U{2029}' || c == '\U{202F}' || c == '\U{205F}'
    || c == '\U{3000}' || c == '\U{FEFF}'
  }

  predicate AllWhitespace(s: string)
  {
    forall k :: 0 <= k < |s| ==> IsWhitespace(s[k])
  }

  /** `s.startsWith(prefix)`. */
  predicate StartsWith(s: string, prefix: string)
  {
    prefix <= s
  }

  /** Number of whitespace characters at the front of `s`. */
  function LeadingSpace(s: string): (n: nat)
    ensures n <= |s|
  {
    if |s| > 0 && IsWhitespace(s[0]) then 1 + LeadingSpace(s[1..]) else 0
  }

  /** Number of whitespace characters at the back of `s`. */
  function TrailingSpace(s: string): (n: nat)
    ensures n <= |s|
  {
    if |s| > 0 && IsWhitespace(s[|s| - 1]) then 1 + TrailingSpace(s[..|s| - 1]) else 0
  }

  /** `LeadingSpace` counts the longest whitespace prefix. */
  lemma {:induction false} LeadingSpaceMaximal(s: string)
    ensures AllWhitespace(s[..LeadingSpace(s)])
    ensures LeadingSpace(s) < |s| ==> !IsWhitespace(s[LeadingSpace(s)])
  {
    if |s| > 0 && IsWhitespace(s[0]) {
      LeadingSpaceMaximal(s[1..]);
      var n := LeadingSpace(s[1..]);
      assert s[..n + 1] == [s[0]] + s[1..][..n];
    }
  }

  /** `TrailingSpace` counts the longest whitespace suffix. */
  lemma {:induction false} TrailingSpaceMaximal(s: string)
    ensures AllWhitespace(s[|s| - TrailingSpace(s)..])
    ensures TrailingSpace(s) < |s| ==> !IsWhitespace(s[|s| - 1 - TrailingSpace(s)])
  {
    if |s| > 0 && IsWhitespace(s[|s| - 1]) {
      var t := s[..|s| - 1];
      assert |t| == |s| - 1;
      TrailingSpaceMaximal(t);
      var n := TrailingSpace(t);
      assert TrailingSpace(s) == n + 1;
      var tail := s[|s| - (n + 1)..];
      forall k | 0 <= k < |tail| ensures IsWhitespace(tail[k]) {
        if k < n {
          assert tail[k] == t[|t| - n..][k];
        } else {
          assert tail[k] == s[|s| - 1];
        }
      }
      if n < |t| {
        assert s[|s| - 1 - (n + 1)] == t[|t| - 1 - n];
      }
    }
  }

  /** `s.trim()`: `s` without its leading and trailing whitespace. */
  function Trim(s: string): (r: string)
  {
    var t := s[LeadingSpace(s)..];
    t[..|t| - TrailingSpace(t)]
  }

  /**
   * `Trim(s)` is the infix of `s` left after cutting a whitespace-only head and a
   * whitespace-only tail, and it neither starts nor ends with whitespace.
   */
  lemma TrimIsStrippedInfix(s: string)
    ensures var i := LeadingSpace(s);
            var j := i + |Trim(s)|;
            j <= |s| && Trim(s) == s[i..j] &&
            AllWhitespace(s[..i]) && AllWhitespace(s[j..])
    ensures Trim(s) != [] ==> !IsWhitespace(Trim(s)[0]) && !IsWhitespace(Trim(s)[|Trim(s)| - 1])
  {
    TrimIsInfix(s);
    TrimEnds(s);
  }

  /** `Trim(s)` is the infix of `s` between a whitespace-only head and tail. */
  lemma TrimIsInfix(s: string)
    ensures var i := LeadingSpace(s);
            var j := i + |Trim(s)|;
            j <= |s| && Trim(s) == s[i..j] &&
            AllWhitespace(s[..i]) && AllWhitespace(s[j..])
  {
    LeadingSpaceMaximal(s);
    TrimSlice(s);
    TrimTail(s);
  }

  /** Where `Trim(s)` sits inside `s`. */
  lemma TrimSlice(s: string)
    ensures LeadingSpace(s) + |Trim(s)| <= |s|
    ensures Trim(s) == s[LeadingSpace(s)..LeadingSpace(s) + |Trim(s)|]
  {
    var i := LeadingSpace(s);
    var t := s[i..];
    var n := TrailingSpace(t);
    assert Trim(s) == t[..|t| - n];
    assert t[..|t| - n] == s[i..i + |t| - n];
  }

  /** What follows `Trim(s)` inside `s` is whitespace. */
  lemma TrimTail(s: string)
    ensures LeadingSpace(s) + |Trim(s)| <= |s|
    ensures AllWhitespace(s[LeadingSpace(s) + |Trim(s)|..])
  {
    var i := LeadingSpace(s);
    var t := s[i..];
    var n := TrailingSpace(t);
    TrailingSpaceMaximal(t);
    assert |Trim(s)| == |t| - n;
    assert s[i + |t| - n..] == t[|t| - n..];
  }

  /** A non-empty `Trim(s)` neither starts nor ends with whitespace. */
  lemma TrimEnds(s: string)
    ensures Trim(s) != [] ==> !IsWhitespace(Trim(s)[0]) && !IsWhitespace(Trim(s)[|Trim(s)| - 1])
  {
    var i := LeadingSpace(s);
    var t := s[i..];
    var n := TrailingSpace(t);
    var r := t[..|t| - n];
    assert Trim(s) == r;
    if r != [] {
      LeadingSpaceMaximal(s);
      TrailingSpaceMaximal(t);
      assert r[0] == t[0] == s[i];
      assert r[|r| - 1] == t[|t| - 1 - n];
    }
  }

  /** The draft counts as empty exactly when it is nothing but whitespace. */
  lemma TrimEmptyIff(s: string)
    ensures Trim(s) == [] <==> AllWhitespace(s)
  {
    TrimIsStrippedInfix(s);
    var i := LeadingSpace(s);
    if Trim(s) == [] {
      forall k | 0 <= k < |s| ensures IsWhitespace(s[k]) {
        if k < i {
          assert s[k] == s[..i][k];
        } else {
          assert s[k] == s[i..][k - i];
        }
      }
    } else {
      var c := Trim(s)[0];
      assert c == s[i];
    }
  }

  /** Trimming twice is trimming once. */
  lemma TrimIdempotent(s: string)
    ensures Trim(Trim(s)) == Trim(s)
  {
    TrimIsStrippedInfix(s);
    TrimUnpadded(Trim(s));
  }

  /** A string that neither starts nor ends with whitespace is its own trim. */
  lemma TrimUnpadded(s: string)
    requires s != [] ==> !IsWhitespace(s[0]) && !IsWhitespace(s[|s| - 1])
    ensures Trim(s) == s
  {
    assert LeadingSpace(s) == 0;
    assert s[0..] == s;
    assert TrailingSpace(s) == 0;
    assert s[..|s|] == s;
  }
}
