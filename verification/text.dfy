/** String trimming as ECMAScript's `String.prototype.trim` performs it. */
module Text {

  /** The characters `trim` removes from both ends: the WhiteSpace code points
      (tab, vertical tab, form feed, space, no-break space, byte order mark and
      every other space separator) and the LineTerminator code points. */
  predicate IsWhitespace(c: char) {
    || c == '\t' || c == '\U{000B}' || c == '\U{000C}' || c == ' '
    || c == '\U{00A0}' || c == '\U{FEFF}' || c == '\U{1680}'
    || ('\U{2000}' <= c <= '\U{200A}')
    || c == '\U{202F}' || c == '\U{205F}' || c == '\U{3000}'
    || c == '\n' || c == '\r' || c == '\U{2028}' || c == '\U{2029}'
  }

  /** Every character of `s` is whitespace (this includes the empty string). */
  predicate Blank(s: string) {
    forall i :: 0 <= i < |s| ==> IsWhitespace(s[i])
  }

  /** The number of whitespace characters `s` starts with. */
  function Lead(s: string): (n: nat)
    ensures n <= |s|
    ensures forall i :: 0 <= i < n ==> IsWhitespace(s[i])
    ensures n < |s| ==> !IsWhitespace(s[n])
  {
    if |s| > 0 && IsWhitespace(s[0]) then 1 + Lead(s[1..]) else 0
  }

  /** `s` without its trailing whitespace. */
  function TrimEnd(s: string): (r: string)
    ensures |r| <= |s| && r == s[..|r|]
    ensures forall i :: |r| <= i < |s| ==> IsWhitespace(s[i])
    ensures |r| > 0 ==> !IsWhitespace(r[|r| - 1])
  {
    if |s| > 0 && IsWhitespace(s[|s| - 1]) then TrimEnd(s[..|s| - 1]) else s
  }

  /** `r` is what remains of `s` once the whitespace before position `k` and
      after position `k + |r|` is cut away, and `r` itself neither starts nor
      ends with whitespace. */
  predicate TrimmedAt(s: string, r: string, k: nat) {
    && k + |r| <= |s|
    && r == s[k..k + |r|]
    && (forall i :: 0 <= i < k ==> IsWhitespace(s[i]))
    && (forall i :: k + |r| <= i < |s| ==> IsWhitespace(s[i]))
    && (|r| > 0 ==> !IsWhitespace(r[0]) && !IsWhitespace(r[|r| - 1]))
  }

  /** `s.trim()`: the longest infix of `s` with no whitespace at either end. */
  function Trim(s: string): (r: string)
    ensures TrimmedAt(s, r, Lead(s))
    ensures r == [] <==> Blank(s)
  {
    var k := Lead(s);
    var r := TrimEnd(s[k..]);
    assert r == s[k..k + |r|];
    assert forall i :: k + |r| <= i < |s| ==> s[i] == s[k..][i - k];
    r
  }

  /** Trimming has exactly one answer: any cut that satisfies `TrimmedAt` is `Trim`'s. */
  lemma {:induction false} TrimUnique(s: string, r: string, k: nat)
    requires TrimmedAt(s, r, k)
    ensures r == Trim(s)
    ensures |r| > 0 ==> k == Lead(s)
  {
    var t := Trim(s);
    var k0 := Lead(s);
    if |r| == 0 {
      assert Blank(s) by {
        forall i | 0 <= i < |s| ensures IsWhitespace(s[i]) {
          if i < k { } else { assert k + |r| <= i; }
        }
      }
    } else {
      assert s[k] == r[0];
      assert k == k0;
      var u := s[k..];
      assert r == u[..|r|];
      assert t == u[..|t|];
      assert |t| == |r|;
    }
  }

  /** Trimming twice changes nothing. */
  lemma TrimIdempotent(s: string)
    ensures Trim(Trim(s)) == Trim(s)
  {
    var t := Trim(s);
    assert t[0..|t|] == t;
    TrimUnique(t, t, 0);
  }
}
