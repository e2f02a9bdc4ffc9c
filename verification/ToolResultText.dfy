/** Clamping of oversized tool results (internal/agents/agent.go, truncateToolResult).  A string here
    is a Go byte string: one character per byte. */
module ToolResultText {

  const MARKER := "\n\n[... tool result truncated ...]"

  /** A UTF-8 continuation byte. */
  predicate IsTail(c: char) {
    0x80 <= c as int < 0xC0
  }

  // ----- Well-formed UTF-8, section 4 of RFC 3629 -----

  predicate TailsFrom(s: string, i: nat, n: nat) {
    n <= |s| && forall j :: i <= j < n ==> IsTail(s[j])
  }

  /** Length of the character at the front of `s`, 0 when there is none. */
  function CharLen(s: string): (n: nat)
    ensures n <= 4 && n <= |s|
    ensures forall j :: 1 <= j < n ==> IsTail(s[j])
    ensures n > 0 ==> !IsTail(s[0])
  {
    if s == "" then 0
    else
      var b := s[0] as int;
      if b <= 0x7F then 1
      else if 0xC2 <= b <= 0xDF && TailsFrom(s, 1, 2) then 2
      else if 0xE0 <= b <= 0xEF && TailsFrom(s, 1, 3) && SecondByteFits(b, s[1] as int) then 3
      else if 0xF0 <= b <= 0xF4 && TailsFrom(s, 1, 4) && SecondByteFits(b, s[1] as int) then 4
      else 0
  }

  predicate SecondByteFits(first: int, second: int) {
    match first
    case 0xE0 => 0xA0 <= second
    case 0xED => second <= 0x9F
    case 0xF0 => 0x90 <= second
    case 0xF4 => second <= 0x8F
    case _ => true
  }

  predicate ValidUtf8(s: string) {
    s == "" || (CharLen(s) > 0 && ValidUtf8(s[CharLen(s)..]))
  }

  // ----- truncateToolResult -----

  /** The largest rune boundary at or below `budget`. */
  function Boundary(s: string, budget: nat): (b: nat)
    requires budget < |s|
    ensures b <= budget
    ensures b > 0 ==> !IsTail(s[b])
    ensures forall j :: b < j <= budget ==> IsTail(s[j])
  {
    if budget > 0 && IsTail(s[budget]) then Boundary(s, budget - 1) else budget
  }

  function Truncate(s: string, maxChars: int): string {
    if maxChars <= 0 || |s| <= maxChars then s
    else if maxChars <= |MARKER| then s[..maxChars]
    else s[..Boundary(s, maxChars - |MARKER|)] + MARKER
  }

  method TruncateToolResult(result: string, maxChars: int) returns (r: string)
    ensures r == Truncate(result, maxChars)
  {
    if maxChars <= 0 || |result| <= maxChars {
      return result;
    }
    var budget := maxChars - |MARKER|;
    if budget <= 0 {
      return result[..maxChars];
    }
    while budget > 0 && IsTail(result[budget])
      invariant 0 <= budget < |result|
      invariant Boundary(result, budget) == Boundary(result, maxChars - |MARKER|)
    {
      budget := budget - 1;
    }
    return result[..budget] + MARKER;
  }

  /** With a positive limit the result never exceeds it, and short results are left alone. */
  lemma {:induction false} TruncateFits(s: string, maxChars: int)
    ensures maxChars > 0 ==> |Truncate(s, maxChars)| <= maxChars
    ensures maxChars <= 0 || |s| <= maxChars ==> Truncate(s, maxChars) == s
  {
  }

  lemma {:induction false} ValidPrefix(s: string, b: nat)
    requires ValidUtf8(s) && b < |s|
    ensures ValidUtf8(s[..b]) <==> !IsTail(s[b])
  {
    var n := CharLen(s);
    if b == 0 {
    } else if b < n {
      assert IsTail(s[b]);
      assert CharLen(s[..b]) == 0;
    } else {
      assert CharLen(s[..b]) == n;
      assert s[..b][n..] == s[n..][..b - n];
      if b == n {
        assert s[n..] != "" && s[n..][0] == s[b];
      } else {
        assert s[n..][b - n] == s[b];
        ValidPrefix(s[n..], b - n);
      }
    }
  }

  lemma {:induction false} ValidConcat(s: string, t: string)
    requires ValidUtf8(s) && ValidUtf8(t)
    ensures ValidUtf8(s + t)
  {
    if s == "" {
      assert s + t == t;
    } else {
      var n := CharLen(s);
      assert CharLen(s + t) == n;
      assert (s + t)[n..] == s[n..] + t;
      ValidConcat(s[n..], t);
    }
  }

  lemma {:induction false} AsciiIsValid(s: string)
    requires forall i :: 0 <= i < |s| ==> s[i] as int < 0x80
    ensures ValidUtf8(s)
  {
    if s != "" {
      AsciiIsValid(s[1..]);
    }
  }

  /** A character has at most three continuation bytes, so rune alignment gives up at most three. */
  lemma {:induction false} BoundaryIsClose(s: string, budget: nat)
    requires ValidUtf8(s) && budget < |s|
    ensures budget - Boundary(s, budget) <= 3
    ensures !IsTail(s[Boundary(s, budget)])
  {
    var n := CharLen(s);
    var b := Boundary(s, budget);
    if budget >= n {
      BoundaryIsClose(s[n..], budget - n);
      var c := n + Boundary(s[n..], budget - n);
      assert s[c] == s[n..][c - n] && !IsTail(s[c]);
      assert c <= b;
    }
  }

  /** The clamped result is valid UTF-8 exactly when the limit leaves room for the marker or the bare
      cut happens to fall on a rune boundary; alignment costs at most three bytes. */
  lemma {:induction false} TruncateKeepsUtf8(s: string, maxChars: int)
    requires ValidUtf8(s)
    ensures ValidUtf8(Truncate(s, maxChars)) <==>
            maxChars <= 0 || |s| <= maxChars || maxChars > |MARKER| || !IsTail(s[maxChars])
    ensures |MARKER| < maxChars < |s| ==> |Truncate(s, maxChars)| >= maxChars - 3
  {
    hide ValidUtf8, Boundary;
    if 0 < maxChars < |s| {
      if maxChars <= |MARKER| {
        ValidPrefix(s, maxChars);
      } else {
        MarkedPrefixIsValid(s, maxChars - |MARKER|);
      }
    }
  }

  lemma {:induction false} MarkerIsValid()
    ensures ValidUtf8(MARKER)
  {
    hide ValidUtf8;
    AsciiIsValid(MARKER);
  }

  lemma {:induction false} MarkedPrefixIsValid(s: string, budget: nat)
    requires ValidUtf8(s) && budget < |s|
    ensures ValidUtf8(s[..Boundary(s, budget)] + MARKER) && Boundary(s, budget) >= budget - 3
  {
    hide ValidUtf8, Boundary;
    var b := Boundary(s, budget);
    BoundaryIsClose(s, budget);
    ValidPrefix(s, b);
    MarkerIsValid();
    ValidConcat(s[..b], MARKER);
  }

  /** A result over a positive limit is cut and marked: at the last character start that leaves room for the marker,
      or bluntly at the limit if that is no longer than the marker. */
  lemma {:induction false} TruncateMeaning(s: string, maxChars: int) returns (b: nat)
    ensures maxChars <= 0 || |s| <= maxChars ==> Truncate(s, maxChars) == s
    ensures 0 < maxChars < |s| && maxChars <= 33 ==> Truncate(s, maxChars) == s[..maxChars]
    ensures 33 < maxChars < |s| ==>
              && b <= maxChars - 33 && Truncate(s, maxChars) == s[..b] + "\n\n[... tool result truncated ...]"
              && (b > 0 ==> !(0x80 <= s[b] as int < 0xC0))
              && forall j :: b < j <= maxChars - 33 ==> 0x80 <= s[j] as int < 0xC0
  {
    assert |MARKER| == 33;
    b := if |MARKER| < maxChars < |s| then Boundary(s, maxChars - |MARKER|) else 0;
  }
}
