/** String helpers shared by the models: white space, lower case, decimal numerals. */
module Strings {

  datatype Option<+T> = None | Some(value: T)

  /** White space as Go's unicode.IsSpace defines it. */
  predicate IsSpace(c: char) {
    || c in {' ', '\t', '\n', '\r'}
    || c in {'\U{000B}', '\U{000C}', '\U{0085}', '\U{00A0}', '\U{1680}', '\U{2028}', '\U{2029}'}
    || c in {'\U{202F}', '\U{205F}', '\U{3000}'}
    || '\U{2000}' <= c <= '\U{200A}'
  }

  function TrimLeft(s: string): string {
    if s != "" && IsSpace(s[0]) then TrimLeft(s[1..]) else s
  }

  function TrimRight(s: string): string {
    if s != "" && IsSpace(s[|s| - 1]) then TrimRight(s[..|s| - 1]) else s
  }

  function Trim(s: string): string {
    TrimRight(TrimLeft(s))
  }

  lemma {:induction false} TrimRightKeeps(a: string, s: string)
    requires a != "" && !IsSpace(a[|a| - 1])
    ensures TrimRight(a + s) == a + TrimRight(s)
    decreases |s|
  {
    if s == "" {
      assert a + s == a;
    } else if IsSpace(s[|s| - 1]) {
      assert (a + s)[..|a + s| - 1] == a + s[..|s| - 1];
      TrimRightKeeps(a, s[..|s| - 1]);
    }
  }

  lemma {:induction false} TrimKeepsFront(a: string, s: string)
    requires a != "" && !IsSpace(a[0]) && !IsSpace(a[|a| - 1])
    ensures Trim(a + s) == a + TrimRight(s)
  {
    assert TrimLeft(a + s) == a + s;
    TrimRightKeeps(a, s);
  }

  lemma {:induction false} TrimRightIsPrefix(s: string)
    ensures TrimRight(s) <= s
    ensures TrimRight(s) != "" ==> !IsSpace(TrimRight(s)[|TrimRight(s)| - 1])
    ensures TrimRight(TrimRight(s)) == TrimRight(s)
    decreases |s|
  {
    if s != "" && IsSpace(s[|s| - 1]) {
      TrimRightIsPrefix(s[..|s| - 1]);
    }
  }

  lemma {:induction false} TrimRightLeft(s: string)
    ensures TrimLeft(TrimRight(s)) == TrimRight(TrimLeft(s))
    decreases |s|
  {
    if s != "" && IsSpace(s[0]) {
      TrimRightDropsFront(s);
      TrimRightLeft(s[1..]);
      TrimRightIsPrefix(s);
    } else if s != "" {
      TrimRightKeeps([s[0]], s[1..]);
      assert [s[0]] + s[1..] == s;
    }
  }

  lemma {:induction false} TrimRightDropsFront(s: string)
    requires s != ""
    ensures TrimRight(s) != "" ==> TrimRight(s)[1..] == TrimRight(s[1..])
    ensures TrimRight(s) == "" ==> TrimRight(s[1..]) == ""
    decreases |s|
  {
    if IsSpace(s[|s| - 1]) {
      if |s| > 1 {
        TrimRightDropsFront(s[..|s| - 1]);
        assert s[1..][..|s| - 2] == s[..|s| - 1][1..];
      }
    }
  }

  predicate IsBlank(s: string) {
    forall i :: 0 <= i < |s| ==> IsSpace(s[i])
  }

  /** Decimal numeral of a natural number, as Go's %d prints it. */
  function Decimal(n: nat): string {
    if n < 10 then [Digit(n)] else Decimal(n / 10) + [Digit(n % 10)]
  }

  function Digit(d: nat): char
    requires d < 10
  {
    '0' + d as char
  }

  /** Position of the first `c` in `s`, or -1, as Go's strings.Index and strings.IndexByte give it. */
  function IndexOf(s: string, c: char): (i: int)
    ensures -1 <= i < |s|
    ensures i >= 0 ==> s[i] == c && c !in s[..i]
    ensures i < 0 ==> c !in s
  {
    if s == "" then -1
    else if s[0] == c then 0
    else
      var i := IndexOf(s[1..], c);
      if i < 0 then -1 else i + 1
  }

  lemma {:induction false} IndexOfAfter(a: string, c: char, b: string)
    requires c !in a
    ensures IndexOf(a + [c] + b, c) == |a|
  {
    var s := a + [c] + b;
    assert s[|a|] == c;
    if a != "" {
      assert s[0] in a && forall d :: d in a[1..] ==> d in a;
      assert s[1..] == a[1..] + [c] + b;
      IndexOfAfter(a[1..], c, b);
    }
  }

  // ----- Reassociating appends -----

  lemma {:induction false} AppendOne<T>(a: seq<T>, x: T, b: seq<T>)
    ensures a + ([x] + b) == (a + [x]) + b
  {
  }

  lemma {:induction false} AppendCons<T>(a: seq<T>, x: T, b: seq<T>, c: seq<T>)
    requires c == [x] + b
    ensures a + c == (a + [x]) + b
  {
  }

  lemma {:induction false} AppendMany<T>(a: seq<T>, b: seq<T>, c: seq<T>)
    ensures a + (b + c) == (a + b) + c
  {
  }

  function ToLowerChar(c: char): char {
    if 'A' <= c <= 'Z' then c - 'A' + 'a' else c
  }

  /** ASCII lower case. */
  function ToLower(s: string): (r: string)
    ensures |r| == |s|
  {
    if s == "" then "" else [ToLowerChar(s[0])] + ToLower(s[1..])
  }

  lemma {:induction false} ToLowerAt(s: string)
    ensures forall i :: 0 <= i < |s| ==> ToLower(s)[i] == ToLowerChar(s[i])
  {
    if s != "" {
      ToLowerAt(s[1..]);
      assert forall i :: 0 < i < |s| ==> s[i] == s[1..][i - 1];
    }
  }

  lemma {:induction false} LowerKeepsMarks(c: char)
    ensures IsSpace(ToLowerChar(c)) <==> IsSpace(c)
    ensures (ToLowerChar(c) == '|' <==> c == '|') && (ToLowerChar(c) == '#' <==> c == '#')
    ensures ToLowerChar(c) == '\n' <==> c == '\n'
    ensures ToLowerChar(ToLowerChar(c)) == ToLowerChar(c)
  {
  }

  // ----- What trimming leaves -----

  lemma {:induction false} BlankAppend(a: string, b: string)
    ensures IsBlank(a + b) <==> IsBlank(a) && IsBlank(b)
  {
    if IsBlank(a + b) {
      assert forall i :: 0 <= i < |a| ==> a[i] == (a + b)[i];
      assert forall i :: 0 <= i < |b| ==> b[i] == (a + b)[|a| + i];
    }
  }

  lemma {:induction false} TrimLeftSplits(s: string) returns (a: string)
    ensures s == a + TrimLeft(s) && IsBlank(a)
    ensures TrimLeft(s) != "" ==> !IsSpace(TrimLeft(s)[0])
  {
    a := "";
    if s != "" && IsSpace(s[0]) {
      var rest := TrimLeftSplits(s[1..]);
      a := [s[0]] + rest;
      assert s == [s[0]] + s[1..];
    }
  }

  lemma {:induction false} TrimRightSplits(s: string) returns (b: string)
    ensures s == TrimRight(s) + b && IsBlank(b)
    decreases |s|
  {
    b := "";
    if s != "" && IsSpace(s[|s| - 1]) {
      var rest := TrimRightSplits(s[..|s| - 1]);
      b := rest + [s[|s| - 1]];
      assert s == s[..|s| - 1] + [s[|s| - 1]];
    }
  }

  /** Trimming drops space at both ends and nothing else. */
  lemma {:induction false} TrimSplits(s: string) returns (a: string, b: string)
    ensures s == a + Trim(s) + b && IsBlank(a) && IsBlank(b)
    ensures Trim(s) != "" ==> !IsSpace(Trim(s)[0]) && !IsSpace(Trim(s)[|Trim(s)| - 1])
  {
    a := TrimLeftSplits(s);
    var l := TrimLeft(s);
    b := TrimRightSplits(l);
    TrimRightIsPrefix(l);
    assert Trim(s) != "" ==> Trim(s)[0] == l[0];
  }

  lemma {:induction false} TrimLeftDrops(a: string, s: string)
    requires IsBlank(a)
    ensures TrimLeft(a + s) == TrimLeft(s)
  {
    if a == "" {
      assert a + s == s;
    } else {
      assert (a + s)[1..] == a[1..] + s;
      TrimLeftDrops(a[1..], s);
    }
  }

  lemma {:induction false} TrimRightDrops(s: string, b: string)
    requires IsBlank(b)
    ensures TrimRight(s + b) == TrimRight(s)
    decreases |b|
  {
    if b == "" {
      assert s + b == s;
    } else {
      assert (s + b)[..|s + b| - 1] == s + b[..|b| - 1];
      TrimRightDrops(s, b[..|b| - 1]);
    }
  }

  /** It leaves whatever starts and ends with no space. */
  lemma {:induction false} TrimLeaves(a: string, core: string, b: string)
    requires IsBlank(a) && IsBlank(b)
    requires core != "" ==> !IsSpace(core[0]) && !IsSpace(core[|core| - 1])
    ensures Trim(a + core + b) == core
  {
    assert a + core + b == a + (core + b);
    TrimLeftDrops(a, core + b);
    if core == "" {
      assert core + b == b && b + "" == b;
      TrimLeftDrops(b, "");
    } else {
      TrimRightDrops(core, b);
    }
  }

  /** White space among the ASCII characters: tab to carriage return, and the space. */
  lemma {:induction false} AsciiSpace(c: char)
    requires c < 128 as char
    ensures IsSpace(c) <==> 9 as char <= c <= 13 as char || c == 32 as char
  {
  }
}
