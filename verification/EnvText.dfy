/** Quoting and single entries of a .env file (scripts/configurator/envfile.go: parseEnv's line
    handling, closingDQuote, unescapeDQ, isValidKey, needsQuoting, formatVar).  Text is a sequence of
    Unicode characters. */
module EnvText {
  import opened Lines
  import opened Strings

  /** The lines of a file: a final newline does not start another line. */
  function FileLines(s: string): seq<string> {
    var ls := Split(s);
    if ls[|ls| - 1] == "" then ls[..|ls| - 1] else ls
  }

  // ----- Quoting -----

  predicate IsKeyStart(c: char) {
    c == '_' || 'A' <= c <= 'Z' || 'a' <= c <= 'z'
  }

  predicate IsValidKey(s: string) {
    && s != "" && IsKeyStart(s[0])
    && forall i :: 1 <= i < |s| ==> IsKeyStart(s[i]) || '0' <= s[i] <= '9'
  }

  predicate NeedsQuoting(s: string) {
    exists i :: 0 <= i < |s| && s[i] in {' ', '\t', '#', '\"', '\'', '\n', '=', ','}
  }

  function ReplaceAll(s: string, c: char, with: string): string {
    if s == "" then "" else (if s[0] == c then with else [s[0]]) + ReplaceAll(s[1..], c, with)
  }

  function Quoted(v: string): string {
    ReplaceAll(ReplaceAll(v, '\\', "\\\\"), '\"', "\\\"")
  }

  function Hash(commented: bool): string {
    if commented then "#" else ""
  }

  function FormatVar(key: string, value: string, commented: bool): string {
    Hash(commented) + key + "=" +
    if NeedsQuoting(value) then "\"" + Quoted(value) + "\"" else value
  }

  /** Position of the first double quote that no backslash escapes, -1 if there is none. */
  function ClosingQuote(s: string, i: nat): (r: int)
    ensures r < 0 || (i <= r < |s| && s[r] == '\"')
    decreases |s| - i
  {
    if i >= |s| then -1
    else if s[i] == '\\' then ClosingQuote(s, i + 2)
    else if s[i] == '\"' then i
    else ClosingQuote(s, i + 1)
  }

  method FindClosingQuote(s: string) returns (r: int)
    ensures r == ClosingQuote(s, 0)
  {
    var i := 0;
    while i < |s|
      invariant ClosingQuote(s, i) == ClosingQuote(s, 0)
    {
      if s[i] == '\\' {
        i := i + 2;
        continue;
      }
      if s[i] == '\"' {
        return i;
      }
      i := i + 1;
    }
    return -1;
  }

  function Unescaped(c: char): char {
    if c == 'n' then '\n' else if c == 't' then '\t' else c
  }

  function Unescape(s: string): string {
    if s == "" then ""
    else if s[0] == '\\' && |s| > 1 then [Unescaped(s[1])] + Unescape(s[2..])
    else [s[0]] + Unescape(s[1..])
  }

  method UnescapeQuoted(s: string) returns (r: string)
    ensures r == Unescape(s)
  {
    r := "";
    var i := 0;
    while i < |s|
      invariant 0 <= i <= |s|
      invariant Unescape(s) == r + Unescape(s[i..])
    {
      UnescapeStep(s, i);
      if s[i] == '\\' && i + 1 < |s| {
        AppendOne(r, Unescaped(s[i + 1]), Unescape(s[i + 2..]));
        r := r + [Unescaped(s[i + 1])];
        i := i + 2;
        continue;
      }
      AppendOne(r, s[i], Unescape(s[i + 1..]));
      r := r + [s[i]];
      i := i + 1;
    }
    assert r + "" == r;
  }

  lemma {:induction false} UnescapeStep(s: string, i: nat)
    requires i < |s|
    ensures Unescape(s[i..]) == if s[i] == '\\' && i + 1 < |s| then [Unescaped(s[i + 1])] + Unescape(s[i + 2..])
                                else [s[i]] + Unescape(s[i + 1..])
  {
    assert s[i..][1..] == s[i + 1..];
    if i + 1 < |s| {
      assert s[i..][2..] == s[i + 2..];
    }
  }

  // ----- One entry -----

  /** A comment or blank line has no key. */
  datatype Entry = Entry(lines: seq<string>, key: string, value: string, quoted: bool, commented: bool)

  /** What the first line of an entry is: kept verbatim, or an assignment with the text behind '='. */
  datatype Head = Verbatim | Assign(commented: bool, key: string, rest: string)

  function HeadOf(line: string): Head {
    var trimmed := Trim(line);
    if trimmed == "" then Verbatim
    else if trimmed[0] == '#' then
      var after := Trim(trimmed[1..]);
      var eq := IndexOf(after, '=');
      if eq > 0 && IsValidKey(Trim(after[..eq])) then Assign(true, Trim(after[..eq]), after[eq + 1..]) else Verbatim
    else
      var eq := IndexOf(trimmed, '=');
      if eq <= 0 then Verbatim else Assign(false, Trim(trimmed[..eq]), trimmed[eq + 1..])
  }

  /** The continuation lines of a quoted value: their text up to the closing quote. */
  datatype Scan = Scan(parts: seq<string>, count: nat, closed: bool)

  function Continue(ls: seq<string>): (r: Scan)
    ensures r.count <= |ls| && (!r.closed ==> r.count == |ls|)
  {
    if ls == [] then Scan([], 0, false)
    else
      var idx := ClosingQuote(ls[0], 0);
      if idx >= 0 then Scan([ls[0][..idx]], 1, true)
      else
        var rest := Continue(ls[1..]);
        Scan([ls[0]] + rest.parts, rest.count + 1, rest.closed)
  }

  /** An entry read off the front of `ls`; `closed` says that its quoted value, if any, ends. */
  datatype Parsed = Parsed(entry: Entry, closed: bool)

  function ParseEntry(ls: seq<string>): (p: Parsed)
    requires ls != []
    ensures 0 < |p.entry.lines| <= |ls| && p.entry.lines == ls[..|p.entry.lines|]
    ensures !p.closed ==> |p.entry.lines| == |ls|
  {
    match HeadOf(ls[0])
    case Verbatim => Parsed(Entry([ls[0]], "", "", false, false), true)
    case Assign(commented, key, rest) =>
      if rest != "" && rest[0] == '\"' then
        var body := rest[1..];
        var idx := ClosingQuote(body, 0);
        if idx >= 0 then Parsed(Entry([ls[0]], key, Unescape(body[..idx]), true, commented), true)
        else
          var more := Continue(ls[1..]);
          Parsed(Entry(ls[..more.count + 1], key, Unescape(Join([body] + more.parts)), true, commented), more.closed)
      else if rest != "" && rest[0] == '\'' then
        var body := rest[1..];
        var idx := IndexOf(body, '\'');
        Parsed(Entry([ls[0]], key, if idx >= 0 then body[..idx] else body, true, commented), true)
      else Parsed(Entry([ls[0]], key, Trim(rest), false, commented), true)
  }

  lemma {:induction false} ContinueIsLocal(ls: seq<string>, tail: seq<string>)
    requires Continue(ls).closed
    ensures Continue(ls[..Continue(ls).count] + tail) == Continue(ls)
  {
    var n := Continue(ls).count;
    var other := ls[..n] + tail;
    if ClosingQuote(ls[0], 0) < 0 {
      ContinueIsLocal(ls[1..], tail);
      assert other[1..] == ls[1..][..n - 1] + tail;
    }
  }

  /** A closed entry is read the same whatever follows it. */
  lemma {:induction false} ParseEntryIsLocal(ls: seq<string>, tail: seq<string>)
    requires ls != [] && ParseEntry(ls).closed
    ensures ParseEntry(ParseEntry(ls).entry.lines + tail) == ParseEntry(ls)
  {
    var p := ParseEntry(ls);
    var n := |p.entry.lines|;
    var other := p.entry.lines + tail;
    assert other[0] == ls[0] && other[..n] == ls[..n];
    assert other[..1] == ls[..1] == [ls[0]];
    if HeadOf(ls[0]).Assign? {
      var rest := HeadOf(ls[0]).rest;
      if rest != "" && rest[0] == '\"' && ClosingQuote(rest[1..], 0) < 0 {
        ContinueIsLocal(ls[1..], tail);
        assert other[1..] == ls[1..][..n - 1] + tail;
      }
    }
  }

  // ----- Escaping -----

  function EscapeChar(c: char): string {
    if c == '\\' then "\\\\" else if c == '\"' then "\\\"" else [c]
  }

  function Escape(v: string): string {
    if v == "" then "" else EscapeChar(v[0]) + Escape(v[1..])
  }

  lemma {:induction false} ReplaceAllAppend(a: string, b: string, c: char, with: string)
    ensures ReplaceAll(a + b, c, with) == ReplaceAll(a, c, with) + ReplaceAll(b, c, with)
  {
    if a == "" {
      assert a + b == b;
    } else {
      assert (a + b)[1..] == a[1..] + b;
      ReplaceAllAppend(a[1..], b, c, with);
    }
  }

  lemma {:induction false} ReplaceAllAbsent(s: string, c: char, with: string)
    requires c !in s
    ensures ReplaceAll(s, c, with) == s
  {
    if s != "" {
      assert s[0] in s && forall d :: d in s[1..] ==> d in s;
      ReplaceAllAbsent(s[1..], c, with);
      assert [s[0]] + s[1..] == s;
    }
  }

  /** The two replacements together escape each character on its own. */
  lemma {:induction false} QuotedIsEscape(v: string)
    ensures Quoted(v) == Escape(v)
  {
    if v != "" {
      QuotedIsEscape(v[1..]);
      var first := if v[0] == '\\' then "\\\\" else [v[0]];
      ReplaceAllAppend(first, ReplaceAll(v[1..], '\\', "\\\\"), '\"', "\\\"");
      if v[0] == '\"' {
        assert first[1..] == "";
        assert ReplaceAll(first, '\"', "\\\"") == "\\\"" + "";
      } else {
        ReplaceAllAbsent(first, '\"', "\\\"");
      }
    }
  }

  lemma {:induction false} UnescapeEscape(v: string)
    ensures Unescape(Escape(v)) == v
  {
    if v != "" {
      UnescapeEscape(v[1..]);
      var e, rest := EscapeChar(v[0]), Escape(v[1..]);
      assert (e + rest)[|e|..] == rest;
      assert [v[0]] + v[1..] == v;
    }
  }

  lemma {:induction false} EscapedCharHasNoQuote(s: string, i: nat, c: char)
    requires i + |EscapeChar(c)| <= |s| && s[i..i + |EscapeChar(c)|] == EscapeChar(c)
    ensures ClosingQuote(s, i) == ClosingQuote(s, i + |EscapeChar(c)|)
  {
    var e := s[i..i + |EscapeChar(c)|];
    assert s[i] == e[0];
    if |e| == 2 {
      assert s[i + 1] == e[1];
    }
  }

  /** An escaped text holds no closing quote; the next quote behind it closes. */
  lemma {:induction false} EscapeHasNoQuote(s: string, i: nat, v: string)
    requires i + |Escape(v)| <= |s| && s[i..i + |Escape(v)|] == Escape(v)
    ensures ClosingQuote(s, i) == ClosingQuote(s, i + |Escape(v)|)
    decreases |v|
  {
    hide ClosingQuote, EscapeChar;
    if v != "" {
      var c, rest := EscapeChar(v[0]), Escape(v[1..]);
      var e := s[i..i + |c + rest|];
      assert e == c + rest;
      assert s[i..i + |c|] == e[..|c|] == c;
      EscapedCharHasNoQuote(s, i, v[0]);
      assert s[i + |c|..i + |c| + |rest|] == e[|c|..] == rest;
      EscapeHasNoQuote(s, i + |c|, v[1..]);
    }
  }

  lemma {:induction false} EscapeAppend(a: string, b: string)
    ensures Escape(a + b) == Escape(a) + Escape(b)
  {
    if a == "" {
      assert a + b == b;
    } else {
      assert (a + b)[1..] == a[1..] + b;
      EscapeAppend(a[1..], b);
    }
  }

  lemma {:induction false} EscapeKeepsLines(v: string)
    ensures Split(Escape(v)) == EscapeEach(Split(v))
  {
    if v != "" {
      EscapeKeepsLines(v[1..]);
      var e, rest := EscapeChar(v[0]), Escape(v[1..]);
      if v[0] == '\n' {
        assert Escape(v)[1..] == rest;
        assert EscapeEach(Split(v))[1..] == EscapeEach(Split(v[1..]));
      } else {
        assert OneLine(e);
        SplitPrefix(e, rest);
        var ls := Split(v[1..]);
        assert ([v[0]] + ls[0])[1..] == ls[0];
        assert Split(v)[1..] == ls[1..];
        assert EscapeEach(ls)[1..] == EscapeEach(ls[1..]);
      }
    }
  }

  function EscapeEach(ls: seq<string>): seq<string> {
    if ls == [] then [] else [Escape(ls[0])] + EscapeEach(ls[1..])
  }

  lemma {:induction false} JoinEscapeEach(ls: seq<string>)
    ensures Join(EscapeEach(ls)) == Escape(Join(ls))
    ensures |EscapeEach(ls)| == |ls|
  {
    if ls != [] {
      JoinEscapeEach(ls[1..]);
      assert EscapeEach(ls)[1..] == EscapeEach(ls[1..]);
      if |ls| > 1 {
        EscapeAppend(ls[0] + "\n", Join(ls[1..]));
        EscapeAppend(ls[0], "\n");
        assert "\n"[1..] == "";
        assert Escape("\n") == "\n";
      }
    }
  }

  lemma {:induction false} EscapeTrimRight(v: string)
    ensures TrimRight(Escape(v)) == Escape(TrimRight(v))
    decreases |v|
  {
    if v != "" {
      var front, c := v[..|v| - 1], v[|v| - 1];
      assert v == front + [c];
      EscapeAppend(front, [c]);
      assert [c][1..] == "";
      assert Escape([c]) == EscapeChar(c);
      if IsSpace(c) {
        EscapeTrimRight(front);
        assert Escape(v)[..|Escape(v)| - 1] == Escape(front);
      } else {
        assert !IsSpace(EscapeChar(c)[|EscapeChar(c)| - 1]);
      }
    }
  }
}
