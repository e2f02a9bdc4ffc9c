/** Which texts a .env file spells, line by line (scripts/configurator/envfile.go: parseEnv, unescapeDQ, formatVar,
    needsQuoting). */
module EnvReading {
  import opened EnvText
  import opened EnvWritten
  import opened Lines
  import opened Strings

  // ----- Writing -----

  /** The characters that call for quotes. */
  predicate Special(c: char) {
    c == ' ' || c == '\t' || c == '#' || c == '\"' || c == '\'' || c == '\n' || c == '=' || c == ','
  }

  predicate HasSpecial(v: string) {
    exists i :: 0 <= i < |v| && Special(v[i])
  }

  lemma {:induction false} QuotingMeaning(v: string)
    ensures NeedsQuoting(v) <==> HasSpecial(v)
  {
    if HasSpecial(v) {
      var i :| 0 <= i < |v| && Special(v[i]);
      assert v[i] in {' ', '\t', '#', '\"', '\'', '\n', '=', ','};
    }
  }

  /** `e` is `v` with a backslash in front of each backslash and double quote. */
  predicate Escapes(e: string, v: string)
    decreases |v|
  {
    if v == "" then e == ""
    else if v[0] == '\\' || v[0] == '\"' then |e| >= 2 && e[0] == '\\' && e[1] == v[0] && Escapes(e[2..], v[1..])
    else |e| >= 1 && e[0] == v[0] && Escapes(e[1..], v[1..])
  }

  lemma {:induction false} EscapeEscapes(v: string)
    ensures Escapes(Escape(v), v)
  {
    if v != "" {
      EscapeEscapes(v[1..]);
      var e := Escape(v);
      if v[0] == '\\' || v[0] == '\"' {
        assert e[2..] == Escape(v[1..]);
      } else {
        assert e[1..] == Escape(v[1..]);
      }
    }
  }

  /** A variable is written as its key, the equals sign and its value, in double quotes and escaped if it holds a
      special character; a commented one behind a hash sign. */
  lemma {:induction false} WrittenForm(k: string, v: string, commented: bool) returns (e: string)
    ensures Escapes(e, v)
    ensures FormatVar(k, v, commented)
         == (if commented then "#" else "") + k + "=" + if HasSpecial(v) then "\"" + e + "\"" else v
  {
    QuotingMeaning(v);
    EscapeEscapes(v);
    QuotedIsEscape(v);
    e := Escape(v);
  }

  /** No space at either end. */
  predicate Bare(v: string) {
    v == "" || (!IsSpace(v[0]) && !IsSpace(v[|v| - 1]))
  }

  /** The character in front of the first line end, if there are both, is no space. */
  predicate FirstLineEndsBare(v: string) {
    forall i :: 0 < i < |v| && v[i] == '\n' && '\n' !in v[..i] ==> !IsSpace(v[i - 1])
  }

  lemma {:induction false} TrimmedIsBare(v: string)
    ensures Trim(v) == v <==> Bare(v)
  {
    var a, b := TrimSplits(v);
    if Bare(v) {
      TrimLeaves("", v, "");
      assert "" + v + "" == v;
    }
  }

  lemma {:induction false} FirstLineOf(v: string)
    ensures Split(v)[0] <= v && '\n' !in Split(v)[0]
    ensures |Split(v)| > 1 <==> '\n' in v
    ensures |Split(v)| > 1 ==> |Split(v)[0]| < |v| && v[|Split(v)[0]|] == '\n'
  {
    if v != "" {
      FirstLineOf(v[1..]);
      assert v == [v[0]] + v[1..];
    }
  }

  lemma {:induction false} TrimRightIsBare(s: string)
    ensures TrimRight(s) == s <==> s == "" || !IsSpace(s[|s| - 1])
  {
    TrimRightIsPrefix(s);
  }

  /** Exactly these values survive being written and read: without special characters those without space at an end;
      with some those whose first line, if there are several, does not end in space. */
  lemma {:induction false} SurvivalMeaning(v: string)
    ensures Survives(v) <==> if HasSpecial(v) then FirstLineEndsBare(v) else Bare(v)
  {
    QuotingMeaning(v);
    TrimmedIsBare(v);
    FirstLineOf(v);
    var first := Split(v)[0];
    TrimRightIsBare(first);
    if |Split(v)| > 1 {
      var n := |first|;
      assert first == v[..n] && v[n] == '\n';
      assert FirstLineEndsBare(v) <==> n == 0 || !IsSpace(v[n - 1]);
    }
  }

  // ----- Reading -----

  /** Behind a backslash stands a line end, a tab, or the character itself; a backslash at the very end is one. */
  lemma {:induction false} EscapeSequences(c: char, rest: string)
    ensures Unescape("\\" + [c] + rest)
         == (if c == 'n' then "\n" else if c == 't' then "\t" else [c]) + Unescape(rest)
    ensures Unescape("\\") == "\\"
    ensures c != '\\' ==> Unescape([c] + rest) == [c] + Unescape(rest)
  {
    var s := "\\" + [c] + rest;
    assert s[0] == '\\' && s[1] == c && s[2..] == rest;
    assert ([c] + rest)[1..] == rest;
    assert "\\"[1..] == "" && Unescape("") == "";
  }

  /** A single-quoted value is read verbatim up to the next single quote, whatever follows. */
  lemma {:induction false} SingleQuotesRead(k: string, v: string, tail: string, commented: bool)
    requires IsValidKey(k) && '\'' !in v
    ensures var line := Hash(commented) + k + "=" + ("'" + v + "'" + tail);
            ParseEntry([line]) == Parsed(Entry([line], k, v, true, commented), true)
  {
    var x := "'" + v + "'" + tail;
    AssignmentHead(k, commented, x);
    TrimRightKeeps("'" + v + "'", tail);
    var t := TrimRight(tail);
    IndexOfAfter(v, '\'', t);
    var body := v + ['\''] + t;
    assert TrimRight(x) == "'" + body;
    assert body[..|v|] == v;
  }

  /** A value without quotes is read without the space around it. */
  lemma {:induction false} BareValueReads(k: string, a: string, v: string, b: string, commented: bool)
    requires IsValidKey(k) && IsBlank(a) && IsBlank(b) && Bare(v)
    requires v != "" ==> v[0] != '\"' && v[0] != '\''
    ensures var line := Hash(commented) + k + "=" + (a + v + b);
            ParseEntry([line]) == Parsed(Entry([line], k, v, false, commented), true)
  {
    var x := a + v + b;
    AssignmentHead(k, commented, x);
    TrimmedRest(a, v, b);
    hide IsSpace, Trim, TrimRight, IsBlank, Bare, IsValidKey;
    var rest := TrimRight(x);
    assert HeadOf(Hash(commented) + k + "=" + x) == Assign(commented, k, rest);
  }

  /** What is left of the text behind the equals sign, and that it does not start with a quote. */
  lemma {:induction false} TrimmedRest(a: string, v: string, b: string)
    requires IsBlank(a) && IsBlank(b) && Bare(v)
    requires v != "" ==> v[0] != '\"' && v[0] != '\''
    ensures var rest := TrimRight(a + v + b);
            Trim(rest) == v && (rest != "" ==> rest[0] != '\"' && rest[0] != '\'')
  {
    var x := a + v + b;
    TrimLeaves(a, v, b);
    TrimAfterRight(x);
    NoQuoteInFront(a, v, b);
    TrimRightIsPrefix(x);
    hide IsSpace, Trim, TrimRight, IsBlank, Bare;
    var rest := TrimRight(x);
    assert rest != "" ==> rest[0] == x[0];
  }

  lemma {:induction false} TrimAfterRight(x: string)
    ensures Trim(TrimRight(x)) == Trim(x)
  {
    TrimRightLeft(x);
    TrimRightIsPrefix(TrimLeft(x));
  }

  lemma {:induction false} NoQuoteInFront(a: string, v: string, b: string)
    requires IsBlank(a) && IsBlank(b) && (v != "" ==> v[0] != '\"' && v[0] != '\'')
    ensures var x := a + v + b; x != "" ==> x[0] != '\"' && x[0] != '\''
  {
    var x := a + v + b;
    if a != "" {
      assert x[0] == a[0];
    } else if v != "" {
      assert x[0] == v[0];
    } else if b != "" {
      assert x[0] == b[0];
    }
  }

  /** A blank line, one without an equals sign behind a key, and a comment without one are kept as they are. */
  lemma {:induction false} OtherLinesAreKept(a: string, core: string, b: string)
    requires IsBlank(a) && IsBlank(b) && Bare(core)
    requires core != "" ==> '=' !in core || core[0] == '='
    ensures var line := a + core + b;
            ParseEntry([line]) == Parsed(Entry([line], "", "", false, false), true)
  {
    TrimLeaves(a, core, b);
    if core != "" && core[0] == '#' {
      var x, y := TrimSplits(core[1..]);
      var after := Trim(core[1..]);
      assert forall c :: c in after ==> c in core[1..];
      assert '=' !in after;
    }
  }

  /** So is a comment with an equals sign if what stands before it is no valid key. */
  lemma {:induction false} ProseIsKept(a: string, space: string, p: string, q: string)
    requires IsBlank(a) && IsBlank(space) && p != "" && Bare(p) && '=' !in p && !IsValidKey(p)
    ensures var line := a + "#" + space + p + "=" + q;
            ParseEntry([line]) == Parsed(Entry([line], "", "", false, false), true)
  {
    var line, body := a + "#" + space + p + "=" + q, space + (p + "=" + q);
    assert line == a + ("#" + body);
    TrimLeftDrops(a, "#" + body);
    assert TrimLeft("#" + body) == "#" + body;
    TrimRightKeeps("#", body);
    TrimOfTail(space, p, q);
    TrimmedIsBare(p);
    var trimmed := "#" + TrimRight(body);
    assert Trim(line) == trimmed;
    hide *;
    assert trimmed[1..] == TrimRight(body);
    VerbatimComment(line, trimmed, p, TrimRight(q));
  }

  lemma {:induction false} VerbatimComment(line: string, trimmed: string, p: string, tail: string)
    requires Trim(line) == trimmed && trimmed != "" && trimmed[0] == '#' && Trim(trimmed[1..]) == p + "=" + tail
    requires '=' !in p && Trim(p) == p && !IsValidKey(p)
    ensures ParseEntry([line]) == Parsed(Entry([line], "", "", false, false), true)
  {
    hide Trim, IsValidKey;
    IndexOfAfter(p, '=', tail);
    var after := p + "=" + tail;
    assert p + ['='] + tail == after && after[..|p|] == p;
  }

  lemma {:induction false} TrimOfTail(space: string, p: string, q: string)
    requires IsBlank(space) && p != "" && Bare(p)
    ensures Trim(TrimRight(space + (p + "=" + q))) == p + "=" + TrimRight(q)
  {
    var body := space + (p + "=" + q);
    TrimRightLeft(body);
    TrimRightIsPrefix(TrimLeft(body));
    TrimLeftDrops(space, p + "=" + q);
    TrimKeepsFront(p + "=", q);
    assert (p + "=") + q == p + "=" + q;
    assert TrimLeft(p + "=" + q) == p + "=" + q;
  }

  predicate IsLetter(c: char) {
    'A' <= c <= 'Z' || 'a' <= c <= 'z' || c == '_'
  }

  /** A key is letters, digits and underscores, and starts with no digit. */
  lemma {:induction false} KeyMeaning(k: string)
    ensures IsValidKey(k) <==>
              && k != "" && (forall i :: 0 <= i < |k| ==> IsLetter(k[i]) || '0' <= k[i] <= '9')
              && !('0' <= k[0] <= '9')
  {
  }
}
