/** How a variable written into a .env file is read back (scripts/configurator/envfile.go: formatVar
    against parseEnv). */
module EnvWritten {
  import opened EnvText
  import opened Lines
  import opened Strings

  /** The value a written variable is read back with: an unquoted one is trimmed, and so is the end of
      the first line of a quoted one that spans lines. */
  function Reread(v: string): string {
    if !NeedsQuoting(v) then Trim(v)
    else if |Split(v)| == 1 then v
    else Join([TrimRight(Split(v)[0])] + Split(v)[1..])
  }

  predicate Survives(v: string) {
    if !NeedsQuoting(v) then Trim(v) == v
    else |Split(v)| > 1 ==> TrimRight(Split(v)[0]) == Split(v)[0]
  }

  lemma {:induction false} RereadIsExact(v: string)
    ensures Reread(v) == v <==> Survives(v)
  {
    JoinSplit(v);
    if NeedsQuoting(v) && |Split(v)| > 1 {
      var ls := Split(v);
      var cut := TrimRight(ls[0]);
      TrimRightIsPrefix(ls[0]);
      assert ([cut] + ls[1..])[1..] == ls[1..];
      assert Join(ls) == ls[0] + "\n" + Join(ls[1..]);
      assert Reread(v) == cut + "\n" + Join(ls[1..]);
      if cut == ls[0] {
        assert Reread(v) == v;
      } else {
        assert |Reread(v)| < |v|;
      }
    }
  }

  lemma {:induction false} ValidKeyText(k: string)
    requires IsValidKey(k)
    ensures forall i :: 0 <= i < |k| ==> !IsSpace(k[i]) && k[i] !in {'=', '#', '\n', '\"', '\''}
    ensures Trim(k) == k
  {
    assert TrimLeft(k) == k;
  }

  /** Reading an assignment whose line is already trimmed. */
  lemma {:induction false} ScanAssignment(k: string, x: string)
    requires IsValidKey(k)
    ensures var scan := k + "=" + x;
            IndexOf(scan, '=') == |k| && Trim(scan[..|k|]) == k && scan[|k| + 1..] == x
  {
    ValidKeyText(k);
    IndexOfAfter(k, '=', x);
    var scan := k + "=" + x;
    assert k + ['='] + x == scan;
    assert scan[..|k|] == k && scan[|k| + 1..] == x;
  }

  lemma {:induction false} TrimAssignment(k: string, x: string)
    requires IsValidKey(k)
    ensures Trim(k + "=" + x) == k + "=" + TrimRight(x)
  {
    ValidKeyText(k);
    TrimKeepsFront(k + "=", x);
  }

  lemma {:induction false} TrimCommented(k: string, x: string)
    ensures Trim("#" + k + "=" + x) == "#" + k + "=" + TrimRight(x)
    ensures ("#" + k + "=" + TrimRight(x))[1..] == k + "=" + TrimRight(x)
  {
    var pre := "#" + k + "=";
    assert pre[0] == '#' && pre[|pre| - 1] == '=' && pre[1..] == k + "=";
    TrimKeepsFront(pre, x);
    var y := TrimRight(x);
    assert (pre + y)[1..] == pre[1..] + y;
  }

  lemma {:induction false} LiveHead(k: string, x: string)
    requires IsValidKey(k)
    ensures HeadOf(k + "=" + x) == Assign(false, k, TrimRight(x))
  {
    ValidKeyText(k);
    TrimAssignment(k, x);
    ScanAssignment(k, TrimRight(x));
    assert (k + "=" + TrimRight(x))[0] == k[0];
  }

  lemma {:induction false} CommentedHead(k: string, x: string)
    requires IsValidKey(k)
    ensures HeadOf("#" + k + "=" + x) == Assign(true, k, TrimRight(x))
  {
    var scan := k + "=" + TrimRight(x);
    TrimCommented(k, x);
    TrimIsIdempotent(k, x);
    ScanAssignment(k, TrimRight(x));
    HeadBehindHash("#" + k + "=" + x, "#" + k + "=" + TrimRight(x), scan, k);
  }

  lemma {:induction false} HeadBehindHash(line: string, t: string, scan: string, k: string)
    requires Trim(line) == t && t != "" && t[0] == '#' && t[1..] == scan && Trim(scan) == scan
    requires IsValidKey(k) && IndexOf(scan, '=') == |k| && Trim(scan[..|k|]) == k
    ensures HeadOf(line) == Assign(true, k, scan[|k| + 1..])
  {
  }

  lemma {:induction false} TrimIsIdempotent(k: string, x: string)
    requires IsValidKey(k)
    ensures Trim(k + "=" + TrimRight(x)) == k + "=" + TrimRight(x)
  {
    TrimRightIsPrefix(x);
    TrimAssignment(k, TrimRight(x));
  }

  /** A line that assigns to a valid key is recognised, commented or not; its end is trimmed. */
  lemma {:induction false} AssignmentHead(k: string, commented: bool, x: string)
    requires IsValidKey(k)
    ensures HeadOf(Hash(commented) + k + "=" + x) == Assign(commented, k, TrimRight(x))
  {
    if commented {
      CommentedHead(k, x);
    } else {
      LiveHead(k, x);
      assert "" + k + "=" + x == k + "=" + x;
    }
  }

  lemma {:induction false} SplitSuffix(s: string, t: string)
    requires OneLine(t)
    ensures var ls := Split(s); Split(s + t) == ls[..|ls| - 1] + [ls[|ls| - 1] + t]
  {
    if s == "" {
      assert s + t == t && "" + t == t;
      SplitOneLine(t);
    } else {
      assert (s + t)[1..] == s[1..] + t;
      SplitSuffix(s[1..], t);
      if s[0] != '\n' {
        var rest := Split(s[1..]);
        if |rest| == 1 {
          assert [s[0]] + (rest[0] + t) == ([s[0]] + rest[0]) + t;
        }
      }
    }
  }

  /** The continuation lines FormatVar writes. */
  function QuotedTail(vs: seq<string>): seq<string>
    requires vs != []
  {
    var es := EscapeEach(vs);
    JoinEscapeEach(vs);
    es[..|es| - 1] + [es[|es| - 1] + "\""]
  }

  lemma {:induction false} PlainVarReadsBack(k: string, v: string, commented: bool)
    requires IsValidKey(k) && !NeedsQuoting(v)
    ensures var g := Split(FormatVar(k, v, commented));
            ParseEntry(g) == Parsed(Entry(g, k, Trim(v), false, commented), true)
  {
    ValidKeyText(k);
    var line := FormatVar(k, v, commented);
    assert OneLine(v);
    assert OneLine(line);
    SplitOneLine(line);
    AssignmentHead(k, commented, v);
    TrimRightIsPrefix(v);
    TrimRightLeft(v);
    TrimRightIsPrefix(TrimLeft(v));
    var rest := TrimRight(v);
    assert rest != "" ==> rest[0] == v[0];
    assert Trim(rest) == Trim(v);
  }

  lemma {:induction false} ClosedQuoteEntry(line: string, k: string, commented: bool, body: string)
    requires HeadOf(line) == Assign(commented, k, "\"" + body) && ClosingQuote(body, 0) >= 0
    ensures ParseEntry([line])
         == Parsed(Entry([line], k, Unescape(body[..ClosingQuote(body, 0)]), true, commented), true)
  {
    assert ("\"" + body)[1..] == body;
  }

  /** An entry whose quoted value runs on into the lines `more`. */
  function OpenEntry(line: string, k: string, commented: bool, body: string, more: seq<string>): Parsed {
    var scan := Continue(more);
    Parsed(Entry([line] + more[..scan.count], k, Unescape(Join([body] + scan.parts)), true, commented), scan.closed)
  }

  lemma {:induction false} OpenQuoteEntry(line: string, k: string, commented: bool, body: string, more: seq<string>)
    requires HeadOf(line) == Assign(commented, k, "\"" + body) && ClosingQuote(body, 0) < 0
    ensures ParseEntry([line] + more) == OpenEntry(line, k, commented, body, more)
  {
    var g := [line] + more;
    assert ("\"" + body)[1..] == body;
    assert g[1..] == more;
    assert g[..Continue(more).count + 1] == [line] + more[..Continue(more).count];
  }

  lemma {:induction false} QuotedText(v: string)
    ensures ClosingQuote(Escape(v) + "\"", 0) == |Escape(v)| && (Escape(v) + "\"")[..|Escape(v)|] == Escape(v)
    ensures ClosingQuote(Escape(v), 0) < 0
  {
    var e := Escape(v);
    assert (e + "\"")[..|e|] == e && e[..|e|] == e;
    EscapeHasNoQuote(e + "\"", 0, v);
    EscapeHasNoQuote(e, 0, v);
  }

  lemma {:induction false} AssignmentIsOneLine(k: string, commented: bool, x: string)
    requires IsValidKey(k) && OneLine(x)
    ensures OneLine(Hash(commented) + k + "=" + x)
  {
    ValidKeyText(k);
  }

  /** A one-line assignment of a quoted text is read as the unescaped text. */
  lemma {:induction false} QuotedLineReadsBack(k: string, v: string, commented: bool)
    requires IsValidKey(k) && OneLine(Escape(v))
    ensures var line := Hash(commented) + k + "=" + ("\"" + Escape(v) + "\"");
            Split(line) == [line] && ParseEntry([line]) == Parsed(Entry([line], k, v, true, commented), true)
  {
    var x := "\"" + Escape(v) + "\"";
    var line := Hash(commented) + k + "=" + x;
    AssignmentIsOneLine(k, commented, x);
    SplitOneLine(line);
    AssignmentHead(k, commented, x);
    assert TrimRight(x) == x;
    assert x == "\"" + (Escape(v) + "\"");
    QuotedText(v);
    ClosedQuoteEntry(line, k, commented, Escape(v) + "\"");
    UnescapeEscape(v);
  }

  lemma {:induction false} EscapedLine(v: string)
    requires |Split(v)| == 1
    ensures OneLine(v) && OneLine(Escape(v))
  {
    JoinSplit(v);
    SplitIsOneLine(v);
    EscapeKeepsLines(v);
    JoinEscapeEach(Split(v));
    JoinSplit(Escape(v));
    SplitIsOneLine(Escape(v));
  }

  lemma {:induction false} OpenQuoteHead(k: string, v: string, commented: bool)
    requires IsValidKey(k)
    ensures HeadOf(Hash(commented) + k + "=" + ("\"" + Escape(v))) == Assign(commented, k, "\"" + Escape(TrimRight(v)))
  {
    var x := "\"" + Escape(v);
    AssignmentHead(k, commented, x);
    TrimRightKeeps("\"", Escape(v));
    EscapeTrimRight(v);
  }

  lemma {:induction false} QuotedTailLines(vs: seq<string>)
    requires |vs| > 1
    ensures var es := EscapeEach(vs);
            && |es| == |vs|
            && es[..|es| - 1] + [es[|es| - 1] + "\""] == [Escape(vs[0])] + QuotedTail(vs[1..])
  {
    EscapeEachAt(vs);
  }

  lemma {:induction false} SplitWrapped(pre: string, w: string)
    requires OneLine(pre) && |Split(w)| > 1
    ensures var ls := Split(w);
            Split(pre + (w + "\"")) == [pre + ls[0]] + (ls[..|ls| - 1] + [ls[|ls| - 1] + "\""])[1..]
  {
    SplitSuffix(w, "\"");
    SplitPrefix(pre, w + "\"");
  }

  lemma {:induction false} EscapeEachAt(vs: seq<string>)
    ensures |EscapeEach(vs)| == |vs|
    ensures vs != [] ==> EscapeEach(vs)[0] == Escape(vs[0]) && EscapeEach(vs)[1..] == EscapeEach(vs[1..])
  {
    JoinEscapeEach(vs);
  }

  lemma {:induction false} ContinueQuotedTail(vs: seq<string>)
    requires vs != []
    ensures Continue(QuotedTail(vs)) == Scan(EscapeEach(vs), |vs|, true)
  {
    EscapeEachAt(vs);
    QuotedText(vs[0]);
    if |vs| == 1 {
      assert QuotedTail(vs) == [Escape(vs[0]) + "\""];
      assert EscapeEach(vs) == [Escape(vs[0])];
    } else {
      ContinueQuotedTail(vs[1..]);
      QuotedTailStep(vs);
    }
  }

  lemma {:induction false} QuotedTailStep(vs: seq<string>)
    requires |vs| > 1
    ensures QuotedTail(vs) == [Escape(vs[0])] + QuotedTail(vs[1..])
  {
    EscapeEachAt(vs);
  }

  lemma {:induction false} MoveQuote(a: string, b: string)
    ensures (a + "\"") + b == a + ("\"" + b)
  {
  }

  /** The lines of a quoted assignment that spans several; `pre` is the text in front of the quote. */
  lemma {:induction false} QuotedLines(pre: string, v: string)
    requires OneLine(pre) && |Split(v)| > 1
    ensures Split(pre + ("\"" + Escape(v) + "\"")) == [pre + ("\"" + Escape(Split(v)[0]))] + QuotedTail(Split(v)[1..])
  {
    EscapeKeepsLines(v);
    QuotedTailLines(Split(v));
    SplitWrapped(pre + "\"", Escape(v));
    MoveQuote(pre, Escape(v) + "\"");
    MoveQuote(pre, Escape(Split(v)[0]));
    assert "\"" + (Escape(v) + "\"") == "\"" + Escape(v) + "\"";
  }

  lemma {:induction false} UnescapeTrimmed(vs: seq<string>)
    requires vs != []
    ensures Unescape(Join([Escape(TrimRight(vs[0]))] + EscapeEach(vs[1..]))) == Join([TrimRight(vs[0])] + vs[1..])
  {
    var rvs := [TrimRight(vs[0])] + vs[1..];
    assert rvs[1..] == vs[1..];
    assert EscapeEach(rvs) == [Escape(TrimRight(vs[0]))] + EscapeEach(vs[1..]);
    JoinEscapeEach(rvs);
    UnescapeEscape(Join(rvs));
  }

  lemma {:induction false} QuotedLinesReadBack(k: string, v: string, commented: bool)
    requires IsValidKey(k) && NeedsQuoting(v) && |Split(v)| > 1
    ensures var g := Split(Hash(commented) + k + "=" + ("\"" + Escape(v) + "\""));
            ParseEntry(g) == Parsed(Entry(g, k, Reread(v), true, commented), true)
  {
    var vs := Split(v);
    var more := QuotedTail(vs[1..]);
    var pre := Hash(commented) + k + "=";
    ValidKeyText(k);
    QuotedLines(pre, v);
    var line := pre + ("\"" + Escape(vs[0]));
    OpenQuoteHead(k, vs[0], commented);
    QuotedText(TrimRight(vs[0]));
    OpenQuoteEntry(line, k, commented, Escape(TrimRight(vs[0])), more);
    ContinueQuotedTail(vs[1..]);
    EscapeEachAt(vs[1..]);
    assert more[..|more|] == more;
    UnescapeTrimmed(vs);
  }

  /** The lines FormatVar writes are read as one closed entry with the key and the reread value. */
  lemma {:induction false} VarReadsBack(k: string, v: string, commented: bool)
    requires IsValidKey(k)
    ensures var g := Split(FormatVar(k, v, commented));
            ParseEntry(g) == Parsed(Entry(g, k, Reread(v), NeedsQuoting(v), commented), true)
  {
    if !NeedsQuoting(v) {
      PlainVarReadsBack(k, v, commented);
    } else {
      QuotedIsEscape(v);
      assert FormatVar(k, v, commented) == Hash(commented) + k + "=" + ("\"" + Escape(v) + "\"");
      if |Split(v)| == 1 {
        EscapedLine(v);
        QuotedLineReadsBack(k, v, commented);
      } else {
        QuotedLinesReadBack(k, v, commented);
      }
    }
  }
}
