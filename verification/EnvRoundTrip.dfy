/** Changing a variable of a .env file, rendering the file and parsing it again
    (scripts/configurator/envfile.go: Set, Comment, Delete, Render, parseEnv). */
module EnvRoundTrip {
  import opened EnvFile
  import opened EnvText
  import opened EnvWritten
  import opened Lines
  import opened Strings

  function Reparsed(es: seq<Entry>): seq<Entry> {
    Parse(Render(es))
  }

  predicate Has(es: seq<Entry>, key: string) {
    Find(es, key) < |es|
  }

  // ----- Replacing one entry -----

  /** `fs` is `es` with its entry `i` replaced, or a new entry appended if i == |es|. */
  predicate DifferAt(es: seq<Entry>, fs: seq<Entry>, i: nat) {
    && i < |fs|
    && (if i < |es| then fs == es[i := fs[i]] else i == |es| && fs == es + [fs[i]])
  }

  /** A freshly written entry in an otherwise parsed file is read back, and so is the rest. */
  lemma {:induction false} WrittenReadsBack(es: seq<Entry>, ps: seq<Parsed>, fs: seq<Entry>, i: nat, k: string,
                                            v: string, commented: bool)
    returns (qs: seq<Parsed>)
    requires IsValidKey(k) && ReadsAs(es, ps) && es == EntriesOf(ps) && DifferAt(es, fs, i)
    requires fs[i].lines == [FormatVar(k, v, commented)]
    requires i < |es| || forall j :: 0 <= j < |ps| ==> ps[j].closed
    ensures ReadsAs(fs, qs) && DifferAt(es, EntriesOf(qs), i)
    ensures var e := EntriesOf(qs)[i]; e.key == k && e.value == Reread(v) && e.commented == commented
  {
    VarReadsBack(k, v, commented);
    var p := ParseEntry(Split(FormatVar(k, v, commented)));
    assert Join(fs[i].lines) == FormatVar(k, v, commented);
    if i < |es| {
      qs := ReplacedReadsAs(es, ps, i, fs[i], p);
    } else {
      qs := AppendedReadsAs(es, ps, fs[i], p);
    }
  }

  lemma {:induction false} ReplacedReadsAs(es: seq<Entry>, ps: seq<Parsed>, i: nat, e: Entry, p: Parsed)
    returns (qs: seq<Parsed>)
    requires ReadsAs(es, ps) && EntryReadsAs(e, p) && p.closed && i < |es|
    ensures qs == ps[i := p] && ReadsAs(es[i := e], qs) && EntriesOf(qs) == EntriesOf(ps)[i := p.entry]
  {
    qs := ps[i := p];
    forall j | 0 <= j < |es| ensures EntryReadsAs(es[i := e][j], qs[j]) && (qs[j].closed || j == |qs| - 1) {
      assert EntryReadsAs(es[j], ps[j]);
    }
  }

  lemma {:induction false} AppendedReadsAs(es: seq<Entry>, ps: seq<Parsed>, e: Entry, p: Parsed)
    returns (qs: seq<Parsed>)
    requires ReadsAs(es, ps) && EntryReadsAs(e, p) && p.closed && forall j :: 0 <= j < |ps| ==> ps[j].closed
    ensures qs == ps + [p] && ReadsAs(es + [e], qs) && EntriesOf(qs) == EntriesOf(ps) + [p.entry]
  {
    qs := ps + [p];
    forall j | 0 <= j < |qs| ensures EntryReadsAs((es + [e])[j], qs[j]) && (qs[j].closed || j == |qs| - 1) {
      if j < |es| {
        assert EntryReadsAs(es[j], ps[j]);
      }
    }
  }

  lemma {:induction false} ReparsedAs(es: seq<Entry>, ps: seq<Parsed>)
    requires es != [] && ReadsAs(es, ps)
    ensures Reparsed(es) == EntriesOf(ps)
  {
    ParseRender(es, ps);
  }

  predicate SameVar(es: seq<Entry>, fs: seq<Entry>, key: string) {
    Get(fs, key) == Get(es, key) && GetAny(fs, key) == GetAny(es, key)
  }

  lemma {:induction false} OthersUnchanged(es: seq<Entry>, fs: seq<Entry>, i: nat, key: string)
    requires DifferAt(es, fs, i) && fs[i].key != key && (i < |es| ==> es[i].key != key)
    ensures SameVar(es, fs, key)
  {
    if i > 0 {
      OthersUnchanged(es[1..], fs[1..], i - 1, key);
    } else if es != [] {
      assert fs[1..] == es[1..];
    } else {
      assert fs[1..] == [];
    }
  }

  lemma {:induction false} FirstWithKey(fs: seq<Entry>, i: nat, key: string)
    requires i < |fs| && fs[i].key == key
    requires forall j :: 0 <= j < i ==> fs[j].key != key
    ensures GetAny(fs, key) == Some((fs[i].value, fs[i].commented))
    ensures !fs[i].commented ==> Get(fs, key) == Some(fs[i].value)
  {
    if i > 0 {
      FirstWithKey(fs[1..], i - 1, key);
    }
  }

  // ----- Set -----

  /** Where the file differs from the parsed one in the entry of one key only. */
  lemma {:induction false} OneVarChanged(es: seq<Entry>, back: seq<Entry>, i: nat, k: string)
    requires DifferAt(es, back, i) && back[i].key == k && i == Find(es, k)
    ensures GetAny(back, k) == Some((back[i].value, back[i].commented))
    ensures !back[i].commented ==> Get(back, k) == Some(back[i].value)
    ensures forall other :: other != k ==> SameVar(es, back, other)
  {
    forall j | 0 <= j < i ensures back[j].key != k {
      assert back[j] == es[j];
    }
    FirstWithKey(back, i, k);
    forall other | other != k ensures SameVar(es, back, other) {
      OthersUnchanged(es, back, i, other);
    }
  }

  lemma {:induction false} SetDiffers(es: seq<Entry>, k: string, v: string)
    ensures var i, fs := Find(es, k), Set(es, k, v);
            DifferAt(es, fs, i) && fs[i].lines == [FormatVar(k, v, false)]
  {
  }

  /** Set, render and parse where no open quote can swallow the variable: it is read back as its reread
      value, live, and every other variable keeps its value and its commenting. */
  lemma {:induction false} SetReparsed(s: string, k: string, v: string)
    requires IsValidKey(k) && (IsClosed(s) || Has(Parse(s), k))
    ensures Get(Reparsed(Set(Parse(s), k, v)), k) == Some(Reread(v))
    ensures GetAny(Reparsed(Set(Parse(s), k, v)), k) == Some((Reread(v), false))
    ensures forall other :: other != k ==> SameVar(Parse(s), Reparsed(Set(Parse(s), k, v)), other)
  {
    var es, ps := Parse(s), ParseAll(FileLines(s));
    FileReadsBack(s);
    var i, fs := Find(es, k), Set(es, k, v);
    SetDiffers(es, k, v);
    var qs := WrittenReadsBack(es, ps, fs, i, k, v, false);
    ReparsedAs(fs, qs);
    OneVarChanged(es, EntriesOf(qs), i, k);
  }

  // ----- A value behind an open quote -----

  /** No text `="` but at the very end of the last line. */
  predicate NoQuoteOpens(l: string) {
    forall i :: 0 <= i < |l| - 1 ==> !(l[i] == '=' && l[i + 1] == '\"')
  }

  predicate OnlyLastOpens(ls: seq<string>) {
    forall i :: 0 <= i < |ls| ==>
      NoQuoteOpens(ls[i]) || (i == |ls| - 1 && ls[i] != "" && NoQuoteOpens(ls[i][..|ls[i]| - 1]))
  }

  lemma {:induction false} TrimIsSlice(s: string) returns (a: nat)
    ensures a + |Trim(s)| <= |s| && Trim(s) == s[a..a + |Trim(s)|]
    decreases |s|
  {
    if s != "" && IsSpace(s[0]) {
      var b := TrimIsSlice(s[1..]);
      a := b + 1;
      assert s[1..] == s[1..1 + (|s| - 1)];
      SliceOfSlice(s, 1, |s| - 1, b, |Trim(s)|);
    } else {
      TrimRightIsPrefix(s);
      a := 0;
    }
  }

  lemma {:induction false} SliceOfSlice(s: string, a: nat, n: nat, b: nat, m: nat)
    requires a + n <= |s| && b + m <= n
    ensures s[a..a + n][b..b + m] == s[a + b..a + b + m]
  {
    var t := s[a..a + n];
    assert forall i :: b <= i < b + m ==> t[i] == s[a + i];
    assert t[b..b + m] == s[a + b..a + b + m];
  }

  /** The text behind '=' is a slice of the line. */
  lemma {:induction false} RestIsSlice(line: string) returns (a: nat)
    requires HeadOf(line).Assign?
    ensures var n := |HeadOf(line).rest|;
            0 < a && a + n <= |line| && HeadOf(line).rest == line[a..a + n] && line[a - 1] == '='
  {
    hide Trim, IndexOf, IsValidKey;
    var t := Trim(line);
    a := TrimIsSlice(line);
    if t[0] == '#' {
      var b := BehindHash(line, a, t);
      a := TailIsSlice(line, b, Trim(t[1..]), IndexOf(Trim(t[1..]), '='));
    } else {
      a := TailIsSlice(line, a, t, IndexOf(t, '='));
    }
  }

  /** The text behind a comment sign is a slice, too. */
  lemma {:induction false} BehindHash(line: string, a: nat, t: string) returns (b: nat)
    requires a + |t| <= |line| && t == line[a..a + |t|] && t != ""
    ensures b + |Trim(t[1..])| <= |line| && Trim(t[1..]) == line[b..b + |Trim(t[1..])|]
  {
    hide Trim;
    var after := Trim(t[1..]);
    var c := TrimIsSlice(t[1..]);
    b := a + 1 + c;
    SliceOfSlice(line, a, |t|, 1, |t| - 1);
    SliceOfSlice(line, a + 1, |t| - 1, c, |after|);
  }

  lemma {:induction false} TailIsSlice(line: string, a: nat, t: string, eq: nat) returns (b: nat)
    requires a + |t| <= |line| && t == line[a..a + |t|] && eq < |t| && t[eq] == '='
    ensures b == a + eq + 1 && line[b - 1] == '='
    ensures b + |t[eq + 1..]| <= |line| && t[eq + 1..] == line[b..b + |t[eq + 1..]|]
  {
    b := a + eq + 1;
    SliceOfSlice(line, a, |t|, eq + 1, |t| - eq - 1);
    assert t[eq + 1..] == t[eq + 1..eq + 1 + (|t| - eq - 1)];
  }

  /** On lines where no quote opens, every value fits on one line. */
  lemma {:induction false} ValuesAreOneLine(ls: seq<string>)
    requires AllOneLine(ls) && OnlyLastOpens(ls)
    ensures forall i :: 0 <= i < |ParseAll(ls)| ==> OneLine(ParseAll(ls)[i].entry.value)
    decreases |ls|
  {
    hide HeadOf, ParseEntry, OneLine;
    if ls != [] {
      var p := ParseEntry(ls);
      FirstValueIsOneLine(ls);
      ValuesAreOneLine(ls[|p.entry.lines|..]);
    }
  }

  lemma {:induction false} FirstValueIsOneLine(ls: seq<string>)
    requires ls != [] && AllOneLine(ls) && OnlyLastOpens(ls)
    ensures OneLine(ParseEntry(ls).entry.value)
  {
    if HeadOf(ls[0]).Assign? {
      var rest := HeadOf(ls[0]).rest;
      if rest != "" && rest[0] == '\"' {
        QuoteIsLast(ls);
      } else {
        var a := RestIsSlice(ls[0]);
        assert OneLine(rest);
        var b := TrimIsSlice(rest);
      }
    }
  }

  lemma {:induction false} QuoteIsLast(ls: seq<string>)
    requires ls != [] && OnlyLastOpens(ls) && HeadOf(ls[0]).Assign?
    requires var rest := HeadOf(ls[0]).rest; rest != "" && rest[0] == '\"'
    ensures HeadOf(ls[0]).rest == "\"" && ls[1..] == []
  {
    var rest := HeadOf(ls[0]).rest;
    var a := RestIsSlice(ls[0]);
    assert ls[0][a] == '\"' && ls[0][a - 1] == '=';
    assert a + 1 == |ls[0]|;
  }

  lemma {:induction false} EscapeOpensNoQuote(v: string)
    ensures NoQuoteOpens(Escape(v))
    ensures Escape(v) != "" ==> Escape(v)[0] != '\"'
  {
    if v != "" {
      EscapeOpensNoQuote(v[1..]);
      var e, rest := EscapeChar(v[0]), Escape(v[1..]);
      forall i | 0 <= i < |e + rest| - 1 ensures !((e + rest)[i] == '=' && (e + rest)[i + 1] == '\"') {
        if i >= |e| {
          assert (e + rest)[i] == rest[i - |e|] && (e + rest)[i + 1] == rest[i + 1 - |e|];
        }
      }
    }
  }

  lemma {:induction false} EscapeIsOneLine(v: string)
    requires OneLine(v)
    ensures OneLine(Escape(v))
  {
    if v != "" {
      assert v[0] in v && forall c :: c in v[1..] ==> c in v;
      EscapeIsOneLine(v[1..]);
    }
  }

  lemma {:induction false} QuotedTailOpensOnlyLast(vs: seq<string>)
    requires vs != [] && AllOneLine(vs)
    ensures OnlyLastOpens(QuotedTail(vs)) && AllOneLine(QuotedTail(vs))
  {
    EscapeOpensNoQuote(vs[0]);
    EscapeIsOneLine(vs[0]);
    var e := Escape(vs[0]);
    EscapeEachAt(vs);
    if |vs| == 1 {
      assert QuotedTail(vs) == [e + "\""];
      LastMayOpen(e);
    } else {
      QuotedTailOpensOnlyLast(vs[1..]);
      QuotedTailStep(vs);
      OneMoreLine(e, QuotedTail(vs[1..]));
    }
  }

  lemma {:induction false} LastMayOpen(e: string)
    requires NoQuoteOpens(e) && OneLine(e)
    ensures OnlyLastOpens([e + "\""]) && AllOneLine([e + "\""])
  {
    assert (e + "\"")[..|e|] == e;
  }

  lemma {:induction false} OneMoreLine(e: string, rest: seq<string>)
    requires NoQuoteOpens(e) && OneLine(e) && rest != [] && OnlyLastOpens(rest) && AllOneLine(rest)
    ensures OnlyLastOpens([e] + rest) && AllOneLine([e] + rest)
  {
  }

  /** Lines behind an open quote: the first of them at least goes into the open value. */
  lemma {:induction false} ContinueOn(ls: seq<string>, add: seq<string>)
    requires !Continue(ls).closed
    ensures Continue(ls + add).count == |ls| + Continue(add).count
  {
    if ls == [] {
      assert ls + add == add;
    } else {
      assert (ls + add)[1..] == ls[1..] + add;
      ContinueOn(ls[1..], add);
    }
  }

  lemma {:induction false} OpenEntryRunsOn(ls: seq<string>, add: seq<string>) returns (m: nat)
    requires ls != [] && !ParseEntry(ls).closed && add != []
    ensures ParseEntry(ls + add).entry.key == ParseEntry(ls).entry.key
    ensures 0 < m <= |add| && |ParseEntry(ls + add).entry.lines| == |ls| + m
  {
    m := Continue(add).count;
    assert (ls + add)[1..] == ls[1..] + add;
    ContinueOn(ls[1..], add);
  }

  predicate Absent(ps: seq<Parsed>, key: string) {
    forall i :: 0 <= i < |ps| ==> ps[i].entry.key != key
  }

  predicate AllClosed(ps: seq<Parsed>) {
    forall i :: 0 <= i < |ps| ==> ps[i].closed
  }

  /** An open quote takes at least the first of the lines appended to the file. */
  lemma {:induction false} OpenQuoteSwallows(ls: seq<string>, add: seq<string>, key: string) returns (m: nat)
    requires add != [] && Absent(ParseAll(ls), key) && !AllClosed(ParseAll(ls))
    ensures 0 < m <= |add|
    ensures Get(EntriesOf(ParseAll(ls + add)), key) == Get(EntriesOf(ParseAll(add[m..])), key)
    decreases |ls|
  {
    FirstKey(ls, key);
    if ParseEntry(ls).closed {
      var rest := ls[|ParseEntry(ls).entry.lines|..];
      TailOfParsed(ls, key);
      m := OpenQuoteSwallows(rest, add, key);
      ClosedFirst(ls, add);
      GetSkips(ls + add, |ls| - |rest|, key);
    } else {
      m := OpenFirst(ls, add, key);
    }
  }

  lemma {:induction false} FirstKey(ls: seq<string>, key: string)
    requires Absent(ParseAll(ls), key) && !AllClosed(ParseAll(ls))
    ensures ls != [] && ParseEntry(ls).entry.key != key
  {
    assert ParseAll(ls)[0] == ParseEntry(ls);
  }

  lemma {:induction false} OpenFirst(ls: seq<string>, add: seq<string>, key: string) returns (m: nat)
    requires add != [] && ls != [] && !ParseEntry(ls).closed && ParseEntry(ls).entry.key != key
    ensures 0 < m <= |add|
    ensures Get(EntriesOf(ParseAll(ls + add)), key) == Get(EntriesOf(ParseAll(add[m..])), key)
  {
    m := OpenEntryRunsOn(ls, add);
    DropInto(ls, add, m);
    FirstSkipped(ls + add, |ls| + m, key, add[m..]);
  }

  lemma {:induction false} FirstSkipped(ls: seq<string>, n: nat, key: string, rest: seq<string>)
    requires ls != [] && ParseEntry(ls).entry.key != key && n == |ParseEntry(ls).entry.lines| && ls[n..] == rest
    ensures Get(EntriesOf(ParseAll(ls)), key) == Get(EntriesOf(ParseAll(rest)), key)
  {
    GetSkips(ls, n, key);
  }

  lemma {:induction false} DropInto(a: seq<string>, b: seq<string>, m: nat)
    requires m <= |b|
    ensures (a + b)[|a| + m..] == b[m..]
  {
  }

  lemma {:induction false} TailOfParsed(ls: seq<string>, key: string)
    requires ls != [] && Absent(ParseAll(ls), key) && !AllClosed(ParseAll(ls)) && ParseEntry(ls).closed
    ensures var rest := ls[|ParseEntry(ls).entry.lines|..];
            Absent(ParseAll(rest), key) && !AllClosed(ParseAll(rest))
  {
    var ps := ParseAll(ls);
    var qs := ParseAll(ls[|ParseEntry(ls).entry.lines|..]);
    assert ps == [ParseEntry(ls)] + qs;
    assert forall i :: 0 <= i < |qs| ==> qs[i] == ps[i + 1];
    var j :| 0 <= j < |ps| && !ps[j].closed;
    assert !qs[j - 1].closed;
  }

  lemma {:induction false} GetSkips(ls: seq<string>, n: nat, key: string)
    requires ls != [] && ParseEntry(ls).entry.key != key && n == |ParseEntry(ls).entry.lines|
    ensures Get(EntriesOf(ParseAll(ls)), key) == Get(EntriesOf(ParseAll(ls[n..])), key)
  {
    EntriesStep(ls);
  }

  lemma {:induction false} ClosedFirst(ls: seq<string>, add: seq<string>)
    requires ls != [] && ParseEntry(ls).closed
    ensures ParseEntry(ls + add) == ParseEntry(ls)
    ensures var n := |ParseEntry(ls).entry.lines|; (ls + add)[n..] == ls[n..] + add
  {
    var n := |ParseEntry(ls).entry.lines|;
    CutAppend(ls, n, add);
    ParseEntryIsLocal(ls, ls[n..] + add);
  }

  lemma {:induction false} CutAppend(a: seq<string>, n: nat, b: seq<string>)
    requires n <= |a|
    ensures a[..n] + (a[n..] + b) == a + b && (a + b)[n..] == a[n..] + b
  {
  }

  /** The lines of a rendered file to which a variable was appended. */
  lemma {:induction false} AppendedLines(s: string, e: Entry, line: string)
    requires e.lines == [line] && FileLines(s) != []
    ensures FileLines(Render(Parse(s) + [e])) == FileLines(s) + Split(line)
  {
    var ls := FileLines(s);
    AppendedText(ls, e, line);
    SplitIsOneLine(s);
    SplitJoinOneLine(ls);
    SplitAtNewline(Join(ls), line);
    var body := Join(ls) + "\n" + line;
    SplitAtNewline(body, "");
    assert body + "\n" + "" == body + "\n";
  }

  lemma {:induction false} AppendedText(ls: seq<string>, e: Entry, line: string)
    requires e.lines == [line] && ls != []
    ensures Render(EntriesOf(ParseAll(ls)) + [e]) == Join(ls) + "\n" + line + "\n"
  {
    var es := EntriesOf(ParseAll(ls));
    GroupsCoverLines(ls);
    JoinTexts(ParseAll(ls));
    assert Join(Texts(es)) == Join(ls);
    RenderStep(es + [e], |es|);
    assert (es + [e])[..|es|] == es && (es + [e])[..|es| + 1] == es + [e];
  }

  lemma {:induction false} GetIsAValue(es: seq<Entry>, key: string)
    requires Get(es, key).Some?
    ensures exists i :: 0 <= i < |es| && es[i].value == Get(es, key).value
  {
    if es[0].key == key && !es[0].commented {
      assert es[0].value == Get(es, key).value;
    } else {
      GetIsAValue(es[1..], key);
      var i :| 0 <= i < |es[1..]| && es[1..][i].value == Get(es, key).value;
      assert es[i + 1].value == Get(es, key).value;
    }
  }

  /** Past its first line, a written variable never yields its own value. */
  lemma {:induction false} TailNeverYields(k: string, v: string, m: nat)
    requires IsValidKey(k) && 0 < m <= |Split(FormatVar(k, v, false))|
    ensures Get(EntriesOf(ParseAll(Split(FormatVar(k, v, false))[m..])), k) != Some(v)
  {
    if NeedsQuoting(v) && |Split(v)| > 1 {
      QuotedTailIsOneLine(k, v, m);
      NoLongValue(EntriesOf(ParseAll(Split(FormatVar(k, v, false))[m..])), k, v);
    } else {
      WrittenOnOneLine(k, v);
      assert Split(FormatVar(k, v, false))[m..] == [];
    }
  }

  predicate HasShortValues(es: seq<Entry>) {
    forall i :: 0 <= i < |es| ==> OneLine(es[i].value)
  }

  lemma {:induction false} NoLongValue(es: seq<Entry>, k: string, v: string)
    requires |Split(v)| > 1 && HasShortValues(es)
    ensures Get(es, k) != Some(v)
  {
    if Get(es, k) == Some(v) {
      GetIsAValue(es, k);
      SplitOneLine(v);
      assert false;
    }
  }

  lemma {:induction false} QuotedVarLines(k: string, v: string)
    requires IsValidKey(k) && NeedsQuoting(v) && |Split(v)| > 1
    ensures var add := Split(FormatVar(k, v, false));
            add == [add[0]] + QuotedTail(Split(v)[1..])
  {
    QuotedIsEscape(v);
    ValidKeyText(k);
    QuotedLines(k + "=", v);
    hide Split, Escape, QuotedTail, NeedsQuoting, OneLine;
    assert FormatVar(k, v, false) == (k + "=") + ("\"" + Escape(v) + "\"");
  }

  lemma {:induction false} TailOpensOnlyLast(ls: seq<string>, i: nat)
    requires i <= |ls| && OnlyLastOpens(ls) && AllOneLine(ls)
    ensures OnlyLastOpens(ls[i..]) && AllOneLine(ls[i..])
  {
    hide NoQuoteOpens, OneLine;
    forall j | 0 <= j < |ls[i..]| ensures ls[i..][j] == ls[i + j] && OneLine(ls[i..][j]) {
    }
  }

  /** No value found in the lines behind the first of a quoted variable has a line end. */
  lemma {:induction false} QuotedTailIsOneLine(k: string, v: string, m: nat)
    requires IsValidKey(k) && 0 < m <= |Split(FormatVar(k, v, false))|
    requires NeedsQuoting(v) && |Split(v)| > 1
    ensures HasShortValues(EntriesOf(ParseAll(Split(FormatVar(k, v, false))[m..])))
  {
    var add, vs := Split(FormatVar(k, v, false)), Split(v)[1..];
    QuotedVarLines(k, v);
    var tail := QuotedTail(vs);
    SplitIsOneLine(v);
    hide Split, FormatVar, QuotedTail, NeedsQuoting, OnlyLastOpens, OneLine, IsValidKey, ParseAll;
    QuotedTailOpensOnlyLast(vs);
    TailOpensOnlyLast(tail, m - 1);
    assert add[m..] == tail[m - 1..];
    ValuesAreOneLine(add[m..]);
  }

  lemma {:induction false} WrittenOnOneLine(k: string, v: string)
    requires IsValidKey(k) && !(NeedsQuoting(v) && |Split(v)| > 1)
    ensures |Split(FormatVar(k, v, false))| == 1
  {
    if NeedsQuoting(v) {
      QuotedIsEscape(v);
      EscapedLine(v);
      QuotedLineReadsBack(k, v, false);
      assert FormatVar(k, v, false) == Hash(false) + k + "=" + ("\"" + Escape(v) + "\"");
    } else {
      AssignmentIsOneLine(k, false, v);
      SplitOneLine(FormatVar(k, v, false));
    }
  }

  /** A variable appended behind an open quote is never read back. */
  lemma {:induction false} SetBehindOpenQuote(s: string, k: string, v: string)
    requires IsValidKey(k) && !IsClosed(s) && !Has(Parse(s), k)
    ensures Get(Reparsed(Set(Parse(s), k, v)), k) != Some(v)
  {
    var ls, line := FileLines(s), FormatVar(k, v, false);
    AppendedLines(s, Entry([line], k, v, false, false), line);
    assert Absent(ParseAll(ls), k) by {
      forall i | 0 <= i < |ParseAll(ls)| ensures ParseAll(ls)[i].entry.key != k {
        assert Parse(s)[i] == ParseAll(ls)[i].entry;
      }
    }
    var m := OpenQuoteSwallows(ls, Split(line), k);
    TailNeverYields(k, v, m);
  }

  /** Setting a variable, rendering and parsing again gives the variable its value back exactly if the
      value survives and either the key was present before or no quoted value of the file is left open. */
  lemma {:induction false} SetRoundTrip(s: string, k: string, v: string)
    requires IsValidKey(k)
    ensures Get(Reparsed(Set(Parse(s), k, v)), k) == Some(v) <==> Survives(v) && (IsClosed(s) || Has(Parse(s), k))
  {
    if IsClosed(s) || Has(Parse(s), k) {
      SetReparsed(s, k, v);
      RereadIsExact(v);
    } else {
      SetBehindOpenQuote(s, k, v);
    }
  }

  // ----- Comment and Delete -----

  /** Commenting out a live variable keeps its (reread) value behind the comment sign. */
  lemma {:induction false} CommentReparsed(s: string, k: string)
    requires IsValidKey(k) && Has(Parse(s), k) && !Parse(s)[Find(Parse(s), k)].commented
    ensures var v := Parse(s)[Find(Parse(s), k)].value;
            GetAny(Reparsed(Comment(Parse(s), k)), k) == Some((Reread(v), true))
    ensures forall other :: other != k ==> SameVar(Parse(s), Reparsed(Comment(Parse(s), k)), other)
  {
    var es, ps := Parse(s), ParseAll(FileLines(s));
    FileReadsBack(s);
    var i, fs := Find(es, k), Comment(es, k);
    FirstLiveIsFirst(es, k);
    var qs := WrittenReadsBack(es, ps, fs, i, k, es[i].value, true);
    ReparsedAs(fs, qs);
    var back := EntriesOf(qs);
    FirstWithKey(back, i, k);
    forall other | other != k ensures SameVar(es, back, other) {
      OthersUnchanged(es, back, i, other);
    }
  }

  lemma {:induction false} FirstLiveIsFirst(es: seq<Entry>, k: string)
    requires Has(es, k) && !es[Find(es, k)].commented
    ensures FindLive(es, k) == Find(es, k)
  {
    var i, j := Find(es, k), FindLive(es, k);
    assert j < |es| ==> es[j].key == k;
  }

  function Keep(ps: seq<Parsed>, key: string): (qs: seq<Parsed>)
    ensures EntriesOf(qs) == Delete(EntriesOf(ps), key)
  {
    if ps == [] then []
    else
      assert EntriesOf(ps)[1..] == EntriesOf(ps[1..]);
      var rest := Keep(ps[1..], key);
      if ps[0].entry.key == key then rest
      else
        assert ([ps[0]] + rest)[1..] == rest;
        [ps[0]] + rest
  }

  lemma {:induction false} ReadsAsCons(e: Entry, p: Parsed, es: seq<Entry>, ps: seq<Parsed>)
    requires EntryReadsAs(e, p) && (p.closed || es == []) && ReadsAs(es, ps)
    ensures ReadsAs([e] + es, [p] + ps)
  {
    hide EntryReadsAs;
    forall i | 0 <= i < |[e] + es|
      ensures EntryReadsAs(([e] + es)[i], ([p] + ps)[i]) && (([p] + ps)[i].closed || i == |[p] + ps| - 1)
    {
      if i > 0 {
        assert EntryReadsAs(es[i - 1], ps[i - 1]);
      }
    }
  }

  lemma {:induction false} KeepReadsAs(es: seq<Entry>, ps: seq<Parsed>, key: string)
    requires ReadsAs(es, ps) && es == EntriesOf(ps)
    ensures ReadsAs(Delete(es, key), Keep(ps, key))
  {
    hide EntryReadsAs, ReadsAs;
    SameLength(es, ps);
    if es == [] {
      assert Keep(ps, key) == ps;
    } else {
      ReadsAsTail(es, ps);
      KeepReadsAs(es[1..], ps[1..], key);
      if es[0].key == key {
        assert [] + Delete(es[1..], key) == Delete(es[1..], key);
      } else {
        ReadsAsCons(es[0], ps[0], Delete(es[1..], key), Keep(ps[1..], key));
      }
    }
  }

  lemma {:induction false} SameLength(es: seq<Entry>, ps: seq<Parsed>)
    requires ReadsAs(es, ps)
    ensures |es| == |ps|
  {
  }

  lemma {:induction false} DeleteDrops(es: seq<Entry>, key: string, other: string)
    ensures GetAny(Delete(es, key), key) == None && Get(Delete(es, key), key) == None
    ensures other != key ==> SameVar(es, Delete(es, key), other)
  {
    if es != [] {
      DeleteDrops(es[1..], key, other);
      var ds := Delete(es[1..], key);
      assert ([es[0]] + ds)[1..] == ds;
      assert [] + ds == ds;
    }
  }

  /** An emptied file is a single blank line. */
  lemma {:induction false} EmptyReparsed()
    ensures Reparsed([]) == [Entry([""], "", "", false, false)]
  {
    var nl: string := "\n";
    assert nl[1..] == "";
    assert Split(nl) == ["", ""];
    assert ["", ""][..1] == [""];
    assert Render([]) == nl;
    assert FileLines(nl) == [""];
    assert [""][1..] == [];
    EntriesStep([""]);
  }

  /** Deleting a variable removes it for good and keeps every other, whatever quote was left open. */
  lemma {:induction false} DeleteReparsed(s: string, k: string)
    requires k != ""
    ensures var back := Reparsed(Delete(Parse(s), k));
            GetAny(back, k) == None && forall other :: other != k && other != "" ==> SameVar(Parse(s), back, other)
  {
    var es, ps := Parse(s), ParseAll(FileLines(s));
    FileReadsBack(s);
    KeepReadsAs(es, ps, k);
    var fs := Delete(es, k);
    DeleteDrops(es, k, k);
    if fs == [] {
      EmptyReparsed();
      assert [Entry([""], "", "", false, false)][1..] == [];
    } else {
      ReparsedAs(fs, Keep(ps, k));
    }
    forall other | other != k && other != "" ensures SameVar(es, Reparsed(fs), other) {
      DeleteDrops(es, k, other);
    }
  }
}
