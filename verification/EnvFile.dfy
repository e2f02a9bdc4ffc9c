/** A .env file that keeps its comments and layout (scripts/configurator/envfile.go: parseEnv, Render,
    Set, Get, GetAny, Delete, Comment). */
module EnvFile {
  import opened EnvText
  import opened Lines
  import opened Strings

  // ----- Parsing -----

  function ParseAll(ls: seq<string>): seq<Parsed>
    decreases |ls|
  {
    if ls == [] then []
    else
      var p := ParseEntry(ls);
      [p] + ParseAll(ls[|p.entry.lines|..])
  }

  function EntriesOf(ps: seq<Parsed>): (es: seq<Entry>)
    ensures |es| == |ps|
    ensures forall i :: 0 <= i < |ps| ==> es[i] == ps[i].entry
  {
    if ps == [] then [] else [ps[0].entry] + EntriesOf(ps[1..])
  }

  function Parse(s: string): seq<Entry> {
    EntriesOf(ParseAll(FileLines(s)))
  }

  /** No quoted value runs past the end of the file. */
  predicate IsClosed(s: string) {
    forall i :: 0 <= i < |ParseAll(FileLines(s))| ==> ParseAll(FileLines(s))[i].closed
  }

  // ----- Rendering -----

  function Texts(es: seq<Entry>): (ts: seq<string>)
    ensures |ts| == |es|
    ensures forall i :: 0 <= i < |es| ==> ts[i] == Join(es[i].lines)
  {
    if es == [] then [] else [Join(es[0].lines)] + Texts(es[1..])
  }

  function Render(es: seq<Entry>): string {
    Join(Texts(es)) + "\n"
  }

  // ----- Lookup and change -----

  function Get(es: seq<Entry>, key: string): Option<string> {
    if es == [] then None
    else if es[0].key == key && !es[0].commented then Some(es[0].value)
    else Get(es[1..], key)
  }

  /** Value and whether it is commented out. */
  function GetAny(es: seq<Entry>, key: string): Option<(string, bool)> {
    if es == [] then None
    else if es[0].key == key then Some((es[0].value, es[0].commented))
    else GetAny(es[1..], key)
  }

  /** Position of the first entry with the key, |es| if there is none. */
  function Find(es: seq<Entry>, key: string): (i: nat)
    ensures i <= |es|
    ensures i < |es| ==> es[i].key == key
    ensures forall j :: 0 <= j < i ==> es[j].key != key
  {
    if es == [] || es[0].key == key then 0 else Find(es[1..], key) + 1
  }

  function Set(es: seq<Entry>, key: string, value: string): seq<Entry> {
    var i := Find(es, key);
    var line := FormatVar(key, value, false);
    if i < |es| then es[i := es[i].(lines := [line], value := value, commented := false)]
    else es + [Entry([line], key, value, false, false)]
  }

  function Delete(es: seq<Entry>, key: string): seq<Entry> {
    if es == [] then [] else (if es[0].key == key then [] else [es[0]]) + Delete(es[1..], key)
  }

  /** Position of the first live entry with the key, |es| if there is none. */
  function FindLive(es: seq<Entry>, key: string): (i: nat)
    ensures i <= |es|
    ensures i < |es| ==> es[i].key == key && !es[i].commented
    ensures forall j :: 0 <= j < i ==> es[j].key != key || es[j].commented
  {
    if es == [] || (es[0].key == key && !es[0].commented) then 0 else FindLive(es[1..], key) + 1
  }

  function Comment(es: seq<Entry>, key: string): seq<Entry> {
    var i := FindLive(es, key);
    if i < |es| then es[i := es[i].(lines := [FormatVar(key, es[i].value, true)], commented := true)] else es
  }

  class File {
    var entries: seq<Entry>

    /** parseEnv */
    constructor Load(s: string)
      ensures entries == Parse(s)
    {
      var lines := FileLines(s);
      var es := ReadEntries(lines);
      EntriesFromIsParse(lines, 0);
      assert lines[0..] == lines;
      entries := es;
    }

    method GetLive(key: string) returns (r: Option<string>)
      ensures r == Get(entries, key)
    {
      for i := 0 to |entries|
        invariant Get(entries[i..], key) == Get(entries, key)
      {
        assert entries[i..][1..] == entries[i + 1..];
        if entries[i].key == key && !entries[i].commented {
          return Some(entries[i].value);
        }
      }
      return None;
    }

    method SetVar(key: string, value: string)
      modifies this
      ensures entries == Set(old(entries), key, value)
    {
      for i := 0 to |entries|
        invariant entries == old(entries)
        invariant Find(entries, key) >= i
      {
        if entries[i].key == key {
          var written := entries[i].(lines := [FormatVar(key, value, false)], value := value, commented := false);
          entries := entries[i := written];
          return;
        }
      }
      entries := entries + [Entry([FormatVar(key, value, false)], key, value, false, false)];
    }

    method CommentVar(key: string)
      modifies this
      ensures entries == Comment(old(entries), key)
    {
      for i := 0 to |entries|
        invariant entries == old(entries)
        invariant FindLive(entries, key) >= i
      {
        if entries[i].key == key && !entries[i].commented {
          entries := entries[i := entries[i].(lines := [FormatVar(key, entries[i].value, true)], commented := true)];
          return;
        }
      }
    }

    method DeleteVar(key: string)
      modifies this
      ensures entries == Delete(old(entries), key)
    {
      var out: seq<Entry> := [];
      for i := 0 to |entries|
        invariant entries == old(entries)
        invariant out + Delete(entries[i..], key) == Delete(entries, key)
      {
        assert entries[i..][1..] == entries[i + 1..];
        if entries[i].key == key {
          continue;
        }
        out := out + [entries[i]];
      }
      assert out + [] == out;
      entries := out;
    }

    method RenderText() returns (s: string)
      ensures s == Render(entries)
    {
      s := "";
      for i := 0 to |entries|
        invariant s == Join(Texts(entries[..i]))
      {
        RenderStep(entries, i);
        if i > 0 {
          s := s + "\n";
        }
        s := s + Join(entries[i].lines);
      }
      assert entries[..|entries|] == entries;
      s := s + "\n";
    }
  }

  lemma {:induction false} RenderStep(es: seq<Entry>, i: nat)
    requires i < |es|
    ensures Join(Texts(es[..i + 1]))
         == (if i > 0 then Join(Texts(es[..i])) + "\n" else Join(Texts(es[..i]))) + Join(es[i].lines)
  {
    var text := Join(es[i].lines);
    TextsSnoc(es, i);
    hide Join;
    JoinSnoc(Texts(es[..i]), text);
    if i == 0 {
      NoText();
      assert "" + text == text;
    }
  }

  lemma {:induction false} NoText()
    ensures Join([]) == ""
  {
  }

  lemma {:induction false} TextsSnoc(es: seq<Entry>, i: nat)
    requires i < |es|
    ensures Texts(es[..i + 1]) == Texts(es[..i]) + [Join(es[i].lines)]
  {
  }

  lemma {:induction false} JoinSnoc(ts: seq<string>, t: string)
    ensures Join(ts + [t]) == if ts == [] then t else Join(ts) + "\n" + t
  {
    if ts == [] {
      assert [] + [t] == [t];
    } else {
      assert (ts + [t])[1..] == ts[1..] + [t];
      JoinSnoc(ts[1..], t);
    }
  }

  lemma {:induction false} JoinSnocEmpty(ls: seq<string>)
    ensures Join(ls + [""]) == if ls == [] then "" else Join(ls) + "\n"
  {
    JoinSnoc(ls, "");
    assert Join(ls) + "\n" + "" == Join(ls) + "\n";
  }

  lemma {:induction false} JoinDropsEmpty(all: seq<string>)
    requires all != []
    ensures all[|all| - 1] == "" ==>
              Join(all) == if |all| == 1 then "" else Join(all[..|all| - 1]) + "\n"
  {
    if all[|all| - 1] == "" {
      assert all == all[..|all| - 1] + [""];
      JoinSnocEmpty(all[..|all| - 1]);
    }
  }

  /** The parsing loop. */
  method ReadEntries(lines: seq<string>) returns (es: seq<Entry>)
    ensures es == EntriesFrom(lines, 0)
  {
    es := [];
    var i := 0;
    hide EntriesFrom;
    while i < |lines|
      invariant 0 <= i <= |lines|
      invariant EntriesFrom(lines, 0) == es + EntriesFrom(lines, i)
    {
      var entry := ReadNext(lines, i, es);
      es := es + [entry];
      i := i + |entry.lines|;
    }
    NoEntriesLeft(lines, es);
  }

  method ReadNext(lines: seq<string>, i: nat, ghost es: seq<Entry>) returns (entry: Entry)
    requires i < |lines|
    ensures 0 < |entry.lines| <= |lines| - i
    ensures es + EntriesFrom(lines, i) == (es + [entry]) + EntriesFrom(lines, i + |entry.lines|)
  {
    entry := ReadEntry(lines, i);
    EntriesAdvance(lines, i, entry, es);
  }

  lemma {:induction false} NoEntriesLeft(lines: seq<string>, es: seq<Entry>)
    ensures es + EntriesFrom(lines, |lines|) == es
  {
  }

  lemma {:induction false} EntriesAdvance(lines: seq<string>, i: nat, entry: Entry, es: seq<Entry>)
    requires i < |lines| && entry == ParseEntry(lines[i..]).entry
    ensures i + |entry.lines| <= |lines|
    ensures es + EntriesFrom(lines, i) == (es + [entry]) + EntriesFrom(lines, i + |entry.lines|)
  {
    hide *;
    FirstEntry(lines, i);
    AppendCons(es, entry, EntriesFrom(lines, i + |entry.lines|), EntriesFrom(lines, i));
  }

  lemma {:induction false} FirstEntry(lines: seq<string>, i: nat)
    requires i < |lines|
    ensures var e := ParseEntry(lines[i..]).entry;
            i + |e.lines| <= |lines| && EntriesFrom(lines, i) == [e] + EntriesFrom(lines, i + |e.lines|)
  {
    hide ParseEntry;
  }

  /** The entries from line `i` on. */
  function EntriesFrom(lines: seq<string>, i: nat): seq<Entry>
    requires i <= |lines|
    decreases |lines| - i
  {
    if i == |lines| then []
    else
      var e := ParseEntry(lines[i..]).entry;
      [e] + EntriesFrom(lines, i + |e.lines|)
  }

  lemma {:induction false} EntriesFromIsParse(lines: seq<string>, i: nat)
    requires i <= |lines|
    ensures EntriesFrom(lines, i) == EntriesOf(ParseAll(lines[i..]))
    decreases |lines| - i
  {
    if i < |lines| {
      var e := ParseEntry(lines[i..]).entry;
      EntriesFromIsParse(lines, i + |e.lines|);
      EntriesStep(lines[i..]);
      assert lines[i..][|e.lines|..] == lines[i + |e.lines|..];
    }
  }

  lemma {:induction false} EntriesStep(ls: seq<string>)
    requires ls != []
    ensures var e := ParseEntry(ls).entry;
            EntriesOf(ParseAll(ls)) == [e] + EntriesOf(ParseAll(ls[|e.lines|..]))
  {
    var p := ParseEntry(ls);
    var rest := ParseAll(ls[|p.entry.lines|..]);
    assert ([p] + rest)[1..] == rest;
  }

  /** One step of the parsing loop. */
  method ReadEntry(lines: seq<string>, i: nat) returns (entry: Entry)
    requires i < |lines|
    ensures entry == ParseEntry(lines[i..]).entry
    ensures 0 < |entry.lines| <= |lines| - i
  {
    var line := lines[i];
    assert lines[i..][0] == line && lines[i..][..1] == [line];
    var head := HeadOf(line);
    if head.Verbatim? {
      return Entry([line], "", "", false, false);
    }
    var rest := head.rest;
    if rest != "" && rest[0] == '\"' {
      var body := rest[1..];
      var idx := FindClosingQuote(body);
      if idx >= 0 {
        var value := UnescapeQuoted(body[..idx]);
        return Entry([line], head.key, value, true, head.commented);
      }
      ghost var more := Continue(lines[i + 1..]);
      assert lines[i..][1..] == lines[i + 1..];
      var parts, j := ReadContinuation(lines, i + 1);
      var value := UnescapeQuoted(Join([body] + parts));
      assert lines[i..][..more.count + 1] == lines[i..j];
      return Entry(lines[i..j], head.key, value, true, head.commented);
    }
    if rest != "" && rest[0] == '\'' {
      var body := rest[1..];
      var idx := IndexOf(body, '\'');
      return Entry([line], head.key, if idx >= 0 then body[..idx] else body, true, head.commented);
    }
    return Entry([line], head.key, Trim(rest), false, head.commented);
  }

  /** The lines of a quoted value behind its first one. */
  method ReadContinuation(lines: seq<string>, from: nat) returns (parts: seq<string>, j: nat)
    requires from <= |lines|
    ensures parts == Continue(lines[from..]).parts && j == from + Continue(lines[from..]).count
  {
    parts, j := [], from;
    while j < |lines|
      invariant from <= j <= |lines|
      invariant Continue(lines[from..]).parts == parts + Continue(lines[j..]).parts
      invariant Continue(lines[from..]).count == j - from + Continue(lines[j..]).count
    {
      ContinueStep(lines, j, parts);
      var end := FindClosingQuote(lines[j]);
      if end >= 0 {
        parts := parts + [lines[j][..end]];
        return parts, j + 1;
      }
      parts := parts + [lines[j]];
      j := j + 1;
    }
    assert parts + [] == parts;
  }

  lemma {:induction false} ContinueStep(lines: seq<string>, j: nat, parts: seq<string>)
    requires j < |lines|
    ensures var r := Continue(lines[j..]);
            var end := ClosingQuote(lines[j], 0);
            if end >= 0 then r.count == 1 && parts + r.parts == parts + [lines[j][..end]]
            else r.count == 1 + Continue(lines[j + 1..]).count
                 && parts + r.parts == (parts + [lines[j]]) + Continue(lines[j + 1..]).parts
  {
    assert lines[j..][1..] == lines[j + 1..];
  }

  // ----- Rendering what was parsed -----

  function Groups(ps: seq<Parsed>): (gs: seq<seq<string>>)
    ensures |gs| == |ps|
    ensures forall i :: 0 <= i < |ps| ==> gs[i] == ps[i].entry.lines
  {
    if ps == [] then [] else [ps[0].entry.lines] + Groups(ps[1..])
  }

  lemma {:induction false} GroupsStep(p: Parsed, rest: seq<Parsed>)
    ensures Flatten(Groups([p] + rest)) == p.entry.lines + Flatten(Groups(rest))
  {
    assert ([p] + rest)[1..] == rest;
    assert ([p.entry.lines] + Groups(rest))[1..] == Groups(rest);
  }

  lemma {:induction false} GroupsCoverLines(ls: seq<string>)
    ensures Flatten(Groups(ParseAll(ls))) == ls
    ensures forall i :: 0 <= i < |ParseAll(ls)| ==> ParseAll(ls)[i].entry.lines != []
    decreases |ls|
  {
    if ls != [] {
      var p := ParseEntry(ls);
      var rest := ls[|p.entry.lines|..];
      hide ParseEntry, Groups, Flatten;
      var tail := ParseAll(rest);
      assert ParseAll(ls) == [p] + tail;
      hide ParseAll;
      GroupsCoverLines(rest);
      GroupsStep(p, tail);
      assert ls == p.entry.lines + rest;
    } else {
      NoGroups();
    }
  }

  lemma {:induction false} NoGroups()
    ensures Flatten(Groups([])) == []
  {
  }

  lemma {:induction false} JoinAppend(a: seq<string>, b: seq<string>)
    requires a != []
    ensures Join(a + b) == if b == [] then Join(a) else Join(a) + "\n" + Join(b)
  {
    if b == [] {
      assert a + b == a;
    } else if |a| > 1 {
      assert (a + b)[1..] == a[1..] + b;
      JoinAppend(a[1..], b);
    } else {
      assert (a + b)[1..] == b;
    }
  }

  lemma {:induction false} JoinTexts(ps: seq<Parsed>)
    requires forall i :: 0 <= i < |ps| ==> ps[i].entry.lines != []
    ensures Join(Texts(EntriesOf(ps))) == Join(Flatten(Groups(ps)))
    ensures Flatten(Groups(ps)) == [] <==> ps == []
  {
    if ps != [] {
      JoinTexts(ps[1..]);
      assert EntriesOf(ps)[1..] == EntriesOf(ps[1..]);
      assert Texts(EntriesOf(ps))[1..] == Texts(EntriesOf(ps[1..]));
      assert Groups(ps)[1..] == Groups(ps[1..]);
      JoinAppend(ps[0].entry.lines, Flatten(Groups(ps[1..])));
    }
  }

  lemma {:induction false} LastLineEmpty(s: string)
    ensures Split(s)[|Split(s)| - 1] == "" <==> s == "" || s[|s| - 1] == '\n'
  {
    if s != "" {
      LastLineEmpty(s[1..]);
    }
  }

  /** Rendering a parsed text gives it back, with a final newline added only if it is missing. */
  lemma {:induction false} RenderParse(s: string)
    ensures Render(Parse(s)) == if s != "" && s[|s| - 1] == '\n' then s else s + "\n"
  {
    RenderJoinsLines(FileLines(s));
    JoinFileLines(s);
  }

  lemma {:induction false} RenderJoinsLines(ls: seq<string>)
    ensures Render(EntriesOf(ParseAll(ls))) == Join(ls) + "\n"
  {
    GroupsCoverLines(ls);
    JoinTexts(ParseAll(ls));
  }

  lemma {:induction false} JoinFileLines(s: string)
    ensures Join(FileLines(s)) + "\n" == if s != "" && s[|s| - 1] == '\n' then s else s + "\n"
  {
    JoinSplit(s);
    LastLineEmpty(s);
    JoinDropsEmpty(Split(s));
  }

  // ----- Parsing what was rendered -----

  /** Each entry, taken alone, reads as the corresponding parsed one; only the last may be open. */
  ghost predicate ReadsAs(es: seq<Entry>, ps: seq<Parsed>) {
    && |es| == |ps|
    && forall i :: 0 <= i < |es| ==> EntryReadsAs(es[i], ps[i]) && (ps[i].closed || i == |ps| - 1)
  }

  ghost predicate EntryReadsAs(e: Entry, p: Parsed) {
    var g := Split(Join(e.lines));
    ParseEntry(g) == p && p.entry.lines == g
  }

  lemma {:induction false} ReadsAsTail(es: seq<Entry>, ps: seq<Parsed>)
    requires ReadsAs(es, ps) && es != []
    ensures EntryReadsAs(es[0], ps[0]) && (ps[0].closed || |es| == 1) && ReadsAs(es[1..], ps[1..])
  {
    hide EntryReadsAs;
    forall i | 0 <= i < |es[1..]|
      ensures EntryReadsAs(es[1..][i], ps[1..][i]) && (ps[1..][i].closed || i == |ps[1..]| - 1)
    {
      assert EntryReadsAs(es[i + 1], ps[i + 1]);
    }
  }

  lemma {:induction false} GroupsOfTexts(es: seq<Entry>)
    requires es != []
    ensures Flatten(SplitEach(Texts(es))) == Split(Join(es[0].lines)) + Flatten(SplitEach(Texts(es[1..])))
  {
    var g := Split(Join(es[0].lines));
    assert Texts(es)[1..] == Texts(es[1..]);
    assert SplitEach(Texts(es)) == [g] + SplitEach(Texts(es[1..]));
  }

  /** The lines of an entry followed by others parse as that entry followed by the others' entries. */
  lemma {:induction false} ParseFirst(e: Entry, p: Parsed, tail: seq<string>)
    requires EntryReadsAs(e, p) && (p.closed || tail == [])
    ensures ParseAll(Split(Join(e.lines)) + tail) == [p] + ParseAll(tail)
  {
    var g := Split(Join(e.lines));
    if p.closed {
      ParseEntryIsLocal(g, tail);
    } else {
      assert g + tail == g;
    }
    assert (g + tail)[|g|..] == tail;
  }

  lemma {:induction false} ParseGroups(es: seq<Entry>, ps: seq<Parsed>)
    requires ReadsAs(es, ps)
    ensures ParseAll(Flatten(SplitEach(Texts(es)))) == ps
  {
    if es != [] {
      hide EntryReadsAs, ReadsAs;
      var tail := Flatten(SplitEach(Texts(es[1..])));
      ReadsAsTail(es, ps);
      GroupsOfTexts(es);
      ParseGroups(es[1..], ps[1..]);
      assert |es| == 1 ==> tail == [];
      ParseFirst(es[0], ps[0], tail);
      assert [ps[0]] + ps[1..] == ps;
    }
  }

  lemma {:induction false} ParseRender(es: seq<Entry>, ps: seq<Parsed>)
    requires es != [] && ReadsAs(es, ps)
    ensures ParseAll(FileLines(Render(es))) == ps
  {
    var body := Join(Texts(es));
    SplitAtNewline(body, "");
    assert body + "\n" + "" == Render(es);
    SplitJoin(Texts(es));
    assert FileLines(Render(es)) == Split(body);
    ParseGroups(es, ps);
  }

  lemma {:induction false} ParsedReadsBack(ls: seq<string>)
    requires AllOneLine(ls)
    ensures ReadsAs(EntriesOf(ParseAll(ls)), ParseAll(ls))
    decreases |ls|
  {
    if ls != [] {
      var p := ParseEntry(ls);
      var rest := ls[|p.entry.lines|..];
      ParsedReadsBack(rest);
      FirstReadsBack(ls);
      var ps, qs := ParseAll(ls), ParseAll(rest);
      assert ps == [p] + qs;
      forall i | 0 <= i < |ps|
        ensures EntryReadsAs(EntriesOf(ps)[i], ps[i]) && (ps[i].closed || i == |ps| - 1)
      {
        if i > 0 {
          assert ps[i] == qs[i - 1] && EntriesOf(qs)[i - 1] == qs[i - 1].entry;
          assert EntryReadsAs(EntriesOf(qs)[i - 1], qs[i - 1]);
        }
      }
    }
  }

  lemma {:induction false} FirstReadsBack(ls: seq<string>)
    requires ls != [] && AllOneLine(ls)
    ensures EntryReadsAs(ParseEntry(ls).entry, ParseEntry(ls))
  {
    var p := ParseEntry(ls);
    SplitJoinOneLine(p.entry.lines);
    if p.closed {
      ParseEntryIsLocal(ls, []);
      assert p.entry.lines + [] == p.entry.lines;
    } else {
      assert p.entry.lines == ls;
    }
  }

  lemma {:induction false} FileReadsBack(s: string)
    ensures ReadsAs(Parse(s), ParseAll(FileLines(s)))
  {
    SplitIsOneLine(s);
    ParsedReadsBack(FileLines(s));
  }

  /** A value is read from the first live entry with the key; whether a key is there at all from the first entry. */
  lemma {:induction false} GetMeaning(es: seq<Entry>, key: string)
    ensures Get(es, key).None? <==> forall i :: 0 <= i < |es| ==> es[i].key != key || es[i].commented
    ensures Get(es, key).Some? ==> exists i: nat :: FirstLive(es, key, i) && Get(es, key) == Some(es[i].value)
    ensures GetAny(es, key).None? <==> forall i :: 0 <= i < |es| ==> es[i].key != key
    ensures GetAny(es, key).Some? ==>
              exists i: nat :: FirstOf(es, key, i) && GetAny(es, key) == Some((es[i].value, es[i].commented))
  {
    GetAtFirst(es, key);
    var i, j := FindLive(es, key), Find(es, key);
    if i < |es| {
      assert FirstLive(es, key, i);
    }
    if j < |es| {
      assert FirstOf(es, key, j);
    }
  }

  predicate FirstLive(es: seq<Entry>, key: string, i: nat) {
    && i < |es| && es[i].key == key && !es[i].commented
    && forall j :: 0 <= j < i ==> es[j].key != key || es[j].commented
  }

  predicate FirstOf(es: seq<Entry>, key: string, i: nat) {
    i < |es| && es[i].key == key && forall j :: 0 <= j < i ==> es[j].key != key
  }

  lemma {:induction false} GetAtFirst(es: seq<Entry>, key: string)
    ensures var i := FindLive(es, key); Get(es, key) == if i < |es| then Some(es[i].value) else None
    ensures var j := Find(es, key); GetAny(es, key) == if j < |es| then Some((es[j].value, es[j].commented)) else None
  {
    if es != [] {
      GetAtFirst(es[1..], key);
    }
  }
}
