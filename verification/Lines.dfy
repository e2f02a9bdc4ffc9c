/** Splitting text into lines and joining lines to text, as Go's strings.Split and strings.Join do with "\n". */
module Lines {
  function Split(s: string): (ls: seq<string>)
    ensures |ls| > 0
  {
    if s == "" then [""]
    else if s[0] == '\n' then [""] + Split(s[1..])
    else
      var rest := Split(s[1..]);
      [[s[0]] + rest[0]] + rest[1..]
  }

  function Join(ls: seq<string>): string {
    if ls == [] then "" else if |ls| == 1 then ls[0] else ls[0] + "\n" + Join(ls[1..])
  }

  predicate OneLine(s: string) {
    '\n' !in s
  }

  predicate AllOneLine(ls: seq<string>) {
    forall i :: 0 <= i < |ls| ==> OneLine(ls[i])
  }

  function Flatten(groups: seq<seq<string>>): seq<string> {
    if groups == [] then [] else groups[0] + Flatten(groups[1..])
  }

  // ----- Splitting and joining are inverse -----

  lemma {:induction false} JoinSplit(s: string)
    ensures Join(Split(s)) == s
  {
    if s != "" {
      JoinSplit(s[1..]);
      var rest := Split(s[1..]);
      if s[0] == '\n' {
        assert Split(s)[1..] == rest;
      } else {
        assert Split(s)[1..] == rest[1..];
        if |rest| > 1 {
          assert Join(Split(s)) == ([s[0]] + rest[0]) + "\n" + Join(rest[1..]);
          assert Join(Split(s)) == [s[0]] + (rest[0] + "\n" + Join(rest[1..]));
        }
      }
    }
  }

  lemma {:induction false} SplitIsOneLine(s: string)
    ensures AllOneLine(Split(s))
  {
    if s != "" {
      SplitIsOneLine(s[1..]);
    }
  }

  lemma {:induction false} SplitOneLine(s: string)
    requires OneLine(s)
    ensures Split(s) == [s]
  {
    if s != "" {
      assert s[0] in s && forall c :: c in s[1..] ==> c in s;
      SplitOneLine(s[1..]);
      assert [s[0]] + s[1..] == s;
    }
  }

  /** Text in front of the first newline stays on the first line. */
  lemma {:induction false} SplitPrefix(a: string, s: string)
    requires OneLine(a)
    ensures Split(a + s) == [a + Split(s)[0]] + Split(s)[1..]
  {
    if a == "" {
      assert a + s == s && a + Split(s)[0] == Split(s)[0];
    } else {
      assert a[0] in a && forall c :: c in a[1..] ==> c in a;
      SplitPrefix(a[1..], s);
      assert (a + s)[1..] == a[1..] + s;
      assert [a[0]] + (a[1..] + Split(s)[0]) == a + Split(s)[0];
    }
  }

  lemma {:induction false} SplitAtNewline(a: string, s: string)
    ensures Split(a + "\n" + s) == Split(a) + Split(s)
  {
    if a == "" {
      SplitNewlineFirst("\n" + s);
      assert a + "\n" + s == "\n" + s;
    } else {
      var t, u := a + "\n" + s, a[1..] + "\n" + s;
      SplitAtNewline(a[1..], s);
      assert t[1..] == u && t[0] == a[0];
      SplitNewlineFirst(t);
      SplitNewlineFirst(a);
      LinesAppend(a[0], Split(a[1..]), Split(s));
    }
  }

  /** The lines of a text that starts with `c`, given the lines of the rest. */
  function Onto(c: char, rest: seq<string>): seq<string>
    requires rest != []
  {
    if c == '\n' then [""] + rest else [[c] + rest[0]] + rest[1..]
  }

  lemma {:induction false} SplitNewlineFirst(s: string)
    requires s != ""
    ensures Split(s) == Onto(s[0], Split(s[1..]))
  {
  }

  lemma {:induction false} LinesAppend(c: char, rest: seq<string>, tail: seq<string>)
    requires rest != []
    ensures Onto(c, rest + tail) == Onto(c, rest) + tail
  {
    assert (rest + tail)[0] == rest[0] && (rest + tail)[1..] == rest[1..] + tail;
  }

  /** Splitting joined texts gives the lines of each in turn. */
  lemma {:induction false} SplitJoin(texts: seq<string>)
    requires texts != []
    ensures Split(Join(texts)) == Flatten(SplitEach(texts))
  {
    if |texts| == 1 {
      assert SplitEach(texts)[1..] == [];
      assert Split(texts[0]) + [] == Split(texts[0]);
    } else {
      SplitJoin(texts[1..]);
      SplitAtNewline(texts[0], Join(texts[1..]));
      assert SplitEach(texts)[1..] == SplitEach(texts[1..]);
    }
  }

  function SplitEach(texts: seq<string>): seq<seq<string>> {
    if texts == [] then [] else [Split(texts[0])] + SplitEach(texts[1..])
  }

  lemma {:induction false} SplitJoinOneLine(ls: seq<string>)
    requires ls != [] && AllOneLine(ls)
    ensures Split(Join(ls)) == ls
  {
    SplitOneLine(ls[0]);
    if |ls| > 1 {
      SplitJoinOneLine(ls[1..]);
      SplitAtNewline(ls[0], Join(ls[1..]));
    }
  }
}
