/** The mail server's account file (scripts/configurator/dms_accounts.go: parseDmsAccounts,
    regenerateDmsAccounts).  Passwords, salts and the order in which a map is ranged over are parameters. */
module DmsAccounts {
  import opened AccountOrder
  import opened CryptVerify
  import opened Lines
  import opened ShaCrypt
  import opened Strings

  // ----- Parsing -----

  type Accounts = map<string, string>

  /** The address and hash a line names. */
  function ParseLine(raw: string): Option<Account> {
    var line := Trim(raw);
    if line == "" || line[0] == '#' then None
    else
      var i := IndexOf(line, '|');
      if i < 0 then None
      else
        var email, hash := Trim(line[..i]), Trim(line[i + 1..]);
        if email != "" && hash != "" then Some(Account(email, hash)) else None
  }

  function AddLine(m: Accounts, raw: string): Accounts {
    match ParseLine(raw)
    case None => m
    case Some(a) => m[Key(a) := a.hash]
  }

  function AddLines(m: Accounts, ls: seq<string>): Accounts
    decreases |ls|
  {
    if ls == [] then m else AddLines(AddLine(m, ls[0]), ls[1..])
  }

  /** The mailboxes in a file, by lower-cased address. */
  function Existing(text: string): Accounts {
    AddLines(map[], Split(text))
  }

  method ParseDmsAccounts(text: string) returns (out: Accounts)
    ensures out == Existing(text)
  {
    out := map[];
    var lines := Split(text);
    for i := 0 to |lines|
      invariant AddLines(out, lines[i..]) == Existing(text)
    {
      assert lines[i..][1..] == lines[i + 1..];
      var line := Trim(lines[i]);
      if line == "" || line[0] == '#' {
        continue;
      }
      var bar := IndexOf(line, '|');
      if bar < 0 {
        continue;
      }
      var email, hash := Trim(line[..bar]), Trim(line[bar + 1..]);
      if email != "" && hash != "" {
        out := out[ToLower(email) := hash];
      }
    }
  }

  // ----- Regenerating -----

  /** What a regeneration starts from: the roster's addresses as they stand there, the stored password of
      an address ("" if there is none), and the salts that would be drawn. */
  datatype Config = Config(roster: seq<string>, password: string -> string, salts: nat -> string)

  /** The address of roster position i if it gets a mailbox. */
  function Mailbox(c: Config, i: nat): Option<string>
    requires i < |c.roster|
  {
    var email := Trim(c.roster[i]);
    if email == "" || c.password(email) == "" then None else Some(email)
  }

  function HashFor(h: Hash, c: Config, i: nat, email: string, existing: Accounts): string {
    var pw := c.password(email);
    if ToLower(email) in existing && Verify(h, pw, existing[ToLower(email)]) then existing[ToLower(email)]
    else Crypt(h, pw, c.salts(i), DEFAULT_ROUNDS, false)
  }

  function AccountAt(h: Hash, c: Config, i: nat, existing: Accounts): Option<Account>
    requires i < |c.roster|
  {
    match Mailbox(c, i)
    case None => None
    case Some(email) => Some(Account(email, HashFor(h, c, i, email, existing)))
  }

  function Candidates(h: Hash, c: Config, existing: Accounts): (xs: seq<Option<Account>>)
    ensures |xs| == |c.roster|
    ensures forall i :: 0 <= i < |xs| ==> xs[i] == AccountAt(h, c, i, existing)
  {
    seq(|c.roster|, i requires 0 <= i < |c.roster| => AccountAt(h, c, i, existing))
  }

  function Somes(xs: seq<Option<Account>>): seq<Account> {
    if xs == [] then []
    else if xs[|xs| - 1].None? then Somes(xs[..|xs| - 1])
    else Somes(xs[..|xs| - 1]) + [xs[|xs| - 1].value]
  }

  function Rostered(h: Hash, c: Config, existing: Accounts): seq<Account> {
    Somes(Candidates(h, c, existing))
  }

  function Known(accts: seq<Account>): set<string> {
    set a | a in accts :: Key(a)
  }

  ghost predicate Enumerates(order: seq<string>, m: Accounts) {
    && (forall i, j :: 0 <= i < j < |order| ==> order[i] != order[j])
    && (forall k :: k in order <==> k in m)
  }

  /** The other accounts of the file, in the order in which the map is ranged over. */
  function Extras(order: seq<string>, known: set<string>, existing: Accounts): seq<Account>
    requires forall k :: k in order ==> k in existing
  {
    if order == [] then []
    else
      (if order[0] in known then [] else [Account(order[0], existing[order[0]])])
      + Extras(order[1..], known, existing)
  }

  function All(h: Hash, c: Config, order: seq<string>, existing: Accounts): seq<Account>
    requires forall k :: k in order ==> k in existing
  {
    var accts := Rostered(h, c, existing);
    accts + Extras(order, Known(accts), existing)
  }

  function Line(a: Account): string {
    a.email + "|" + a.hash
  }

  function PrintAccounts(accts: seq<Account>): string {
    if accts == [] then "" else Line(accts[0]) + "\n" + PrintAccounts(accts[1..])
  }

  function Regenerated(h: Hash, c: Config, order: seq<string>, text: string): string
    requires Enumerates(order, Existing(text))
  {
    PrintAccounts(Sort(All(h, c, order, Existing(text))))
  }

  method RegenerateDmsAccounts(h: Hash, c: Config, order: seq<string>, text: string) returns (out: string)
    requires Enumerates(order, Existing(text))
    ensures out == Regenerated(h, c, order, text)
  {
    var existing := ParseDmsAccounts(text);
    var accts := CollectRoster(h, c, existing);
    accts := AddExtras(accts, order, existing);
    var a := new Account[|accts|](i requires 0 <= i < |accts| => accts[i]);
    assert a[..] == accts;
    SortInPlace(a);
    out := WriteAll(a[..]);
  }

  method CollectRoster(h: Hash, c: Config, existing: Accounts) returns (accts: seq<Account>)
    ensures accts == Rostered(h, c, existing)
  {
    accts := [];
    ghost var xs := Candidates(h, c, existing);
    for i := 0 to |c.roster|
      invariant accts == Somes(xs[..i])
    {
      assert xs[..i + 1][..i] == xs[..i];
      var acct := FindOrMake(h, c, i, existing);
      if acct.Some? {
        accts := accts + [acct.value];
      }
    }
    assert xs[..|c.roster|] == xs;
  }

  /** One turn of the roster loop; None where it skips the agent. */
  method FindOrMake(h: Hash, c: Config, i: nat, existing: Accounts) returns (acct: Option<Account>)
    requires i < |c.roster|
    ensures acct == AccountAt(h, c, i, existing)
  {
    var email := Trim(c.roster[i]);
    if email == "" {
      return None;
    }
    var pw := c.password(email);
    if pw == "" {
      return None;
    }
    var key := ToLower(email);
    if key in existing && Verify(h, pw, existing[key]) {
      return Some(Account(email, existing[key]));
    }
    var made := Sha512CryptRounds(h, pw, c.salts(i), DEFAULT_ROUNDS, false);
    return Some(Account(email, made));
  }

  method AddExtras(accts: seq<Account>, order: seq<string>, existing: Accounts) returns (all: seq<Account>)
    requires forall k :: k in order ==> k in existing
    ensures all == accts + Extras(order, Known(accts), existing)
  {
    var known: set<string> := {};
    for i := 0 to |accts|
      invariant known == Known(accts[..i])
    {
      KnownSnoc(accts[..i], accts[i]);
      assert accts[..i + 1] == accts[..i] + [accts[i]];
      known := known + {ToLower(accts[i].email)};
    }
    assert accts[..|accts|] == accts;
    all := accts;
    for i := 0 to |order|
      invariant all + Extras(order[i..], known, existing) == accts + Extras(order, known, existing)
    {
      assert order[i..][1..] == order[i + 1..];
      var more := Extras(order[i + 1..], known, existing);
      if order[i] !in known {
        var extra := Account(order[i], existing[order[i]]);
        assert all + ([extra] + more) == (all + [extra]) + more;
        all := all + [extra];
      } else {
        assert [] + more == more;
      }
    }
    assert all + [] == all;
  }

  lemma {:induction false} KnownSnoc(accts: seq<Account>, a: Account)
    ensures Known(accts + [a]) == Known(accts) + {Key(a)}
  {
    forall k | k in Known(accts) + {Key(a)} ensures k in Known(accts + [a]) {
      if k in Known(accts) {
        var b :| b in accts && Key(b) == k;
        assert b in accts + [a];
      } else {
        assert a in accts + [a];
      }
    }
  }

  method WriteAll(accts: seq<Account>) returns (sb: string)
    ensures sb == PrintAccounts(accts)
  {
    sb := "";
    for i := 0 to |accts|
      invariant sb + PrintAccounts(accts[i..]) == PrintAccounts(accts)
    {
      assert accts[i..][1..] == accts[i + 1..];
      var rest := PrintAccounts(accts[i + 1..]);
      assert sb + (Line(accts[i]) + "\n" + rest) == (sb + Line(accts[i]) + "\n") + rest;
      assert sb + accts[i].email + "|" + accts[i].hash == sb + Line(accts[i]);
      sb := sb + accts[i].email + "|" + accts[i].hash + "\n";
    }
    assert sb + "" == sb;
  }

  // ----- Printed lines are read back -----

  predicate CleanEmail(e: string) {
    Trim(e) == e && e != "" && '|' !in e && '\n' !in e && e[0] != '#'
  }

  predicate CleanHash(s: string) {
    Trim(s) == s && s != "" && '\n' !in s
  }

  predicate Clean(a: Account) {
    CleanEmail(a.email) && CleanHash(a.hash)
  }

  predicate AllClean(accts: seq<Account>) {
    forall i :: 0 <= i < |accts| ==> Clean(accts[i])
  }

  lemma {:induction false} TrimmedEnds(s: string)
    ensures Trim(s) == s <==> s == "" || (!IsSpace(s[0]) && !IsSpace(s[|s| - 1]))
  {
    if s != "" && IsSpace(s[0]) {
      TrimIsShorter(s[1..]);
    } else if s != "" && IsSpace(s[|s| - 1]) {
      TrimRightIsPrefix(s[..|s| - 1]);
    }
  }

  lemma {:induction false} TrimIsShorter(s: string)
    ensures |Trim(s)| <= |s|
  {
    if s != "" && IsSpace(s[0]) {
      TrimIsShorter(s[1..]);
    } else {
      TrimRightIsPrefix(s);
    }
  }

  lemma {:induction false} LineReadsBack(a: Account)
    requires Clean(a)
    ensures ParseLine(Line(a)) == Some(a) && OneLine(Line(a))
  {
    var line := Line(a);
    TrimmedEnds(a.email);
    TrimmedEnds(a.hash);
    TrimmedEnds(line);
    IndexOfAfter(a.email, '|', a.hash);
    assert line == a.email + ['|'] + a.hash;
    assert line[..|a.email|] == a.email && line[|a.email| + 1..] == a.hash;
  }

  /** What the accounts add to a map. */
  function Fold(m: Accounts, accts: seq<Account>): Accounts
    decreases |accts|
  {
    if accts == [] then m else Fold(m[Key(accts[0]) := accts[0].hash], accts[1..])
  }

  lemma {:induction false} PrintReadsBack(m: Accounts, accts: seq<Account>)
    requires AllClean(accts)
    ensures AddLines(m, Split(PrintAccounts(accts))) == Fold(m, accts)
    decreases |accts|
  {
    if accts == [] {
      EmptyAdds(m);
    } else {
      var line, rest := Line(accts[0]), PrintAccounts(accts[1..]);
      LineReadsBack(accts[0]);
      SplitAtNewline(line, rest);
      SplitOneLine(line);
      assert ([line] + Split(rest))[1..] == Split(rest);
      PrintReadsBack(m[Key(accts[0]) := accts[0].hash], accts[1..]);
    }
  }

  lemma {:induction false} EmptyAdds(m: Accounts)
    ensures AddLines(m, Split("")) == m
  {
    assert Split("") == [""];
    assert AddLine(m, "") == m;
    assert [""][1..] == [];
  }

  /** Folding in accounts with distinct keys sets each of them and touches nothing else. */
  ghost predicate FoldsTo(m: Accounts, accts: seq<Account>, r: Accounts) {
    && (forall a :: a in accts ==> Key(a) in r && r[Key(a)] == a.hash)
    && (forall k :: k !in Known(accts) ==> (k in r <==> k in m) && (k in m ==> r[k] == m[k]))
  }

  lemma {:induction false} FoldSets(m: Accounts, accts: seq<Account>)
    requires DistinctKeys(accts)
    ensures FoldsTo(m, accts, Fold(m, accts))
    decreases |accts|
  {
    if accts != [] {
      var a, rest := accts[0], accts[1..];
      var n := m[Key(a) := a.hash];
      FoldSets(n, rest);
      KnownCons(a, rest);
      assert accts == [a] + rest;
      assert Key(a) !in Known(rest);
    }
  }

  /** Folding in any accounts sets each key to the hash of one of its accounts and touches nothing else. */
  ghost predicate FoldsIntoAt(m: Accounts, accts: seq<Account>, r: Accounts, k: string) {
    if k in Known(accts) then k in r && exists a :: a in accts && Key(a) == k && r[k] == a.hash
    else (k in r <==> k in m) && (k in m ==> r[k] == m[k])
  }

  lemma {:induction false} FoldMeans(m: Accounts, accts: seq<Account>, k: string)
    ensures FoldsIntoAt(m, accts, Fold(m, accts), k)
    decreases |accts|
  {
    if accts != [] {
      var a, rest := accts[0], accts[1..];
      FoldMeans(m[Key(a) := a.hash], rest, k);
      KnownCons(a, rest);
      assert accts == [a] + rest;
    }
  }

  lemma {:induction false} KnownCons(a: Account, rest: seq<Account>)
    ensures Known([a] + rest) == {Key(a)} + Known(rest)
  {
    assert a in [a] + rest;
    forall k | k in Known(rest) ensures k in Known([a] + rest) {
      var b :| b in rest && Key(b) == k;
      assert b in [a] + rest;
    }
  }

  // ----- What a file holds is clean -----

  lemma {:induction false} LowerIsClean(e: string)
    requires CleanEmail(e)
    ensures CleanEmail(ToLower(e)) && ToLower(ToLower(e)) == ToLower(e)
  {
    var l := ToLower(e);
    ToLowerAt(e);
    ToLowerAt(l);
    TrimmedEnds(e);
    TrimmedEnds(l);
    LowerKeepsMarks(e[0]);
    LowerKeepsMarks(e[|e| - 1]);
    forall i | 0 <= i < |l| ensures l[i] != '|' && l[i] != '\n' && ToLower(l)[i] == l[i] {
      LowerKeepsMarks(e[i]);
    }
  }

  lemma {:induction false} TrimKeepsOneLine(s: string)
    ensures Trim(Trim(s)) == Trim(s) && forall c :: c in Trim(s) ==> c in s
  {
    if s != "" && IsSpace(s[0]) {
      TrimKeepsOneLine(s[1..]);
    } else {
      TrimRightIsPrefix(s);
      TrimmedEnds(Trim(s));
      assert Trim(s) != "" ==> Trim(s)[0] == s[0];
    }
  }

  lemma {:induction false} ParsedLineIsClean(raw: string)
    requires OneLine(raw) && ParseLine(raw).Some?
    ensures Clean(ParseLine(raw).value)
  {
    var line := Trim(raw);
    TrimKeepsOneLine(raw);
    var i := IndexOf(line, '|');
    TrimKeepsOneLine(line[..i]);
    TrimKeepsOneLine(line[i + 1..]);
    TrimmedEnds(line);
    TrimFront(line[..i]);
    assert '\n' !in line;
    assert forall c :: c in line[..i] ==> c in line;
    assert forall c :: c in line[i + 1..] ==> c in line;
  }

  /** A text that starts with no space keeps its first character. */
  lemma {:induction false} TrimFront(s: string)
    ensures s != "" && !IsSpace(s[0]) ==> Trim(s) != "" && Trim(s)[0] == s[0]
  {
    if s != "" && !IsSpace(s[0]) {
      TrimRightIsPrefix(s);
      TrimRightKeeps([s[0]], s[1..]);
      assert [s[0]] + s[1..] == s;
    }
  }

  /** Every mailbox of a map is stored under a clean lower-case address with a clean hash. */
  predicate CleanMap(m: Accounts) {
    forall k :: k in m ==> CleanEmail(k) && ToLower(k) == k && CleanHash(m[k])
  }

  lemma {:induction false} AddLinesClean(m: Accounts, ls: seq<string>)
    requires CleanMap(m) && AllOneLine(ls)
    ensures CleanMap(AddLines(m, ls))
    decreases |ls|
  {
    if ls != [] {
      if ParseLine(ls[0]).Some? {
        ParsedLineIsClean(ls[0]);
        LowerIsClean(ParseLine(ls[0]).value.email);
      }
      AddLinesClean(AddLine(m, ls[0]), ls[1..]);
    }
  }

  lemma {:induction false} ExistingIsClean(text: string)
    ensures CleanMap(Existing(text))
  {
    SplitIsOneLine(text);
    AddLinesClean(map[], Split(text));
  }

  // ----- A fresh hash is clean and verifies -----

  predicate NoSpace(s: string) {
    forall i :: 0 <= i < |s| ==> !IsSpace(s[i])
  }

  lemma {:induction false} AlphabetHasNoSpace(s: string)
    requires OverAlphabet(s)
    ensures NoSpace(s)
  {
    forall i | 0 <= i < |s| ensures !IsSpace(s[i]) {
      assert InAlphabet(s[i]);
    }
  }

  lemma {:induction false} NoSpaceIsClean(s: string)
    requires NoSpace(s) && s != ""
    ensures CleanHash(s)
  {
    TrimmedEnds(s);
  }

  lemma {:induction false} PrefixHasNoSpace(st: string)
    requires NoSpace(st)
    ensures NoSpace(Prefix(st, DEFAULT_ROUNDS, false))
  {
    var head := SCHEME + "$6$";
    assert NoSpace(head);
    assert Prefix(st, DEFAULT_ROUNDS, false) == head + st + "$";
  }

  lemma {:induction false} NoSpaceAppend(a: string, b: string)
    requires NoSpace(a) && NoSpace(b)
    ensures NoSpace(a + b)
  {
  }

  lemma {:induction false} CryptIsClean(h: Hash, pw: string, salt: string)
    requires OverAlphabet(salt)
    ensures CleanHash(Crypt(h, pw, salt, DEFAULT_ROUNDS, false))
  {
    var st := Cut(salt);
    var d := FinalDigest(h, pw, st, DEFAULT_ROUNDS);
    EncodedText(d);
    AlphabetHasNoSpace(st);
    AlphabetHasNoSpace(EncodeCrypt(d));
    PrefixHasNoSpace(st);
    NoSpaceAppend(Prefix(st, DEFAULT_ROUNDS, false), EncodeCrypt(d));
    NoSpaceIsClean(Crypt(h, pw, salt, DEFAULT_ROUNDS, false));
  }

  /** The roster has clean addresses, the salts are over the crypt alphabet, and a password is stored under its
      address without regard to case. */
  ghost predicate CleanConfig(c: Config) {
    && (forall i :: 0 <= i < |c.roster| ==> OverAlphabet(c.salts(i)))
    && (forall i :: 0 <= i < |c.roster| && Mailbox(c, i).Some? ==> CleanEmail(Mailbox(c, i).value))
    && (forall x, y :: ToLower(x) == ToLower(y) ==> c.password(x) == c.password(y))
  }

  /** Its addresses are also distinct up to case. */
  ghost predicate GoodConfig(c: Config) {
    && CleanConfig(c)
    && (forall i, j :: 0 <= i < j < |c.roster| && Mailbox(c, i).Some? && Mailbox(c, j).Some? ==>
          ToLower(Mailbox(c, i).value) != ToLower(Mailbox(c, j).value))
  }

  lemma {:induction false} HashIsGood(h: Hash, c: Config, i: nat, existing: Accounts)
    requires CleanConfig(c) && CleanMap(existing) && i < |c.roster| && Mailbox(c, i).Some?
    ensures var email := Mailbox(c, i).value;
            var s := HashFor(h, c, i, email, existing);
            CleanHash(s) && Verify(h, c.password(email), s)
  {
    var pw := c.password(Mailbox(c, i).value);
    AlphabetSaltVerifies(h, pw, c.salts(i));
    CryptIsClean(h, pw, c.salts(i));
  }

  // ----- The accounts written -----

  lemma {:induction false} SomesAre(xs: seq<Option<Account>>)
    ensures forall a :: a in Somes(xs) <==> Some(a) in xs
  {
    if xs != [] {
      var init := xs[..|xs| - 1];
      SomesAre(init);
      assert xs == init + [xs[|xs| - 1]];
    }
  }

  ghost predicate GoodCandidates(xs: seq<Option<Account>>) {
    && (forall i :: 0 <= i < |xs| && xs[i].Some? ==> Clean(xs[i].value))
    && (forall i, j :: 0 <= i < j < |xs| && xs[i].Some? && xs[j].Some? ==> Key(xs[i].value) != Key(xs[j].value))
  }

  lemma {:induction false} SomesDistinct(xs: seq<Option<Account>>)
    requires GoodCandidates(xs)
    ensures DistinctKeys(Somes(xs)) && AllClean(Somes(xs))
  {
    if xs != [] {
      var init, last := xs[..|xs| - 1], xs[|xs| - 1];
      SomesDistinct(init);
      SomesAre(init);
      if last.Some? {
        var before := Somes(init);
        forall i | 0 <= i < |before| ensures Key(before[i]) != Key(last.value) {
          assert before[i] in before && Some(before[i]) in init;
          var j :| 0 <= j < |init| && init[j] == Some(before[i]);
          assert xs[j] == init[j];
        }
      }
    }
  }

  lemma {:induction false} CandidatesAreGood(h: Hash, c: Config, m: Accounts)
    requires GoodConfig(c) && CleanMap(m)
    ensures GoodCandidates(Candidates(h, c, m))
  {
    var xs := Candidates(h, c, m);
    forall i | 0 <= i < |xs| && xs[i].Some? ensures Clean(xs[i].value) {
      HashIsGood(h, c, i, m);
    }
    forall i, j | 0 <= i < j < |xs| && xs[i].Some? && xs[j].Some? ensures Key(xs[i].value) != Key(xs[j].value) {
      assert xs[i].value.email == Mailbox(c, i).value && xs[j].value.email == Mailbox(c, j).value;
    }
  }

  lemma {:induction false} CandidatesAreClean(h: Hash, c: Config, m: Accounts)
    requires CleanConfig(c) && CleanMap(m)
    ensures AllClean(Rostered(h, c, m))
  {
    var xs, accts := Candidates(h, c, m), Rostered(h, c, m);
    SomesAre(xs);
    forall j | 0 <= j < |accts| ensures Clean(accts[j]) {
      assert accts[j] in accts && Some(accts[j]) in xs;
      var i :| 0 <= i < |xs| && xs[i] == Some(accts[j]);
      HashIsGood(h, c, i, m);
    }
  }

  lemma {:induction false} ExtrasAre(order: seq<string>, known: set<string>, m: Accounts)
    requires forall k :: k in order ==> k in m
    ensures forall a :: a in Extras(order, known, m) <==>
              a.email in order && a.email !in known && a.hash == m[a.email]
  {
    if order != [] {
      assert order == [order[0]] + order[1..];
      ExtrasAre(order[1..], known, m);
    }
  }

  lemma {:induction false} ConsDistinct(a: Account, rest: seq<Account>)
    requires Clean(a) && AllClean(rest) && DistinctKeys(rest)
    requires forall i :: 0 <= i < |rest| ==> Key(rest[i]) != Key(a)
    ensures DistinctKeys([a] + rest) && AllClean([a] + rest)
  {
  }

  lemma {:induction false} ExtrasDistinct(order: seq<string>, known: set<string>, m: Accounts)
    requires CleanMap(m) && forall k :: k in order ==> k in m
    requires forall i, j :: 0 <= i < j < |order| ==> order[i] != order[j]
    ensures DistinctKeys(Extras(order, known, m)) && AllClean(Extras(order, known, m))
  {
    if order != [] {
      var rest := Extras(order[1..], known, m);
      ExtrasDistinct(order[1..], known, m);
      ExtrasAre(order[1..], known, m);
      if order[0] in known {
        assert Extras(order, known, m) == rest;
      } else {
        forall i | 0 <= i < |rest| ensures Key(rest[i]) != order[0] {
          assert rest[i] in rest;
        }
        ConsDistinct(Account(order[0], m[order[0]]), rest);
      }
    }
  }

  lemma {:induction false} AllAre(h: Hash, c: Config, order: seq<string>, m: Accounts)
    requires GoodConfig(c) && CleanMap(m) && Enumerates(order, m)
    ensures DistinctKeys(All(h, c, order, m)) && AllClean(All(h, c, order, m))
  {
    var accts := Rostered(h, c, m);
    var more := Extras(order, Known(accts), m);
    CandidatesAreGood(h, c, m);
    SomesDistinct(Candidates(h, c, m));
    ExtrasDistinct(order, Known(accts), m);
    ExtrasAre(order, Known(accts), m);
    forall i, j | 0 <= i < |accts| && 0 <= j < |more| ensures Key(accts[i]) != Key(more[j]) {
      assert accts[i] in accts && more[j] in more;
    }
  }

  // ----- What a regeneration does -----

  lemma {:induction false} SortedIsClean(s: seq<Account>)
    requires DistinctKeys(s) && AllClean(s)
    ensures DistinctKeys(Sort(s)) && AllClean(Sort(s)) && StrictlySorted(Sort(s)) && SameElements(Sort(s), s)
  {
    var r := Sort(s);
    SortSorts(s);
    forall i, j | 0 <= i < j < |r| ensures Key(r[i]) != Key(r[j]) {
      assert Before(r[i], r[j]);
      LessIsTotal(Key(r[i]), Key(r[j]));
    }
    forall i | 0 <= i < |r| ensures Clean(r[i]) {
      assert r[i] in s;
    }
  }

  /** The written file holds exactly the accounts that were collected. */
  lemma {:induction false} RegeneratedHolds(h: Hash, c: Config, order: seq<string>, text: string)
    requires GoodConfig(c) && Enumerates(order, Existing(text))
    ensures FoldsTo(map[], Sort(All(h, c, order, Existing(text))), Existing(Regenerated(h, c, order, text)))
  {
    ExistingIsClean(text);
    var accts := All(h, c, order, Existing(text));
    AllAre(h, c, order, Existing(text));
    SortedIsClean(accts);
    PrintReadsBack(map[], Sort(accts));
    FoldSets(map[], Sort(accts));
  }

  /** The keys of the roster's mailboxes. */
  ghost predicate IsRosterKey(c: Config, k: string) {
    exists i :: 0 <= i < |c.roster| && Mailbox(c, i).Some? && ToLower(Mailbox(c, i).value) == k
  }

  lemma {:induction false} KnownIsRoster(h: Hash, c: Config, m: Accounts, k: string)
    ensures k in Known(Rostered(h, c, m)) <==> IsRosterKey(c, k)
  {
    var xs := Candidates(h, c, m);
    SomesAre(xs);
    if k in Known(Rostered(h, c, m)) {
      var a :| a in Rostered(h, c, m) && Key(a) == k;
      assert Some(a) in xs;
      var i :| 0 <= i < |xs| && xs[i] == Some(a);
      assert Mailbox(c, i) == Some(a.email);
    }
    if IsRosterKey(c, k) {
      var i :| 0 <= i < |c.roster| && Mailbox(c, i).Some? && ToLower(Mailbox(c, i).value) == k;
      assert xs[i] in xs && xs[i].value in Rostered(h, c, m) && Key(xs[i].value) == k;
    }
  }

  lemma {:induction false} AllElements(h: Hash, c: Config, order: seq<string>, m: Accounts, a: Account)
    requires Enumerates(order, m)
    ensures a in All(h, c, order, m) <==>
            a in Rostered(h, c, m) || (a.email in m && !IsRosterKey(c, a.email) && a.hash == m[a.email])
  {
    ExtrasAre(order, Known(Rostered(h, c, m)), m);
    KnownIsRoster(h, c, m, a.email);
  }

  lemma {:induction false} AllIsClean(h: Hash, c: Config, order: seq<string>, m: Accounts)
    requires CleanConfig(c) && CleanMap(m) && Enumerates(order, m)
    ensures AllClean(All(h, c, order, m)) && AllClean(Sort(All(h, c, order, m)))
  {
    CandidatesAreClean(h, c, m);
    ExtrasDistinct(order, Known(Rostered(h, c, m)), m);
    var all := All(h, c, order, m);
    SortKeeps(all);
    forall j | 0 <= j < |Sort(all)| ensures Clean(Sort(all)[j]) {
      assert Sort(all)[j] in Sort(all);
    }
  }

  /** What the written file holds under a key is the hash of one of its accounts. */
  lemma {:induction false} WrittenHolds(h: Hash, c: Config, order: seq<string>, text: string, k: string)
    requires CleanConfig(c) && Enumerates(order, Existing(text))
    ensures FoldsIntoAt(map[], All(h, c, order, Existing(text)), Existing(Regenerated(h, c, order, text)), k)
  {
    ExistingIsClean(text);
    var all := All(h, c, order, Existing(text));
    AllIsClean(h, c, order, Existing(text));
    PrintReadsBack(map[], Sort(all));
    FoldMeans(map[], Sort(all), k);
    SortKeeps(all);
    assert Known(Sort(all)) == Known(all);
  }

  lemma {:induction false} RosteredIsAt(h: Hash, c: Config, m: Accounts, a: Account) returns (i: nat)
    requires a in Rostered(h, c, m)
    ensures i < |c.roster| && Mailbox(c, i) == Some(a.email) && a.hash == HashFor(h, c, i, a.email, m)
  {
    var xs := Candidates(h, c, m);
    SomesAre(xs);
    i :| 0 <= i < |xs| && xs[i] == Some(a);
  }

  lemma {:induction false} MailboxIsRostered(h: Hash, c: Config, m: Accounts, i: nat)
    requires i < |c.roster| && Mailbox(c, i).Some?
    ensures var email := Mailbox(c, i).value; Account(email, HashFor(h, c, i, email, m)) in Rostered(h, c, m)
  {
    var xs := Candidates(h, c, m);
    SomesAre(xs);
    assert xs[i] in xs;
  }

  /** Every roster account with a password is listed under a hash that verifies -- the one it had if that
      one still did.  Addresses may be repeated. */
  lemma {:induction false} RosterIsListed(h: Hash, c: Config, order: seq<string>, text: string, i: nat)
    requires CleanConfig(c) && Enumerates(order, Existing(text)) && i < |c.roster| && Mailbox(c, i).Some?
    ensures var email := Mailbox(c, i).value;
            var was, now := Existing(text), Existing(Regenerated(h, c, order, text));
            var key := ToLower(email);
            && key in now && Verify(h, c.password(email), now[key])
            && (key in was && Verify(h, c.password(email), was[key]) ==> now[key] == was[key])
  {
    var email, m := Mailbox(c, i).value, Existing(text);
    var key := ToLower(email);
    var all, now := All(h, c, order, m), Existing(Regenerated(h, c, order, text));
    ExistingIsClean(text);
    MailboxIsRostered(h, c, m, i);
    assert Account(email, HashFor(h, c, i, email, m)) in all;
    WrittenHolds(h, c, order, text, key);
    var a :| a in all && Key(a) == key && now[key] == a.hash;
    AllElements(h, c, order, m, a);
    assert IsRosterKey(c, key);
    var j := RosteredIsAt(h, c, m, a);
    HashIsGood(h, c, j, m);
    assert c.password(a.email) == c.password(email);
  }

  /** Where the addresses are distinct, it is the hash that was found or made for it. */
  lemma {:induction false} RosterHash(h: Hash, c: Config, order: seq<string>, text: string, i: nat)
    requires GoodConfig(c) && Enumerates(order, Existing(text)) && i < |c.roster| && Mailbox(c, i).Some?
    ensures var email := Mailbox(c, i).value;
            var now := Existing(Regenerated(h, c, order, text));
            && ToLower(email) in now && now[ToLower(email)] == HashFor(h, c, i, email, Existing(text))
            && Verify(h, c.password(email), now[ToLower(email)])
  {
    var m := Existing(text);
    ExistingIsClean(text);
    HashIsGood(h, c, i, m);
    RegeneratedHolds(h, c, order, text);
    MailboxIsRostered(h, c, m, i);
    AllAre(h, c, order, m);
    SortedIsClean(All(h, c, order, m));
    assert Account(Mailbox(c, i).value, HashFor(h, c, i, Mailbox(c, i).value, m)) in All(h, c, order, m);
  }

  lemma {:induction false} LowerCleanOnly(e: string)
    requires CleanEmail(ToLower(e))
    ensures CleanEmail(e)
  {
    var l := ToLower(e);
    ToLowerAt(e);
    TrimmedEnds(e);
    TrimmedEnds(l);
    LowerKeepsMarks(e[0]);
    LowerKeepsMarks(e[|e| - 1]);
    forall i | 0 <= i < |e| ensures e[i] != '|' && e[i] != '\n' {
      LowerKeepsMarks(e[i]);
      assert l[i] in l;
    }
  }

  /** That the addresses are clean cannot be dropped: of any roster, only those are read back. */
  lemma {:induction false} ListedIsClean(h: Hash, c: Config, order: seq<string>, text: string, i: nat)
    requires Enumerates(order, Existing(text)) && i < |c.roster| && Mailbox(c, i).Some?
    ensures ToLower(Mailbox(c, i).value) in Existing(Regenerated(h, c, order, text)) ==>
              CleanEmail(Mailbox(c, i).value)
  {
    ExistingIsClean(Regenerated(h, c, order, text));
    if ToLower(Mailbox(c, i).value) in Existing(Regenerated(h, c, order, text)) {
      LowerCleanOnly(Mailbox(c, i).value);
    }
  }

  /** A mailbox outside the roster keeps its hash, and none is invented. */
  lemma {:induction false} OthersAreKept(h: Hash, c: Config, order: seq<string>, text: string, k: string)
    requires CleanConfig(c) && Enumerates(order, Existing(text)) && !IsRosterKey(c, k)
    ensures var was, now := Existing(text), Existing(Regenerated(h, c, order, text));
            (k in now <==> k in was) && (k in was ==> now[k] == was[k])
  {
    var m := Existing(text);
    var all, now := All(h, c, order, m), Existing(Regenerated(h, c, order, text));
    ExistingIsClean(text);
    WrittenHolds(h, c, order, text, k);
    if k in m {
      AllElements(h, c, order, m, Account(k, m[k]));
    }
    if k in now {
      var a :| a in all && Key(a) == k && now[k] == a.hash;
      AllElements(h, c, order, m, a);
      KnownIsRoster(h, c, m, k);
    }
  }

  // ----- Regenerating again -----

  lemma {:induction false} HashStays(h: Hash, c: Config, d: Config, order: seq<string>, text: string, i: nat)
    requires GoodConfig(c) && Enumerates(order, Existing(text)) && i < |c.roster| && Mailbox(c, i).Some?
    requires d.roster == c.roster && d.password == c.password
    ensures var email := Mailbox(c, i).value;
            HashFor(h, d, i, email, Existing(Regenerated(h, c, order, text))) == HashFor(h, c, i, email, Existing(text))
  {
    RosterHash(h, c, order, text, i);
  }

  lemma {:induction false} RosteredStays(h: Hash, c: Config, d: Config, order: seq<string>, text: string)
    requires GoodConfig(c) && Enumerates(order, Existing(text))
    requires d.roster == c.roster && d.password == c.password
    ensures Rostered(h, d, Existing(Regenerated(h, c, order, text))) == Rostered(h, c, Existing(text))
  {
    var m, n := Existing(text), Existing(Regenerated(h, c, order, text));
    var xs, ys := Candidates(h, c, m), Candidates(h, d, n);
    forall i | 0 <= i < |xs| ensures xs[i] == ys[i] {
      assert Mailbox(d, i) == Mailbox(c, i);
      if Mailbox(c, i).Some? {
        HashStays(h, c, d, order, text, i);
      }
    }
    assert xs == ys;
  }

  /** A second regeneration with the same roster and passwords writes the same file, whatever salts would
      be drawn and in whatever order the maps are ranged over. */
  lemma {:induction false} RegenerateTwice(h: Hash, c: Config, d: Config, order: seq<string>, order2: seq<string>,
                                           text: string)
    requires GoodConfig(c) && Enumerates(order, Existing(text))
    requires d.roster == c.roster && d.password == c.password && GoodConfig(d)
    requires Enumerates(order2, Existing(Regenerated(h, c, order, text)))
    ensures Regenerated(h, d, order2, Regenerated(h, c, order, text)) == Regenerated(h, c, order, text)
  {
    var again := Regenerated(h, c, order, text);
    var m, n := Existing(text), Existing(again);
    ExistingIsClean(text);
    ExistingIsClean(again);
    var s, t := All(h, c, order, m), All(h, d, order2, n);
    RosteredStays(h, c, d, order, text);
    AllAre(h, c, order, m);
    AllAre(h, d, order2, n);
    SortedIsClean(s);
    SortedIsClean(t);
    forall a ensures a in s <==> a in t {
      SameAccount(h, c, d, order, order2, text, a);
    }
    assert SameElements(Sort(s), Sort(t));
    SortIsUnique(Sort(s), Sort(t));
  }

  lemma {:induction false} SameAccount(h: Hash, c: Config, d: Config, order: seq<string>, order2: seq<string>,
                                       text: string, a: Account)
    requires GoodConfig(c) && Enumerates(order, Existing(text))
    requires d.roster == c.roster && d.password == c.password
    requires Enumerates(order2, Existing(Regenerated(h, c, order, text)))
    requires Rostered(h, d, Existing(Regenerated(h, c, order, text))) == Rostered(h, c, Existing(text))
    ensures a in All(h, c, order, Existing(text)) <==>
            a in All(h, d, order2, Existing(Regenerated(h, c, order, text)))
  {
    var n := Existing(Regenerated(h, c, order, text));
    AllElements(h, c, order, Existing(text), a);
    AllElements(h, d, order2, n, a);
    KnownIsRoster(h, c, Existing(text), a.email);
    KnownIsRoster(h, d, n, a.email);
    if !IsRosterKey(c, a.email) {
      OthersAreKept(h, c, order, text, a.email);
    }
  }

  // ----- Which line of a file counts -----

  /** The line, trimmed, is address, bar and hash; it is no comment, and neither part is blank.  The first bar
      counts. */
  ghost predicate Names(raw: string, email: string, hash: string) {
    exists a, b, before, after :: NamesWith(raw, email, hash, a, b, before, after)
  }

  predicate NamesWith(raw: string, email: string, hash: string, a: string, b: string, before: string, after: string) {
    && raw == a + (before + "|" + after) + b && IsBlank(a) && IsBlank(b)
    && Trim(before) == email != "" && Trim(after) == hash != "" && '|' !in before
    && before != "" && !IsSpace(before[0]) && before[0] != '#'
    && after != "" && !IsSpace(after[|after| - 1])
  }

  lemma {:induction false} ParsedIsNamed(raw: string, email: string, hash: string)
    requires ParseLine(raw) == Some(Account(email, hash))
    ensures Names(raw, email, hash)
  {
    var line := Trim(raw);
    var a, b := TrimSplits(raw);
    var i := IndexOf(line, '|');
    var before, after := line[..i], line[i + 1..];
    assert line == before + "|" + after;
    assert before != "" && before[0] == line[0];
    assert after != "" && after[|after| - 1] == line[|line| - 1];
    assert NamesWith(raw, email, hash, a, b, before, after);
  }

  lemma {:induction false} NamedIsParsed(raw: string, email: string, hash: string, a: string, b: string, before: string,
                                         after: string)
    requires NamesWith(raw, email, hash, a, b, before, after)
    ensures ParseLine(raw) == Some(Account(email, hash))
  {
    var line := before + "|" + after;
    assert line[0] == before[0] && line[|line| - 1] == after[|after| - 1];
    TrimLeaves(a, line, b);
    IndexOfAfter(before, '|', after);
    assert before + ['|'] + after == line;
    assert line[..|before|] == before && line[|before| + 1..] == after;
  }

  lemma {:induction false} LineMeaning(raw: string, email: string, hash: string)
    ensures ParseLine(raw) == Some(Account(email, hash)) <==> Names(raw, email, hash)
  {
    if ParseLine(raw) == Some(Account(email, hash)) {
      ParsedIsNamed(raw, email, hash);
    }
    if Names(raw, email, hash) {
      var a, b, before, after :| NamesWith(raw, email, hash, a, b, before, after);
      NamedIsParsed(raw, email, hash, a, b, before, after);
    }
  }

  /** The last line that names the key. */
  predicate LastNaming(ls: seq<string>, k: string, i: nat) {
    i < |ls| && NamesKey(ls[i], k) && forall j :: i < j < |ls| ==> !NamesKey(ls[j], k)
  }

  predicate NobodyNames(ls: seq<string>, k: string) {
    forall j :: 0 <= j < |ls| ==> !NamesKey(ls[j], k)
  }

  /** Of several lines with the same address, up to case, the last one counts; -1 if there is none. */
  lemma {:induction false} LastLineCounts(m: Accounts, ls: seq<string>, k: string) returns (i: int)
    ensures i < 0 ==> NobodyNames(ls, k) && var r := AddLines(m, ls); (k in r <==> k in m) && (k in m ==> r[k] == m[k])
    ensures i >= 0 ==>
              LastNaming(ls, k, i) && k in AddLines(m, ls) && AddLines(m, ls)[k] == ParseLine(ls[i]).value.hash
    decreases |ls|
  {
    if ls == [] {
      return -1;
    }
    var rest := ls[1..];
    var j := LastLineCounts(AddLine(m, ls[0]), rest, k);
    assert forall l :: 0 < l < |ls| ==> ls[l] == rest[l - 1];
    hide ParseLine;
    i := if j >= 0 then j + 1 else if NamesKey(ls[0], k) then 0 else -1;
  }

  predicate NamesKey(raw: string, k: string) {
    ParseLine(raw).Some? && ToLower(ParseLine(raw).value.email) == k
  }

  /** A mailbox is kept for exactly the roster addresses, trimmed, that are not blank and have a password. */
  lemma {:induction false} MailboxMeaning(c: Config, i: nat)
    requires i < |c.roster|
    ensures Mailbox(c, i).Some? <==> !IsBlank(c.roster[i]) && c.password(Trim(c.roster[i])) != ""
    ensures Mailbox(c, i).Some? ==> Mailbox(c, i).value == Trim(c.roster[i])
  {
    var a, b := TrimSplits(c.roster[i]);
    if Trim(c.roster[i]) == "" {
      assert c.roster[i] == a + b;
      BlankAppend(a, b);
    } else {
      assert c.roster[i][|a|] == Trim(c.roster[i])[0];
    }
  }
}
