/** Mailbox accounts in the order of their lower-cased addresses
    (scripts/configurator/dms_accounts.go: the sort in regenerateDmsAccounts). */
module AccountOrder {
  import opened Strings

  datatype Account = Account(email: string, hash: string)

  function Key(a: Account): string {
    ToLower(a.email)
  }

  /** The order of byte strings. */
  predicate Less(a: string, b: string) {
    if b == "" then false
    else if a == "" then true
    else if a[0] != b[0] then a[0] < b[0]
    else Less(a[1..], b[1..])
  }

  lemma {:induction false} LessIsTotal(a: string, b: string)
    ensures a != b ==> Less(a, b) || Less(b, a)
    ensures !(Less(a, b) && Less(b, a)) && !Less(a, a)
  {
    if a != "" && b != "" {
      assert a == [a[0]] + a[1..] && b == [b[0]] + b[1..];
      LessIsTotal(a[1..], b[1..]);
    }
    if a != "" && a != b {
      LessIsTotal(a[1..], a[1..]);
    }
  }

  lemma {:induction false} LessIsTransitive(a: string, b: string, c: string)
    requires Less(a, b) && Less(b, c)
    ensures Less(a, c)
  {
    if a != "" && a[0] == b[0] == c[0] {
      LessIsTransitive(a[1..], b[1..], c[1..]);
    }
  }

  predicate Before(a: Account, b: Account) {
    Less(Key(a), Key(b))
  }

  // ----- Sorting -----

  function Insert(s: seq<Account>, x: Account): (r: seq<Account>)
    ensures |r| == |s| + 1
  {
    if s != [] && Before(x, s[|s| - 1]) then Insert(s[..|s| - 1], x) + [s[|s| - 1]] else s + [x]
  }

  function Sort(s: seq<Account>): (r: seq<Account>)
    ensures |r| == |s|
  {
    if s == [] then [] else Insert(Sort(s[..|s| - 1]), s[|s| - 1])
  }

  lemma {:induction false} SortStep(s: seq<Account>, i: nat)
    requires i < |s|
    ensures Sort(s[..i + 1]) == Insert(Sort(s[..i]), s[i])
  {
    assert s[..i + 1][..i] == s[..i];
  }

  /** Any sort will do (see SortIsUnique); this one inserts in place. */
  method SortInPlace(a: array<Account>)
    modifies a
    ensures a[..] == Sort(old(a[..]))
  {
    ghost var was := a[..];
    for i := 0 to a.Length
      invariant a[..i] == Sort(was[..i]) && a[i..] == was[i..]
    {
      assert a[i] == a[i..][0] == was[i];
      SortStep(was, i);
      InsertAt(a, i, Sort(was[..i]));
      assert a[i + 1..] == was[i..][1..] == was[i + 1..];
    }
    assert a[..a.Length] == a[..] && was[..a.Length] == was;
  }

  lemma {:induction false} InsertStep(sorted: seq<Account>, x: Account, j: nat)
    requires 0 < j <= |sorted| && Before(x, sorted[j - 1])
    ensures Insert(sorted[..j], x) + sorted[j..] == Insert(sorted[..j - 1], x) + sorted[j - 1..]
  {
    assert sorted[..j][..j - 1] == sorted[..j - 1];
    assert [sorted[j - 1]] + sorted[j..] == sorted[j - 1..];
  }

  lemma {:induction false} InsertEnds(s: seq<Account>, x: Account)
    requires s == [] || !Before(x, s[|s| - 1])
    ensures Insert(s, x) == s + [x]
  {
  }

  method InsertAt(a: array<Account>, i: nat, ghost sorted: seq<Account>)
    requires i < a.Length && a[..i] == sorted
    modifies a
    ensures a[..i + 1] == Insert(sorted, old(a[i])) && a[i + 1..] == old(a[i + 1..])
  {
    hide Insert, Before;
    ghost var x := a[i];
    var j := i;
    while j > 0 && Before(a[j], a[j - 1])
      invariant 0 <= j <= i && a[j] == x
      invariant a[..j] == sorted[..j]
      invariant forall k :: j < k <= i ==> a[k] == sorted[k - 1]
      invariant Insert(sorted, x) == Insert(sorted[..j], x) + sorted[j..]
      invariant a[i + 1..] == old(a[i + 1..])
    {
      assert a[j - 1] == sorted[..j][j - 1];
      InsertStep(sorted, x, j);
      a[j], a[j - 1] := a[j - 1], a[j];
      j := j - 1;
    }
    assert j > 0 ==> sorted[..j][j - 1] == a[j - 1];
    InsertEnds(sorted[..j], x);
    assert a[..i + 1] == sorted[..j] + [x] + sorted[j..];
  }

  // ----- What sorting does -----

  predicate StrictlySorted(s: seq<Account>) {
    forall i, j :: 0 <= i < j < |s| ==> Before(s[i], s[j])
  }

  predicate DistinctKeys(s: seq<Account>) {
    forall i, j :: 0 <= i < j < |s| ==> Key(s[i]) != Key(s[j])
  }

  predicate SameElements(s: seq<Account>, t: seq<Account>) {
    (forall a :: a in s ==> a in t) && (forall a :: a in t ==> a in s)
  }

  lemma {:induction false} InsertElements(s: seq<Account>, x: Account)
    ensures forall a :: a in Insert(s, x) <==> a in s || a == x
  {
    if s != [] && Before(x, s[|s| - 1]) {
      InsertElements(s[..|s| - 1], x);
      assert s == s[..|s| - 1] + [s[|s| - 1]];
    }
  }

  lemma {:induction false} InsertSorted(s: seq<Account>, x: Account)
    requires StrictlySorted(s) && forall a :: a in s ==> Key(a) != Key(x)
    ensures StrictlySorted(Insert(s, x))
  {
    if s != [] {
      var init, last := s[..|s| - 1], s[|s| - 1];
      if Before(x, last) {
        InsertSorted(init, x);
        InsertElements(init, x);
        AllBefore(Insert(init, x), last);
      } else {
        LessIsTotal(Key(x), Key(last));
        forall i | 0 <= i < |s| ensures Before(s[i], x) {
          if i < |s| - 1 {
            LessIsTransitive(Key(s[i]), Key(last), Key(x));
          }
        }
        AllBefore(s, x);
      }
    }
  }

  lemma {:induction false} AllBefore(s: seq<Account>, x: Account)
    requires StrictlySorted(s) && forall a :: a in s ==> Before(a, x)
    ensures StrictlySorted(s + [x])
  {
    assert forall i :: 0 <= i < |s| ==> s[i] in s;
  }

  lemma {:induction false} SortKeeps(s: seq<Account>)
    ensures forall a :: a in Sort(s) <==> a in s
  {
    if s != [] {
      var init, last := s[..|s| - 1], s[|s| - 1];
      SortKeeps(init);
      InsertElements(Sort(init), last);
      assert s == init + [last];
    }
  }

  /** Sorting keeps exactly the accounts and puts them in strict order of their keys. */
  lemma {:induction false} SortSorts(s: seq<Account>)
    requires DistinctKeys(s)
    ensures StrictlySorted(Sort(s)) && forall a :: a in Sort(s) <==> a in s
  {
    if s != [] {
      var init, last := s[..|s| - 1], s[|s| - 1];
      SortSorts(init);
      InsertElements(Sort(init), last);
      InsertSorted(Sort(init), last);
      assert s == init + [last];
    }
  }

  /** A strictly sorted list is determined by its elements. */
  lemma {:induction false} SortIsUnique(s: seq<Account>, t: seq<Account>)
    requires StrictlySorted(s) && StrictlySorted(t) && SameElements(s, t)
    ensures s == t
  {
    if s == [] || t == [] {
      EmptyTogether(s, t);
      EmptyTogether(t, s);
    } else {
      var a, b := s[|s| - 1], t[|t| - 1];
      assert a in t && b in s;
      if a != b {
        LessIsTotal(Key(a), Key(b));
        assert false;
      }
      InitElements(s, t);
      SortIsUnique(s[..|s| - 1], t[..|t| - 1]);
    }
  }

  lemma {:induction false} EmptyTogether(s: seq<Account>, t: seq<Account>)
    requires forall a :: a in t ==> a in s
    ensures s == [] ==> t == []
  {
    assert t != [] ==> t[0] in t;
  }

  lemma {:induction false} InitElements(s: seq<Account>, t: seq<Account>)
    requires s != [] && t != [] && s[|s| - 1] == t[|t| - 1]
    requires StrictlySorted(s) && StrictlySorted(t) && SameElements(s, t)
    ensures SameElements(s[..|s| - 1], t[..|t| - 1])
  {
    InitWithin(s[..|s| - 1], t[..|t| - 1], s, t);
    InitWithin(t[..|t| - 1], s[..|s| - 1], t, s);
  }

  lemma {:induction false} InitWithin(init: seq<Account>, other: seq<Account>, s: seq<Account>, t: seq<Account>)
    requires s != [] && t != [] && s[|s| - 1] == t[|t| - 1] && StrictlySorted(s)
    requires init == s[..|s| - 1] && other == t[..|t| - 1]
    requires forall a :: a in s ==> a in t
    ensures forall a :: a in init ==> a in other
  {
    var last := s[|s| - 1];
    LessIsTotal(Key(last), Key(last));
    assert t == other + [last];
    forall a | a in init ensures a in other {
      assert a in s && Before(a, last);
    }
  }

  /** One text comes before another if it is a proper beginning of it, or has the smaller character where they
      first differ. */
  lemma {:induction false} LessMeaning(a: string, b: string)
    ensures Less(a, b) <==> exists n: nat :: FirstDifference(a, b, n)
  {
    if b != "" {
      if a == "" {
        assert FirstDifference(a, b, 0);
      } else if a[0] != b[0] {
        assert a[0] < b[0] ==> FirstDifference(a, b, 0);
        forall n: nat | FirstDifference(a, b, n) ensures n == 0 {
        }
      } else {
        LessMeaning(a[1..], b[1..]);
        forall n: nat | FirstDifference(a[1..], b[1..], n) ensures FirstDifference(a, b, n + 1) {
          assert a[..n + 1] == [a[0]] + a[1..][..n] && b[..n + 1] == [b[0]] + b[1..][..n];
        }
        forall n: nat | FirstDifference(a, b, n) ensures n > 0 && FirstDifference(a[1..], b[1..], n - 1) {
          assert n > 0 ==> a[1..][..n - 1] == a[..n][1..] && b[1..][..n - 1] == b[..n][1..];
        }
      }
    }
  }

  /** They agree up to n; there the first one ends or has the smaller character. */
  predicate FirstDifference(a: string, b: string, n: nat) {
    n <= |a| && n < |b| && a[..n] == b[..n] && (n == |a| || a[n] < b[n])
  }
}
