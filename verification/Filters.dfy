/** Filtering a list, and the positions of what is kept. */
module Filters {

  function Filter<T>(s: seq<T>, keep: T -> bool): seq<T> {
    if s == [] then [] else (if keep(s[0]) then [s[0]] else []) + Filter(s[1..], keep)
  }

  /** `at` are the positions, in ascending order, of exactly the elements that are kept. */
  ghost predicate Positions<T>(s: seq<T>, at: seq<nat>, keep: T -> bool) {
    && (forall k, l :: 0 <= k < l < |at| ==> at[k] < at[l])
    && (forall k :: 0 <= k < |at| ==> at[k] < |s| && keep(s[at[k]]))
    && (forall i :: 0 <= i < |s| && keep(s[i]) ==> i in at)
  }

  function Shift(at: seq<nat>): (r: seq<nat>)
    ensures |r| == |at| && forall k :: 0 <= k < |at| ==> r[k] == at[k] + 1
  {
    seq(|at|, k requires 0 <= k < |at| => at[k] + 1)
  }

  lemma {:induction false} ShiftMembers(at: seq<nat>, i: nat)
    ensures i in Shift(at) <==> i > 0 && i - 1 in at
  {
    var r := Shift(at);
    if i in r {
      var k :| 0 <= k < |r| && r[k] == i;
      assert at[k] == i - 1;
    }
    if i > 0 && i - 1 in at {
      var k :| 0 <= k < |at| && at[k] == i - 1;
      assert r[k] == i;
    }
  }

  lemma {:induction false} PositionsShift<T>(s: seq<T>, at: seq<nat>, keep: T -> bool)
    requires s != [] && Positions(s[1..], at, keep) && !keep(s[0])
    ensures Positions(s, Shift(at), keep)
  {
    var r := Shift(at);
    forall k | 0 <= k < |r| ensures r[k] < |s| && keep(s[r[k]]) {
      assert s[r[k]] == s[1..][at[k]];
    }
    forall i | 0 <= i < |s| && keep(s[i]) ensures i in r {
      assert s[1..][i - 1] == s[i];
      ShiftMembers(at, i);
    }
  }

  lemma {:induction false} PositionsZero<T>(s: seq<T>, at: seq<nat>, keep: T -> bool)
    requires s != [] && Positions(s[1..], at, keep) && keep(s[0])
    ensures Positions(s, [0] + Shift(at), keep)
  {
    var r := Shift(at);
    var all := [0] + r;
    forall k | 0 <= k < |all| ensures all[k] < |s| && keep(s[all[k]]) {
      assert k > 0 ==> all[k] == r[k - 1] && s[r[k - 1]] == s[1..][at[k - 1]];
    }
    forall k, l | 0 <= k < l < |all| ensures all[k] < all[l] {
      assert all[l] == r[l - 1] == at[l - 1] + 1;
      assert k > 0 ==> all[k] == r[k - 1] == at[k - 1] + 1;
    }
    forall i | 0 <= i < |s| && keep(s[i]) ensures i in all {
      if i > 0 {
        assert s[1..][i - 1] == s[i];
        ShiftMembers(at, i);
        assert i in r;
      }
    }
  }

  lemma {:induction false} PositionsCons<T>(s: seq<T>, at: seq<nat>, keep: T -> bool)
    requires s != [] && Positions(s[1..], at, keep)
    ensures Positions(s, (if keep(s[0]) then [0] else []) + Shift(at), keep)
  {
    hide Positions, Shift;
    assert [] + Shift(at) == Shift(at);
    if keep(s[0]) {
      PositionsZero(s, at, keep);
    } else {
      PositionsShift(s, at, keep);
    }
  }

  lemma {:induction false} FilterAt<T>(s: seq<T>, keep: T -> bool) returns (at: seq<nat>)
    ensures Positions(s, at, keep) && |Filter(s, keep)| == |at|
    ensures forall k :: 0 <= k < |at| ==> Filter(s, keep)[k] == s[at[k]]
  {
    if s == [] {
      return [];
    }
    var rest := FilterAt(s[1..], keep);
    PositionsCons(s, rest, keep);
    at := (if keep(s[0]) then [0] else []) + Shift(rest);
  }

  lemma {:induction false} FilterSame<T>(s: seq<T>, keep: T -> bool, other: T -> bool)
    requires forall i :: 0 <= i < |s| ==> keep(s[i]) == other(s[i])
    ensures Filter(s, keep) == Filter(s, other)
  {
    if s != [] {
      FilterSame(s[1..], keep, other);
    }
  }

  function Both<T>(keep: T -> bool, other: T -> bool): T -> bool {
    x => keep(x) && other(x)
  }

  lemma {:induction false} FilterTwice<T>(s: seq<T>, keep: T -> bool, other: T -> bool)
    ensures Filter(Filter(s, keep), other) == Filter(s, Both(keep, other))
  {
    if s != [] {
      FilterTwice(s[1..], keep, other);
      var rest := Filter(s[1..], keep);
      if keep(s[0]) {
        assert ([s[0]] + rest)[1..] == rest;
      } else {
        assert [] + rest == rest;
      }
    }
  }

  lemma {:induction false} FilterEmpty<T>(s: seq<T>, keep: T -> bool)
    ensures Filter(s, keep) == [] <==> forall i :: 0 <= i < |s| ==> !keep(s[i])
    ensures (forall i :: 0 <= i < |s| ==> keep(s[i])) ==> Filter(s, keep) == s
  {
    if s != [] {
      FilterEmpty(s[1..], keep);
      assert s == [s[0]] + s[1..];
      if forall i :: 0 <= i < |s| ==> !keep(s[i]) {
        assert !keep(s[0]);
      }
      if Filter(s, keep) == [] {
        forall i | 0 <= i < |s| ensures !keep(s[i]) {
          assert i > 0 ==> s[i] == s[1..][i - 1];
        }
      }
    }
  }
}
