/** The steps of Drepper's SHA-crypt specification as relations between byte strings, and that the computation
    meets them (scripts/configurator/dms_accounts.go: sha512CryptRounds). */
module CryptSteps {
  import opened ShaCrypt
  import opened Strings

  // ----- Byte sequences -----

  /** `r` has length n and is `d` over and over, its last copy cut short. */
  predicate Cycles(r: string, d: string, n: nat) {
    |r| == n && (n > 0 ==> d != "") && forall i :: 0 <= i < n ==> r[i] == if i < |d| then d[i] else r[i - |d|]
  }

  lemma {:induction false} RepeatCycles(d: Digest, n: nat)
    ensures Cycles(Repeat(d, n), d, n)
  {
    RepeatAt(d, n);
    hide Repeat;
    var r := Repeat(d, n);
    forall i | 64 <= i < n ensures r[i] == r[i - 64] {
      assert i % 64 == (i - 64) % 64;
    }
  }

  lemma {:induction false} TimesFront(s: string, k: nat)
    requires k > 0
    ensures Times(s, k) == s + Times(s, k - 1)
  {
    if k > 1 {
      TimesFront(s, k - 1);
    }
  }

  lemma {:induction false} TimesLength(s: string, k: nat)
    ensures |Times(s, k)| == k * |s|
  {
    if k > 0 {
      TimesLength(s, k - 1);
      assert k * |s| == (k - 1) * |s| + |s|;
    }
  }

  /** k copies of a text. */
  lemma {:induction false} TimesCycles(s: string, k: nat)
    ensures |Times(s, k)| == k * |s| && (s != "" ==> Cycles(Times(s, k), s, k * |s|))
  {
    TimesLength(s, k);
    if k > 0 && s != "" {
      var all, front := Times(s, k), Times(s, k - 1);
      TimesFront(s, k);
      forall i | 0 <= i < |all| ensures all[i] == if i < |s| then s[i] else all[i - |s|] {
        if i >= |s| {
          assert all[i] == (s + front)[i] == front[i - |s|];
          assert all[i - |s|] == (front + s)[i - |s|] == front[i - |s|];
        }
      }
    }
  }

  /** The number whose binary digits, lowest first, are given. */
  function Value(digits: seq<nat>): nat {
    if digits == [] then 0 else digits[0] + 2 * Value(digits[1..])
  }

  /** The binary digits of n without leading zeros. */
  predicate Binary(digits: seq<nat>, n: nat) {
    && Value(digits) == n && (forall k :: 0 <= k < |digits| ==> digits[k] < 2)
    && (digits != [] ==> digits[|digits| - 1] == 1)
  }

  function Spell(digits: seq<nat>, one: string, zero: string): string {
    if digits == [] then "" else (if digits[0] == 1 then one else zero) + Spell(digits[1..], one, zero)
  }

  lemma {:induction false} ByBitsSpells(n: nat, one: string, zero: string) returns (digits: seq<nat>)
    ensures Binary(digits, n) && ByBits(n, one, zero) == Spell(digits, one, zero)
    decreases n
  {
    if n == 0 {
      return [];
    }
    var rest := ByBitsSpells(n / 2, one, zero);
    digits := [n % 2] + rest;
    assert digits[1..] == rest;
    assert rest == [] ==> n / 2 == 0;
  }

  // ----- The steps -----

  /** Steps 1 to 12: digest A of the password and the salt. */
  ghost predicate StepsA(h: Hash, pw: string, st: string, a: Digest) {
    exists x, digits :: StepsAWith(h, pw, st, a, x, digits)
  }

  predicate StepsAWith(h: Hash, pw: string, st: string, a: Digest, x: string, digits: seq<nat>) {
    var b := h(pw + st + pw);
    Cycles(x, b, |pw|) && Binary(digits, |pw|) && a == h(pw + st + x + Spell(digits, b, pw))
  }

  /** Steps 13 to 16: P has the length of the password and cycles through the digest of as many copies of it. */
  ghost predicate StepsP(h: Hash, pw: string, p: string) {
    exists copies :: |copies| == |pw| * |pw| && (pw != "" ==> Cycles(copies, pw, |pw| * |pw|))
                     && Cycles(p, h(copies), |pw|)
  }

  /** Steps 17 to 20: S has the length of the salt and cycles through the digest of 16 copies of it, and as many
      more as the first byte of A says. */
  ghost predicate StepsS(h: Hash, st: string, a: Digest, s: string) {
    var k := 16 + a[0] as int;
    exists copies :: |copies| == k * |st| && (st != "" ==> Cycles(copies, st, k * |st|)) && Cycles(s, h(copies), |st|)
  }

  /** What round i hashes: the digest so far at one end and P at the other, the digest first in even rounds; between
      them S unless 3 divides i, then P again unless 7 does. */
  predicate IsRound(i: nat, c: Digest, p: string, s: string, text: string) {
    var inner := (if i % 3 == 0 then "" else s) + if i % 7 == 0 then "" else p;
    text == if i % 2 == 0 then c + inner + p else p + inner + c
  }

  /** Step 21: the digests before and after each round. */
  ghost predicate Rounds(h: Hash, a: Digest, p: string, s: string, cs: seq<Digest>) {
    && cs != [] && cs[0] == a
    && forall i :: 0 <= i < |cs| - 1 ==> IsStep(h, i, cs[i], p, s, cs[i + 1])
  }

  lemma {:induction false} RoundInputIsRound(i: nat, c: Digest, p: string, s: string)
    ensures IsRound(i, c, p, s, RoundInput(i, c, p, s))
  {
    var first, x, y, last := if i % 2 == 1 then p else c, if i % 3 != 0 then s else "",
                             if i % 7 != 0 then p else "", if i % 2 == 1 then c else p;
    assert first + x + y + last == first + (x + y) + last;
  }

  ghost predicate IsStep(h: Hash, i: nat, c: Digest, p: string, s: string, next: Digest) {
    exists text :: IsRound(i, c, p, s, text) && next == h(text)
  }

  lemma {:induction false} OneMoreRound(h: Hash, a: Digest, p: string, s: string, cs: seq<Digest>, next: Digest)
    requires Rounds(h, a, p, s, cs) && IsStep(h, |cs| - 1, cs[|cs| - 1], p, s, next)
    ensures Rounds(h, a, p, s, cs + [next])
  {
    hide IsStep;
    var more := cs + [next];
    forall i | 0 <= i < |more| - 1 ensures IsStep(h, i, more[i], p, s, more[i + 1]) {
      assert more[i] == cs[i];
      assert i < |cs| - 1 ==> more[i + 1] == cs[i + 1];
    }
  }

  lemma {:induction false} MixIsRounds(h: Hash, a: Digest, p: string, s: string, n: nat) returns (cs: seq<Digest>)
    ensures |cs| == n + 1 && Rounds(h, a, p, s, cs) && cs[n] == Mix(h, a, p, s, n)
  {
    if n == 0 {
      return [a];
    }
    var before := MixIsRounds(h, a, p, s, n - 1);
    RoundInputIsRound(n - 1, before[n - 1], p, s);
    assert IsStep(h, n - 1, before[n - 1], p, s, Mix(h, a, p, s, n));
    hide Rounds, IsStep;
    OneMoreRound(h, a, p, s, before, Mix(h, a, p, s, n));
    cs := before + [Mix(h, a, p, s, n)];
  }

  /** The computation goes through all steps, with one round of mixing per round. */
  lemma {:induction false} MeetsSpecification(h: Hash, pw: string, st: string, rounds: nat)
    returns (a: Digest, p: string, s: string, cs: seq<Digest>)
    ensures StepsA(h, pw, st, a) && StepsP(h, pw, p) && StepsS(h, st, a, s)
    ensures |cs| == rounds + 1 && Rounds(h, a, p, s, cs) && FinalDigest(h, pw, st, rounds) == cs[rounds]
  {
    a, p := DigestA(h, pw, st), PBytes(h, pw);
    s := SBytes(h, st, a);
    DigestAMeets(h, pw, st);
    PBytesMeet(h, pw);
    SBytesMeet(h, st, a);
    cs := MixIsRounds(h, a, p, s, rounds);
  }

  lemma {:induction false} DigestAMeets(h: Hash, pw: string, st: string)
    ensures StepsA(h, pw, st, DigestA(h, pw, st))
  {
    var b := h(pw + st + pw);
    var digits := ByBitsSpells(|pw|, b, pw);
    RepeatCycles(b, |pw|);
    assert StepsAWith(h, pw, st, DigestA(h, pw, st), Repeat(b, |pw|), digits);
  }

  lemma {:induction false} PBytesMeet(h: Hash, pw: string)
    ensures StepsP(h, pw, PBytes(h, pw))
  {
    var copies := Times(pw, |pw|);
    TimesCycles(pw, |pw|);
    RepeatCycles(h(copies), |pw|);
  }

  lemma {:induction false} SBytesMeet(h: Hash, st: string, a: Digest)
    ensures StepsS(h, st, a, SBytes(h, st, a))
  {
    var copies := Times(st, 16 + a[0] as int);
    TimesCycles(st, 16 + a[0] as int);
    RepeatCycles(h(copies), |st|);
  }

  /** Step 22: the characters for the numbers below 64 are full stop, slash, digits and letters, in the order of
      their codes. */
  lemma {:induction false} AlphabetInOrder(v: nat)
    requires v < 64
    ensures var c := CryptChar(v); c in {'.', '/'} || '0' <= c <= '9' || 'A' <= c <= 'Z' || 'a' <= c <= 'z'
    ensures forall u: nat :: u < v ==> CryptChar(u) < CryptChar(v)
  {
  }
}
