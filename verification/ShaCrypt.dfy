/** SHA-512 crypt(3): computing, printing and checking a password hash
    (scripts/configurator/dms_accounts.go: sha512CryptRounds, encodeCrypt, verifySha512Crypt).
    A text is a byte string, one character per byte.  SHA-512 itself is a parameter: any function from
    byte strings to 64-byte digests. */
module ShaCrypt {
  import opened Strings

  const MIN_ROUNDS: nat := 1000
  const MAX_ROUNDS: nat := 999_999_999
  const DEFAULT_ROUNDS: nat := 5000
  const SALT_LEN: nat := 16
  const SCHEME: string := "{SHA512-CRYPT}"

  predicate IsBytes(s: string) {
    forall i :: 0 <= i < |s| ==> s[i] as int < 256
  }

  type Digest = s: string | |s| == 64 && IsBytes(s) witness seq(64, _ => '0')

  type Hash = string -> Digest

  // ----- Computing -----

  /** Steps 9-12 of Drepper's SHA-crypt specification, and the byte sequences P and S: a digest repeated
      to a length. */
  function Repeat(d: Digest, n: nat): string {
    if n >= 64 then d + Repeat(d, n - 64) else d[..n]
  }

  lemma {:induction false} RepeatAt(d: Digest, n: nat)
    ensures |Repeat(d, n)| == n
    ensures forall i :: 0 <= i < n ==> Repeat(d, n)[i] == d[i % 64]
  {
    if n >= 64 {
      RepeatAt(d, n - 64);
      forall i | 0 <= i < n ensures Repeat(d, n)[i] == d[i % 64] {
        if i >= 64 {
          assert Repeat(d, n)[i] == Repeat(d, n - 64)[i - 64];
        }
      }
    }
  }

  /** The loop `for n > 0` that appends whole digests and then a part of one. */
  method AppendRepeated(acc: string, d: Digest, len: nat) returns (r: string)
    ensures r == acc + Repeat(d, len)
  {
    r := acc;
    var n: nat := len;
    while n > 0
      invariant r + Repeat(d, n) == acc + Repeat(d, len)
    {
      if n >= 64 {
        assert r + (d + Repeat(d, n - 64)) == (r + d) + Repeat(d, n - 64);
        r := r + d;
        n := n - 64;
      } else {
        r := r + d[..n];
        assert r == r + Repeat(d, 0);
        n := 0;
      }
    }
    assert r + Repeat(d, 0) == r;
  }

  /** The digest or the password for each binary digit of the length, lowest first. */
  function ByBits(n: nat, d: string, pw: string): string {
    if n == 0 then "" else (if n % 2 == 1 then d else pw) + ByBits(n / 2, d, pw)
  }

  method AppendByBits(acc: string, len: nat, d: string, pw: string) returns (r: string)
    ensures r == acc + ByBits(len, d, pw)
  {
    r := acc;
    var i := len;
    while i > 0
      invariant r + ByBits(i, d, pw) == acc + ByBits(len, d, pw)
    {
      var part := if i % 2 == 1 then d else pw;
      assert r + (part + ByBits(i / 2, d, pw)) == (r + part) + ByBits(i / 2, d, pw);
      r := r + part;
      i := i / 2;
    }
    assert r + "" == r;
  }

  function Times(s: string, k: nat): string {
    if k == 0 then "" else Times(s, k - 1) + s
  }

  method WriteTimes(s: string, k: nat) returns (r: string)
    ensures r == Times(s, k)
  {
    r := "";
    for i := 0 to k
      invariant r == Times(s, i)
    {
      r := r + s;
    }
  }

  function DigestA(h: Hash, pw: string, st: string): Digest {
    var b := h(pw + st + pw);
    h(pw + st + Repeat(b, |pw|) + ByBits(|pw|, b, pw))
  }

  function PBytes(h: Hash, pw: string): string {
    Repeat(h(Times(pw, |pw|)), |pw|)
  }

  function SBytes(h: Hash, st: string, a: Digest): string {
    Repeat(h(Times(st, 16 + a[0] as int)), |st|)
  }

  /** What round `i` hashes. */
  function RoundInput(i: nat, c: Digest, p: string, s: string): string {
    (if i % 2 == 1 then p else c)
    + (if i % 3 != 0 then s else "")
    + (if i % 7 != 0 then p else "")
    + (if i % 2 == 1 then c else p)
  }

  /** The digest after `n` rounds. */
  function Mix(h: Hash, a: Digest, p: string, s: string, n: nat): Digest {
    if n == 0 then a else h(RoundInput(n - 1, Mix(h, a, p, s, n - 1), p, s))
  }

  function Clamp(rounds: int): (n: nat)
    ensures MIN_ROUNDS <= n <= MAX_ROUNDS
    ensures MIN_ROUNDS <= rounds <= MAX_ROUNDS ==> n == rounds
  {
    if rounds < MIN_ROUNDS then MIN_ROUNDS else if rounds > MAX_ROUNDS then MAX_ROUNDS else rounds
  }

  function Cut(salt: string): (st: string)
    ensures |st| <= SALT_LEN && st <= salt
    ensures |salt| <= SALT_LEN ==> st == salt
  {
    if |salt| > SALT_LEN then salt[..SALT_LEN] else salt
  }

  function FinalDigest(h: Hash, pw: string, st: string, rounds: nat): Digest {
    var a := DigestA(h, pw, st);
    Mix(h, a, PBytes(h, pw), SBytes(h, st, a), rounds)
  }

  /** Everything in front of the encoded digest. */
  function Prefix(st: string, rounds: nat, explicit: bool): string {
    SCHEME + "$6$" + (if explicit then "rounds=" + Decimal(rounds) + "$" else "") + st + "$"
  }

  function Crypt(h: Hash, pw: string, salt: string, rounds: int, explicit: bool): string {
    var n, st := Clamp(rounds), Cut(salt);
    Prefix(st, n, explicit) + EncodeCrypt(FinalDigest(h, pw, st, n))
  }

  method Sha512CryptRounds(h: Hash, pw: string, salt: string, rounds: int, explicit: bool) returns (r: string)
    ensures r == Crypt(h, pw, salt, rounds, explicit)
  {
    var count: nat := if rounds < MIN_ROUNDS then MIN_ROUNDS else if rounds > MAX_ROUNDS then MAX_ROUNDS else rounds;
    var st := if |salt| > SALT_LEN then salt[..SALT_LEN] else salt;
    var a := ComputeA(h, pw, st);
    var dph := WriteTimes(pw, |pw|);
    var p := AppendRepeated("", h(dph), |pw|);
    var dsh := WriteTimes(st, 16 + a[0] as int);
    var s := AppendRepeated("", h(dsh), |st|);
    assert p == PBytes(h, pw) && s == SBytes(h, st, a);
    var c := MixRounds(h, a, p, s, count);
    var head := SCHEME + "$6$";
    if explicit {
      head := head + "rounds=" + Decimal(count) + "$";
    }
    head := head + st + "$";
    HeadIsPrefix(head, st, count, explicit);
    var enc := WriteEncoded(c);
    r := head + enc;
  }

  lemma {:induction false} HeadIsPrefix(head: string, st: string, count: nat, explicit: bool)
    requires head == (if explicit then SCHEME + "$6$" + "rounds=" + Decimal(count) + "$" else SCHEME + "$6$") + st + "$"
    ensures head == Prefix(st, count, explicit)
  {
    if explicit {
      assert SCHEME + "$6$" + "rounds=" + Decimal(count) + "$" == SCHEME + "$6$" + ("rounds=" + Decimal(count) + "$");
    } else {
      assert SCHEME + "$6$" + "" == SCHEME + "$6$";
    }
  }

  method ComputeA(h: Hash, pw: string, st: string) returns (a: Digest)
    ensures a == DigestA(h, pw, st)
  {
    var b := h(pw + st + pw);
    var ah := AppendRepeated(pw + st, b, |pw|);
    ah := AppendByBits(ah, |pw|, b, pw);
    a := h(ah);
  }

  method MixRounds(h: Hash, a: Digest, p: string, s: string, rounds: nat) returns (c: Digest)
    ensures c == Mix(h, a, p, s, rounds)
  {
    c := a;
    for i := 0 to rounds
      invariant c == Mix(h, a, p, s, i)
    {
      var ch := RoundText(i, c, p, s);
      c := h(ch);
    }
  }

  method RoundText(i: nat, c: Digest, p: string, s: string) returns (ch: string)
    ensures ch == RoundInput(i, c, p, s)
  {
    ch := if i % 2 == 1 then p else c;
    if i % 3 != 0 {
      ch := ch + s;
    } else {
      assert ch + "" == ch;
    }
    if i % 7 != 0 {
      ch := ch + p;
    } else {
      assert ch + "" == ch;
    }
    ch := if i % 2 == 1 then ch + c else ch + p;
  }

  // ----- Encoding -----

  /** The crypt(3) alphabet: full stop, slash, digits, capitals, small letters. */
  function CryptChar(v: nat): char
    requires v < 64
  {
    if v == 0 then '.'
    else if v == 1 then '/'
    else if v < 12 then '0' + (v - 2) as char
    else if v < 38 then 'A' + (v - 12) as char
    else 'a' + (v - 38) as char
  }

  predicate InAlphabet(c: char) {
    '.' <= c <= '9' || 'A' <= c <= 'Z' || 'a' <= c <= 'z'
  }

  function CryptValue(c: char): (v: nat)
    ensures InAlphabet(c) ==> v < 64 && CryptChar(v) == c
    ensures !InAlphabet(c) ==> v == 64
  {
    if '.' <= c <= '9' then c as int - '.' as int
    else if 'A' <= c <= 'Z' then c as int - 'A' as int + 12
    else if 'a' <= c <= 'z' then c as int - 'a' as int + 38
    else 64
  }

  lemma {:induction false} CryptValueChar(v: nat)
    requires v < 64
    ensures InAlphabet(CryptChar(v)) && CryptValue(CryptChar(v)) == v
  {
  }

  /** Which three bytes of the digest are packed together. */
  const PERM: seq<(nat, nat, nat)> := [
    (0, 21, 42), (22, 43, 1), (44, 2, 23), (3, 24, 45), (25, 46, 4),
    (47, 5, 26), (6, 27, 48), (28, 49, 7), (50, 8, 29), (9, 30, 51),
    (31, 52, 10), (53, 11, 32), (12, 33, 54), (34, 55, 13), (56, 14, 35),
    (15, 36, 57), (37, 58, 16), (59, 17, 38), (18, 39, 60), (40, 61, 19),
    (62, 20, 41)]

  /** Row g names the bytes g, g + 21 and g + 42, rotated by g. */
  lemma {:induction false} PermRows(g: nat)
    requires g < 21
    ensures |PERM| == 21
    ensures PERM[g] == (g + 21 * (g % 3), g + 21 * ((g + 1) % 3), g + 21 * ((g + 2) % 3))
  {
  }

  function Emit(w: nat, n: nat): (s: string)
    ensures |s| == n
  {
    if n == 0 then "" else [CryptChar(w % 64)] + Emit(w / 64, n - 1)
  }

  predicate OverAlphabet(s: string) {
    forall i :: 0 <= i < |s| ==> InAlphabet(s[i])
  }

  lemma {:induction false} EmitOverAlphabet(w: nat, n: nat)
    ensures OverAlphabet(Emit(w, n))
  {
    if n > 0 {
      CryptValueChar(w % 64);
      EmitOverAlphabet(w / 64, n - 1);
    }
  }

  function Pack(b2: nat, b1: nat, b0: nat): nat {
    b2 * 65536 + b1 * 256 + b0
  }

  function Group(c: Digest, g: nat): nat
    requires g < 21
  {
    PermRows(g);
    var p := PERM[g];
    Pack(c[p.0] as int, c[p.1] as int, c[p.2] as int)
  }

  function EncodeFrom(c: Digest, g: nat): string
    requires g <= 21
    decreases 21 - g
  {
    if g == 21 then Emit(c[63] as int, 2) else Emit(Group(c, g), 4) + EncodeFrom(c, g + 1)
  }

  function EncodeCrypt(c: Digest): string {
    EncodeFrom(c, 0)
  }

  method EmitTo(sb: string, b2: nat, b1: nat, b0: nat, n: nat) returns (r: string)
    ensures r == sb + Emit(Pack(b2, b1, b0), n)
  {
    r := sb;
    var w := Pack(b2, b1, b0);
    for j := 0 to n
      invariant r + Emit(w, n - j) == sb + Emit(Pack(b2, b1, b0), n)
    {
      assert r + ([CryptChar(w % 64)] + Emit(w / 64, n - j - 1)) == (r + [CryptChar(w % 64)]) + Emit(w / 64, n - j - 1);
      r := r + [CryptChar(w % 64)];
      w := w / 64;
    }
    assert r + "" == r;
  }

  method WriteEncoded(c: Digest) returns (r: string)
    ensures r == EncodeCrypt(c)
  {
    r := "";
    for g := 0 to 21
      invariant EncodeCrypt(c) == r + EncodeFrom(c, g)
    {
      EncodeStep(c, g, r);
      r := EmitGroup(r, c, g);
    }
    r := EmitTo(r, 0, 0, c[63] as int, 2);
  }

  method EmitGroup(sb: string, c: Digest, g: nat) returns (r: string)
    requires g < 21
    ensures r == sb + Emit(Group(c, g), 4)
  {
    PermRows(g);
    var p := PERM[g];
    r := EmitTo(sb, c[p.0] as int, c[p.1] as int, c[p.2] as int, 4);
  }

  lemma {:induction false} EncodeStep(c: Digest, g: nat, sb: string)
    requires g < 21
    ensures sb + EncodeFrom(c, g) == (sb + Emit(Group(c, g), 4)) + EncodeFrom(c, g + 1)
    ensures EncodeFrom(c, g)[4..] == EncodeFrom(c, g + 1)
  {
  }

  // ----- Decoding -----

  /** The number a little-endian group of characters stands for. */
  function Undo(s: string): nat {
    if s == "" then 0 else CryptValue(s[0]) + 64 * Undo(s[1..])
  }

  function Bound(n: nat): nat {
    if n == 0 then 1 else 64 * Bound(n - 1)
  }

  lemma {:induction false} UndoEmit(w: nat, n: nat)
    requires w < Bound(n)
    ensures Undo(Emit(w, n)) == w
  {
    if n > 0 {
      CryptValueChar(w % 64);
      UndoEmit(w / 64, n - 1);
      assert Emit(w, n)[1..] == Emit(w / 64, n - 1);
    }
  }

  function Byte(w: nat, j: nat): nat {
    if j == 0 then w / 65536 else if j == 1 then w / 256 % 256 else w % 256
  }

  function GroupValue(s: string, g: nat): nat
    requires |s| == 86 && g < 21
  {
    Undo(s[4 * g..][..4])
  }

  /** Byte `j` of the group `g` of an 86-character text. */
  function GroupByte(s: string, g: nat, j: nat): nat
    requires |s| == 86 && g < 21
  {
    Byte(GroupValue(s, g), j)
  }

  lemma {:induction false} EncodeLength(c: Digest, g: nat)
    requires g <= 21
    ensures |EncodeFrom(c, g)| == 4 * (21 - g) + 2 && OverAlphabet(EncodeFrom(c, g))
    decreases 21 - g
  {
    if g < 21 {
      EncodeLength(c, g + 1);
      EmitOverAlphabet(Group(c, g), 4);
    } else {
      EmitOverAlphabet(c[63] as int, 2);
    }
  }

  lemma {:induction false} EncodeDrop(c: Digest, g: nat)
    requires g <= 21
    ensures |EncodeCrypt(c)| == 86 && EncodeCrypt(c)[4 * g..] == EncodeFrom(c, g)
  {
    EncodeLength(c, 0);
    if g > 0 {
      EncodeDrop(c, g - 1);
      EncodeLength(c, g - 1);
      EncodeStep(c, g - 1, "");
      DropFour(EncodeCrypt(c), 4 * (g - 1));
    }
  }

  lemma {:induction false} DropFour(s: string, i: nat)
    requires i + 4 <= |s|
    ensures s[i..][4..] == s[i + 4..]
  {
  }

  lemma {:induction false} UnpackBytes(b2: nat, b1: nat, b0: nat)
    requires b2 < 256 && b1 < 256 && b0 < 256
    ensures var w := Pack(b2, b1, b0);
            w < Bound(4) && Byte(w, 0) == b2 && Byte(w, 1) == b1 && Byte(w, 2) == b0
  {
    assert Bound(4) == 64 * (64 * (64 * 64));
    var w := Pack(b2, b1, b0);
    assert w / 256 == b2 * 256 + b1 && w % 256 == b0;
    assert w / 65536 == b2;
  }

  lemma {:induction false} GroupDecodes(c: Digest, g: nat, j: nat)
    requires g < 21 && j < 3
    ensures Byte(Undo(Emit(Group(c, g), 4)), j) == c[g + 21 * ((g + j) % 3)] as int
  {
    PermRows(g);
    var p := PERM[g];
    UnpackBytes(c[p.0] as int, c[p.1] as int, c[p.2] as int);
    UndoEmit(Group(c, g), 4);
  }

  lemma {:induction false} LastDecodes(c: Digest)
    ensures |EncodeCrypt(c)| == 86 && Undo(EncodeCrypt(c)[84..]) == c[63] as int
  {
    EncodeDrop(c, 21);
    assert Bound(2) == 64 * (64 * Bound(0));
    UndoEmit(c[63] as int, 2);
  }

  lemma {:induction false} GroupAt(c: Digest, g: nat)
    requires g < 21
    ensures |EncodeCrypt(c)| == 86 && GroupValue(EncodeCrypt(c), g) == Undo(Emit(Group(c, g), 4))
  {
    EncodeDrop(c, g);
  }

  lemma {:induction false} GroupByteAt(c: Digest, g: nat, j: nat)
    requires g < 21 && j < 3
    ensures |EncodeCrypt(c)| == 86 && GroupByte(EncodeCrypt(c), g, j) == c[g + 21 * ((g + j) % 3)] as int
  {
    GroupAt(c, g);
    GroupDecodes(c, g, j);
  }

  /** The row and column of PERM that hold byte `k`. */
  lemma {:induction false} Place(k: nat) returns (g: nat, j: nat)
    requires k < 63
    ensures g < 21 && j < 3 && k == g + 21 * ((g + j) % 3)
  {
    var q := k / 21;
    g := k % 21;
    j := (q + 2 * g) % 3;
    Rotate(g, q);
  }

  lemma {:induction false} Rotate(g: nat, q: nat)
    requires q < 3
    ensures (g + (q + 2 * g) % 3) % 3 == q
  {
    var a := (q + 2 * g) / 3;
    assert g + (q + 2 * g) % 3 == 3 * (g - a) + q;
  }

  /** An encoded digest has 86 characters of the alphabet. */
  lemma {:induction false} EncodedText(c: Digest)
    ensures |EncodeCrypt(c)| == 86 && OverAlphabet(EncodeCrypt(c))
  {
    EncodeLength(c, 0);
  }

  /** Different digests are printed differently: every byte can be read off its group. */
  lemma {:induction false} EncodeInjective(c: Digest, d: Digest)
    ensures EncodeCrypt(c) == EncodeCrypt(d) ==> c == d
  {
    if EncodeCrypt(c) == EncodeCrypt(d) {
      forall k | 0 <= k < 64 ensures c[k] == d[k] {
        if k == 63 {
          LastDecodes(c);
          LastDecodes(d);
        } else {
          var g, j := Place(k);
          GroupByteAt(c, g, j);
          GroupByteAt(d, g, j);
        }
      }
    }
  }
}
