/** Checking a password against a printed hash (scripts/configurator/dms_accounts.go: verifySha512Crypt):
    what is accepted is exactly what sha512CryptRounds prints. */
module CryptVerify {
  import opened ShaCrypt
  import opened Strings

  // ----- strconv.Atoi -----

  const MAX_INT: nat := 0x7fff_ffff_ffff_ffff

  predicate AllDigits(s: string) {
    forall i :: 0 <= i < |s| ==> '0' <= s[i] <= '9'
  }

  function DigitsValue(s: string): nat
    requires AllDigits(s)
  {
    if s == "" then 0 else DigitsValue(s[..|s| - 1]) * 10 + (s[|s| - 1] as int - '0' as int)
  }

  function Atoi(s: string): Option<int> {
    var digits := if s != "" && s[0] in {'+', '-'} then s[1..] else s;
    if digits == "" || !AllDigits(digits) then None
    else
      var n: int := DigitsValue(digits);
      if s[0] == '-' then (if n <= MAX_INT + 1 then Some(-n) else None) else if n <= MAX_INT then Some(n) else None
  }

  lemma {:induction false} DecimalDigits(n: nat)
    ensures Decimal(n) != "" && AllDigits(Decimal(n)) && DigitsValue(Decimal(n)) == n
  {
    if n < 10 {
      assert [Digit(n)][..0] == "";
    } else {
      DecimalDigits(n / 10);
      assert Decimal(n)[..|Decimal(n)| - 1] == Decimal(n / 10);
    }
  }

  lemma {:induction false} AtoiDecimal(n: nat)
    requires n <= MAX_INT
    ensures Atoi(Decimal(n)) == Some(n) && '$' !in Decimal(n)
  {
    DecimalDigits(n);
  }

  // ----- Checking -----

  function StripScheme(line: string): string {
    if SCHEME <= line then line[|SCHEME|..] else line
  }

  datatype Head = Head(salt: string, rounds: int, explicit: bool)

  function SaltOf(body: string, rounds: int, explicit: bool): Option<Head> {
    var sep := IndexOf(body, '$');
    if sep < 0 then None else Some(Head(body[..sep], rounds, explicit))
  }

  /** The parameters in front of the encoded digest; `body` follows "$6$". */
  function ParseHead(body: string): Option<Head> {
    if "rounds=" <= body then
      var end := IndexOf(body, '$');
      if end < 0 then None
      else
        SignBehindRounds(body, end);
        var n := Atoi(body[7..end]);
        if n == None || n.value < 1 then None else SaltOf(body[end + 1..], n.value, true)
    else SaltOf(body, DEFAULT_ROUNDS, false)
  }

  lemma {:induction false} SignBehindRounds(body: string, end: nat)
    requires "rounds=" <= body && end < |body| && body[end] == '$'
    ensures end >= 7
  {
    assert forall i :: 0 <= i < 7 ==> body[i] == "rounds="[i];
  }

  predicate Verify(h: Hash, pw: string, line: string) {
    var norm := StripScheme(line);
    && "$6$" <= norm
    && match ParseHead(norm[3..])
       case None => false
       case Some(head) => Crypt(h, pw, head.salt, head.rounds, head.explicit) == SCHEME + norm
  }

  // ----- What is accepted -----

  /** Parameters a printed hash shows unambiguously. */
  predicate Canonical(d: Head) {
    && |d.salt| <= SALT_LEN && '$' !in d.salt
    && if d.explicit then MIN_ROUNDS <= d.rounds <= MAX_ROUNDS
       else d.rounds == DEFAULT_ROUNDS && !("rounds=" <= d.salt)
  }

  function Printed(h: Hash, pw: string, d: Head): string {
    Crypt(h, pw, d.salt, d.rounds, d.explicit)
  }

  function Rounds(n: nat, explicit: bool): string {
    if explicit then "rounds=" + Decimal(n) + "$" else ""
  }

  /** The text of a printed hash behind "$6$". */
  function Body(h: Hash, pw: string, salt: string, rounds: int, explicit: bool): string {
    Rounds(Clamp(rounds), explicit)
    + (Cut(salt) + "$" + EncodeCrypt(FinalDigest(h, pw, Cut(salt), Clamp(rounds))))
  }

  lemma {:induction false} CryptIsBody(h: Hash, pw: string, salt: string, rounds: int, explicit: bool)
    ensures Crypt(h, pw, salt, rounds, explicit) == SCHEME + ("$6$" + Body(h, pw, salt, rounds, explicit))
  {
    Reassociate(SCHEME, "$6$", Rounds(Clamp(rounds), explicit), Cut(salt),
                EncodeCrypt(FinalDigest(h, pw, Cut(salt), Clamp(rounds))));
  }

  lemma {:induction false} Reassociate(a: string, b: string, c: string, d: string, e: string)
    ensures (a + b + c + d + "$") + e == a + (b + (c + (d + "$" + e)))
  {
  }

  lemma {:induction false} StripPrinted(s: string, t: string)
    ensures StripScheme(SCHEME + s) == s
    ensures "$6$" <= "$6$" + t && ("$6$" + t)[3..] == t
  {
    assert (SCHEME + s)[..|SCHEME|] == SCHEME;
  }

  /** A printed hash is checked against what its own text says. */
  lemma {:induction false} VerifyPrinted(h: Hash, pw: string, salt: string, rounds: int, explicit: bool)
    ensures var line := Crypt(h, pw, salt, rounds, explicit);
            Verify(h, pw, line) <==>
            var head := ParseHead(Body(h, pw, salt, rounds, explicit));
            head.Some? && Printed(h, pw, head.value) == line
  {
    var body := Body(h, pw, salt, rounds, explicit);
    CryptIsBody(h, pw, salt, rounds, explicit);
    StripPrinted("$6$" + body, body);
  }

  lemma {:induction false} SaltOfClean(st: string, enc: string, rounds: int, explicit: bool)
    requires '$' !in st
    ensures SaltOf(st + "$" + enc, rounds, explicit) == Some(Head(st, rounds, explicit))
  {
    IndexOfAfter(st, '$', enc);
    var body := st + ['$'] + enc;
    assert body == st + "$" + enc && body[..|st|] == st;
  }

  /** A salt with a dollar sign is read up to it. */
  lemma {:induction false} SaltOfDirty(st: string, enc: string, rounds: int, explicit: bool)
    requires '$' in st
    ensures SaltOf(st + "$" + enc, rounds, explicit) == Some(Head(st[..IndexOf(st, '$')], rounds, explicit))
  {
    var i := IndexOf(st, '$');
    var a, b := st[..i], st[i + 1..];
    assert st == a + ['$'] + b;
    SplitDirty(a, b, enc);
    SaltOfClean(a, b + "$" + enc, rounds, explicit);
  }

  lemma {:induction false} SplitDirty(a: string, b: string, enc: string)
    ensures (a + ['$'] + b) + "$" + enc == a + "$" + (b + "$" + enc)
  {
  }

  lemma {:induction false} ParseExplicit(n: nat, rest: string)
    requires 1 <= n <= MAX_INT
    ensures ParseHead(Rounds(n, true) + rest) == SaltOf(rest, n, true)
  {
    var d := Decimal(n);
    var body := Rounds(n, true) + rest;
    AtoiDecimal(n);
    IndexOfAfter("rounds=" + d, '$', rest);
    assert body == ("rounds=" + d) + ['$'] + rest;
    assert body[..7] == "rounds=" && body[7..7 + |d|] == d;
    assert body[7 + |d| + 1..] == rest;
  }

  lemma {:induction false} NotRounds(st: string, enc: string)
    ensures "rounds=" <= st + "$" + enc <==> "rounds=" <= st
  {
    var body := st + "$" + enc;
    if |st| < 7 {
      assert body[|st|] == '$' && "rounds="[|st|] != '$';
    } else {
      assert body[..7] == st[..7];
    }
  }

  lemma {:induction false} ClampTwice(rounds: int)
    ensures Clamp(Clamp(rounds)) == Clamp(rounds) && 1 <= Clamp(rounds) <= MAX_INT
  {
  }

  lemma {:induction false} CryptLength(h: Hash, pw: string, salt: string, rounds: int, explicit: bool)
    ensures |Crypt(h, pw, salt, rounds, explicit)|
         == |SCHEME| + 3 + |Rounds(Clamp(rounds), explicit)| + |Cut(salt)| + 87
  {
    EncodedText(FinalDigest(h, pw, Cut(salt), Clamp(rounds)));
    CryptIsBody(h, pw, salt, rounds, explicit);
  }

  /** A salt with a dollar sign is cut at it, and so the printed hash is never the same. */
  lemma {:induction false} DirtySaltDiffers(h: Hash, pw: string, salt: string, rounds: int, explicit: bool)
    requires '$' in Cut(salt)
    ensures var st := Cut(salt);
            Crypt(h, pw, st[..IndexOf(st, '$')], Clamp(rounds), explicit) != Crypt(h, pw, salt, rounds, explicit)
  {
    var st := Cut(salt);
    ClampTwice(rounds);
    CryptLength(h, pw, salt, rounds, explicit);
    CryptLength(h, pw, st[..IndexOf(st, '$')], Clamp(rounds), explicit);
  }

  /** A hash printed with explicit rounds, any number of them, is accepted for its password exactly if
      the (cut) salt has no dollar sign. */
  lemma {:induction false} ExplicitVerifies(h: Hash, pw: string, salt: string, rounds: int)
    ensures Verify(h, pw, Crypt(h, pw, salt, rounds, true)) <==> '$' !in Cut(salt)
  {
    var st, n := Cut(salt), Clamp(rounds);
    var enc := EncodeCrypt(FinalDigest(h, pw, st, n));
    VerifyPrinted(h, pw, salt, rounds, true);
    ClampTwice(rounds);
    ParseExplicit(n, st + "$" + enc);
    if '$' !in st {
      SaltOfClean(st, enc, n, true);
    } else {
      SaltOfDirty(st, enc, n, true);
      DirtySaltDiffers(h, pw, salt, rounds, true);
    }
  }

  lemma {:induction false} DefaultBody(h: Hash, pw: string, salt: string)
    ensures Body(h, pw, salt, DEFAULT_ROUNDS, false)
         == Cut(salt) + "$" + EncodeCrypt(FinalDigest(h, pw, Cut(salt), DEFAULT_ROUNDS))
  {
  }

  lemma {:induction false} RoundsSaltUnread(st: string, enc: string)
    requires "rounds=" <= st && '$' !in st && OverAlphabet(enc)
    ensures ParseHead(st + "$" + enc) == None
  {
    var body := st + "$" + enc;
    NotRounds(st, enc);
    IndexOfAfter(st, '$', enc);
    assert body == st + ['$'] + enc;
    assert body[|st| + 1..] == enc;
    assert '$' !in enc;
  }

  lemma {:induction false} PlainSaltVerifies(h: Hash, pw: string, salt: string)
    requires !('$' in Cut(salt) && "rounds=" <= Cut(salt))
    ensures Verify(h, pw, Crypt(h, pw, salt, DEFAULT_ROUNDS, false))
       <==> '$' !in Cut(salt) && !("rounds=" <= Cut(salt))
  {
    var st := Cut(salt);
    var enc := EncodeCrypt(FinalDigest(h, pw, st, DEFAULT_ROUNDS));
    VerifyPrinted(h, pw, salt, DEFAULT_ROUNDS, false);
    DefaultBody(h, pw, salt);
    NotRounds(st, enc);
    if "rounds=" <= st {
      EncodedText(FinalDigest(h, pw, st, DEFAULT_ROUNDS));
      RoundsSaltUnread(st, enc);
    } else if '$' !in st {
      SaltOfClean(st, enc, DEFAULT_ROUNDS, false);
    } else {
      SaltOfDirty(st, enc, DEFAULT_ROUNDS, false);
      DirtySaltDiffers(h, pw, salt, DEFAULT_ROUNDS, false);
    }
  }

  /** A salt over the crypt alphabet, as newCryptSalt draws it, is always accepted. */
  lemma {:induction false} AlphabetSaltVerifies(h: Hash, pw: string, salt: string)
    requires OverAlphabet(salt)
    ensures Verify(h, pw, Crypt(h, pw, salt, DEFAULT_ROUNDS, false))
    ensures forall rounds: int :: Verify(h, pw, Crypt(h, pw, salt, rounds, true))
  {
    var st := Cut(salt);
    assert OverAlphabet(st) && '$' !in st;
    assert !("rounds=" <= st) by {
      assert "rounds="[6] == '=' && !InAlphabet('=');
      assert |st| > 6 ==> InAlphabet(st[6]);
    }
    PlainSaltVerifies(h, pw, salt);
    forall rounds: int ensures Verify(h, pw, Crypt(h, pw, salt, rounds, true)) {
      ExplicitVerifies(h, pw, salt, rounds);
    }
  }

  // ----- Everything that is accepted was printed -----

  lemma {:induction false} CanonicalParses(h: Hash, pw: string, d: Head)
    requires Canonical(d)
    ensures ParseHead(Body(h, pw, d.salt, d.rounds, d.explicit)) == Some(d)
  {
    var enc := EncodeCrypt(FinalDigest(h, pw, d.salt, d.rounds));
    if d.explicit {
      ParseExplicit(d.rounds, d.salt + "$" + enc);
    } else {
      DefaultBody(h, pw, d.salt);
      NotRounds(d.salt, enc);
    }
    SaltOfClean(d.salt, enc, d.rounds, d.explicit);
  }

  /** What was parsed off its own printed form is canonical. */
  lemma {:induction false} ParsedIsCanonical(h: Hash, pw: string, body: string)
    requires ParseHead(body).Some?
    requires var d := ParseHead(body).value; Body(h, pw, d.salt, d.rounds, d.explicit) == body
    ensures Canonical(ParseHead(body).value)
  {
    var d := ParseHead(body).value;
    var st, n := Cut(d.salt), Clamp(d.rounds);
    var enc := EncodeCrypt(FinalDigest(h, pw, st, n));
    assert '$' !in d.salt;
    assert '$' !in st;
    ClampTwice(d.rounds);
    if d.explicit {
      ParseExplicit(n, st + "$" + enc);
    } else {
      DefaultBody(h, pw, d.salt);
      NotRounds(st, enc);
    }
    SaltOfClean(st, enc, n, d.explicit);
  }

  /** A line is accepted for a password exactly if, up to the scheme name, sha512CryptRounds prints it for
      that password with a clean salt and rounds in range. */
  lemma {:induction false} VerifyExactly(h: Hash, pw: string, line: string)
    ensures Verify(h, pw, line) <==>
            exists d :: Canonical(d) && Printed(h, pw, d) == SCHEME + StripScheme(line)
  {
    var norm := StripScheme(line);
    if Verify(h, pw, line) {
      var d := ParseHead(norm[3..]).value;
      CryptIsBody(h, pw, d.salt, d.rounds, d.explicit);
      SameTail(SCHEME, "$6$" + Body(h, pw, d.salt, d.rounds, d.explicit), norm);
      ParsedIsCanonical(h, pw, norm[3..]);
      assert Canonical(d) && Printed(h, pw, d) == SCHEME + norm;
    }
    if d :| Canonical(d) && Printed(h, pw, d) == SCHEME + norm {
      var body := Body(h, pw, d.salt, d.rounds, d.explicit);
      CryptIsBody(h, pw, d.salt, d.rounds, d.explicit);
      SameTail(SCHEME, "$6$" + body, norm);
      StripPrinted(norm, body);
      CanonicalParses(h, pw, d);
    }
  }

  // ----- Default rounds, any salt -----

  /** The (cut) salt spells out the head of a hash with explicit rounds, and both have the same digest. */
  ghost predicate ReadsAsExplicit(h: Hash, pw: string, salt: string, d: Head) {
    && Canonical(d) && d.explicit && Cut(salt) == Rounds(d.rounds, true) + d.salt
    && FinalDigest(h, pw, d.salt, d.rounds) == FinalDigest(h, pw, Cut(salt), DEFAULT_ROUNDS)
  }

  /** The printed text of a head and a digest. */
  function Text(head: string, digest: Digest): string {
    SCHEME + ("$6$" + (head + ("$" + EncodeCrypt(digest))))
  }

  lemma {:induction false} CanonicalText(h: Hash, pw: string, d: Head)
    requires Canonical(d)
    ensures Printed(h, pw, d) == Text(Rounds(d.rounds, d.explicit) + d.salt, FinalDigest(h, pw, d.salt, d.rounds))
  {
    var enc := EncodeCrypt(FinalDigest(h, pw, d.salt, d.rounds));
    CryptIsBody(h, pw, d.salt, d.rounds, d.explicit);
    Reassociated(Rounds(d.rounds, d.explicit), d.salt, enc);
  }

  lemma {:induction false} Reassociated(a: string, b: string, c: string)
    ensures a + (b + "$" + c) == (a + b) + ("$" + c)
  {
  }

  lemma {:induction false} DefaultText(h: Hash, pw: string, salt: string)
    ensures Crypt(h, pw, salt, DEFAULT_ROUNDS, false) == Text(Cut(salt), FinalDigest(h, pw, Cut(salt), DEFAULT_ROUNDS))
  {
    CryptIsBody(h, pw, salt, DEFAULT_ROUNDS, false);
    DefaultBody(h, pw, salt);
    Reassociated("", Cut(salt), EncodeCrypt(FinalDigest(h, pw, Cut(salt), DEFAULT_ROUNDS)));
    assert "" + Cut(salt) == Cut(salt);
  }

  /** A printed text determines its head and its digest. */
  lemma {:induction false} TextInjective(a: string, x: Digest, b: string, y: Digest)
    requires Text(a, x) == Text(b, y)
    ensures a == b && x == y
  {
    var u, v := "$" + EncodeCrypt(x), "$" + EncodeCrypt(y);
    EncodedText(x);
    EncodedText(y);
    SameTail(SCHEME, "$6$" + (a + u), "$6$" + (b + v));
    SameTail("$6$", a + u, b + v);
    SameEnds(a, u, b, v);
    SameTail("$", EncodeCrypt(x), EncodeCrypt(y));
    EncodeInjective(x, y);
  }

  lemma {:induction false} SameEnds(a: string, u: string, b: string, v: string)
    requires a + u == b + v && |u| == |v|
    ensures a == b && u == v
  {
    assert |a| == |b|;
    assert (a + u)[..|a|] == a && (b + v)[..|b|] == b;
    SameTail(a, u, v);
  }

  /** A hash printed with the default number of rounds is accepted for its password exactly if the (cut)
      salt has no dollar sign and does not start with "rounds=", or it reads as the head of a hash with
      explicit rounds that has the same digest. */
  lemma {:induction false} DefaultVerifies(h: Hash, pw: string, salt: string)
    ensures Verify(h, pw, Crypt(h, pw, salt, DEFAULT_ROUNDS, false))
       <==> || ('$' !in Cut(salt) && !("rounds=" <= Cut(salt)))
            || exists d :: ReadsAsExplicit(h, pw, salt, d)
  {
    var st := Cut(salt);
    var digest := FinalDigest(h, pw, st, DEFAULT_ROUNDS);
    var line := Crypt(h, pw, salt, DEFAULT_ROUNDS, false);
    hide Crypt, Verify, FinalDigest, Text, Printed;
    VerifyExactly(h, pw, line);
    DefaultText(h, pw, salt);
    SchemeStays(digest, st);
    if Verify(h, pw, line) {
      var d :| Canonical(d) && Printed(h, pw, d) == line;
      CanonicalText(h, pw, d);
      TextInjective(Rounds(d.rounds, d.explicit) + d.salt, FinalDigest(h, pw, d.salt, d.rounds), st, digest);
      if d.explicit {
        assert ReadsAsExplicit(h, pw, salt, d);
      } else {
        assert "" + d.salt == d.salt;
      }
    }
    if d :| ReadsAsExplicit(h, pw, salt, d) {
      CanonicalText(h, pw, d);
      assert Printed(h, pw, d) == line;
    }
    if '$' !in st && !("rounds=" <= st) {
      PlainSaltVerifies(h, pw, salt);
    }
  }

  lemma {:induction false} SchemeStays(digest: Digest, head: string)
    ensures SCHEME + StripScheme(Text(head, digest)) == Text(head, digest)
  {
    StripPrinted("$6$" + (head + ("$" + EncodeCrypt(digest))), "");
  }

  lemma {:induction false} SameTail(a: string, x: string, y: string)
    requires a + x == a + y
    ensures x == y
  {
    assert (a + x)[|a|..] == x && (a + y)[|a|..] == y;
  }
}
