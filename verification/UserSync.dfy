/** The user sync protocol: password hashing and the byte layout of a sync payload. */
module UserSync {
  import opened Bytes

  const PROTOCOL_VERSION: bv8 := 2
  const MAX_USERS := 16
  const HEADER_SIZE := 20
  const RECORD_SIZE := 64
  const USERNAME_LEN := 32
  const HASH_LEN := 24
  const FLAG_ACTIVE: bv8 := 0x01

  /** The characters "NaCl4Life". */
  const SALT: Bytes := [0x4E, 0x61, 0x43, 0x6C, 0x34, 0x4C, 0x69, 0x66, 0x65]
  const DJB2_INIT: Uint32 := 5381

  /** One hashing step, with 32-bit overflow. */
  function Mix(h: Uint32, c: bv8): Uint32 {
    (33 * h + c as nat) % WORD32
  }

  /** The DJB2 hash of a string, continued from a given value. */
  function Djb2(h: Uint32, s: Bytes): Uint32 {
    if s == [] then h else Mix(Djb2(h, s[..|s| - 1]), s[|s| - 1])
  }

  lemma {:induction false} Djb2Append(h: Uint32, s: Bytes, t: Bytes)
    ensures Djb2(h, s + t) == Djb2(Djb2(h, s), t)
  {
    if t == [] {
      assert s + t == s;
    } else {
      assert (s + t)[..|s + t| - 1] == s + t[..|t| - 1];
      Djb2Append(h, s, t[..|t| - 1]);
    }
  }

  /** Loop over the characters of a string. */
  method HashFrom(start: Uint32, s: Bytes) returns (hash: Uint32)
    ensures hash == Djb2(start, s)
  {
    hash := start;
    assert s[..0] == [];
    for i := 0 to |s|
      invariant hash == Djb2(start, s[..i])
    {
      hash := Mix(hash, s[i]);
      assert s[..i + 1][..i] == s[..i];
    }
    assert s[..|s|] == s;
  }

  /** The hash of the salt, and that hash continued over the password: the hash of salt and password. */
  method HashWithSalt(password: Bytes) returns (saltHash: Uint32, passHash: Uint32)
    ensures saltHash == Djb2(DJB2_INIT, SALT)
    ensures passHash == Djb2(DJB2_INIT, SALT + password)
  {
    saltHash := HashFrom(DJB2_INIT, SALT);
    passHash := HashFrom(saltHash, password);
    Djb2Append(DJB2_INIT, SALT, password);
  }

  /** 33 is invertible modulo 2^32: a multiple of both is too large to be a difference of hashes. */
  lemma NoSmallMultiple(d: int, m: int)
    requires -WORD32 < d < WORD32 && 33 * d == WORD32 * m
    ensures d == 0
  {
    assert 33 * 0x3E0F83E1 == 1 + WORD32 * 8;
    assert d == WORD32 * (0x3E0F83E1 * m - 8 * d);
  }

  lemma SameRemainder(a: nat, b: nat) returns (m: int)
    requires a % WORD32 == b % WORD32
    ensures a - b == WORD32 * m
  {
    m := a / WORD32 - b / WORD32;
  }

  lemma MixInjective(h: Uint32, k: Uint32, c: bv8)
    requires Mix(h, c) == Mix(k, c)
    ensures h == k
  {
    var m := SameRemainder(33 * h + c as nat, 33 * k + c as nat);
    NoSmallMultiple(h - k, m);
  }

  lemma SmallCancel(a: nat, b: nat, c: nat)
    requires b < 256 && c < 256 && (a + b) % WORD32 == (a + c) % WORD32
    ensures b == c
  {
    var m := SameRemainder(a + b, a + c);
  }

  lemma MixChar(h: Uint32, c: bv8, d: bv8)
    requires Mix(h, c) == Mix(h, d)
    ensures c == d
  {
    SmallCancel(33 * h, c as nat, d as nat);
    ValueInjective(c, d);
  }

  lemma {:induction false} Djb2Injective(h: Uint32, k: Uint32, s: Bytes)
    requires h != k
    ensures Djb2(h, s) != Djb2(k, s)
  {
    if s != [] {
      var front, last := s[..|s| - 1], s[|s| - 1];
      Djb2Injective(h, k, front);
      if Mix(Djb2(h, front), last) == Mix(Djb2(k, front), last) {
        MixInjective(Djb2(h, front), Djb2(k, front), last);
      }
    }
  }

  /** Changing one character always changes the hash. */
  lemma OneCharacterChanges(h: Uint32, s: Bytes, i: nat, c: bv8)
    requires i < |s| && c != s[i]
    ensures Djb2(h, s[i := c]) != Djb2(h, s)
  {
    var t := s[i := c];
    assert s == s[..i + 1] + s[i + 1..] && t == t[..i + 1] + s[i + 1..];
    Djb2Append(h, s[..i + 1], s[i + 1..]);
    Djb2Append(h, t[..i + 1], s[i + 1..]);
    assert s[..i + 1][..i] == s[..i] && t[..i + 1][..i] == s[..i];
    if Djb2(h, s[..i + 1]) == Djb2(h, t[..i + 1]) {
      MixChar(Djb2(h, s[..i]), s[i], c);
    }
    Djb2Injective(Djb2(h, s[..i + 1]), Djb2(h, t[..i + 1]), s[i + 1..]);
  }

  function HexDigit(n: nat): bv8
    requires n < 16
  {
    if n < 10 then Byte(0x30 + n) else Byte(0x37 + n)
  }

  lemma DigitInjective(m: nat, n: nat)
    requires m < 16 && n < 16 && HexDigit(m) == HexDigit(n)
    ensures m == n
  {
    ByteInjective(if m < 10 then 0x30 + m else 0x37 + m, if n < 10 then 0x30 + n else 0x37 + n);
  }

  /** The last `n` hexadecimal digits, upper case, most significant first. */
  function Digits(x: nat, n: nat): (s: Bytes)
    ensures |s| == n
  {
    if n == 0 then [] else Digits(x / 16, n - 1) + [HexDigit(x % 16)]
  }

  function Limit(n: nat): (r: nat)
    ensures r > 0
  {
    if n == 0 then 1 else 16 * Limit(n - 1)
  }

  lemma {:induction false} DigitsInjective(x: nat, y: nat, n: nat)
    requires x < Limit(n) && y < Limit(n) && Digits(x, n) == Digits(y, n)
    ensures x == y
  {
    if n > 0 {
      var s, t := Digits(x, n), Digits(y, n);
      assert s[..n - 1] == Digits(x / 16, n - 1) && t[..n - 1] == Digits(y / 16, n - 1);
      assert s[n - 1] == t[n - 1];
      DigitInjective(x % 16, y % 16);
      DigitsInjective(x / 16, y / 16, n - 1);
    }
  }

  function Hex(x: Uint32): (s: Bytes)
    ensures |s| == 8
  {
    Digits(x, 8)
  }

  lemma HexInjective(x: Uint32, y: Uint32)
    requires Hex(x) == Hex(y)
    ensures x == y
  {
    assert Limit(8) == WORD32;
    DigitsInjective(x, y, 8);
  }

  lemma DivideTwice(x: nat, m: nat)
    requires m > 0
    ensures (x / 16) / m == x / (16 * m)
  {
    var q, r := x / 16, x % 16;
    var p, t := q / m, q % m;
    assert x == 16 * q + r && q == m * p + t;
    assert 16 * (m * p + t) == (16 * m) * p + 16 * t;
    QuotientIs(x, 16 * m, p, 16 * t + r);
  }

  lemma QuotientIs(x: nat, d: nat, q: nat, r: nat)
    requires r < d && x == d * q + r
    ensures x / d == q
  {
    var k := x / d;
    assert x == d * k + x % d;
    assert d * (k - q) == r - x % d && d * (q - k) == x % d - r;
    if k > q {
      AtLeast(d, k - q);
    } else if k < q {
      AtLeast(d, q - k);
    }
  }

  lemma AtLeast(d: nat, k: nat)
    requires k >= 1
    ensures d * k >= d
  {
  }

  lemma {:induction false} DigitAt(x: nat, n: nat, k: nat)
    requires k < n
    ensures Digits(x, n)[k] == HexDigit((x / Limit(n - 1 - k)) % 16)
  {
    if k < n - 1 {
      DigitAt(x / 16, n - 1, k);
      DivideTwice(x, Limit(n - 2 - k));
    }
  }

  /** Character `k` of the text of a 32-bit number: its digit number 7 - `k`, in ASCII, upper case. */
  lemma HexChar(x: Uint32, k: nat)
    requires k < 8
    ensures var d := (x / Limit(7 - k)) % 16; Hex(x)[k] as nat == if d < 10 then '0' as nat + d else 'A' as nat + d - 10
  {
    DigitAt(x, 8, k);
    var d := (x / Limit(7 - k)) % 16;
    ByteValue(if d < 10 then 0x30 + d else 0x37 + d);
  }

  /** The text "DJB2:", eight digits, ":", eight digits. */
  function HashText(saltHash: Uint32, passHash: Uint32): (s: Bytes)
    ensures |s| == 22
  {
    [0x44, 0x4A, 0x42, 0x32, 0x3A] + Hex(saltHash) + [0x3A] + Hex(passHash)
  }

  lemma DigitIsNotZero(n: nat)
    requires n < 16
    ensures HexDigit(n) != 0
  {
    ByteValue(if n < 10 then 0x30 + n else 0x37 + n);
  }

  lemma {:induction false} DigitsHaveNoZero(x: nat, n: nat)
    ensures 0 !in Digits(x, n)
  {
    if n > 0 {
      DigitsHaveNoZero(x / 16, n - 1);
      DigitIsNotZero(x % 16);
    }
  }

  lemma HashTextHasNoZero(saltHash: Uint32, passHash: Uint32)
    ensures 0 !in HashText(saltHash, passHash)
  {
    DigitsHaveNoZero(saltHash, 8);
    DigitsHaveNoZero(passHash, 8);
  }

  function PasswordText(password: Bytes): Bytes {
    HashText(Djb2(DJB2_INIT, SALT), Djb2(DJB2_INIT, SALT + password))
  }

  /** Two passwords have the same stored text exactly when they have the same hash. */
  lemma SameTextIff(p: Bytes, q: Bytes)
    ensures PasswordText(p) == PasswordText(q) <==> Djb2(DJB2_INIT, SALT + p) == Djb2(DJB2_INIT, SALT + q)
  {
    if PasswordText(p) == PasswordText(q) {
      assert PasswordText(p)[14..] == Hex(Djb2(DJB2_INIT, SALT + p));
      assert PasswordText(q)[14..] == Hex(Djb2(DJB2_INIT, SALT + q));
      HexInjective(Djb2(DJB2_INIT, SALT + p), Djb2(DJB2_INIT, SALT + q));
    }
  }

  /** A password mistyped in one character never has the stored text of the right one. */
  lemma MistypedPassword(p: Bytes, i: nat, c: bv8)
    requires i < |p| && c != p[i]
    ensures PasswordText(p[i := c]) != PasswordText(p)
  {
    SameTextIff(p[i := c], p);
    assert SALT + p[i := c] == (SALT + p)[|SALT| + i := c];
    OneCharacterChanges(DJB2_INIT, SALT + p, |SALT| + i, c);
  }

  /** A C string in a field: the bytes before the first zero. */
  function Text(field: Bytes): (s: Bytes)
    ensures s <= field
    ensures |s| < |field| ==> field[|s|] == 0
    ensures 0 !in s
  {
    if field == [] || field[0] == 0 then [] else [field[0]] + Text(field[1..])
  }

  lemma OrXor(r: bv8, a: bv8, b: bv8)
    ensures r | (a ^ b) == 0 <==> r == 0 && a == b
  {
  }

  /** Comparison that looks at every byte of both strings. */
  method SecureCompare(a: Bytes, b: Bytes) returns (same: bool)
    requires 0 !in a && 0 !in b
    ensures same <==> a == b
  {
    var longest := if |a| > |b| then |a| else |b|;
    var result: bv8 := if |a| != |b| then 1 else 0;
    for i := 0 to longest
      invariant result == 0 <==> |a| == |b| && forall j | 0 <= j < i :: a[j] == b[j]
    {
      var ca := if i < |a| then a[i] else 0;
      var cb := if i < |b| then b[i] else 0;
      OrXor(result, ca, cb);
      result := result | (ca ^ cb);
    }
    same := result == 0;
  }

  // --- the documented test vectors ---

  const ADMIN: Bytes := [0x61, 0x64, 0x6D, 0x69, 0x6E]

  lemma HashStep(h: Uint32, s: Bytes, i: nat, x: Uint32, value: nat, y: Uint32)
    requires i < |s| && Djb2(h, s[..i]) == x && s[i] as nat == value && (33 * x + value) % 0x1_0000_0000 == y
    ensures Djb2(h, s[..i + 1]) == y
  {
    assert s[..i + 1][..i] == s[..i];
  }

  lemma SaltFive(s: Bytes)
    requires |s| == 9 && s[0] as nat == 78 && s[1] as nat == 97 && s[2] as nat == 67 && s[3] as nat == 108 && s[4] as nat == 52
    ensures Djb2(5381, s[..5]) == 0x0DB8D357
  {
    assert s[..0] == [];
    HashStep(5381, s, 0, 0x00001505, 78, 0x0002B5F3);
    HashStep(5381, s, 1, 0x0002B5F3, 97, 0x005974B4);
    HashStep(5381, s, 2, 0x005974B4, 67, 0x0B880B77);
    HashStep(5381, s, 3, 0x0B880B77, 108, 0x7C897AC3);
    HashStep(5381, s, 4, 0x7C897AC3, 52, 0x0DB8D357);
  }

  lemma SaltNine(s: Bytes)
    requires |s| == 9 && Djb2(5381, s[..5]) == 0x0DB8D357 && s[5] as nat == 76 && s[6] as nat == 105 && s[7] as nat == 102 && s[8] as nat == 101
    ensures Djb2(5381, s) == 0x1A3C1FD7
  {
    HashStep(5381, s, 5, 0x0DB8D357, 76, 0xC4D33E83);
    HashStep(5381, s, 6, 0xC4D33E83, 105, 0x5F3B0F4C);
    HashStep(5381, s, 7, 0x5F3B0F4C, 102, 0x469CF932);
    HashStep(5381, s, 8, 0x469CF932, 101, 0x1A3C1FD7);
    assert s[..9] == s;
  }

  lemma AdminFive(s: Bytes)
    requires |s| == 5 && s[0] as nat == 97 && s[1] as nat == 100 && s[2] as nat == 109 && s[3] as nat == 105 && s[4] as nat == 110
    ensures Djb2(0x1A3C1FD7, s) == 0x2C409AA0
  {
    assert s[..0] == [] && s[..5] == s;
    HashStep(0x1A3C1FD7, s, 0, 0x1A3C1FD7, 97, 0x61C01B18);
    HashStep(0x1A3C1FD7, s, 1, 0x61C01B18, 100, 0x99C37E7C);
    HashStep(0x1A3C1FD7, s, 2, 0x99C37E7C, 109, 0xD2334E69);
    HashStep(0x1A3C1FD7, s, 3, 0xD2334E69, 105, 0x189D1BF2);
    HashStep(0x1A3C1FD7, s, 4, 0x189D1BF2, 110, 0x2C409AA0);
  }

  /** The hash of the salt. */
  lemma SaltHash()
    ensures Djb2(5381, SALT) == 0x1A3C1FD7
  {
    SaltFive(SALT);
    SaltNine(SALT);
  }

  /** The hash of the password "admin". */
  lemma AdminHash()
    ensures Djb2(5381, SALT + ADMIN) == 0x2C409AA0
  {
    SaltHash();
    Djb2Append(5381, SALT, ADMIN);
    AdminFive(ADMIN);
  }
}
