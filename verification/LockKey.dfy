/** The advisory-lock key of a reservation (`userKindAdvisoryLockKey`). */
module LockKey {
  import opened Domain

  type Int32 = x: int | -0x8000_0000 <= x < 0x8000_0000

  /** `uuidBytesToLockKeyInt32`: most significant byte first; a first byte of 128 or more sets the sign bit. */
  function Fold(b0: Byte, b1: Byte, b2: Byte, b3: Byte): Int32 {
    var signed := if b0 < 128 then b0 else b0 - 256;
    signed * 0x100_0000 + b1 * 0x1_0000 + b2 * 0x100 + b3
  }

  /** Exclusive or of two two-bit numbers. */
  function XorTwoBits(a: int, b: int): int
    requires 0 <= a < 4 && 0 <= b < 4
  {
    var low := if a % 2 == b % 2 then 0 else 1;
    var high := if a / 2 == b / 2 then 0 else 2;
    high + low
  }

  /** Exclusive or with a mask below four changes the two lowest bits only, also in two's complement. */
  function XorMask(x: int, mask: int): int
    requires 0 <= mask < 4
  {
    x - x % 4 + XorTwoBits(x % 4, mask)
  }

  function Mix(k: Kind): int {
    match k
    case Wallet => 1
    case Endpoint => 2
    case Unsupported => 3
  }

  function Key(user: Uuid, kind: Kind): (Int32, Int32) {
    (Fold(user[0], user[1], user[2], user[3]),
     XorMask(Fold(user[4], user[5], user[6], user[7]), Mix(kind)))
  }

  lemma SplitDigit(a: int, b: Byte, c: int, d: Byte)
    requires 256 * a + b == 256 * c + d
    ensures a == c && b == d
  {
  }

  lemma FoldInjective(a0: Byte, a1: Byte, a2: Byte, a3: Byte, b0: Byte, b1: Byte, b2: Byte, b3: Byte)
    requires Fold(a0, a1, a2, a3) == Fold(b0, b1, b2, b3)
    ensures (a0, a1, a2, a3) == (b0, b1, b2, b3)
  {
    var s := if a0 < 128 then a0 else a0 - 256;
    var t := if b0 < 128 then b0 else b0 - 256;
    SplitDigit(256 * (256 * s + a1) + a2, a3, 256 * (256 * t + b1) + b2, b3);
    SplitDigit(256 * s + a1, a2, 256 * t + b1, b2);
    SplitDigit(s, a1, t, b1);
  }

  /** Folding is onto: every int32 is the fold of four bytes, which `FoldInjective` makes unique. */
  lemma FoldIsOnto(x: Int32) returns (b0: Byte, b1: Byte, b2: Byte, b3: Byte)
    ensures Fold(b0, b1, b2, b3) == x
  {
    var u := if x < 0 then x + 0x1_0000_0000 else x;
    var v, w := u / 256, u / 256 / 256;
    b0, b1, b2, b3 := w / 256, w % 256, v % 256, u % 256;
    assert u == 256 * (256 * (256 * b0 + b1) + b2) + b3;
  }

  lemma LowBits(q: int, r: int)
    requires 0 <= r < 4
    ensures (4 * q + r) % 4 == r
  {
  }

  /** Mixing the kind into the second word is mixing it into its last byte. */
  lemma MixTouchesLastByte(b0: Byte, b1: Byte, b2: Byte, b3: Byte, mask: int)
    requires 0 <= mask < 4
    ensures 0 <= XorMask(b3, mask) < 256
    ensures XorMask(Fold(b0, b1, b2, b3), mask) == Fold(b0, b1, b2, XorMask(b3, mask))
  {
    var q := Fold(b0, b1, b2, 0) / 4;
    assert Fold(b0, b1, b2, b3) == 4 * (q + b3 / 4) + b3 % 4;
    LowBits(q + b3 / 4, b3 % 4);
  }

  lemma SecondWord(u: Uuid, k: Kind)
    ensures 0 <= XorMask(u[7], Mix(k)) < 256 && Key(u, k).1 == Fold(u[4], u[5], u[6], XorMask(u[7], Mix(k)))
  {
    MixTouchesLastByte(u[4], u[5], u[6], u[7], Mix(k));
  }

  lemma SevenBytes(u: Uuid, v: Uuid)
    ensures u[..7] == v[..7] <==>
            && (u[0], u[1], u[2], u[3]) == (v[0], v[1], v[2], v[3])
            && (u[4], u[5], u[6]) == (v[4], v[5], v[6])
  {
    assert u[..7] == [u[0], u[1], u[2], u[3], u[4], u[5], u[6]];
    assert v[..7] == [v[0], v[1], v[2], v[3], v[4], v[5], v[6]];
  }

  /** Two reservations wait for each other exactly when seven bytes agree and the eighth agrees after mixing. */
  lemma SameKeyIff(u: Uuid, k: Kind, v: Uuid, l: Kind)
    ensures Key(u, k) == Key(v, l) <==> u[..7] == v[..7] && XorMask(u[7], Mix(k)) == XorMask(v[7], Mix(l))
  {
    SecondWord(u, k);
    SecondWord(v, l);
    SevenBytes(u, v);
    if Key(u, k) == Key(v, l) {
      FoldInjective(u[0], u[1], u[2], u[3], v[0], v[1], v[2], v[3]);
      FoldInjective(u[4], u[5], u[6], XorMask(u[7], Mix(k)), v[4], v[5], v[6], XorMask(v[7], Mix(l)));
    }
  }

  /** One user's wallet and endpoint reservations never block each other. */
  lemma KindsNeverCollide(u: Uuid, k: Kind, l: Kind)
    ensures Key(u, k) == Key(u, l) <==> k == l
  {
    SameKeyIff(u, k, u, l);
  }
}
