/** The dictionary's hash on 32-bit words written out bit by bit, with the shifts and the exclusive or
    of the source. */
module HashBits {
  import opened Common
  import opened Dictionary

  /** The bits of a word, the lowest first. */
  type Word = b: seq<bool> | |b| == 32 witness Zeros(32)

  function Zeros(n: nat): (z: seq<bool>)
    ensures |z| == n
  {
    seq(n, _ => false)
  }

  function Power(n: nat): (p: nat)
    ensures p > 0
  {
    if n == 0 then 1 else 2 * Power(n - 1)
  }

  /** The number the bits denote. */
  function Value(b: seq<bool>): nat {
    if b == [] then 0 else (if b[0] then 1 else 0) + 2 * Value(b[1..])
  }

  /** The n lowest bits of a number. */
  function Low(x: nat, n: nat): (b: seq<bool>)
    ensures |b| == n
  {
    if n == 0 then [] else [x % 2 == 1] + Low(x / 2, n - 1)
  }

  // ----- the operators of the source -----

  /** The low 32 bits of a number. */
  function WordOf(x: nat): (w: Word)
    ensures Value(w) == x % WORD
  {
    WordWraps(x, 32);
    Low(x, 32)
  }

  function ByteOf(x: nat): (w: Word)
    requires x < 0x100
    ensures Value(w) == x
  {
    WordOf(x)
  }

  function Plus(a: Word, b: Word): (w: Word)
    ensures Value(w) == (Value(a) + Value(b)) % WORD
  {
    WordOf(Value(a) + Value(b))
  }

  function ShiftLeft(a: Word, k: nat): Word
    requires k <= 32
  {
    Zeros(k) + a[..32 - k]
  }

  function ShiftRight(a: Word, k: nat): Word
    requires k <= 32
  {
    a[k..] + Zeros(k)
  }

  function ExclusiveOr(a: seq<bool>, b: seq<bool>): (r: seq<bool>)
    requires |a| == |b|
    ensures |r| == |a|
  {
    seq(|a|, i requires 0 <= i < |a| => a[i] != b[i])
  }

  /** The low eight bits of a character. */
  function CharWord(c: char): (w: Word)
    ensures Value(w) == c as int % 0x100
  {
    ByteOf(c as int % 0x100)
  }

  function Round(h: Word, c: char): Word {
    var a := Plus(h, CharWord(c));
    var b := Plus(a, ShiftLeft(a, 10));
    ExclusiveOr(b, ShiftRight(b, 6))
  }

  function Rounds(key: string): Word {
    if key == "" then Zeros(32) else Round(Rounds(key[..|key| - 1]), key[|key| - 1])
  }

  function Hash(key: string): Word {
    var a := Rounds(key);
    var b := Plus(a, ShiftLeft(a, 3));
    var c := ExclusiveOr(b, ShiftRight(b, 11));
    Plus(c, ShiftLeft(c, 15))
  }

  // ----- what they compute -----

  lemma {:induction false} LowWraps(x: nat, n: nat)
    ensures Value(Low(x, n)) == x % Power(n)
  {
    if n > 0 {
      LowWraps(x / 2, n - 1);
      assert Low(x, n)[1..] == Low(x / 2, n - 1);
      HalfWraps(x, Power(n - 1));
    }
  }

  lemma HalfWraps(x: nat, p: nat)
    requires p > 0
    ensures x % (2 * p) == x % 2 + 2 * (x / 2 % p)
  {
    var y, r := x / 2, x % 2;
    var q, s := y / p, y % p;
    assert x == 2 * y + r && y == p * q + s;
    assert x == (2 * p) * q + (2 * s + r);
    Remainder(2 * p, q, 2 * s + r);
  }

  lemma Unique(d: nat, q: nat, r: nat, q': nat, r': nat)
    requires r < d && r' < d && d * q + r == d * q' + r'
    ensures q == q' && r == r'
  {
    if q < q' {
      Ahead(d, q, q');
    } else if q' < q {
      Ahead(d, q', q);
    }
  }

  lemma Ahead(d: nat, q: nat, q': nat)
    requires q < q'
    ensures d * q + d <= d * q'
  {
    assert d * q + d == d * (q + 1);
    assert d * (q' - (q + 1)) >= 0;
  }

  lemma Remainder(d: nat, q: nat, r: nat)
    requires r < d
    ensures (d * q + r) % d == r && (d * q + r) / d == q
  {
    var n := d * q + r;
    Unique(d, n / d, n % d, q, r);
  }

  lemma {:induction false} ZerosValue(n: nat)
    ensures Value(Zeros(n)) == 0
  {
    if n > 0 {
      ZerosValue(n - 1);
      assert Zeros(n)[1..] == Zeros(n - 1);
    }
  }

  /** x doubled and x halved n times. */
  function Doubled(x: nat, n: nat): nat {
    if n == 0 then x else 2 * Doubled(x, n - 1)
  }

  function Halved(x: nat, n: nat): nat {
    if n == 0 then x else Halved(x, n - 1) / 2
  }

  lemma DoubledAre(x: nat)
    ensures Doubled(x, 3) == x * 8 && Doubled(x, 10) == x * 1024 && Doubled(x, 15) == x * 32768
  {
    assert Doubled(x, 1) == x * 2 && Doubled(x, 3) == x * 8 && Doubled(x, 5) == x * 32 && Doubled(x, 7) == x * 128;
    assert Doubled(x, 9) == x * 512 && Doubled(x, 11) == x * 2048 && Doubled(x, 13) == x * 8192;
  }

  lemma HalvedAre(x: nat)
    ensures Halved(x, 6) == x / 64 && Halved(x, 11) == x / 2048
  {
    assert Halved(x, 1) == x / 2 && Halved(x, 3) == x / 8 && Halved(x, 5) == x / 32;
    assert Halved(x, 7) == x / 128 && Halved(x, 9) == x / 512;
  }

  lemma Powers()
    ensures Power(31) == 0x8000_0000 && Power(32) == WORD
  {
    assert Power(4) == 16 && Power(8) == 256 && Power(12) == 4096 && Power(16) == 65536;
    assert Power(20) == 0x10_0000 && Power(24) == 0x100_0000 && Power(28) == 0x1000_0000;
  }

  // ----- shifts -----

  lemma {:induction false} LastBit(b: seq<bool>, x: bool)
    ensures Value(b + [x]) == Value(b) + if x then Power(|b|) else 0
  {
    if b == [] {
      assert b + [x] == [x] && [x][1..] == [];
    } else {
      LastBit(b[1..], x);
      assert (b + [x])[1..] == b[1..] + [x];
    }
  }

  lemma {:induction false} LowPlaces(b: seq<bool>, k: nat)
    ensures Value(b + Zeros(k)) == Value(b)
  {
    if b == [] {
      assert b + Zeros(k) == Zeros(k);
      ZerosValue(k);
    } else {
      LowPlaces(b[1..], k);
      assert (b + Zeros(k))[1..] == b[1..] + Zeros(k);
    }
  }

  lemma {:induction false} DropValue(a: seq<bool>, k: nat)
    requires k <= |a|
    ensures Value(a[k..]) == Halved(Value(a), k)
  {
    if k > 0 {
      DropValue(a, k - 1);
      assert a[k - 1..][1..] == a[k..];
    }
  }

  lemma ShiftRightIs(a: Word, k: nat)
    requires k <= 32
    ensures Value(ShiftRight(a, k)) == Halved(Value(a), k)
  {
    LowPlaces(a[k..], k);
    DropValue(a, k);
  }

  lemma {:induction false} ValueBelow(b: seq<bool>)
    ensures Value(b) < Power(|b|)
  {
    if b != [] { ValueBelow(b[1..]); }
  }

  lemma WordBelow(a: Word)
    ensures Value(a) < WORD
  {
    Powers();
    ValueBelow(a);
  }

  lemma ShiftOnce(a: Word)
    ensures Value(ShiftLeft(a, 1)) == 2 * Value(a) % WORD
  {
    Powers();
    assert a == a[..31] + [a[31]];
    LastBit(a[..31], a[31]);
    ValueBelow(a[..31]);
    assert ShiftLeft(a, 1)[1..] == a[..31];
  }

  lemma DoubleWraps(x: nat)
    ensures 2 * (x % WORD) % WORD == 2 * x % WORD
  {
  }

  lemma {:induction false} ShiftLeftIs(a: Word, k: nat)
    requires k <= 32
    ensures Value(ShiftLeft(a, k)) == Doubled(Value(a), k) % WORD
  {
    if k == 0 {
      WordBelow(a);
      assert ShiftLeft(a, 0) == a;
    } else {
      ShiftLeftIs(a, k - 1);
      ShiftOnce(ShiftLeft(a, k - 1));
      assert ShiftLeft(ShiftLeft(a, k - 1), 1) == ShiftLeft(a, k);
      DoubleWraps(Doubled(Value(a), k - 1));
    }
  }

  // ----- exclusive or -----

  lemma XorDouble(v: nat, w: nat, x: nat, y: nat)
    requires x < 2 && y < 2
    ensures Xor(x + 2 * v, y + 2 * w) == (x + y) % 2 + 2 * Xor(v, w)
  {
    assert (x + 2 * v) / 2 == v && (y + 2 * w) / 2 == w;
    assert (x + 2 * v + (y + 2 * w)) % 2 == (x + y) % 2;
  }

  lemma FirstBits(x: bool, y: bool, v: nat, w: nat)
    ensures Xor((if x then 1 else 0) + 2 * v, (if y then 1 else 0) + 2 * w) == (if x != y then 1 else 0) + 2 * Xor(v, w)
  {
    XorDouble(v, w, if x then 1 else 0, if y then 1 else 0);
  }

  lemma {:induction false} ExclusiveOrIs(a: seq<bool>, b: seq<bool>)
    requires |a| == |b|
    ensures Value(ExclusiveOr(a, b)) == Xor(Value(a), Value(b))
  {
    if a != [] {
      ExclusiveOrIs(a[1..], b[1..]);
      assert ExclusiveOr(a, b)[1..] == ExclusiveOr(a[1..], b[1..]);
      FirstBits(a[0], b[0], Value(a[1..]), Value(b[1..]));
    }
  }

  // ----- the statements of the loop -----

  lemma WordWraps(x: nat, n: nat)
    requires n == 32
    ensures Value(Low(x, n)) == x % WORD
  {
    Powers();
    LowWraps(x, n);
  }

  lemma SumWraps(x: nat, y: nat)
    ensures (x + y % WORD) % WORD == (x + y) % WORD
  {
  }

  /** hash += hash << k. */
  lemma PlusShifted(a: Word, k: nat)
    requires k <= 32
    ensures Value(Plus(a, ShiftLeft(a, k))) == (Value(a) + Doubled(Value(a), k)) % WORD
  {
    ShiftLeftIs(a, k);
    SumWraps(Value(a), Doubled(Value(a), k));
  }

  /** hash ^= hash >> k. */
  lemma XorShifted(a: Word, k: nat)
    requires k <= 32
    ensures Value(ExclusiveOr(a, ShiftRight(a, k))) == Xor(Value(a), Halved(Value(a), k))
  {
    ShiftRightIs(a, k);
    ExclusiveOrIs(a, ShiftRight(a, k));
  }

  lemma RoundSteps(h: nat, c: char, a: nat, b: nat)
    requires a == (h + c as int % 0x100) % WORD && b == (a + Doubled(a, 10)) % WORD
    ensures HashRound(h, c) == Xor(b, Halved(b, 6))
  {
    DoubledAre(a);
    HalvedAre(b);
  }

  lemma RoundIs(h: Word, c: char)
    ensures Value(Round(h, c)) == HashRound(Value(h), c)
  {
    var a := Plus(h, CharWord(c));
    PlusShifted(a, 10);
    var b := Plus(a, ShiftLeft(a, 10));
    XorShifted(b, 6);
    RoundSteps(Value(h), c, Value(a), Value(b));
  }

  lemma {:induction false} RoundsAre(key: string)
    ensures Value(Rounds(key)) == HashPrefix(key)
  {
    if key == "" {
      ZerosValue(32);
    } else {
      RoundsAre(key[..|key| - 1]);
      RoundIs(Rounds(key[..|key| - 1]), key[|key| - 1]);
    }
  }

  lemma LastSteps(key: string, b: nat, c: nat)
    requires b == (HashPrefix(key) + Doubled(HashPrefix(key), 3)) % WORD && c == Xor(b, Halved(b, 11))
    ensures HashOf(key) == (c + Doubled(c, 15)) % WORD
  {
    DoubledAre(HashPrefix(key));
    HalvedAre(b);
    DoubledAre(c);
  }

  /** The arithmetic of the dictionary computes the hash of the words. */
  lemma HashIs(key: string)
    ensures Value(Hash(key)) == HashOf(key)
  {
    RoundsAre(key);
    var a := Rounds(key);
    PlusShifted(a, 3);
    var b := Plus(a, ShiftLeft(a, 3));
    XorShifted(b, 11);
    var c := ExclusiveOr(b, ShiftRight(b, 11));
    PlusShifted(c, 15);
    LastSteps(key, Value(b), Value(c));
  }
}
