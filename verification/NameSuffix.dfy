/**
 * The characters of an account name and its suffix.
 *
 * A name packs twelve 5-bit characters and a 4-bit thirteenth into 64 bits, the first character highest;
 * character 0 is the dot. Right shifts, masks of low bits and left shifts are written as division,
 * remainder and multiplication by powers of two.
 */
module NameSuffix {
  import opened Base
  import opened Arith

  function Pow2(k: nat): (p: nat)
    ensures p > 0
  {
    if k == 0 then 1 else 2 * Pow2(k - 1)
  }

  lemma {:induction false} Pow2Add(j: nat, k: nat)
    ensures Pow2(j + k) == Pow2(j) * Pow2(k)
  {
    if j > 0 {
      Pow2Add(j - 1, k);
      Associates(2, Pow2(j - 1), Pow2(k));
    }
  }

  predicate CharsOk(cs: seq<nat>) {
    |cs| == 13 && cs[12] < 16 && forall i :: 0 <= i < 12 ==> cs[i] < 32
  }

  /** The i-th character, as the source extracts it. */
  function Char(n: nat, i: nat): nat
    requires i <= 12
  {
    if i == 12 then n % 16 else n / Pow2(59 - 5 * i) % 32
  }

  function Chars(n: nat): (cs: seq<nat>)
    ensures CharsOk(cs)
    ensures forall i :: 0 <= i <= 12 ==> cs[i] == Char(n, i)
  {
    seq(13, i requires 0 <= i < 13 => Char(n, i))
  }

  /** The number whose 5-bit characters are `cs`. */
  function Horner(cs: seq<nat>): nat {
    if cs == [] then 0 else Horner(cs[..|cs| - 1]) * 32 + cs[|cs| - 1]
  }

  /** The name with the thirteen characters `cs`. */
  function Value(cs: seq<nat>): nat
    requires |cs| == 13
  {
    Horner(cs[..12]) * 16 + cs[12]
  }

  // ---------- packing and unpacking ----------

  lemma Pow2Of64()
    ensures Pow2(64) == U64
  {
    assert Pow2(4) == 16;
    Pow2Add(4, 4);
    assert Pow2(8) == 0x100;
    Pow2Add(8, 8);
    assert Pow2(16) == 0x1_0000;
    Pow2Add(16, 16);
    assert Pow2(32) == U32;
    Pow2Add(32, 32);
  }

  /** The first `i` characters of a name are its leading bits. */
  lemma {:induction false} Leading(n: Account, i: nat)
    requires i <= 12
    ensures Horner(Chars(n)[..i]) == n / Pow2(64 - 5 * i)
  {
    if i == 0 {
      Pow2Of64();
    } else {
      Leading(n, i - 1);
      assert Chars(n)[..i][..i - 1] == Chars(n)[..i - 1];
      var p := Pow2(64 - 5 * i);
      Pow2Add(5, 64 - 5 * i);
      QuotientOfQuotient(n, p, 32);
    }
  }

  /** Unpacking a name and packing it again gives the name back. */
  lemma PackUnpack(n: Account)
    ensures Value(Chars(n)) == n
  {
    Leading(n, 12);
    assert Pow2(4) == 16;
    assert n == n / 16 * 16 + n % 16;
  }

  lemma {:induction false} HornerConcat(a: seq<nat>, b: seq<nat>)
    ensures Horner(a + b) == Horner(a) * Pow2(5 * |b|) + Horner(b)
    decreases |b|
  {
    if b == [] {
      assert a + b == a;
    } else {
      var b' := b[..|b| - 1];
      assert (a + b)[..|a + b| - 1] == a + b';
      HornerConcat(a, b');
      Pow2Add(5, 5 * |b'|);
      assert Pow2(5) == 32;
      assert Horner(a) * (32 * Pow2(5 * |b'|)) == Horner(a) * Pow2(5 * |b'|) * 32;
    }
  }

  lemma {:induction false} HornerBound(b: seq<nat>)
    requires forall i :: 0 <= i < |b| ==> b[i] < 32
    ensures Horner(b) < Pow2(5 * |b|)
    decreases |b|
  {
    if b != [] {
      HornerBound(b[..|b| - 1]);
      Pow2Add(5, 5 * (|b| - 1));
      assert Pow2(5) == 32;
    }
  }

  function Dots(k: nat): seq<nat> { seq(k, _ => 0) }

  lemma {:induction false} HornerDots(k: nat)
    ensures Horner(Dots(k)) == 0
  {
    if k > 0 {
      assert Dots(k)[..k - 1] == Dots(k - 1);
      HornerDots(k - 1);
    }
  }

  /** Packing characters and unpacking them gives the characters back. */
  lemma UnpackPack(cs: seq<nat>)
    requires CharsOk(cs)
    ensures Value(cs) < U64 && Chars(Value(cs)) == cs
  {
    HornerBound(cs[..12]);
    Pow2Add(60, 4);
    Pow2Of64();
    assert Pow2(4) == 16;
    forall i | 0 <= i < 13 ensures Char(Value(cs), i) == cs[i] {
      if i < 12 { UnpackChar(cs, i); }
    }
  }

  lemma UnpackChar(cs: seq<nat>, i: nat)
    requires CharsOk(cs) && i < 12
    ensures Char(Value(cs), i) == cs[i]
  {
    var head, tail := cs[..i + 1], cs[i + 1..12];
    var k := 5 * (11 - i);
    assert cs[..12] == head + tail;
    HornerConcat(head, tail);
    HornerBound(tail);
    assert Pow2(4) == 16;
    QuotientIs(Value(cs), 16, Horner(cs[..12]), cs[12]);
    QuotientIs(Horner(cs[..12]), Pow2(k), Horner(head), Horner(tail));
    QuotientOfQuotient(Value(cs), 16, Pow2(k));
    Pow2Add(k, 4);
    assert head[..i] == cs[..i];
    QuotientIs(Horner(head), 32, Horner(cs[..i]), cs[i]);
  }

  // ---------- the suffix ----------

  /** A dot with a character other than the dot somewhere after it. */
  predicate ActualDot(cs: seq<nat>, i: nat)
    requires |cs| == 13 && i < 12
  {
    cs[i] == 0 && exists j :: i < j < 13 && cs[j] != 0
  }

  /** The last actual dot among the first `k` characters, or -1. */
  function LastActualDot(cs: seq<nat>, k: nat): (d: int)
    requires |cs| == 13 && k <= 12
    ensures -1 <= d < k
    ensures d >= 0 ==> ActualDot(cs, d)
    ensures forall i :: d < i < k ==> !ActualDot(cs, i)
  {
    if k == 0 then -1 else if ActualDot(cs, k - 1) then k - 1 else LastActualDot(cs, k - 1)
  }

  /** The characters after the last actual dot, followed by dots; all of them when there is none. */
  function SuffixChars(cs: seq<nat>): seq<nat>
    requires |cs| == 13
  {
    var d := LastActualDot(cs, 12);
    cs[d + 1..] + Dots(d + 1)
  }

  function Suffix(n: Account): Account {
    UnpackPack(Chars(n));
    assert CharsOk(SuffixChars(Chars(n)));
    UnpackPack(SuffixChars(Chars(n)));
    Value(SuffixChars(Chars(n)))
  }

  /** What follows the last actual dot has no actual dot of its own. */
  lemma NoDotLeft(cs: seq<nat>)
    requires |cs| == 13
    ensures forall i :: 0 <= i < 12 ==> !ActualDot(SuffixChars(cs), i)
  {
    var ss := SuffixChars(cs);
    var d := LastActualDot(cs, 12);
    forall i: nat | i < 12 ensures !ActualDot(ss, i) {
      assert forall j :: 0 <= j < 13 ==> ss[j] == if j + d + 1 < 13 then cs[j + d + 1] else 0;
      if i + d + 1 < 12 {
        assert !ActualDot(cs, i + d + 1);
      }
    }
  }

  /** A name is its own suffix exactly when it has no actual dot. */
  lemma OwnSuffix(n: Account)
    ensures Suffix(n) == n <==> forall i :: 0 <= i < 12 ==> !ActualDot(Chars(n), i)
  {
    var cs := Chars(n);
    UnpackPack(SuffixChars(cs));
    NoDotLeft(cs);
    if forall i :: 0 <= i < 12 ==> !ActualDot(cs, i) {
      assert LastActualDot(cs, 12) == -1;
      assert cs[0..] + Dots(0) == cs;
      PackUnpack(n);
    }
  }

  /** The suffix of a suffix is itself. */
  lemma SuffixIdempotent(n: Account)
    ensures Suffix(Suffix(n)) == Suffix(n)
  {
    UnpackPack(SuffixChars(Chars(n)));
    NoDotLeft(Chars(n));
    OwnSuffix(Suffix(n));
  }

  /** Masking and shifting below the dot at `d` packs the characters after it. */
  lemma PackedBelow(n: Account, d: nat)
    requires d < 12
    ensures var rem := 59 - 5 * d;
      Value(Chars(n)[d + 1..] + Dots(d + 1)) ==
      (n % Pow2(rem) - n % 16) * Pow2(64 - rem) + n % 16 * Pow2(63 - rem)
  {
    var cs := Chars(n);
    var rem := 59 - 5 * d;
    var t, c := Horner(cs[d + 1..12]), cs[12];
    BelowDot(n, d);
    var ns := cs[d + 1..] + Dots(d + 1);
    assert ns[..12] == cs[d + 1..] + Dots(d);
    HornerConcat(cs[d + 1..], Dots(d));
    HornerDots(d);
    assert cs[d + 1..][..11 - d] == cs[d + 1..12];
    assert Horner(cs[d + 1..]) == t * 32 + c;
    Pow2Add(5 * d, 4);
    Pow2Add(5 * d + 4, 1);
    assert Pow2(4) == 16 && Pow2(1) == 2;
    Distribute(t, c, Pow2(5 * d));
  }

  lemma Distribute(t: nat, c: nat, p: nat)
    ensures (t * 32 + c) * p * 16 == t * 16 * (p * 16 * 2) + c * (p * 16)
  {
  }

  lemma BelowDot(n: Account, d: nat)
    requires d < 12
    ensures n % Pow2(59 - 5 * d) == Horner(Chars(n)[d + 1..12]) * 16 + Chars(n)[12]
  {
    var cs := Chars(n);
    PackUnpack(n);
    var head, tail := cs[..d + 1], cs[d + 1..12];
    assert cs[..12] == head + tail;
    HornerConcat(head, tail);
    HornerBound(tail);
    var k := 5 * (11 - d);
    Pow2Add(k, 4);
    assert Pow2(4) == 16;
    var h, t := Horner(head), Horner(tail);
    Rescale(h, Pow2(k), t, cs[12]);
    QuotientIs(n, Pow2(k) * 16, h, t * 16 + cs[12]);
  }

  lemma Rescale(h: nat, p: nat, t: nat, c: nat)
    requires t < p && c < 16
    ensures (h * p + t) * 16 + c == h * (p * 16) + (t * 16 + c)
    ensures t * 16 + c < p * 16
  {
  }

  /** The mask-and-shift formula for the last actual dot, or the name itself, is the suffix. */
  lemma SuffixAt(n: Account, d: int)
    requires -1 <= d < 12
    requires d >= 0 ==> ActualDot(Chars(n), d)
    requires forall i :: d < i < 12 ==> !ActualDot(Chars(n), i)
    ensures d < 0 ==> Suffix(n) == n
    ensures d >= 0 ==>
      var rem := 59 - 5 * d;
      Suffix(n) == (n % Pow2(rem) - n % 16) * Pow2(64 - rem) + n % 16 * Pow2(63 - rem)
  {
    var cs := Chars(n);
    assert LastActualDot(cs, 12) == d;
    if d < 0 {
      PackUnpack(n);
      assert cs[0..] + Dots(0) == cs;
    } else {
      PackedBelow(n, d);
    }
  }

  /** Scans the characters left to right for the bits that follow the last actual dot. */
  method BitsAfterLastDot(n: Account) returns (rem: nat, ghost d: int)
    ensures -1 <= d < 12 && rem == (if d < 0 then 0 else 59 - 5 * d)
    ensures d >= 0 ==> ActualDot(Chars(n), d)
    ensures forall j :: d < j < 12 ==> !ActualDot(Chars(n), j)
  {
    ghost var cs := Chars(n);
    ghost var i, t := 0, -1;
    d := -1;
    rem := 0;
    var tmp := 0;
    var remaining := 59;
    while remaining >= 4
      invariant 0 <= i <= 12 && remaining == 59 - 5 * i
      invariant -1 <= t < i && tmp == (if t < 0 then 0 else 59 - 5 * t)
      invariant t >= 0 ==> cs[t] == 0
      invariant forall j :: t < j < i ==> cs[j] != 0
      invariant -1 <= d <= t && rem == (if d < 0 then 0 else 59 - 5 * d)
      invariant d >= 0 ==> cs[d] == 0 && exists j :: d < j < i && cs[j] != 0
      invariant forall j, k :: d < j < k < i && cs[j] == 0 ==> cs[k] == 0
    {
      var c := n / Pow2(remaining) % 32;
      assert c == cs[i];
      if c == 0 {
        tmp := remaining;
        t := i;
      } else {
        rem := tmp;
        d := t;
      }
      i := i + 1;
      remaining := remaining - 5;
    }
    if n % 16 != 0 {
      rem := tmp;
      d := t;
    }
  }

  /** `name_suffix`: the bits after the last actual dot, shifted to the top. */
  method ComputeSuffix(n: Account) returns (r: Account)
    ensures r == Suffix(n)
  {
    var rem, d := BitsAfterLastDot(n);
    SuffixAt(n, d);
    if rem == 0 {
      return n;
    }
    var thirteenth := n % 16;
    var masked := n % Pow2(rem) - thirteenth;
    return masked * Pow2(64 - rem) + thirteenth * Pow2(63 - rem);
  }
}
