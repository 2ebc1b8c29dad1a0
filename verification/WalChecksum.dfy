/** The running checksum of a write-ahead log (SQLite database file format, section 4.2). */
module WalChecksum {

  newtype byte = b: int | 0 <= b < 256

  const TWO_32 := 0x1_0000_0000

  type u32 = x: int | 0 <= x < TWO_32

  datatype ByteOrder = LittleEndian | BigEndian

  datatype Sums = Sums(s0: u32, s1: u32)

  function Word(order: ByteOrder, b: seq<byte>, i: nat): (w: u32)
    requires i + 4 <= |b|
  {
    var b0, b1, b2, b3 := b[i] as int, b[i + 1] as int, b[i + 2] as int, b[i + 3] as int;
    match order
    case LittleEndian => b0 + 0x100 * b1 + 0x1_0000 * b2 + 0x100_0000 * b3
    case BigEndian => b3 + 0x100 * b2 + 0x1_0000 * b1 + 0x100_0000 * b0
  }

  /** Different bytes give different words. */
  lemma WordIsInjective(order: ByteOrder, a: seq<byte>, i: nat, b: seq<byte>, j: nat)
    requires i + 4 <= |a| && j + 4 <= |b| && Word(order, a, i) == Word(order, b, j)
    ensures a[i..i + 4] == b[j..j + 4]
  {
    var a0, a1, a2, a3 := a[i] as int, a[i + 1] as int, a[i + 2] as int, a[i + 3] as int;
    var b0, b1, b2, b3 := b[j] as int, b[j + 1] as int, b[j + 2] as int, b[j + 3] as int;
    match order
    case LittleEndian => assert a3 == b3 && a2 == b2 && a1 == b1 && a0 == b0;
    case BigEndian => assert a0 == b0 && a1 == b1 && a2 == b2 && a3 == b3;
  }

  /** Which byte of a word weighs how much: the first least when little-endian, the last least when big-endian. */
  lemma WordBytes(order: ByteOrder, b: seq<byte>, i: nat)
    requires i + 4 <= |b|
    ensures
      var w := Word(order, b, i);
      match order
      case LittleEndian => HasBytes(w, b[i], b[i + 1], b[i + 2], b[i + 3])
      case BigEndian => HasBytes(w, b[i + 3], b[i + 2], b[i + 1], b[i])
  {
    match order
    case LittleEndian => BytesOf(Word(order, b, i), b[i], b[i + 1], b[i + 2], b[i + 3]);
    case BigEndian => BytesOf(Word(order, b, i), b[i + 3], b[i + 2], b[i + 1], b[i]);
  }

  /** The bytes of a word, from the least significant to the most. */
  predicate HasBytes(w: int, b0: byte, b1: byte, b2: byte, b3: byte) {
    w % 0x100 == b0 as int && w / 0x100 % 0x100 == b1 as int && w / 0x1_0000 % 0x100 == b2 as int
    && w / 0x100_0000 == b3 as int
  }

  lemma BytesOf(w: int, b0: byte, b1: byte, b2: byte, b3: byte)
    requires w == b0 as int + 0x100 * b1 as int + 0x1_0000 * b2 as int + 0x100_0000 * b3 as int
    ensures HasBytes(w, b0, b1, b2, b3)
  {
    var c0, c1, c2, c3 := b0 as int, b1 as int, b2 as int, b3 as int;
    assert w == 0x100_0000 * c3 + (c0 + 0x100 * c1 + 0x1_0000 * c2);
    assert w == 0x1_0000 * (c2 + 0x100 * c3) + (c0 + 0x100 * c1);
    assert w == 0x100 * (c1 + 0x100 * c2 + 0x1_0000 * c3) + c0;
    assert w / 0x100 == c1 + 0x100 * (c2 + 0x100 * c3);
    assert w / 0x1_0000 == c2 + 0x100 * c3;
  }

  /** Addition modulo 2^32. */
  function Add(a: u32, b: u32): u32 {
    (a + b) % TWO_32
  }

  lemma AddCancels(a: u32, x: u32, y: u32)
    requires Add(a, x) == Add(a, y)
    ensures x == y
  {
  }

  lemma AddCommutes(a: u32, b: u32)
    ensures Add(a, b) == Add(b, a)
  {
  }

  /** One 8-byte unit, in arithmetic modulo 2^32. */
  function Step(s: Sums, x0: u32, x1: u32): Sums {
    var s0 := Add(s.s0, Add(x0, s.s1));
    Sums(s0, Add(s.s1, Add(x1, s0)))
  }

  /** For fixed sums the unit is recovered from the result. */
  lemma StepIsInjectiveInData(s: Sums, x0: u32, x1: u32, y0: u32, y1: u32)
    requires Step(s, x0, x1) == Step(s, y0, y1)
    ensures x0 == y0 && x1 == y1
  {
    UnitRecovered(s.s0, s.s1, x0, y0);
    UnitRecovered(s.s1, Step(s, x0, x1).s0, x1, y1);
  }

  lemma UnitRecovered(a: u32, b: u32, x: u32, y: u32)
    requires Add(a, Add(x, b)) == Add(a, Add(y, b))
    ensures x == y
  {
    AddCancels(a, Add(x, b), Add(y, b));
    AddCommutes(x, b);
    AddCommutes(y, b);
    AddCancels(b, x, y);
  }

  lemma SumRecovered(a: u32, b: u32, x: u32)
    requires Add(a, x) == Add(b, x)
    ensures a == b
  {
    AddCommutes(a, x);
    AddCommutes(b, x);
    AddCancels(x, a, b);
  }

  /** For a fixed unit the sums are recovered from the result. */
  lemma StepIsInjectiveInSums(s: Sums, t: Sums, x0: u32, x1: u32)
    requires Step(s, x0, x1) == Step(t, x0, x1)
    ensures s == t
  {
    SumRecovered(s.s1, t.s1, Add(x1, Step(s, x0, x1).s0));
    SumRecovered(s.s0, t.s0, Add(x0, s.s1));
  }

  /** An 8-byte unit as its two words. */
  datatype Unit = Unit(x0: u32, x1: u32)

  function UnitAt(order: ByteOrder, b: seq<byte>, i: nat): Unit
    requires i + 8 <= |b|
  {
    Unit(Word(order, b, i), Word(order, b, i + 4))
  }

  /** The first n units of a buffer. */
  function Units(order: ByteOrder, b: seq<byte>, n: nat): (us: seq<Unit>)
    requires 8 * n <= |b|
    ensures |us| == n
  {
    if n == 0 then [] else Units(order, b, n - 1) + [UnitAt(order, b, 8 * (n - 1))]
  }

  /** The checksum of a sequence of units. */
  function Fold(s: Sums, us: seq<Unit>): Sums {
    if us == [] then s
    else
      var u := us[|us| - 1];
      Step(Fold(s, us[..|us| - 1]), u.x0, u.x1)
  }

  /** The checksum of a buffer of whole units; other buffers are a fault of the caller. */
  method Checksum(order: ByteOrder, s: Sums, b: seq<byte>) returns (r: Sums)
    requires |b| % 8 == 0
    ensures r == Fold(s, Units(order, b, |b| / 8))
  {
    r := s;
    var i := 0;
    while i < |b| / 8
      invariant 0 <= i <= |b| / 8 && r == Fold(s, Units(order, b, i))
    {
      var us := Units(order, b, i);
      assert Units(order, b, i + 1)[..i] == us;
      r := Step(r, Word(order, b, 8 * i), Word(order, b, 8 * i + 4));
      i := i + 1;
    }
  }

  lemma {:induction false} FoldResumes(s: Sums, us: seq<Unit>, vs: seq<Unit>)
    ensures Fold(s, us + vs) == Fold(Fold(s, us), vs)
  {
    if vs == [] {
      assert us + vs == us;
    } else {
      var n := |vs| - 1;
      FoldResumes(s, us, vs[..n]);
      assert (us + vs)[..|us| + n] == us + vs[..n];
    }
  }

  lemma UnitShifted(order: ByteOrder, a: seq<byte>, b: seq<byte>, i: nat)
    requires i + 8 <= |b|
    ensures UnitAt(order, a + b, |a| + i) == UnitAt(order, b, i)
  {
  }

  lemma UnitKept(order: ByteOrder, a: seq<byte>, b: seq<byte>, i: nat)
    requires i + 8 <= |a|
    ensures UnitAt(order, a + b, i) == UnitAt(order, a, i)
  {
  }

  lemma {:induction false} UnitsIndexed(order: ByteOrder, b: seq<byte>, n: nat, i: nat)
    requires 8 * n <= |b| && i < n
    ensures Units(order, b, n)[i] == UnitAt(order, b, 8 * i)
  {
    if i < n - 1 {
      UnitsIndexed(order, b, n - 1, i);
    }
  }

  lemma UnitsOfWhole(order: ByteOrder, a: seq<byte>, m: nat, b: seq<byte>, n: nat)
    requires |a| == 8 * m && 8 * n <= |b|
    ensures Units(order, a + b, m + n) == Units(order, a, m) + Units(order, b, n)
  {
    forall i | 0 <= i < m + n ensures Units(order, a + b, m + n)[i] == (Units(order, a, m) + Units(order, b, n))[i] {
      UnitsIndexed(order, a + b, m + n, i);
      if i < m {
        UnitsIndexed(order, a, m, i);
        UnitKept(order, a, b, 8 * i);
      } else {
        UnitsIndexed(order, b, n, i - m);
        UnitShifted(order, a, b, 8 * (i - m));
      }
    }
  }

  /** Summing goes on after any whole number of units as if it had not stopped. */
  lemma ChecksumResumes(order: ByteOrder, s: Sums, a: seq<byte>, m: nat, b: seq<byte>, n: nat)
    requires |a| == 8 * m && |b| == 8 * n
    ensures Fold(s, Units(order, a + b, m + n)) == Fold(Fold(s, Units(order, a, m)), Units(order, b, n))
  {
    UnitsOfWhole(order, a, m, b, n);
    FoldResumes(s, Units(order, a, m), Units(order, b, n));
  }

  lemma {:induction false} FoldIsInjectiveInSums(s: Sums, t: Sums, us: seq<Unit>)
    requires Fold(s, us) == Fold(t, us)
    ensures s == t
  {
    if us != [] {
      var n := |us| - 1;
      StepIsInjectiveInSums(Fold(s, us[..n]), Fold(t, us[..n]), us[n].x0, us[n].x1);
      FoldIsInjectiveInSums(s, t, us[..n]);
    }
  }

  /** Different units at one place, and equal units elsewhere, give different sums. */
  lemma OneUnitChangeIsSeen(s: Sums, before: seq<Unit>, u: Unit, v: Unit, after: seq<Unit>)
    requires Fold(s, before + [u] + after) == Fold(s, before + [v] + after)
    ensures u == v
  {
    FoldResumes(s, before + [u], after);
    FoldResumes(s, before + [v], after);
    FoldIsInjectiveInSums(Fold(s, before + [u]), Fold(s, before + [v]), after);
    var t := Fold(s, before);
    assert (before + [u])[..|before|] == before && (before + [v])[..|before|] == before;
    StepIsInjectiveInData(t, u.x0, u.x1, v.x0, v.x1);
  }

  lemma UnitIsInjective(order: ByteOrder, a: seq<byte>, b: seq<byte>)
    requires |a| == |b| == 8 && UnitAt(order, a, 0) == UnitAt(order, b, 0)
    ensures a == b
  {
    WordIsInjective(order, a, 0, b, 0);
    WordIsInjective(order, a, 4, b, 4);
    assert a == a[0..4] + a[4..8] && b == b[0..4] + b[4..8];
  }

  lemma SplitUnits(order: ByteOrder, before: seq<byte>, unit: seq<byte>, after: seq<byte>, m: nat, n: nat)
    requires |before| == 8 * m && |unit| == 8 && |after| == 8 * n
    ensures Units(order, before + unit + after, m + 1 + n)
         == Units(order, before, m) + [UnitAt(order, unit, 0)] + Units(order, after, n)
  {
    UnitsOfWhole(order, before + unit, m + 1, after, n);
    UnitsOfWhole(order, before, m, unit, 1);
    OneUnit(order, unit);
  }

  lemma OneUnit(order: ByteOrder, unit: seq<byte>)
    requires |unit| == 8
    ensures Units(order, unit, 1) == [UnitAt(order, unit, 0)]
  {
    assert Units(order, unit, 0) == [];
  }

  /** Buffers of any length that differ only inside one 8-byte unit never have the same checksum. */
  lemma ChangeWithinAUnitIsSeen(
    order: ByteOrder, s: Sums, before: seq<byte>, x: seq<byte>, y: seq<byte>, after: seq<byte>, m: nat, n: nat)
    requires |before| == 8 * m && |x| == |y| == 8 && |after| == 8 * n && x != y
    ensures Fold(s, Units(order, before + x + after, m + 1 + n)) != Fold(s, Units(order, before + y + after, m + 1 + n))
  {
    SplitUnits(order, before, x, after, m, n);
    SplitUnits(order, before, y, after, m, n);
    var front, back := Units(order, before, m), Units(order, after, n);
    if Fold(s, front + [UnitAt(order, x, 0)] + back) == Fold(s, front + [UnitAt(order, y, 0)] + back) {
      OneUnitChangeIsSeen(s, front, UnitAt(order, x, 0), UnitAt(order, y, 0), back);
      UnitIsInjective(order, x, y);
      assert false;
    }
  }

  // ---------------------------------------------------------------------------------------------
  // The closed form: both sums are Fibonacci-weighted sums of the words, the heaviest weight on the first.

  function Fib(n: nat): nat {
    if n < 2 then n else Fib(n - 1) + Fib(n - 2)
  }

  /** The words of a buffer in order, two for each unit. */
  function Words(us: seq<Unit>): (ws: seq<u32>)
    ensures |ws| == 2 * |us|
  {
    if us == [] then [] else Words(us[..|us| - 1]) + [us[|us| - 1].x0, us[|us| - 1].x1]
  }

  /** The sum of the first k words, word i with weight Fib(n - i). */
  function Weighted(ws: seq<u32>, n: nat, k: nat): nat
    requires k <= n && k <= |ws|
  {
    if k == 0 then 0 else Weighted(ws, n, k - 1) + Fib(n - (k - 1)) * ws[k - 1]
  }

  /** The weights of two neighbouring sums add up to those of the next. */
  lemma {:induction false} WeightsAdd(ws: seq<u32>, n: nat, k: nat)
    requires k <= n && k <= |ws|
    ensures Weighted(ws, n + 2, k) == Weighted(ws, n + 1, k) + Weighted(ws, n, k)
  {
    if 0 < k {
      WeightsAdd(ws, n, k - 1);
      var i := k - 1;
      assert Fib(n + 2 - i) == Fib(n + 1 - i) + Fib(n - i);
      Distribute(Fib(n + 1 - i), Fib(n - i), ws[i]);
    }
  }

  lemma Distribute(a: nat, b: nat, w: nat)
    ensures (a + b) * w == a * w + b * w
  {
  }

  /** One more word: the sum of the two sums before it and the word. */
  lemma NextWeighted(ws: seq<u32>, n: nat)
    requires n + 2 <= |ws|
    ensures Weighted(ws, n + 2, n + 2) == Weighted(ws, n + 1, n + 1) + Weighted(ws, n, n) + ws[n + 1]
  {
    WeightsAdd(ws, n, n);
    assert Fib(1) == 1 && Fib(2) == 1;
    assert Weighted(ws, n + 1, n + 1) == Weighted(ws, n + 1, n) + Fib(1) * ws[n];
    assert Weighted(ws, n + 2, n + 1) == Weighted(ws, n + 2, n) + Fib(2) * ws[n];
    assert Weighted(ws, n + 2, n + 2) == Weighted(ws, n + 2, n + 1) + Fib(1) * ws[n + 1];
  }

  lemma {:induction false} WeightedFront(ws: seq<u32>, vs: seq<u32>, n: nat, k: nat)
    requires k <= n && k <= |ws| && ws <= vs
    ensures Weighted(ws, n, k) == Weighted(vs, n, k)
  {
    if 0 < k {
      WeightedFront(ws, vs, n, k - 1);
    }
  }

  /** What the starting sums weigh after n words. */
  function Carried(s: Sums, n: nat): nat {
    Fib(n) * s.s0 + Fib(n + 1) * s.s1
  }

  lemma NextCarried(s: Sums, n: nat)
    ensures Carried(s, n + 2) == Carried(s, n + 1) + Carried(s, n)
  {
    Distribute(Fib(n + 1), Fib(n), s.s0);
    Distribute(Fib(n + 2), Fib(n + 1), s.s1);
  }

  /** The unbounded sum after the first n words, carried on from the starting sums. */
  function Exact(s: Sums, ws: seq<u32>, n: nat): nat
    requires n <= |ws|
  {
    Carried(s, n) + Weighted(ws, n, n)
  }

  lemma NextExact(s: Sums, ws: seq<u32>, n: nat)
    requires n + 2 <= |ws|
    ensures Exact(s, ws, n + 2) == Exact(s, ws, n) + ws[n + 1] + Exact(s, ws, n + 1)
  {
    NextCarried(s, n);
    NextWeighted(ws, n);
  }

  lemma AddIsExact(a: nat, x: u32, b: nat)
    ensures Add(a % TWO_32, Add(x, b % TWO_32)) == (a + x + b) % TWO_32
  {
    Reduced(x, b);
    Reduced(x + b, a);
  }

  /** Reducing one summand modulo 2^32 first changes nothing. */
  lemma Reduced(x: nat, b: nat)
    ensures (x + b % TWO_32) % TWO_32 == (x + b) % TWO_32
    ensures (b % TWO_32 + x % TWO_32) % TWO_32 == (x + b) % TWO_32
  {
    var p, q := b / TWO_32, x / TWO_32;
    assert b == TWO_32 * p + b % TWO_32 && x == TWO_32 * q + x % TWO_32;
    Periodic(x + b % TWO_32, p);
    Periodic(b % TWO_32 + x % TWO_32, p + q);
  }

  lemma Periodic(r: nat, k: nat)
    ensures (r + TWO_32 * k) % TWO_32 == r % TWO_32
  {
  }

  /**
    The checksum of any buffer of at least one unit: after 2n words the second sum is the sum weighted by all of them,
    and the first is the one weighted by all but the last, both modulo 2^32.
   */
  lemma {:induction false} ChecksumIsWeighted(s: Sums, us: seq<Unit>)
    requires us != []
    ensures
      var ws, n := Words(us), 2 * |us|;
      Fold(s, us) == Sums(Exact(s, ws, n - 1) % TWO_32, Exact(s, ws, n) % TWO_32)
  {
    var n := |us| - 1;
    var front, ws := us[..n], Words(us);
    LastWords(us);
    if n == 0 {
      FirstUnit(s, ws);
    } else {
      ChecksumIsWeighted(s, front);
      ExactFront(s, Words(front), ws, 2 * n - 1);
      ExactFront(s, Words(front), ws, 2 * n);
      NextUnit(s, ws, 2 * n - 1);
    }
  }

  lemma LastWords(us: seq<Unit>)
    requires us != []
    ensures
      var n, ws := |us| - 1, Words(us);
      Words(us[..n]) <= ws && ws[2 * n] == us[n].x0 && ws[2 * n + 1] == us[n].x1
  {
  }

  lemma ExactFront(s: Sums, ws: seq<u32>, vs: seq<u32>, n: nat)
    requires n <= |ws| && ws <= vs
    ensures Exact(s, ws, n) == Exact(s, vs, n)
  {
    WeightedFront(ws, vs, n, n);
  }

  lemma NextUnit(s: Sums, ws: seq<u32>, n: nat)
    requires n + 3 <= |ws|
    ensures Step(Sums(Exact(s, ws, n) % TWO_32, Exact(s, ws, n + 1) % TWO_32), ws[n + 1], ws[n + 2])
         == Sums(Exact(s, ws, n + 2) % TWO_32, Exact(s, ws, n + 3) % TWO_32)
  {
    NextExact(s, ws, n);
    NextExact(s, ws, n + 1);
    var a, b, c, d := Exact(s, ws, n), Exact(s, ws, n + 1), Exact(s, ws, n + 2), Exact(s, ws, n + 3);
    StepIsExact(Sums(a % TWO_32, b % TWO_32), a, b, ws[n + 1], ws[n + 2], c, d);
  }

  /** A step from sums that are right modulo 2^32 is right modulo 2^32. */
  lemma StepIsExact(s: Sums, a: nat, b: nat, x: u32, y: u32, c: nat, d: nat)
    requires s.s0 == a % TWO_32 && s.s1 == b % TWO_32 && c == a + x + b && d == b + y + c
    ensures Step(s, x, y) == Sums(c % TWO_32, d % TWO_32)
  {
    AddIsExact(a, x, b);
    AddIsExact(b, y, c);
  }

  lemma FirstUnit(s: Sums, ws: seq<u32>)
    requires |ws| == 2
    ensures Step(s, ws[0], ws[1]) == Sums(Exact(s, ws, 1) % TWO_32, Exact(s, ws, 2) % TWO_32)
  {
    var p, q := Exact(s, ws, 1), Exact(s, ws, 2);
    FirstExact(s, ws);
    Small(s.s0);
    Small(s.s1);
    StepIsExact(s, s.s0, s.s1, ws[0], ws[1], p, q);
  }

  lemma Small(x: u32)
    ensures x % TWO_32 == x
  {
  }

  lemma FirstExact(s: Sums, ws: seq<u32>)
    requires |ws| == 2
    ensures
      var a: int, b: int, x: int, y: int := s.s0, s.s1, ws[0], ws[1];
      Exact(s, ws, 1) == a + x + b && Exact(s, ws, 2) == b + y + (a + x + b)
  {
    var a: int, b: int, x: int, y: int := s.s0, s.s1, ws[0], ws[1];
    assert Fib(1) == 1 && Fib(2) == 1 && Fib(3) == 2;
    assert Carried(s, 1) == 1 * a + 1 * b && Carried(s, 2) == 1 * a + 2 * b;
    assert Weighted(ws, 1, 0) == 0 && Weighted(ws, 1, 1) == 1 * x;
    assert Weighted(ws, 2, 0) == 0 && Weighted(ws, 2, 1) == 1 * x && Weighted(ws, 2, 2) == x + 1 * y;
  }
}
