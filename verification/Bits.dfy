/** The find-first-set routine of `kservice.c` and the ready-priority bitmap of `scheduler.c`.

    A machine word is a natural number; or-ing in and masking out a single bit are written by
    recursion on the binary digits. */
module Bits {

  function Pow2(n: nat): nat { if n == 0 then 1 else 2 * Pow2(n - 1) }

  predicate Bit(g: nat, p: nat) { if p == 0 then g % 2 == 1 else Bit(g / 2, p - 1) }

  /** `g | (1 << p)` */
  function SetBit(g: nat, p: nat): (r: nat)
    ensures forall k: nat :: Bit(r, k) <==> k == p || Bit(g, k)
  {
    if p == 0 then (if g % 2 == 0 then g + 1 else g)
    else
      var r := 2 * SetBit(g / 2, p - 1) + g % 2;
      assert forall k: nat :: k > 0 ==> Bit(r, k) == Bit(r / 2, k - 1);
      r
  }

  /** `g & ~(1 << p)` */
  function ClearBit(g: nat, p: nat): (r: nat)
    ensures forall k: nat :: Bit(r, k) <==> k != p && Bit(g, k)
  {
    if p == 0 then (if g % 2 == 1 then g - 1 else g)
    else
      var r := 2 * ClearBit(g / 2, p - 1) + g % 2;
      assert forall k: nat :: k > 0 ==> Bit(r, k) == Bit(r / 2, k - 1);
      r
  }

  lemma {:induction false} SetBitWidth(g: nat, p: nat, w: nat)
    requires g < Pow2(w) && p < w
    ensures SetBit(g, p) < Pow2(w) && ClearBit(g, p) < Pow2(w)
  {
    hide Bit;
    var half := Pow2(w - 1);
    assert Pow2(w) == 2 * half;
    if p > 0 {
      SetBitWidth(g / 2, p - 1, w - 1);
    }
  }

  lemma {:induction false} NoBitsMeansZero(g: nat)
    requires forall k: nat :: !Bit(g, k)
    ensures g == 0
  {
    if g > 0 {
      assert !Bit(g, 0);
      forall k: nat ensures !Bit(g / 2, k) {
        assert Bit(g, k + 1) == Bit(g / 2, k);
      }
      NoBitsMeansZero(g / 2);
    }
  }

  lemma {:induction false} ZeroHasNoBits(k: nat)
    ensures !Bit(0, k)
  {
    if k > 0 { ZeroHasNoBits(k - 1); }
  }

  lemma {:induction false} HighBitsClear(g: nat, w: nat, k: nat)
    requires g < Pow2(w) && w <= k
    ensures !Bit(g, k)
  {
    if w == 0 {
      ZeroHasNoBits(k);
    } else {
      HighBitsClear(g / 2, w - 1, k - 1);
    }
  }

  lemma WordSizes()
    ensures Pow2(8) == 256 && Pow2(32) == 0x1_0000_0000
  {
    assert Pow2(12) == 0x1000;
    assert Pow2(20) == 0x10_0000;
    assert Pow2(28) == 0x1000_0000;
  }

  lemma BitInWord(g: nat, p: nat)
    requires g < 0x1_0000_0000 && Bit(g, p)
    ensures p < 32
  {
    WordSizes();
    if p >= 32 { HighBitsClear(g, 32, p); }
  }

  /** The position of the lowest one bit. */
  function Lowest(v: nat): (p: nat)
    requires v > 0
    ensures Bit(v, p) && forall k: nat :: k < p ==> !Bit(v, k)
  {
    if v % 2 == 1 then 0
    else
      assert forall k: nat :: k > 0 ==> Bit(v, k) == Bit(v / 2, k - 1);
      1 + Lowest(v / 2)
  }

  const LOWEST_BIT_BITMAP: seq<seq<nat>> := [
    [0, 0, 1, 0, 2, 0, 1, 0, 3, 0, 1, 0, 2, 0, 1, 0],
    [4, 0, 1, 0, 2, 0, 1, 0, 3, 0, 1, 0, 2, 0, 1, 0],
    [5, 0, 1, 0, 2, 0, 1, 0, 3, 0, 1, 0, 2, 0, 1, 0],
    [4, 0, 1, 0, 2, 0, 1, 0, 3, 0, 1, 0, 2, 0, 1, 0],
    [6, 0, 1, 0, 2, 0, 1, 0, 3, 0, 1, 0, 2, 0, 1, 0],
    [4, 0, 1, 0, 2, 0, 1, 0, 3, 0, 1, 0, 2, 0, 1, 0],
    [5, 0, 1, 0, 2, 0, 1, 0, 3, 0, 1, 0, 2, 0, 1, 0],
    [4, 0, 1, 0, 2, 0, 1, 0, 3, 0, 1, 0, 2, 0, 1, 0],
    [7, 0, 1, 0, 2, 0, 1, 0, 3, 0, 1, 0, 2, 0, 1, 0],
    [4, 0, 1, 0, 2, 0, 1, 0, 3, 0, 1, 0, 2, 0, 1, 0],
    [5, 0, 1, 0, 2, 0, 1, 0, 3, 0, 1, 0, 2, 0, 1, 0],
    [4, 0, 1, 0, 2, 0, 1, 0, 3, 0, 1, 0, 2, 0, 1, 0],
    [6, 0, 1, 0, 2, 0, 1, 0, 3, 0, 1, 0, 2, 0, 1, 0],
    [4, 0, 1, 0, 2, 0, 1, 0, 3, 0, 1, 0, 2, 0, 1, 0],
    [5, 0, 1, 0, 2, 0, 1, 0, 3, 0, 1, 0, 2, 0, 1, 0],
    [4, 0, 1, 0, 2, 0, 1, 0, 3, 0, 1, 0, 2, 0, 1, 0]]

  /** `__lowest_bit_bitmap[b]`; the table is laid out in rows of sixteen. */
  function Lookup(b: nat): nat
    requires b < 256
  {
    LOWEST_BIT_BITMAP[b / 16][b % 16]
  }

  lemma RowColumn(r: nat, c: nat)
    requires r < 16 && c < 16
    ensures LOWEST_BIT_BITMAP[r][c] == if c > 0 then LOWEST_BIT_BITMAP[0][c] else LOWEST_BIT_BITMAP[r][0]
  {
  }

  lemma FirstRow(c: nat)
    requires 0 < c < 16
    ensures LOWEST_BIT_BITMAP[0][c] == Lowest(c)
  {
    if c % 2 == 0 {
      assert Lowest(c) == 1 + Lowest(c / 2);
      if c / 2 % 2 == 0 { assert Lowest(c / 2) == 1 + Lowest(c / 4); }
    }
  }

  lemma FirstColumn(r: nat)
    requires 0 < r < 16
    ensures LOWEST_BIT_BITMAP[r][0] == 4 + LOWEST_BIT_BITMAP[0][r]
  {
  }

  /** Bits above a non-zero low part do not matter; bits above a zero low part count from there. */
  lemma {:induction false} LowestSplit(hi: nat, lo: nat, w: nat)
    requires lo < Pow2(w) && hi * Pow2(w) + lo > 0
    ensures lo > 0 ==> Lowest(hi * Pow2(w) + lo) == Lowest(lo)
    ensures lo == 0 ==> hi > 0 && Lowest(hi * Pow2(w) + lo) == w + Lowest(hi)
  {
    if w > 0 {
      var v := hi * Pow2(w) + lo;
      assert v == 2 * (hi * Pow2(w - 1)) + lo;
      assert v / 2 == hi * Pow2(w - 1) + lo / 2 && v % 2 == lo % 2;
      if v % 2 == 0 { LowestSplit(hi, lo / 2, w - 1); }
    } else {
      assert hi * Pow2(0) == hi;
    }
  }

  /** The table is right at every byte. */
  lemma TableIsLowest(b: nat)
    requires 0 < b < 256
    ensures Lookup(b) == Lowest(b)
  {
    var r, c := b / 16, b % 16;
    assert Pow2(4) == 16;
    RowColumn(r, c);
    LowestSplit(r, c, 4);
    if c > 0 {
      FirstRow(c);
    } else {
      FirstColumn(r);
      FirstRow(r);
    }
  }

  /** `__rt_ffs` on a 32-bit word: byte by byte through the table. */
  function Ffs(value: nat): nat
    requires value < 0x1_0000_0000
  {
    if value == 0 then 0
    else if value % 256 != 0 then Lookup(value % 256) + 1
    else if value / 0x100 % 256 != 0 then Lookup(value / 0x100 % 256) + 9
    else if value / 0x1_0000 % 256 != 0 then Lookup(value / 0x1_0000 % 256) + 17
    else Lookup(value / 0x100_0000 % 256) + 25
  }

  lemma LowestByByte(v: nat)
    requires v > 0
    ensures v % 256 != 0 ==> Lowest(v) == Lookup(v % 256)
    ensures v % 256 == 0 ==> v / 256 > 0 && Lowest(v) == 8 + Lowest(v / 256)
  {
    assert Pow2(8) == 256;
    LowestSplit(v / 256, v % 256, 8);
    if v % 256 != 0 { TableIsLowest(v % 256); }
  }

  lemma FfsIsLowest(value: nat)
    requires value < 0x1_0000_0000
    ensures if value == 0 then Ffs(value) == 0 else Ffs(value) == Lowest(value) + 1
  {
    if value > 0 {
      var v1, v2, v3 := value / 0x100, value / 0x1_0000, value / 0x100_0000;
      LowestByByte(value);
      if value % 256 == 0 {
        LowestByByte(v1);
        assert v1 / 256 == v2;
        if v1 % 256 == 0 {
          LowestByByte(v2);
          assert v2 / 256 == v3;
          if v2 % 256 == 0 {
            LowestByByte(v3);
          }
        }
      }
    }
  }

  /** The two-level form: a bit of the group word is on exactly when its byte is not zero. */
  ghost predicate TwoLevel(group: nat, table: seq<nat>) {
    && |table| == 32
    && forall n :: 0 <= n < 32 ==> table[n] < 256 && (Bit(group, n) <==> table[n] != 0)
  }

  ghost predicate InTable(table: seq<nat>, k: nat)
    requires |table| == 32 && k < 256
  {
    Bit(table[k / 8], k % 8)
  }

  lemma TwoLevelSet(group: nat, table: seq<nat>, p: nat)
    requires TwoLevel(group, table) && p < 256
    ensures var table' := table[p / 8 := SetBit(table[p / 8], p % 8)];
            && TwoLevel(SetBit(group, p / 8), table')
            && forall k: nat :: k < 256 ==> (InTable(table', k) <==> k == p || InTable(table, k))
  {
    WordSizes();
    SetBitWidth(table[p / 8], p % 8, 8);
    if SetBit(table[p / 8], p % 8) == 0 { ZeroHasNoBits(p % 8); }
  }

  lemma TwoLevelClear(group: nat, table: seq<nat>, p: nat)
    requires TwoLevel(group, table) && p < 256
    ensures var byte := ClearBit(table[p / 8], p % 8);
            var table' := table[p / 8 := byte];
            && TwoLevel(if byte == 0 then ClearBit(group, p / 8) else group, table')
            && forall k: nat :: k < 256 ==> (InTable(table', k) <==> k != p && InTable(table, k))
  {
    WordSizes();
    SetBitWidth(table[p / 8], p % 8, 8);
    if table[p / 8] == 0 {
      forall k: nat ensures !Bit(ClearBit(0, p % 8), k) { ZeroHasNoBits(k); }
      NoBitsMeansZero(ClearBit(0, p % 8));
    }
  }

  lemma TwoLevelFirst(group: nat, table: seq<nat>) returns (p: nat)
    requires TwoLevel(group, table) && 0 < group < 0x1_0000_0000
    ensures var n := Lowest(group);
            n < 32 && table[n] > 0 && p == 8 * n + Lowest(table[n]) && p < 256
    ensures InTable(table, p) && forall k: nat :: k < 256 && InTable(table, k) ==> p <= k
  {
    WordSizes();
    var n := Lowest(group);
    BitInWord(group, n);
    var low := Lowest(table[n]);
    if low >= 8 { HighBitsClear(table[n], 8, low); }
    p := 8 * n + low;
    assert p / 8 == n && p % 8 == low;
    forall k: nat | k < 256 && InTable(table, k) ensures p <= k {
      NotBefore(group, table, k);
      assert k == 8 * (k / 8) + k % 8;
    }
  }

  lemma NotBefore(group: nat, table: seq<nat>, k: nat)
    requires TwoLevel(group, table) && group > 0 && k < 256 && InTable(table, k)
    ensures Lowest(group) < k / 8 || (Lowest(group) == k / 8 && table[k / 8] > 0 && Lowest(table[k / 8]) <= k % 8)
  {
    if table[k / 8] == 0 { ZeroHasNoBits(k % 8); }
    assert Bit(group, k / 8);
  }

  /** The ready bitmap.  With at most 32 levels the group word has one bit per level; the wide
      form has one bit per byte of a table of 32 bytes, each byte holding eight levels. */
  class ReadyBitmap {
    const wide: bool
    var group: nat
    var table: seq<nat>

    /** The levels that are on. */
    ghost var marks: set<nat>

    ghost const levels: nat := if wide then 256 else 32

    ghost predicate Valid()
      reads this
    {
      && group < 0x1_0000_0000
      && |table| == 32
      && (wide ==> TwoLevel(group, table))
      && forall p: nat {:trigger On(p)} :: p in marks <==> On(p)
    }

    /** Is the bit of level `p` on? */
    ghost predicate On(p: nat)
      requires |table| == 32
      reads this
    {
      p < levels && if wide then InTable(table, p) else Bit(group, p)
    }

    constructor (wide: bool)
      ensures Valid() && this.wide == wide && marks == {}
    {
      this.wide := wide;
      group := 0;
      table := seq(32, i => 0);
      marks := {};
      new;
      forall p: nat ensures !Bit(0, p) { ZeroHasNoBits(p); }
    }

    method Mark(p: nat)
      requires Valid() && p < levels
      modifies this
      ensures Valid() && marks == old(marks) + {p}
    {
      WordSizes();
      assert forall k: nat :: k in marks <==> On(k);
      if wide {
        TwoLevelSet(group, table, p);
        SetBitWidth(group, p / 8, 32);
        table := table[p / 8 := SetBit(table[p / 8], p % 8)];
        group := SetBit(group, p / 8);
      } else {
        SetBitWidth(group, p, 32);
        group := SetBit(group, p);
      }
      marks := marks + {p};
    }

    method Unmark(p: nat)
      requires Valid() && p < levels
      modifies this
      ensures Valid() && marks == old(marks) - {p}
    {
      WordSizes();
      assert forall k: nat :: k in marks <==> On(k);
      if wide {
        TwoLevelClear(group, table, p);
        SetBitWidth(group, p / 8, 32);
        table := table[p / 8 := ClearBit(table[p / 8], p % 8)];
        if table[p / 8] == 0 {
          group := ClearBit(group, p / 8);
        }
      } else {
        SetBitWidth(group, p, 32);
        group := ClearBit(group, p);
      }
      marks := marks - {p};
    }

    /** The lookup of `_get_highest_priority_thread`: the marked level with the smallest number. */
    method First() returns (p: nat)
      requires Valid() && group != 0
      ensures p in marks && forall k :: k in marks ==> p <= k
    {
      FfsIsLowest(group);
      if wide {
        ghost var first := TwoLevelFirst(group, table);
        var number := Ffs(group) - 1;
        FfsIsLowest(table[number]);
        p := number * 8 + Ffs(table[number]) - 1;
        assert p == first;
      } else {
        p := Ffs(group) - 1;
        BitInWord(group, p);
      }
      assert On(p);
      forall k | k in marks ensures p <= k { assert On(k); }
    }

    /** The group word is zero exactly when no level is marked. */
    lemma EmptyIffZero()
      requires Valid()
      ensures group == 0 <==> marks == {}
    {
      assert forall k: nat :: k in marks ==> On(k);
      if group == 0 {
        forall p: nat ensures !On(p) {
          ZeroHasNoBits(p);
          ZeroHasNoBits(p / 8);
          ZeroHasNoBits(p % 8);
        }
      } else if wide {
        var first := TwoLevelFirst(group, table);
        assert On(first);
      } else {
        BitInWord(group, Lowest(group));
        assert On(Lowest(group));
      }
    }
  }
}
