/**
  Leafset bitsets (crates/mweb/src/mweb_sync.rs, `diff_leafsets`, `leafset_has_leaf` and
  `date_leaf_index`): most significant bit first, and absent bytes count as zero.
 */
module Leafsets {

  type Byte = bv8

  /** `1u8 << (7 - bit)` */
  function Mask(bit: nat): Byte
    requires bit < 8
  {
    match bit
    case 0 => 0x80
    case 1 => 0x40
    case 2 => 0x20
    case 3 => 0x10
    case 4 => 0x08
    case 5 => 0x04
    case 6 => 0x02
    case _ => 0x01
  }

  /** The most significant bit comes first. */
  lemma MaskHalves(bit: nat)
    requires bit < 8
    ensures Mask(0) == 0x80 && (bit > 0 ==> Mask(bit - 1) as int == 2 * (Mask(bit) as int))
  {
  }

  predicate BitOf(b: Byte, bit: nat)
    requires bit < 8
  {
    b & Mask(bit) != 0
  }

  function ByteAt(leafset: seq<Byte>, i: nat): Byte {
    if i < |leafset| then leafset[i] else 0
  }

  /** `leafset_has_leaf` */
  predicate HasLeaf(leafset: seq<Byte>, leaf: nat) {
    leaf / 8 < |leafset| && BitOf(leafset[leaf / 8], leaf % 8)
  }

  lemma HasLeafIsBit(leafset: seq<Byte>, i: nat, bit: nat)
    requires bit < 8
    ensures HasLeaf(leafset, 8 * i + bit) <==> BitOf(ByteAt(leafset, i), bit)
  {
    assert (8 * i + bit) / 8 == i && (8 * i + bit) % 8 == bit;
  }

  lemma ChangedBit(o: Byte, n: Byte, bit: nat)
    requires bit < 8
    ensures BitOf(o ^ n, bit) <==> BitOf(o, bit) != BitOf(n, bit)
  {
    var m := Mask(bit);
    MaskedXor(o, n, m);
    MaskedIsAllOrNothing(o, bit);
    MaskedIsAllOrNothing(n, bit);
    XorOfEqual(m);
  }

  lemma MaskedXor(o: Byte, n: Byte, m: Byte)
    ensures (o ^ n) & m == (o & m) ^ (n & m)
  {
  }

  lemma MaskedIsAllOrNothing(b: Byte, bit: nat)
    requires bit < 8
    ensures b & Mask(bit) == 0 || b & Mask(bit) == Mask(bit)
    ensures Mask(bit) != 0
  {
    match bit {
      case 0 => assert b & 0x80 == 0 || b & 0x80 == 0x80;
      case 1 => assert b & 0x40 == 0 || b & 0x40 == 0x40;
      case 2 => assert b & 0x20 == 0 || b & 0x20 == 0x20;
      case 3 => assert b & 0x10 == 0 || b & 0x10 == 0x10;
      case 4 => assert b & 0x08 == 0 || b & 0x08 == 0x08;
      case 5 => assert b & 0x04 == 0 || b & 0x04 == 0x04;
      case 6 => assert b & 0x02 == 0 || b & 0x02 == 0x02;
      case _ => assert b & 0x01 == 0 || b & 0x01 == 0x01;
    }
  }

  lemma XorOfEqual(m: Byte)
    ensures m ^ m == 0 && m ^ 0 == m && 0 ^ m == m && (0 as Byte) ^ 0 == 0
  {
  }

  lemma SameByte(o: Byte, n: Byte)
    ensures o ^ n == 0 <==> o == n
  {
  }

  predicate Ascending(s: seq<nat>) {
    forall i, j :: 0 <= i < j < |s| ==> s[i] < s[j]
  }

  /** `d` lists, in ascending order, the leaves below `bound` that are in `b` but not in `a`. */
  ghost predicate ListsGained(d: seq<nat>, a: seq<Byte>, b: seq<Byte>, bound: nat) {
    && Ascending(d)
    && forall x: nat :: x in d <==> x < bound && HasLeaf(b, x) && !HasLeaf(a, x)
  }

  lemma ListsStep(d: seq<nat>, a: seq<Byte>, b: seq<Byte>, bound: nat)
    requires ListsGained(d, a, b, bound)
    ensures ListsGained(if HasLeaf(b, bound) && !HasLeaf(a, bound) then d + [bound] else d, a, b, bound + 1)
  {
    hide HasLeaf;
    forall i | 0 <= i < |d| ensures d[i] < bound {
      var x: nat := d[i];
      assert x in d;
    }
    assert forall x: nat :: x in d + [bound] <==> x in d || x == bound;
  }

  lemma ListsSkip(d: seq<nat>, a: seq<Byte>, b: seq<Byte>, bound: nat, n: nat)
    requires ListsGained(d, a, b, bound)
    requires forall x: nat :: bound <= x < bound + n ==> HasLeaf(a, x) == HasLeaf(b, x)
    ensures ListsGained(d, a, b, bound + n)
  {
    hide HasLeaf;
  }

  lemma SameByteSameLeaves(a: seq<Byte>, b: seq<Byte>, i: nat)
    requires ByteAt(a, i) == ByteAt(b, i)
    ensures forall x: nat :: 8 * i <= x < 8 * i + 8 ==> HasLeaf(a, x) == HasLeaf(b, x)
  {
    forall x: nat | 8 * i <= x < 8 * i + 8 ensures HasLeaf(a, x) == HasLeaf(b, x) {
      HasLeafIsBit(a, i, x - 8 * i);
      HasLeafIsBit(b, i, x - 8 * i);
    }
  }

  lemma NoLeafBeyond(leafset: seq<Byte>, x: nat)
    requires x >= 8 * |leafset|
    ensures !HasLeaf(leafset, x)
  {
  }

  datatype LeafsetDiff = LeafsetDiff(added: seq<nat>, removed: seq<nat>)

  /** The exact difference of two leafsets. */
  ghost predicate IsDiff(d: LeafsetDiff, before: seq<Byte>, after: seq<Byte>) {
    && Ascending(d.added) && Ascending(d.removed)
    && (forall x: nat :: x in d.added <==> HasLeaf(after, x) && !HasLeaf(before, x))
    && (forall x: nat :: x in d.removed <==> HasLeaf(before, x) && !HasLeaf(after, x))
  }

  /** `diff_leafsets` */
  method DiffLeafsets(before: seq<Byte>, after: seq<Byte>) returns (d: LeafsetDiff)
    ensures IsDiff(d, before, after)
  {
    hide HasLeaf, BitOf, Ascending;
    var maxLen := if |before| > |after| then |before| else |after|;
    var added: seq<nat>, removed: seq<nat> := [], [];
    ListsNothing(before, after);
    for i := 0 to maxLen
      invariant ListsGained(added, before, after, 8 * i) && ListsGained(removed, after, before, 8 * i)
    {
      var o, n := ByteAt(before, i), ByteAt(after, i);
      var changed := o ^ n;
      SameByte(o, n);
      if changed == 0 {
        SameByteSameLeaves(before, after, i);
        ListsSkip(added, before, after, 8 * i, 8);
        ListsSkip(removed, after, before, 8 * i, 8);
      } else {
        for bit := 0 to 8
          invariant ListsGained(added, before, after, 8 * i + bit) && ListsGained(removed, after, before, 8 * i + bit)
        {
          HasLeafIsBit(before, i, bit);
          HasLeafIsBit(after, i, bit);
          ChangedBit(o, n, bit);
          ListsStep(added, before, after, 8 * i + bit);
          ListsStep(removed, after, before, 8 * i + bit);
          if BitOf(changed, bit) {
            if BitOf(n, bit) {
              added := added + [8 * i + bit];
            } else {
              removed := removed + [8 * i + bit];
            }
          }
        }
      }
    }
    ListsAll(added, before, after, maxLen);
    ListsAll(removed, after, before, maxLen);
    return LeafsetDiff(added, removed);
  }

  lemma ListsNothing(a: seq<Byte>, b: seq<Byte>)
    ensures ListsGained([], a, b, 0) && ListsGained([], b, a, 0)
  {
  }

  lemma ListsAll(d: seq<nat>, a: seq<Byte>, b: seq<Byte>, len: nat)
    requires ListsGained(d, a, b, 8 * len) && |b| <= len
    ensures Ascending(d) && forall x: nat :: x in d <==> HasLeaf(b, x) && !HasLeaf(a, x)
  {
    forall x: nat | x >= 8 * len ensures !HasLeaf(b, x) { NoLeafBeyond(b, x); }
  }

  /** Two ascending lists of the same leaves are the same, so a difference has one possible value. */
  lemma {:induction false} AscendingUnique(a: seq<nat>, b: seq<nat>)
    requires Ascending(a) && Ascending(b) && forall x :: x in a <==> x in b
    ensures a == b
    decreases |a|
  {
    assert a != [] ==> a[0] in b;
    assert b != [] ==> b[0] in a;
    if a != [] {
      assert a[0] == b[0];
      assert a == [a[0]] + a[1..] && b == [b[0]] + b[1..];
      forall x ensures x in a[1..] <==> x in b[1..] {
        if x in a[1..] { assert x in a && a[0] < x && x != b[0]; }
        if x in b[1..] { assert x in b && b[0] < x && x != a[0]; }
      }
      AscendingUnique(a[1..], b[1..]);
    }
  }

  /** Applying a difference to the old leaves gives the new ones. */
  lemma DiffRebuilds(d: LeafsetDiff, before: seq<Byte>, after: seq<Byte>, x: nat)
    requires IsDiff(d, before, after)
    ensures HasLeaf(after, x) <==> (HasLeaf(before, x) && x !in d.removed) || x in d.added
  {
  }

  /** `h` is the first sampled height with more leaves than `leaf`, or else the tip. */
  ghost predicate Dates(heightMap: map<nat, nat>, leaf: nat, tip: nat, h: nat) {
    if exists k :: k in heightMap && heightMap[k] > leaf then
      && h in heightMap && heightMap[h] > leaf
      && forall k :: k in heightMap && heightMap[k] > leaf ==> h <= k
    else h == tip
  }

  /** `date_leaf_index` */
  method DateLeafIndex(heightMap: map<nat, nat>, leaf: nat, tip: nat) returns (h: nat)
    ensures Dates(heightMap, leaf, tip, h)
  {
    var rest := heightMap.Keys;
    while rest != {}
      invariant rest <= heightMap.Keys
      invariant forall k :: k in heightMap && k !in rest ==> heightMap[k] <= leaf
      invariant forall k, j :: k in heightMap && k !in rest && j in rest ==> k < j
    {
      var k := Smallest(rest);
      if heightMap[k] > leaf {
        return k;
      }
      rest := rest - {k};
    }
    return tip;
  }

  method Smallest(s: set<nat>) returns (m: nat)
    requires s != {}
    ensures m in s && forall x :: x in s ==> m <= x
  {
    m :| m in s;
    var rest := s - {m};
    while rest != {}
      invariant rest < s && m in s && m !in rest
      invariant forall x :: x in s && x !in rest ==> m <= x
    {
      var x :| x in rest;
      if x < m {
        m := x;
      }
      rest := rest - {x};
    }
  }
}
