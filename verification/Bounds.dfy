/** The bounds of a region in the order of the function's blocks, and the block that gets its start event. */
module Bounds {
  import opened Collections
  import R = Regions

  type Block = R.Block

  /** The instructions before position `i` of the ordered blocks. */
  function Offset(order: seq<Block>, size: Block -> nat, i: nat): nat
    requires i <= |order|
  {
    if i == 0 then 0 else Offset(order, size, i - 1) + size(order[i - 1])
  }

  /** The first position of `x`. */
  function At(order: seq<Block>, x: Block): (i: nat)
    requires x in order
    ensures i < |order| && order[i] == x && forall j :: 0 <= j < i ==> order[j] != x
  {
    if order[0] == x then 0 else 1 + At(order[1..], x)
  }

  /** `std::find`. */
  method Find(order: seq<Block>, x: Block) returns (i: nat)
    requires x in order
    ensures i == At(order, x)
  {
    i := 0;
    while order[i] != x
      invariant i <= At(order, x)
      decreases |order| - i
    {
      i := i + 1;
    }
  }

  lemma {:induction false} OffsetGrows(order: seq<Block>, size: Block -> nat, i: nat, j: nat)
    requires i <= j <= |order|
    ensures Offset(order, size, i) <= Offset(order, size, j)
    ensures i < j && (forall x :: x in order ==> 0 < size(x)) ==> Offset(order, size, i) < Offset(order, size, j)
    decreases j
  {
    if i < j {
      OffsetGrows(order, size, i, j - 1);
      assert order[j - 1] in order;
    }
  }

  /** The offset of the end of a block. */
  method GetBBOffset(order: seq<Block>, size: Block -> nat, x: Block) returns (n: nat)
    requires x in order
    ensures n == Offset(order, size, At(order, x) + 1)
  {
    n := 0;
    var i := Find(order, x);
    while i != 0
      invariant 0 <= i <= At(order, x) && n + Offset(order, size, i + 1) == Offset(order, size, At(order, x) + 1)
    {
      n := n + size(order[i]);
      i := i - 1;
    }
    n := n + size(order[0]);
  }

  /** The offset of the start of the block before, which the second block of the order takes for its own. */
  method GetPreviousBBOffset(order: seq<Block>, size: Block -> nat, x: Block) returns (n: nat)
    requires x in order
    ensures n == Offset(order, size, if 2 <= At(order, x) then At(order, x) - 1 else 1)
  {
    n := 0;
    var disregard := 0;
    var i := Find(order, x);
    ghost var at := i;
    while i != 0
      invariant 0 <= disregard <= 2 && 0 <= i <= at && (disregard < 2 ==> i + disregard == at && n == 0)
      invariant disregard == 2 ==> i + 2 <= at && n + Offset(order, size, i + 1) == Offset(order, size, at - 1)
    {
      if disregard == 0 || disregard == 1 {
        i := i - 1;
        disregard := disregard + 1;
        continue;
      }
      n := n + size(order[i]);
      i := i - 1;
    }
    n := n + size(order[0]);
  }

  // ---- The bounds of a region ------------------------------------------------------

  function StartOf(order: seq<Block>, size: Block -> nat, x: Block): nat
    requires x in order
  {
    Offset(order, size, At(order, x))
  }

  function EndOf(order: seq<Block>, size: Block -> nat, x: Block): nat
    requires x in order
  {
    Offset(order, size, At(order, x) + 1)
  }

  /** Where a region with first block `begin` starts: there, or, if the block has a begin marker, one block
      before. */
  function Lower(order: seq<Block>, size: Block -> nat, marked: bool, begin: Block): nat
    requires begin in order
  {
    Offset(order, size, if marked && 2 <= At(order, begin) then At(order, begin) - 1 else At(order, begin))
  }

  ghost predicate Earliest(order: seq<Block>, size: Block -> nat, l: seq<Block>, n: nat, x: Block)
    requires n <= |l| && x in order && forall b :: b in l ==> b in order
  {
    x in l && forall i :: 0 <= i < n ==> StartOf(order, size, x) <= StartOf(order, size, l[i])
  }

  ghost predicate Latest(order: seq<Block>, size: Block -> nat, l: seq<Block>, n: nat, e: nat)
    requires n <= |l| && forall b :: b in l ==> b in order
  {
    && (forall i :: 0 <= i < n ==> EndOf(order, size, l[i]) <= e)
    && exists i :: 0 <= i < |l| && e == EndOf(order, size, l[i])
  }

  /** The loop that finds a region's first block and its bounds; `marks(b)` says that a block has a begin
      marker of any group. */
  method RegionBounds(order: seq<Block>, size: Block -> nat, marks: Block -> bool, l: seq<Block>)
    returns (b: nat, e: nat, begin: Block)
    requires l != [] && (forall x :: x in l ==> x in order) && forall x :: x in order ==> 0 < size(x)
    ensures begin in order && Earliest(order, size, l, |l|, begin) && Latest(order, size, l, |l|, e)
    ensures b == Lower(order, size, marks(begin), begin)
  {
    hide StartOf, EndOf;
    e := GetBBOffset(order, size, l[0]);
    EndIsOffset(order, size, l[0]);
    b := e;
    begin := l[0];
    EndAfterStart(order, size, l[0]);
    var i := 0;
    while i < |l|
      invariant 0 <= i <= |l| && begin in order && Earliest(order, size, l, i, begin) && Latest(order, size, l, i, e)
      invariant if i == 0 then begin == l[0] && b == EndOf(order, size, begin) else b == StartOf(order, size, begin)
    {
      var x := l[i];
      var tmp := GetBBOffset(order, size, x);
      EndIsOffset(order, size, x);
      EndAfterStart(order, size, x);
      if tmp > e {
        e := tmp;
      }
      if tmp - size(x) < b {
        b := tmp - size(x);
        begin := x;
      }
      i := i + 1;
    }
    b := LowerBound(order, size, marks, begin, b);
  }

  /** The lower bound moves back one block, if the first block has a begin marker. */
  method LowerBound(order: seq<Block>, size: Block -> nat, marks: Block -> bool, begin: Block, start: nat)
    returns (b: nat)
    requires begin in order && start == StartOf(order, size, begin)
    ensures b == Lower(order, size, marks(begin), begin)
  {
    b := start;
    if marks(begin) {
      var tmp := GetPreviousBBOffset(order, size, begin);
      var n := At(order, begin);
      OffsetGrows(order, size, if 2 <= n then n - 1 else n, if 2 <= n then n else 1);
      if tmp < b {
        b := tmp;
      }
    }
  }

  lemma EndIsOffset(order: seq<Block>, size: Block -> nat, x: Block)
    requires x in order
    ensures EndOf(order, size, x) == Offset(order, size, At(order, x) + 1)
  {
  }

  lemma EndAfterStart(order: seq<Block>, size: Block -> nat, x: Block)
    requires x in order
    ensures EndOf(order, size, x) == StartOf(order, size, x) + size(x)
  {
  }

  lemma StartOrder(order: seq<Block>, size: Block -> nat, x: Block, y: Block)
    requires x in order && y in order && forall z :: z in order ==> 0 < size(z)
    ensures StartOf(order, size, x) <= StartOf(order, size, y) <==> At(order, x) <= At(order, y)
  {
    if At(order, x) <= At(order, y) {
      OffsetGrows(order, size, At(order, x), At(order, y));
    } else {
      OffsetGrows(order, size, At(order, y), At(order, x));
    }
  }
}
