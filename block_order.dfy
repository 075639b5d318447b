/** The trial-order generator of the diameter match-to-sample experiment.
 *
 *  A block has 14 trials: each of the seven delays appears once with the
 *  correct stimulus on the left (side -1) and once on the right (side +1).
 *  The order of a block is found by rejection sampling: the fixed table of
 *  (delay, side) rows is shuffled in place and scanned, and shuffled again
 *  until the scan finds no three consecutive rows with the same side among
 *  the windows it looks at. The scan visits the windows ending at positions
 *  2 .. n-2, so the window ending at the last position, n-1, is never
 *  examined.
 */
module BlockOrder {

  /** One row of the condition table: the delay and the side of the correct
   *  stimulus (-1 for left, +1 for right). */
  datatype Row = Row(delay: int, side: int)

  const Left: int := -1
  const Right: int := 1

  /** The delays of the design. */
  const Delays: seq<int> := [0, 2, 4, 6, 8, 16, 32]

  /** The condition table before any shuffle: row i holds delay Delays[i / 2],
   *  on the left for even i and on the right for odd i. */
  function Conditions(): (s: seq<Row>)
    ensures |s| == 14
  {
    seq(2 * |Delays|, TableRow)
  }

  function TableRow(i: int): Row
    requires 0 <= i < 2 * |Delays|
  {
    Row(Delays[i / 2], if i % 2 == 0 then Left else Right)
  }

  /** The three rows ending at position i all have the same side (the chained
   *  comparison a == b == c, that is a == b && b == c). */
  predicate SameSide3(s: seq<Row>, i: int)
    requires 2 <= i < |s|
  {
    s[i].side == s[i - 1].side && s[i - 1].side == s[i - 2].side
  }

  /** The acceptance condition of the rejection loop: no window among those
   *  ending at positions 2 .. |s|-2 has three equal sides. */
  predicate NoTripleRun(s: seq<Row>) {
    forall i :: 2 <= i < |s| - 1 ==> !SameSide3(s, i)
  }

  /** No window at all, the last one included, has three equal sides. */
  predicate NoRunOfThree(s: seq<Row>) {
    forall i :: 2 <= i < |s| ==> !SameSide3(s, i)
  }

  /** What organize_block returns: a rearrangement of the condition table
   *  that passes the scan. */
  predicate IsAcceptedOrder(s: seq<Row>) {
    multiset(s) == multiset(Conditions()) && NoTripleRun(s)
  }

  /** numpy's shuffle: a Fisher-Yates pass that swaps position i with a
   *  position j <= i, for i from the end down to 1. Which j is taken is left
   *  open, so the result is any rearrangement the pass can produce. */
  method Shuffle(a: array<Row>)
    modifies a
    ensures multiset(a[..]) == old(multiset(a[..]))
  {
    var i := a.Length;
    while i > 1
      invariant 0 <= i <= a.Length
      invariant multiset(a[..]) == old(multiset(a[..]))
    {
      i := i - 1;
      var j :| 0 <= j <= i;
      a[i], a[j] := a[j], a[i];
    }
  }

  /** One scan of the rejection loop. The flag starts true and is cleared by
   *  every window (ending at 2 .. n-2) whose three sides are equal. */
  method ScanSides(a: array<Row>) returns (accepted: bool)
    ensures accepted == NoTripleRun(a[..])
  {
    accepted := true;
    var i := 2;
    while i < a.Length - 1
      invariant 2 <= i <= if a.Length < 3 then 2 else a.Length - 1
      invariant accepted == forall k :: 2 <= k < i ==> !SameSide3(a[..], k)
    {
      assert SameSide3(a[..], i) <==> a[i].side == a[i - 1].side && a[i - 1].side == a[i - 2].side;
      if a[i].side == a[i - 1].side && a[i - 1].side == a[i - 2].side {
        accepted := false;
      }
      i := i + 1;
    }
  }

  /** organize_block. The source shuffles until the scan accepts, without
   *  bound; here at most maxShuffles shuffles are made, and `accepted` says
   *  whether the last one passed the scan. Whatever comes back is a
   *  rearrangement of the condition table, and an accepted order passes the
   *  scan. */
  method OrganizeBlock(maxShuffles: nat) returns (order: seq<Row>, accepted: bool, shuffles: nat)
    requires maxShuffles > 0
    ensures |order| == 14 && multiset(order) == multiset(Conditions())
    ensures accepted == NoTripleRun(order)
    ensures 1 <= shuffles <= maxShuffles
    ensures !accepted ==> shuffles == maxShuffles
  {
    var a := new Row[|Conditions()|](k requires 0 <= k < |Conditions()| => Conditions()[k]);
    assert a[..] == Conditions();
    accepted := false;
    shuffles := 0;
    while !accepted && shuffles < maxShuffles
      invariant shuffles <= maxShuffles
      invariant multiset(a[..]) == multiset(Conditions())
      invariant shuffles > 0 ==> accepted == NoTripleRun(a[..])
      invariant shuffles == 0 ==> !accepted
    {
      Shuffle(a);
      accepted := ScanSides(a);
      shuffles := shuffles + 1;
    }
    order := a[..];
  }

  /** Number of rows of s whose side is `side`. */
  function SideCount(s: seq<Row>, side: int): (n: nat)
    ensures n <= |s|
  {
    if s == [] then 0 else (if s[0].side == side then 1 else 0) + SideCount(s[1..], side)
  }

  lemma {:induction false} SideCountAppend(s: seq<Row>, t: seq<Row>, side: int)
    ensures SideCount(s + t, side) == SideCount(s, side) + SideCount(t, side)
  {
    if s == [] {
      assert s + t == t;
    } else {
      assert (s + t)[1..] == s[1..] + t;
      SideCountAppend(s[1..], t, side);
    }
  }

  /** Removing the row at position k from t removes one copy of it from
   *  the multiset and one from the count of its side. */
  lemma RemoveAt(t: seq<Row>, k: int, side: int)
    requires 0 <= k < |t|
    ensures multiset(t[..k] + t[k + 1..]) == multiset(t) - multiset{t[k]}
    ensures SideCount(t, side)
            == SideCount(t[..k] + t[k + 1..], side) + (if t[k].side == side then 1 else 0)
  {
    assert t == t[..k] + ([t[k]] + t[k + 1..]);
    SideCountAppend(t[..k], [t[k]] + t[k + 1..], side);
    SideCountAppend([t[k]], t[k + 1..], side);
    SideCountAppend(t[..k], t[k + 1..], side);
  }

  /** The number of rows on a side depends only on the multiset of rows. */
  lemma {:induction false} SideCountPermutation(s: seq<Row>, t: seq<Row>, side: int)
    requires multiset(s) == multiset(t)
    ensures SideCount(s, side) == SideCount(t, side)
    decreases |s|
  {
    if s == [] {
      assert |t| == |multiset(t)| == 0;
    } else {
      assert s[0] in multiset(t);
      var k :| 0 <= k < |t| && t[k] == s[0];
      RemoveAt(s, 0, side);
      RemoveAt(t, k, side);
      assert s[..0] + s[1..] == s[1..];
      SideCountPermutation(s[1..], t[..k] + t[k + 1..], side);
    }
  }

  /** A row occurring at exactly one position occurs once in the multiset. */
  lemma OccursOnce(s: seq<Row>, p: int)
    requires 0 <= p < |s|
    requires forall i :: 0 <= i < |s| && i != p ==> s[i] != s[p]
    ensures multiset(s)[s[p]] == 1
  {
    var x := s[p];
    assert s == s[..p] + [x] + s[p + 1..];
    assert x !in s[..p];
    assert x !in s[p + 1..];
  }

  /** The table written out row by row. */
  lemma ConditionsListed()
    ensures Conditions()
            == [Row(0, Left), Row(0, Right), Row(2, Left), Row(2, Right), Row(4, Left), Row(4, Right),
                Row(6, Left), Row(6, Right), Row(8, Left), Row(8, Right), Row(16, Left), Row(16, Right),
                Row(32, Left), Row(32, Right)]
  {
  }

  /** In a table whose rows alternate left, right, half of the rows are on
   *  each side. */
  lemma {:induction false} AlternatingSideCount(s: seq<Row>)
    requires |s| % 2 == 0
    requires forall i :: 0 <= i < |s| ==> s[i].side == if i % 2 == 0 then Left else Right
    ensures SideCount(s, Left) == |s| / 2 && SideCount(s, Right) == |s| / 2
  {
    if s != [] {
      var rest := s[2..];
      assert s[1..][1..] == rest;
      forall i | 0 <= i < |rest|
        ensures rest[i].side == if i % 2 == 0 then Left else Right
      {
        assert rest[i] == s[i + 2];
      }
      AlternatingSideCount(rest);
    }
  }

  /** Every (delay, side) of the design occurs once in the condition table. */
  lemma ConditionsOnce(d: int, side: int)
    requires d in Delays && (side == Left || side == Right)
    ensures multiset(Conditions())[Row(d, side)] == 1
  {
    var k :| 0 <= k < |Delays| && Delays[k] == d;
    var p := 2 * k + if side == Left then 0 else 1;
    forall i | 0 <= i < |Conditions()| && i != p
      ensures Conditions()[i] != Conditions()[p]
    {
      if i / 2 != k {
        assert Delays[i / 2] != Delays[k];
      }
    }
    OccursOnce(Conditions(), p);
  }

  /** The condition table is balanced: every (delay, side) of the design
   *  occurs once, nothing else occurs, and each side has seven rows. */
  lemma ConditionsBalanced()
    ensures |Conditions()| == 14
    ensures forall d, side :: d in Delays && (side == Left || side == Right)
              ==> multiset(Conditions())[Row(d, side)] == 1
    ensures forall r :: r in Conditions() ==> r.delay in Delays && (r.side == Left || r.side == Right)
    ensures SideCount(Conditions(), Left) == 7 && SideCount(Conditions(), Right) == 7
  {
    forall d, side | d in Delays && (side == Left || side == Right)
      ensures multiset(Conditions())[Row(d, side)] == 1
    {
      ConditionsOnce(d, side);
    }
    forall r | r in Conditions()
      ensures r.delay in Delays && (r.side == Left || r.side == Right)
    {
      var i :| 0 <= i < |Conditions()| && Conditions()[i] == r;
    }
    AlternatingSideCount(Conditions());
  }

  /** Every order organize_block can return keeps the balance of the table:
   *  14 rows, each (delay, side) of the design exactly once, no other row,
   *  and seven rows on each side. */
  lemma {:induction false} AcceptedOrderBalanced(order: seq<Row>)
    requires multiset(order) == multiset(Conditions())
    ensures |order| == 14
    ensures forall d, side :: d in Delays && (side == Left || side == Right)
              ==> multiset(order)[Row(d, side)] == 1
    ensures forall r :: r in order ==> r.delay in Delays && (r.side == Left || r.side == Right)
    ensures SideCount(order, Left) == 7 && SideCount(order, Right) == 7
  {
    ConditionsBalanced();
    assert |order| == |multiset(order)| == |multiset(Conditions())| == 14;
    forall r | r in order
      ensures r.delay in Delays && (r.side == Left || r.side == Right)
    {
      assert r in multiset(order);
      assert r in Conditions();
    }
    SideCountPermutation(order, Conditions(), Left);
    SideCountPermutation(order, Conditions(), Right);
  }

  /** The scan reads the side column only: two orders with the same sides
   *  position by position are accepted or rejected together. */
  lemma DelaysIrrelevant(s: seq<Row>, t: seq<Row>)
    requires |s| == |t|
    requires forall i :: 0 <= i < |s| ==> s[i].side == t[i].side
    ensures NoTripleRun(s) == NoTripleRun(t)
  {
    forall i | 2 <= i < |s| - 1
      ensures SameSide3(s, i) == SameSide3(t, i)
    {
    }
  }

  /** The scan is exactly "no run of three" on all rows but the last: the
   *  last row takes part in no examined window. */
  lemma LastRowExempt(s: seq<Row>)
    requires |s| > 0
    ensures NoTripleRun(s) <==> NoRunOfThree(s[..|s| - 1])
  {
    var p := s[..|s| - 1];
    forall i | 2 <= i < |p|
      ensures SameSide3(p, i) == SameSide3(s, i)
    {
    }
  }

  /** Exchanging two rows keeps the multiset of rows. */
  lemma SwapPermutes(s: seq<Row>, i: int, j: int)
    requires 0 <= i < |s| && 0 <= j < |s|
    ensures multiset(s[i := s[j]][j := s[i]]) == multiset(s)
  {
  }

  /** An order the scan accepts although its last three rows share a side:
   *  the run-length constraint does not hold of the window ending at the
   *  last position. */
  lemma LastWindowUnchecked()
    ensures exists s :: IsAcceptedOrder(s) && |s| == 14 && SameSide3(s, 13)
  {
    var t: seq<Row> := Conditions()[1 := Conditions()[2]][2 := Conditions()[1]];
    SwapPermutes(Conditions(), 1, 2);
    var s: seq<Row> := t[3 := t[12]][12 := t[3]];
    SwapPermutes(t, 3, 12);
    // the sides of s: L L R L L R L R L R L R R R
    forall i | 0 <= i < |s|
      ensures s[i].side == if i in {0, 1, 3, 4, 6, 8, 10} then Left else Right
    {
    }
    assert NoTripleRun(s);
    assert SameSide3(s, 13);
  }
}
