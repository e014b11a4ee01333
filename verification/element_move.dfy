/** The element phase of the redistribution. Every element carries a
    destination rank (the partitioner's answer); the elements are counted
    per destination, given contiguous new ids rank block by rank block,
    and each element's three vertex ids travel as one record of size 3 to
    position 3 * newid of the global element vector. All ranks are seen at
    once: `dest` and `rows` list the elements rank after rank, in the order
    each rank holds them. */
module ElementMove {
  import opened Seqs

  /** Number of entries of s below d: the elements headed for ranks lower than d. */
  function CountBelow(s: seq<int>, d: int): (c: nat)
    ensures c <= |s|
  {
    if |s| == 0 then 0
    else CountBelow(s[..|s| - 1], d) + (if s[|s| - 1] < d then 1 else 0)
  }

  lemma {:induction false} CountBelowNext(s: seq<int>, d: int)
    ensures CountBelow(s, d + 1) == CountBelow(s, d) + Count(s, d)
  {
    if |s| > 0 {
      CountBelowNext(s[..|s| - 1], d);
    }
  }

  lemma {:induction false} CountBelowMono(s: seq<int>, a: int, b: int)
    requires a <= b
    ensures CountBelow(s, a) <= CountBelow(s, b)
  {
    if |s| > 0 {
      CountBelowMono(s[..|s| - 1], a, b);
    }
  }

  lemma {:induction false} CountBelowAll(s: seq<int>, size: nat)
    requires InRange(s, size)
    ensures CountBelow(s, 0) == 0
    ensures CountBelow(s, size) == |s|
  {
    if |s| > 0 {
      var n := |s| - 1;
      assert InRange(s[..n], size) by {
        forall i | 0 <= i < n ensures 0 <= s[..n][i] < size {
          assert s[..n][i] == s[i];
        }
      }
      CountBelowAll(s[..n], size);
    }
  }

  /** Every record in the list has the three vertex ids of a triangle. */
  ghost predicate Triples(rows: seq<seq<int>>)
  {
    forall g :: 0 <= g < |rows| ==> |rows[g]| == 3
  }

  /** What the partition counter reports: counts[r] is the number of
      elements, over all ranks, whose destination is r. */
  function PartitionCount(dest: seq<int>, size: nat): (counts: seq<int>)
    ensures |counts| == size
  {
    seq(size, r => Count(dest, r))
  }

  /** First new id of rank r's block: the sum of the counts of the ranks before it. */
  function Start(dest: seq<int>, size: nat, r: nat): int
    requires r <= size
  {
    Sum(PartitionCount(dest, size)[..r])
  }

  /** The ranks before r receive exactly the elements headed below r. */
  lemma {:induction false} StartIsBelow(dest: seq<int>, size: nat, r: nat)
    requires InRange(dest, size) && r <= size
    ensures Start(dest, size, r) == CountBelow(dest, r)
  {
    if r == 0 {
      CountBelowAll(dest, size);
    } else {
      StartIsBelow(dest, size, r - 1);
      SumStep(PartitionCount(dest, size), r - 1);
      CountBelowNext(dest, r - 1);
    }
  }

  /** The counts lose and duplicate nothing: they add up to the number of
      elements, and the blocks of the ranks follow one another in rank order. */
  lemma CountsTotal(dest: seq<int>, size: nat)
    requires InRange(dest, size)
    ensures forall r :: 0 <= r < size ==> PartitionCount(dest, size)[r] >= 0
    ensures Sum(PartitionCount(dest, size)) == |dest|
  {
    StartIsBelow(dest, size, size);
    CountBelowAll(dest, size);
    assert PartitionCount(dest, size)[..size] == PartitionCount(dest, size);
  }

  /** Rank r's block ends where rank r + 1's begins, and blocks of higher
      ranks start no earlier. */
  lemma StartStep(dest: seq<int>, size: nat, a: nat, b: nat)
    requires InRange(dest, size) && a <= b <= size
    ensures 0 <= Start(dest, size, a) <= Start(dest, size, b) <= |dest|
    ensures a < size ==> Start(dest, size, a + 1) == Start(dest, size, a) + Count(dest, a)
  {
    StartIsBelow(dest, size, a);
    StartIsBelow(dest, size, b);
    CountBelowMono(dest, a, b);
    if a < size {
      StartIsBelow(dest, size, a + 1);
      CountBelowNext(dest, a);
    }
  }

  /** The contiguous renumbering: an element's new id is the start of its
      destination's block plus the number of elements before it (in the
      global rank-major order) that go to the same destination. */
  function PartitionNumbering(dest: seq<int>, size: nat): (num: seq<int>)
    requires InRange(dest, size)
    ensures |num| == |dest|
  {
    seq(|dest|, g requires 0 <= g < |dest| => Start(dest, size, dest[g]) + Count(dest[..g], dest[g]))
  }

  /** An element's new id lies inside its destination rank's block. */
  lemma NumberingInBlock(dest: seq<int>, size: nat, g: nat)
    requires InRange(dest, size) && g < |dest|
    ensures Start(dest, size, dest[g]) <= PartitionNumbering(dest, size)[g] < Start(dest, size, dest[g] + 1)
  {
    var d := dest[g];
    StartStep(dest, size, d, d + 1);
    CountStep(dest, g, d);
    CountPrefixMono(dest, g + 1, |dest|, d);
    assert dest[..|dest|] == dest;
  }

  /** Elements sent to the same rank keep their relative order. */
  lemma NumberingStable(dest: seq<int>, size: nat, g: nat, h: nat)
    requires InRange(dest, size) && g < h < |dest| && dest[g] == dest[h]
    ensures PartitionNumbering(dest, size)[g] < PartitionNumbering(dest, size)[h]
  {
    CountStep(dest, g, dest[g]);
    CountPrefixMono(dest, g + 1, h, dest[g]);
  }

  /** Two different elements never share a new id. */
  lemma NumberingInjective(dest: seq<int>, size: nat, g: nat, h: nat)
    requires InRange(dest, size) && g < |dest| && h < |dest| && g != h
    ensures PartitionNumbering(dest, size)[g] != PartitionNumbering(dest, size)[h]
  {
    if dest[g] == dest[h] {
      if g < h {
        NumberingStable(dest, size, g, h);
      } else {
        NumberingStable(dest, size, h, g);
      }
    } else {
      NumberingInBlock(dest, size, g);
      NumberingInBlock(dest, size, h);
      if dest[g] < dest[h] {
        StartStep(dest, size, dest[g] + 1, dest[h]);
      } else {
        StartStep(dest, size, dest[h] + 1, dest[g]);
      }
    }
  }

  /** The new ids are a permutation of [0, n_ele). */
  lemma NumberingBijective(dest: seq<int>, size: nat)
    requires InRange(dest, size)
    ensures IsPermutation(PartitionNumbering(dest, size), |dest|)
  {
    var num := PartitionNumbering(dest, size);
    forall g | 0 <= g < |dest|
      ensures 0 <= num[g] < |dest|
    {
      NumberingInBlock(dest, size, g);
      StartStep(dest, size, dest[g] + 1, size);
      StartStep(dest, size, 0, dest[g]);
    }
    forall g, h | 0 <= g < h < |dest|
      ensures num[g] != num[h]
    {
      NumberingInjective(dest, size, g, h);
    }
  }

  /** The element holding new id v: it is headed for the rank whose block
      contains v, and exactly v - Start(r) elements for that rank precede it. */
  lemma NumberingOwner(dest: seq<int>, size: nat, r: nat, v: int) returns (g: nat)
    requires InRange(dest, size) && r < size
    requires Start(dest, size, r) <= v < Start(dest, size, r + 1)
    ensures g < |dest| && PartitionNumbering(dest, size)[g] == v
    ensures dest[g] == r && Count(dest[..g], r) == v - Start(dest, size, r)
  {
    var num := PartitionNumbering(dest, size);
    StartStep(dest, size, r + 1, size);
    StartStep(dest, size, 0, r);
    NumberingBijective(dest, size);
    PermutationCovers(num, |dest|, v);
    g :| 0 <= g < |num| && num[g] == v;
    NumberingInBlock(dest, size, g);
    var d := dest[g];
    if d < r {
      StartStep(dest, size, d + 1, r);
    } else if d > r {
      StartStep(dest, size, r + 1, d);
    }
  }

  /** Record g goes to block 3 * num[g]; the records fit and do not overlap. */
  lemma ScatterPlan(dest: seq<int>, size: nat, rows: seq<seq<int>>)
    requires InRange(dest, size) && |rows| == |dest| && Triples(rows)
    ensures BlocksFit(Scaled(PartitionNumbering(dest, size), 3), rows, 3 * |dest|)
    ensures Disjoint(Scaled(PartitionNumbering(dest, size), 3), rows)
  {
    NumberingBijective(dest, size);
  }

  /** The global element vector after the scatter: a zero vector of length
      3 * n_ele with each element's record inserted at 3 * its new id. */
  function ElementScatter(dest: seq<int>, size: nat, rows: seq<seq<int>>): (v: seq<int>)
    requires InRange(dest, size) && |rows| == |dest| && Triples(rows)
    ensures |v| == 3 * |dest|
  {
    ScatterPlan(dest, size, rows);
    ScatterBlocks(Zeros(3 * |dest|), Scaled(PartitionNumbering(dest, size), 3), rows)
  }

  /** Each element's record lands unchanged at 3 * newid .. 3 * newid + 2. */
  lemma ElementLands(dest: seq<int>, size: nat, rows: seq<seq<int>>, g: nat)
    requires InRange(dest, size) && |rows| == |dest| && Triples(rows) && g < |dest|
    ensures 0 <= PartitionNumbering(dest, size)[g] < |dest|
    ensures Block(ElementScatter(dest, size, rows), PartitionNumbering(dest, size)[g], 3) == rows[g]
  {
    ScatterPlan(dest, size, rows);
    NumberingBijective(dest, size);
    ScatterBlocksLands(Zeros(3 * |dest|), Scaled(PartitionNumbering(dest, size), 3), rows, g);
  }

  /** The part of the global element vector that rank r owns: its block of
      counts[r] records. */
  function Received(dest: seq<int>, size: nat, rows: seq<seq<int>>, r: nat): (mine: seq<int>)
    requires InRange(dest, size) && |rows| == |dest| && Triples(rows) && r < size
    ensures |mine| == 3 * PartitionCount(dest, size)[r]
  {
    StartStep(dest, size, r, r + 1);
    StartStep(dest, size, r + 1, size);
    ElementScatter(dest, size, rows)[3 * Start(dest, size, r)..3 * Start(dest, size, r + 1)]
  }

  /** Vertex ids survive the scatter: when every record holds ids in
      [0, n), so does every rank's window. Slots are initialised to 0, which
      is a valid id whenever there is a record at all. */
  lemma ReceivedInRange(dest: seq<int>, size: nat, rows: seq<seq<int>>, r: nat, n: int)
    requires InRange(dest, size) && |rows| == |dest| && Triples(rows) && r < size
    requires forall g :: 0 <= g < |rows| ==> InRange(rows[g], n)
    ensures InRange(Received(dest, size, rows, r), n)
  {
    if |rows| > 0 {
      assert 0 <= rows[0][0] < n;
    }
    ScatterPlan(dest, size, rows);
    ScatterBlocksInRange(Zeros(3 * |dest|), Scaled(PartitionNumbering(dest, size), 3), rows, n);
    StartStep(dest, size, r, r + 1);
    StartStep(dest, size, r + 1, size);
  }

  /** Reference definition of what rank r ends up with: the records of the
      elements destined for r, in the global rank-major order. */
  function Kept(dest: seq<int>, rows: seq<seq<int>>, r: int): seq<seq<int>>
    requires |rows| == |dest|
  {
    if |dest| == 0 then []
    else
      var n := |dest| - 1;
      Kept(dest[..n], rows[..n], r) + (if dest[n] == r then [rows[n]] else [])
  }

  lemma {:induction false} KeptLength(dest: seq<int>, rows: seq<seq<int>>, r: int)
    requires |rows| == |dest|
    ensures |Kept(dest, rows, r)| == Count(dest, r)
  {
    if |dest| > 0 {
      KeptLength(dest[..|dest| - 1], rows[..|dest| - 1], r);
    }
  }

  /** An element headed for r sits in r's list behind the earlier ones headed for r. */
  lemma {:induction false} KeptAt(dest: seq<int>, rows: seq<seq<int>>, g: nat)
    requires |rows| == |dest| && g < |dest|
    ensures Count(dest[..g], dest[g]) < |Kept(dest, rows, dest[g])|
    ensures Kept(dest, rows, dest[g])[Count(dest[..g], dest[g])] == rows[g]
  {
    var n := |dest| - 1;
    var r := dest[g];
    KeptLength(dest[..n], rows[..n], r);
    if g == n {
    } else {
      KeptAt(dest[..n], rows[..n], g);
      assert dest[..n][..g] == dest[..g];
    }
  }

  /** Record j of rank r's share is record Start(r) + j of the global vector. */
  lemma ReceivedWindow(dest: seq<int>, size: nat, rows: seq<seq<int>>, r: nat, j: nat)
    requires InRange(dest, size) && |rows| == |dest| && Triples(rows) && r < size
    requires j < PartitionCount(dest, size)[r]
    ensures 3 * j + 3 <= |Received(dest, size, rows, r)|
    ensures 0 <= Start(dest, size, r) && 3 * (Start(dest, size, r) + j) + 3 <= 3 * |dest|
    ensures Block(Received(dest, size, rows, r), j, 3) ==
            Block(ElementScatter(dest, size, rows), Start(dest, size, r) + j, 3)
  {
    var n := PartitionCount(dest, size)[r];
    var lo := Start(dest, size, r);
    StartStep(dest, size, r, r + 1);
    StartStep(dest, size, r + 1, size);
    var all := ElementScatter(dest, size, rows);
    assert Received(dest, size, rows, r) == all[3 * lo..3 * lo + 3 * n];
    SliceOfSlice(all, 3 * lo, 3 * lo + 3 * n, 3 * j, 3 * j + 3);
  }

  /** Record j of rank r's share is the j-th element destined for r. */
  lemma RankRecord(dest: seq<int>, size: nat, rows: seq<seq<int>>, r: nat, j: nat)
    requires InRange(dest, size) && |rows| == |dest| && Triples(rows) && r < size
    requires j < PartitionCount(dest, size)[r]
    ensures 3 * j + 3 <= |Received(dest, size, rows, r)|
    ensures j < |Kept(dest, rows, r)|
    ensures Block(Received(dest, size, rows, r), j, 3) == Kept(dest, rows, r)[j]
  {
    ReceivedWindow(dest, size, rows, r, j);
    WindowRecord(dest, size, rows, r, j);
  }

  /** Record Start(r) + j of the global vector is the j-th element headed
      for r. */
  lemma WindowRecord(dest: seq<int>, size: nat, rows: seq<seq<int>>, r: nat, j: nat)
    requires InRange(dest, size) && |rows| == |dest| && Triples(rows) && r < size
    requires j < PartitionCount(dest, size)[r]
    ensures 0 <= Start(dest, size, r) && 3 * (Start(dest, size, r) + j) + 3 <= 3 * |dest|
    ensures j < |Kept(dest, rows, r)|
    ensures Block(ElementScatter(dest, size, rows), Start(dest, size, r) + j, 3) == Kept(dest, rows, r)[j]
  {
    var lo := Start(dest, size, r);
    StartStep(dest, size, r, r + 1);
    StartStep(dest, size, r + 1, size);
    KeptLength(dest, rows, r);
    var g := NumberingOwner(dest, size, r, lo + j);
    assert dest[g] == r && Count(dest[..g], r) == j;
    KeptAt(dest, rows, g);
    assert Kept(dest, rows, r)[j] == rows[g];
    ElementLands(dest, size, rows, g);
    assert PartitionNumbering(dest, size)[g] == lo + j;
  }

  /** Rank r's share of the global element vector is, record by record,
      exactly the list of elements destined for r, in order. */
  lemma RankReceives(dest: seq<int>, size: nat, rows: seq<seq<int>>, r: nat)
    requires InRange(dest, size) && |rows| == |dest| && Triples(rows) && r < size
    ensures Blocks(Received(dest, size, rows, r), 3) == Kept(dest, rows, r)
  {
    var mine := Received(dest, size, rows, r);
    var n := PartitionCount(dest, size)[r];
    KeptLength(dest, rows, r);
    if n == 0 {
      assert mine == [];
    } else {
      BlocksAt(mine, 3, n, 0);
      forall j | 0 <= j < n
        ensures Blocks(mine, 3)[j] == Kept(dest, rows, r)[j]
      {
        BlocksAt(mine, 3, n, j);
        RankRecord(dest, size, rows, r, j);
      }
    }
  }

  lemma {:induction false} CountBelowAtMost(t: seq<int>, d: int)
    requires forall i :: 0 <= i < |t| ==> t[i] <= d
    ensures |t| == CountBelow(t, d) + Count(t, d)
  {
    if |t| > 0 {
      var n := |t| - 1;
      assert forall i :: 0 <= i < n ==> t[..n][i] == t[i];
      CountBelowAtMost(t[..n], d);
    }
  }

  lemma {:induction false} CountBelowTail(s: seq<int>, g: nat, d: int)
    requires g <= |s|
    requires forall i :: g <= i < |s| ==> s[i] >= d
    ensures CountBelow(s, d) == CountBelow(s[..g], d)
  {
    if |s| > g {
      var n := |s| - 1;
      assert forall i :: g <= i < n ==> s[..n][i] == s[i];
      CountBelowTail(s[..n], g, d);
      assert s[..n][..g] == s[..g];
    } else {
      assert s[..g] == s;
    }
  }

  /** When the partitioner keeps every element where it is (destinations
      non-decreasing in rank-major order), the renumbering is the identity. */
  lemma NumberingIdentity(dest: seq<int>, size: nat, g: nat)
    requires InRange(dest, size) && g < |dest|
    requires forall i, j :: 0 <= i < j < |dest| ==> dest[i] <= dest[j]
    ensures PartitionNumbering(dest, size)[g] == g
  {
    var d := dest[g];
    StartIsBelow(dest, size, d);
    CountBelowTail(dest, g, d);
    CountBelowAtMost(dest[..g], d);
  }
}
