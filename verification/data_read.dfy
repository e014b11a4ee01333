/** The two pieces of logic inside the mesh reader: the naive contiguous
    split of vertices and elements over the ranks, and the compaction of
    each element's three neighbour ids into a compressed-row adjacency
    graph (`ia`, `ja`) where a negative id ("no neighbour") is dropped. */
module DataRead {
  import opened Seqs

  /** Number of items rank i receives when n items are split over `size`
      ranks: the quotient, plus one for the first n % size ranks. */
  function SplitCount(n: nat, size: nat, i: int): int
    requires size > 0
  {
    n / size + (if n % size > i then 1 else 0)
  }

  function SplitCounts(n: nat, size: nat): (c: seq<int>)
    requires size > 0
    ensures |c| == size
  {
    seq(size, i => SplitCount(n, size, i))
  }

  /** Counts of q or q + 1, the extra one on the first rem entries: the
      first k add up to q * k + min(k, rem). */
  lemma {:induction false} EvenPrefix(c: seq<int>, q: int, rem: nat, k: nat)
    requires k <= |c|
    requires forall i :: 0 <= i < |c| ==> c[i] == q + (if rem > i then 1 else 0)
    ensures Sum(c[..k]) == q * k + (if k < rem then k else rem)
  {
    if k > 0 {
      EvenPrefix(c, q, rem, k - 1);
      SumStep(c, k - 1);
      assert c[k - 1] == q + (if rem > k - 1 then 1 else 0);
      assert q * k == q * (k - 1) + q;
    }
  }

  /** The first k ranks together hold (n / size) * k + min(k, n % size) items. */
  lemma SplitPrefix(n: nat, size: nat, k: nat)
    requires size > 0 && k <= size
    ensures Sum(SplitCounts(n, size)[..k]) ==
            (n / size) * k + (if k < n % size then k else n % size)
  {
    EvenPrefix(SplitCounts(n, size), n / size, n % size, k);
  }

  /** The split loses and duplicates nothing: the counts add up to n. */
  lemma SplitTotal(n: nat, size: nat)
    requires size > 0
    ensures Sum(SplitCounts(n, size)) == n
  {
    SplitPrefix(n, size, size);
    assert SplitCounts(n, size)[..size] == SplitCounts(n, size);
    assert (n / size) * size + n % size == n;
  }

  /** Every rank gets the quotient or one more; exactly the first n % size
      ranks get one more; so any two ranks differ by at most one. */
  lemma SplitBalanced(n: nat, size: nat, i: int, j: int)
    requires size > 0 && 0 <= i < size && 0 <= j < size
    ensures SplitCount(n, size, i) == n / size + 1 <==> i < n % size
    ensures SplitCount(n, size, i) == n / size <==> i >= n % size
    ensures i <= j ==> 0 <= SplitCount(n, size, i) - SplitCount(n, size, j) <= 1
  {
  }

  /** Rank 0's count is also what the reader computes as
      `n/size + ((n % size) > 0)` for its own share, and no rank's share
      is larger, so it is a size fit for every rank's buffer. */
  lemma SplitRootShare(n: nat, size: nat)
    requires size > 0
    ensures SplitCount(n, size, 0) == n / size + (if n % size > 0 then 1 else 0)
    ensures forall j :: 0 <= j < size ==> SplitCount(n, size, 0) >= SplitCount(n, size, j)
  {
  }

  /** One line of the neighbour section: the three neighbouring element
      ids of an element, negative where the face is on the boundary. */
  datatype Neighbors = Neighbors(a1: int, a2: int, a3: int)

  /** The neighbours actually present, in the order a1, a2, a3. */
  function RowNeighbors(t: Neighbors): seq<int>
  {
    (if t.a1 >= 0 then [t.a1] else []) +
    (if t.a2 >= 0 then [t.a2] else []) +
    (if t.a3 >= 0 then [t.a3] else [])
  }

  /** How many of the three ids are non-negative. */
  function Present(t: Neighbors): nat
  {
    (if t.a1 >= 0 then 1 else 0) + (if t.a2 >= 0 then 1 else 0) + (if t.a3 >= 0 then 1 else 0)
  }

  function Rows(nbrs: seq<Neighbors>): (rows: seq<seq<int>>)
    ensures |rows| == |nbrs|
  {
    seq(|nbrs|, i requires 0 <= i < |nbrs| => RowNeighbors(nbrs[i]))
  }

  /** A row keeps exactly the non-negative ids, at most three of them, in order. */
  lemma RowNeighborsFacts(t: Neighbors)
    ensures |RowNeighbors(t)| == Present(t) <= 3
    ensures forall k :: 0 <= k < |RowNeighbors(t)| ==> RowNeighbors(t)[k] >= 0
    ensures forall x :: x in RowNeighbors(t) <==> x >= 0 && (x == t.a1 || x == t.a2 || x == t.a3)
  {
  }

  /** Appends id x at position net of `ja` when it is a real neighbour
      (non-negative) and returns the new fill; a negative id is dropped. */
  method PutIfPresent(ja: array<int>, net: nat, x: int) returns (net': nat)
    requires net + (if x >= 0 then 1 else 0) <= ja.Length
    modifies ja
    ensures net' == net + (if x >= 0 then 1 else 0)
    ensures ja[..net'] == old(ja[..net]) + (if x >= 0 then [x] else [])
  {
    net' := net;
    if x >= 0 {
      ja[net] := x;
      net' := net + 1;
    }
  }

  /** Appends row t's present neighbour ids at position net of `ja` and
      returns the new fill. */
  method PutRow(ja: array<int>, net: nat, t: Neighbors) returns (net': nat)
    requires net + 3 <= ja.Length
    modifies ja
    ensures net' == net + |RowNeighbors(t)| && net' <= net + 3
    ensures ja[..net'] == old(ja[..net]) + RowNeighbors(t)
  {
    RowNeighborsFacts(t);
    net' := PutIfPresent(ja, net, t.a1);
    net' := PutIfPresent(ja, net', t.a2);
    net' := PutIfPresent(ja, net', t.a3);
  }

  /** Builds the compressed-row graph of one rank's elements: `ia[i]` is
      where row i starts in `ja`, and `ja` holds the present neighbour ids
      row after row. `ja` is sized 3*m + 1, the largest it can need. */
  method BuildAdjacency(nbrs: seq<Neighbors>) returns (ia: array<int>, ja: array<int>)
    ensures ia.Length == |nbrs| + 1 && ja.Length == 3 * |nbrs| + 1
    ensures ia[0] == 0
    ensures forall i :: 0 <= i <= |nbrs| ==> ia[i] == Offset(Rows(nbrs), i)
    ensures 0 <= ia[|nbrs|] <= 3 * |nbrs|
    ensures ja[..ia[|nbrs|]] == Concat(Rows(nbrs))
  {
    var m := |nbrs|;
    ghost var rows := Rows(nbrs);
    ia := new int[m + 1];
    ja := new int[3 * m + 1];
    var net := 0;
    ia[0] := 0;
    var i := 0;
    while i < m
      invariant 0 <= i <= m
      invariant net == Offset(rows, i) <= 3 * i
      invariant forall k :: 0 <= k <= i ==> ia[k] == Offset(rows, k)
      invariant ja[..net] == Concat(rows[..i])
    {
      ConcatStep(rows, i);
      net := PutRow(ja, net, nbrs[i]);
      ia[i + 1] := net;
      i := i + 1;
    }
    assert rows[..m] == rows;
  }

  /** What the graph promises row by row: `ia` starts at 0 and is
      non-decreasing with steps of at most 3, row i of `ja` lists exactly
      the non-negative ids of element i in order, and `ja` holds no
      negative id. */
  lemma AdjacencyRows(nbrs: seq<Neighbors>, ia: seq<int>, ja: seq<int>, i: nat)
    requires |ia| == |nbrs| + 1
    requires forall k :: 0 <= k <= |nbrs| ==> ia[k] == Offset(Rows(nbrs), k)
    requires 0 <= ia[|nbrs|] <= |ja| && ja[..ia[|nbrs|]] == Concat(Rows(nbrs))
    requires i < |nbrs|
    ensures ia[0] == 0
    ensures ia[i + 1] - ia[i] == Present(nbrs[i]) <= 3
    ensures 0 <= ia[i] <= ia[i + 1] <= ia[|nbrs|]
    ensures ja[ia[i]..ia[i + 1]] == RowNeighbors(nbrs[i])
    ensures forall k :: ia[i] <= k < ia[i + 1] ==> ja[k] >= 0
  {
    var rows := Rows(nbrs);
    var all := Concat(rows);
    assert rows[..0] == [];
    assert rows[..|nbrs|] == rows;
    assert ia[|nbrs|] == |all|;
    ConcatSlice(rows, i);
    RowNeighborsFacts(nbrs[i]);
    assert ja[ia[i]..ia[i + 1]] == all[ia[i]..ia[i + 1]];
  }
}
