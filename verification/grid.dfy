/** The per-rank mesh state and the phases that rewrite it. A rank's
    `GridData` is updated in place from phase to phase; the whole run is a
    sequence of distinct `GridData` objects, one per rank, and each
    collective step (counting, renumbering, scattering) is the matching
    specification function over all ranks at once. */
module Grid {
  import opened Seqs
  import opened ElementMove
  import opened VertexOwnership
  import opened VertexMove
  import opened World

  /** Multiplies every index by f in place (block indices to entry indices). */
  method ScaleIndices(idx: array<int>, f: int)
    modifies idx
    ensures idx[..] == Scaled(old(idx[..]), f)
  {
    var i := 0;
    while i < idx.Length
      invariant 0 <= i <= idx.Length
      invariant forall k :: 0 <= k < i ==> idx[k] == f * old(idx[k])
      invariant forall k :: i <= k < idx.Length ==> idx[k] == old(idx[k])
    {
      idx[i] := idx[i] * f;
      i := i + 1;
    }
  }

  /** Test-and-set of mask bit v; when the bit was clear, v is appended to
      the claim buffer at n, and `stop` reports that the count reached nmax. */
  method LookupSetAppend(mask: array<bool>, lv: array<int>, n: nat, v: int, nmax: nat)
    returns (n': nat, stop: bool)
    requires 0 <= v < mask.Length && n <= lv.Length && (mask[v] || n < lv.Length)
    modifies mask, lv
    ensures mask[..] == old(mask[..])[v := true]
    ensures old(mask[v]) ==> n' == n && !stop && lv[..n'] == old(lv[..n])
    ensures !old(mask[v]) ==> n' == n + 1 && lv[..n'] == old(lv[..n]) + [v] && (stop <==> n' >= nmax)
  {
    var was := mask[v];
    mask[v] := true;
    n', stop := n, false;
    if !was {
      lv[n] := v;
      n' := n + 1;
      assert lv[..n'] == old(lv[..n]) + [v];
      stop := n' >= nmax;
    } else {
      assert mask[..] == old(mask[..]);
    }
  }

  /** One corner of the claim scan: reference k. `stop` reports that an
      append reached the quota; the scan is then over, whatever references
      follow. */
  method ScanCorner(mask: array<bool>, lv: array<int>, n: nat, ghost m0: seq<bool>,
                    refs: seq<int>, k: nat, nmax: nat) returns (n': nat, stop: bool)
    requires InRange(refs, |m0|) && |m0| == mask.Length && k < |refs|
    requires lv.Length == nmax + 1
    requires mask[..] == ScanClaims(m0, refs[..k], nmax).mask
    requires n <= nmax && lv[..n] == ScanClaims(m0, refs[..k], nmax).claimed
    requires !Stopped(lv[..n], nmax)
    modifies mask, lv
    ensures stop ==> mask[..] == ScanClaims(m0, refs, nmax).mask &&
                     n' <= lv.Length && lv[..n'] == ScanClaims(m0, refs, nmax).claimed
    ensures !stop ==> mask[..] == ScanClaims(m0, refs[..k + 1], nmax).mask &&
                      n' <= nmax && lv[..n'] == ScanClaims(m0, refs[..k + 1], nmax).claimed &&
                      !Stopped(lv[..n'], nmax)
  {
    var v := refs[k];
    PrefixInRange(refs, mask.Length, k);
    if mask[v] {
      ScanSkip(m0, refs, nmax, k);
    } else {
      ScanClaim(m0, refs, nmax, k);
    }
    n', stop := LookupSetAppend(mask, lv, n, v, nmax);
    if stop {
      PrefixInRange(refs, mask.Length, k + 1);
      StoppedStays(m0, refs, nmax, k + 1);
    }
  }

  /** The inner loop of the claim scan: the three corners of element i. */
  method ScanElement(mask: array<bool>, lv: array<int>, n: nat, ghost m0: seq<bool>,
                     refs: seq<int>, i: nat, nmax: nat) returns (n': nat, stop: bool)
    requires InRange(refs, |m0|) && |m0| == mask.Length && 3 * i + 3 <= |refs|
    requires lv.Length == nmax + 1
    requires mask[..] == ScanClaims(m0, refs[..3 * i], nmax).mask
    requires n <= nmax && lv[..n] == ScanClaims(m0, refs[..3 * i], nmax).claimed
    requires !Stopped(lv[..n], nmax)
    modifies mask, lv
    ensures stop ==> mask[..] == ScanClaims(m0, refs, nmax).mask &&
                     n' <= lv.Length && lv[..n'] == ScanClaims(m0, refs, nmax).claimed
    ensures !stop ==> mask[..] == ScanClaims(m0, refs[..3 * i + 3], nmax).mask &&
                      n' <= nmax && lv[..n'] == ScanClaims(m0, refs[..3 * i + 3], nmax).claimed &&
                      !Stopped(lv[..n'], nmax)
  {
    n', stop := n, false;
    var j := 0;
    while j < 3
      invariant 0 <= j <= 3
      invariant mask[..] == ScanClaims(m0, refs[..3 * i + j], nmax).mask
      invariant n' <= nmax && lv[..n'] == ScanClaims(m0, refs[..3 * i + j], nmax).claimed
      invariant !Stopped(lv[..n'], nmax)
    {
      n', stop := ScanCorner(mask, lv, n', m0, refs, 3 * i + j, nmax);
      if stop {
        return;
      }
      j := j + 1;
    }
  }

  /** One rank's share of the mesh. */
  class GridData {
    /** Global numbers of vertices and elements. */
    var nVert: nat
    var nEle: nat
    /** Number of vertices and elements this rank holds. */
    var mlocalVert: nat
    var mlocalEle: nat
    /** Three vertex ids per local element. */
    var ele: seq<int>
    /** Two coordinates per local vertex. */
    var vert: seq<real>
    /** Destination rank of each local element, as the partitioner decided. */
    var isnewproc: seq<int>
    /** The vertices this rank claimed, and how many. */
    var localvert: seq<int>
    var nlocal: nat

    /** All fields as one value. */
    function State(): RankState
      reads this
    {
      RankState(nVert, nEle, mlocalVert, mlocalEle, ele, vert, isnewproc, localvert, nlocal)
    }

    /** The arrays have the sizes their counts announce. */
    ghost predicate Valid()
      reads this
    {
      State().Valid()
    }

    constructor (nv: nat, ne: nat, e: seq<int>, v: seq<real>, dest: seq<int>)
      requires |e| == 3 * |dest| && |v| % 2 == 0
      ensures Valid()
      ensures nVert == nv && nEle == ne && ele == e && vert == v && isnewproc == dest
      ensures mlocalEle == |dest| && mlocalVert == |v| / 2 && localvert == [] && nlocal == 0
    {
      nVert, nEle := nv, ne;
      ele, vert, isnewproc := e, v, dest;
      mlocalEle, mlocalVert := |dest|, |v| / 2;
      localvert, nlocal := [], 0;
    }

    /** A non-last rank's claim: walk the corners of the local elements in
        order; test-and-set each id's bit; append the id when the bit was
        clear, and leave both loops as soon as an append brings the count to
        nmax. The buffer has nmax + 1 slots, which the exit rule never
        overruns. */
    method ClaimVertices(mask: array<bool>, nmax: nat)
      requires Valid() && InRange(ele, mask.Length)
      modifies this, mask
      ensures State() == old(State()).(localvert := localvert, nlocal := nlocal) && Valid()
      ensures mask[..] == ScanClaims(old(mask[..]), ele, nmax).mask
      ensures localvert == ScanClaims(old(mask[..]), ele, nmax).claimed
    {
      ghost var m0 := mask[..];
      var ele, mlocalEle := this.ele, this.mlocalEle;
      var lv := new int[nmax + 1];
      var n: nat := 0;
      var i := 0;
      while i < mlocalEle
        invariant 0 <= i <= mlocalEle
        invariant mask[..] == ScanClaims(m0, ele[..3 * i], nmax).mask
        invariant n <= nmax && lv[..n] == ScanClaims(m0, ele[..3 * i], nmax).claimed
        invariant !Stopped(lv[..n], nmax)
        modifies mask, lv
      {
        var stop;
        n, stop := ScanElement(mask, lv, n, m0, ele, i, nmax);
        if stop {
          break;
        }
        i := i + 1;
      }
      if i == mlocalEle {
        assert ele[..3 * i] == ele;
      }
      this.localvert, this.nlocal := lv[..n], n;
    }

    /** The last rank: count the ids still unmarked (that count sizes the
        buffer), then list them in increasing order. The mask is only read. */
    method ClaimRemaining(mask: array<bool>)
      requires Valid()
      modifies this
      ensures State() == old(State()).(localvert := localvert, nlocal := nlocal) && Valid()
      ensures localvert == Unclaimed(mask[..])
    {
      var count := 0;
      var i := 0;
      while i < mask.Length
        invariant 0 <= i <= mask.Length
        invariant count == |UnsetBelow(mask[..], i)|
      {
        if !mask[i] {
          count := count + 1;
        }
        i := i + 1;
      }
      var nmax := count;
      var lv := new int[nmax + 1];
      var n := 0;
      i := 0;
      while i < mask.Length
        invariant 0 <= i <= mask.Length
        invariant n == |UnsetBelow(mask[..], i)| <= nmax
        invariant lv[..n] == UnsetBelow(mask[..], i)
        modifies lv
      {
        UnsetBelowMono(mask[..], i + 1, mask.Length);
        if !mask[i] {
          lv[n] := i;
          n := n + 1;
        }
        i := i + 1;
      }
      localvert, nlocal := lv[..n], n;
    }

    /** This rank's turn in the ring: with the mask received from the left,
        a non-last rank claims up to n_vert / size of its own references and
        forwards the updated mask; the last rank takes what is left. */
    method PartitionVertices(mask: array<bool>, rank: nat, size: nat)
      requires Valid() && rank < size && mask.Length == nVert && InRange(ele, nVert)
      modifies this, mask
      ensures State() == old(State()).(localvert := localvert, nlocal := nlocal) && Valid()
      ensures rank < size - 1 ==>
                mask[..] == ScanClaims(old(mask[..]), ele, nVert / size).mask &&
                localvert == ScanClaims(old(mask[..]), ele, nVert / size).claimed
      ensures rank == size - 1 ==> mask[..] == old(mask[..]) && localvert == Unclaimed(mask[..])
    {
      if rank < size - 1 {
        ClaimVertices(mask, nVert / size);
      } else {
        ClaimRemaining(mask);
      }
    }

    /** Takes this rank's part of the scattered global element vector: the
        `count` records starting at record `lo`. The destination list has
        been consumed. */
    method ReceiveElements(all: seq<int>, lo: nat, count: nat)
      requires Valid() && 3 * lo + 3 * count <= |all|
      modifies this
      ensures State() == old(State()).(ele := all[3 * lo..3 * lo + 3 * count], mlocalEle := count, isnewproc := [])
      ensures Valid()
    {
      ele := all[3 * lo..3 * lo + 3 * count];
      mlocalEle := count;
      isnewproc := [];
    }

    /** Rewrites every element reference through the ordering (old id to new
        id), turns the claimed ids into coordinate offsets in place, and
        gathers the claimed vertices' coordinate pairs from the old global
        coordinate vector. */
    method MoveVertices(order: seq<int>, coords: seq<real>)
      requires Valid() && |coords| % 2 == 0 && InRange(localvert, |coords| / 2)
      modifies this
      ensures State() == old(State()).(ele := Renumber(order, old(ele)),
                                       vert := MovedCoordinates(coords, old(localvert)),
                                       mlocalVert := old(nlocal))
      ensures Valid()
    {
      ele := Renumber(order, ele);
      var lv := localvert;
      var idx := new int[|lv|](k requires 0 <= k < |lv| => lv[k]);
      assert idx[..] == lv;
      ScaleIndices(idx, 2);
      ScaledFits(lv, |coords| / 2);
      vert := GatherBlocks(coords, idx[..], 2);
      mlocalVert := nlocal;
    }
  }

  /** The ranks are distinct objects. */
  ghost predicate Distinct(ranks: seq<GridData>)
  {
    forall i, j :: 0 <= i < j < |ranks| ==> ranks[i] != ranks[j]
  }

  /** Every rank's fields as values, in rank order. */
  function States(ranks: seq<GridData>): (ss: seq<RankState>)
    reads ranks
    ensures |ss| == |ranks|
  {
    seq(|ranks|, r requires 0 <= r < |ranks| reads ranks => ranks[r].State())
  }

  /** Part way through a phase that goes rank by rank: the first r ranks
      are in their state after the phase, the others in their state before. */
  ghost predicate PhaseAfter(ranks: seq<GridData>, before: seq<RankState>, after: seq<RankState>, r: nat)
    requires |before| == |after| == |ranks| && r <= |ranks|
    reads ranks
  {
    (forall k :: 0 <= k < r ==> ranks[k].State() == after[k]) &&
    (forall k :: r <= k < |ranks| ==> ranks[k].State() == before[k])
  }

  /** Once every rank has had its turn, the states are the phase's result:
      the point where each per-rank loop above ends. */
  lemma PhaseDone(ranks: seq<GridData>, before: seq<RankState>, after: seq<RankState>)
    requires |before| == |after| == |ranks| && PhaseAfter(ranks, before, after, |ranks|)
    ensures States(ranks) == after
  {
  }

  /** The collective part of the element phase: number the elements,
      turn the numbers into entry offsets in place (`idx[i] *= 3`), and
      scatter each record into a zero vector at its offset. */
  method ScatterElements(dest: seq<int>, size: nat, rows: seq<seq<int>>) returns (all: seq<int>)
    requires InRange(dest, size) && |rows| == |dest| && Triples(rows)
    ensures all == ElementScatter(dest, size, rows)
  {
    var num := PartitionNumbering(dest, size);
    var idx := new int[|num|](k requires 0 <= k < |num| => num[k]);
    assert idx[..] == num;
    ScaleIndices(idx, 3);
    ScatterPlan(dest, size, rows);
    all := ScatterBlocks(Zeros(3 * |dest|), idx[..], rows);
  }

  /** Rank r takes the window [3 lo, 3 lo + 3 count) of the scattered
      vector as its elements (ex2.c:503-511, on rank r); no other rank
      changes. */
  method ElementTurn(ranks: seq<GridData>, all: seq<int>, lo: nat, count: nat,
                     ghost before: seq<RankState>, ghost after: seq<RankState>, r: nat)
    requires Distinct(ranks) && |before| == |after| == |ranks| && r < |ranks|
    requires before[r].Valid() && 3 * lo + 3 * count <= |all|
    requires after[r] == before[r].(ele := all[3 * lo..3 * lo + 3 * count], mlocalEle := count, isnewproc := [])
    requires PhaseAfter(ranks, before, after, r)
    modifies ranks[r]
    ensures PhaseAfter(ranks, before, after, r + 1)
  {
    ghost var now := States(ranks);
    ranks[r].ReceiveElements(all, lo, count);
    assert forall k :: 0 <= k < |ranks| && k != r ==> ranks[k].State() == now[k];
  }

  /** Every rank takes its block, in rank order. */
  method ElementLoop(ranks: seq<GridData>, dest: seq<int>, all: seq<int>, ghost s0: seq<RankState>)
    requires Distinct(ranks) && |s0| == |ranks| && CanMoveElements(s0)
    requires dest == Concat(DestLists(s0)) && all == ElementScatter(dest, |ranks|, Records(s0))
    requires PhaseAfter(ranks, s0, ElementsMoved(s0), 0)
    modifies ranks
    ensures PhaseAfter(ranks, s0, ElementsMoved(s0), |ranks|)
  {
    ghost var s1 := ElementsMoved(s0);
    for r := 0 to |ranks|
      invariant PhaseAfter(ranks, s0, s1, r)
    {
      ElementShare(s0, r);
      var lo, count := Start(dest, |ranks|, r), PartitionCount(dest, |ranks|)[r];
      ElementTurn(ranks, all, lo, count, s0, s1, r);
    }
  }

  /** Element phase over all ranks: count the elements per destination,
      number them contiguously, scale the numbers to entry offsets in place,
      scatter every record to its offset, and let each rank take its block. */
  method MoveElements(ranks: seq<GridData>)
    requires Distinct(ranks) && CanMoveElements(States(ranks))
    modifies ranks
    ensures States(ranks) == ElementsMoved(old(States(ranks)))
  {
    ghost var s0 := States(ranks);
    var dest := Concat(DestLists(States(ranks)));
    var rows := Records(States(ranks));
    var all := ScatterElements(dest, |ranks|, rows);
    ElementLoop(ranks, dest, all, s0);
    PhaseDone(ranks, s0, ElementsMoved(s0));
  }

  /** Rank r's turn in the ring (ex2.c:582-627, on rank r): it receives
      the mask the earlier ranks left, owns Claims(references, n_vert, r)
      afterwards and forwards the mask; no other rank changes. */
  method RingTurn(ranks: seq<GridData>, mask: array<bool>, nVert: nat, ghost s0: seq<RankState>, r: nat)
    requires Distinct(ranks) && |s0| == |ranks| && r < |ranks| && CanClaim(s0, nVert)
    requires mask[..] == MaskAfter(EleLists(s0), nVert, r)
    requires PhaseAfter(ranks, s0, Owned(s0, nVert), r)
    modifies ranks[r], mask
    ensures r + 1 < |ranks| ==> mask[..] == MaskAfter(EleLists(s0), nVert, r + 1)
    ensures PhaseAfter(ranks, s0, Owned(s0, nVert), r + 1)
  {
    ghost var before := States(ranks);
    assert s0[r].Valid() && s0[r].ele == EleLists(s0)[r];
    ranks[r].PartitionVertices(mask, r, |ranks|);
    assert forall k :: 0 <= k < |ranks| && k != r ==> ranks[k].State() == before[k];
  }

  /** The ring itself: every rank takes its turn, in rank order. */
  method RingLoop(ranks: seq<GridData>, mask: array<bool>, nVert: nat, ghost s0: seq<RankState>)
    requires Distinct(ranks) && |s0| == |ranks| && CanClaim(s0, nVert)
    requires mask[..] == MaskAfter(EleLists(s0), nVert, 0)
    requires PhaseAfter(ranks, s0, Owned(s0, nVert), 0)
    modifies ranks, mask
    ensures PhaseAfter(ranks, s0, Owned(s0, nVert), |ranks|)
  {
    for r := 0 to |ranks|
      invariant r < |ranks| ==> mask[..] == MaskAfter(EleLists(s0), nVert, r)
      invariant PhaseAfter(ranks, s0, Owned(s0, nVert), r)
    {
      RingTurn(ranks, mask, nVert, s0, r);
    }
  }

  /** Vertex ownership over all ranks: a clear mask of n_vert bits goes
      round the ring from rank 0 to rank size - 1, each rank taking its turn. */
  method PartitionVerticesRing(ranks: seq<GridData>, nVert: nat)
    requires Distinct(ranks) && CanClaim(States(ranks), nVert)
    modifies ranks
    ensures States(ranks) == Owned(old(States(ranks)), nVert)
  {
    ghost var s0 := States(ranks);
    var mask := new bool[nVert](_ => false);
    assert mask[..] == MaskAfter(EleLists(s0), nVert, 0);
    RingLoop(ranks, mask, nVert, s0);
    PhaseDone(ranks, s0, Owned(s0, nVert));
  }

  /** Rank r moves its vertices (ex2.c:660-717, on rank r); no other rank
      changes. */
  method VertexTurn(ranks: seq<GridData>, order: seq<int>, coords: seq<real>, ghost s0: seq<RankState>, r: nat)
    requires Distinct(ranks) && |s0| == |ranks| && r < |ranks| && AllValid(s0) && CanMoveVertices(s0)
    requires order == Concat(ClaimLists(s0)) && coords == Concat(VertLists(s0))
    requires PhaseAfter(ranks, s0, VerticesMoved(s0), r)
    modifies ranks[r]
    ensures PhaseAfter(ranks, s0, VerticesMoved(s0), r + 1)
  {
    ghost var before := States(ranks);
    ConcatInRange(ClaimLists(s0), |coords| / 2);
    assert s0[r].Valid() && InRange(ClaimLists(s0)[r], |coords| / 2);
    ranks[r].MoveVertices(order, coords);
    assert forall k :: 0 <= k < |ranks| && k != r ==> ranks[k].State() == before[k];
  }

  /** Every rank moves its vertices, in rank order. */
  method VertexLoop(ranks: seq<GridData>, order: seq<int>, coords: seq<real>, ghost s0: seq<RankState>)
    requires Distinct(ranks) && |s0| == |ranks| && AllValid(s0) && CanMoveVertices(s0)
    requires order == Concat(ClaimLists(s0)) && coords == Concat(VertLists(s0))
    requires PhaseAfter(ranks, s0, VerticesMoved(s0), 0)
    modifies ranks
    ensures PhaseAfter(ranks, s0, VerticesMoved(s0), |ranks|)
  {
    for r := 0 to |ranks|
      invariant PhaseAfter(ranks, s0, VerticesMoved(s0), r)
    {
      VertexTurn(ranks, order, coords, s0, r);
    }
  }

  /** Vertex phase over all ranks: the claimed lists, rank after rank, are
      the ordering; every rank renumbers its references through it and
      gathers its claimed vertices' coordinates from the old coordinate
      vector (all ranks' coordinates, rank after rank). */
  method MoveVerticesAll(ranks: seq<GridData>)
    requires Distinct(ranks) && AllValid(States(ranks)) && CanMoveVertices(States(ranks))
    modifies ranks
    ensures States(ranks) == VerticesMoved(old(States(ranks)))
  {
    ghost var s0 := States(ranks);
    var order := Concat(ClaimLists(States(ranks)));
    var coords := Concat(VertLists(States(ranks)));
    VertexLoop(ranks, order, coords, s0);
    PhaseDone(ranks, s0, VerticesMoved(s0));
  }

  /** The whole redistribution, phase after phase as the program runs
      them: elements to the ranks the partitioner chose, vertex ownership
      round the ring, then renumbering and coordinates. */
  method Redistribute(ranks: seq<GridData>, nVert: nat)
    requires Distinct(ranks) && CanRedistribute(States(ranks), nVert)
    modifies ranks
    ensures States(ranks) == Redistributed(old(States(ranks)), nVert)
  {
    RedistributedStages(States(ranks), nVert);
    MoveElements(ranks);
    PartitionVerticesRing(ranks, nVert);
    MoveVerticesAll(ranks);
  }
}
