/** The mesh state of all ranks as values, and each phase of the
    redistribution as a function from the states before it to the states
    after it. The in-place phases in `Grid` are proved to produce exactly
    these states; what the redistribution achieves is proved here. */
module World {
  import opened Seqs
  import opened ElementMove
  import opened VertexOwnership
  import opened VertexMove

  /** The fields of one rank's share of the mesh. */
  datatype RankState = RankState(nVert: nat, nEle: nat, mlocalVert: nat, mlocalEle: nat,
                                 ele: seq<int>, vert: seq<real>, isnewproc: seq<int>,
                                 localvert: seq<int>, nlocal: nat)
  {
    /** The arrays have the sizes their counts announce. */
    ghost predicate Valid()
    {
      |ele| == 3 * mlocalEle && |vert| == 2 * mlocalVert && |localvert| == nlocal
    }
  }

  ghost predicate AllValid(s: seq<RankState>)
  {
    forall r :: 0 <= r < |s| ==> s[r].Valid()
  }

  /** Each rank's destination list, in rank order. */
  function DestLists(s: seq<RankState>): (ls: seq<seq<int>>)
    ensures |ls| == |s|
  {
    seq(|s|, r requires 0 <= r < |s| => s[r].isnewproc)
  }

  /** Each rank's element vertex lists, in rank order. */
  function EleLists(s: seq<RankState>): (ls: seq<seq<int>>)
    ensures |ls| == |s|
  {
    seq(|s|, r requires 0 <= r < |s| => s[r].ele)
  }

  /** Each rank's coordinates, in rank order. */
  function VertLists(s: seq<RankState>): (ls: seq<seq<real>>)
    ensures |ls| == |s|
  {
    seq(|s|, r requires 0 <= r < |s| => s[r].vert)
  }

  /** Each rank's claimed vertices, in rank order. */
  function ClaimLists(s: seq<RankState>): (ls: seq<seq<int>>)
    ensures |ls| == |s|
  {
    seq(|s|, r requires 0 <= r < |s| => s[r].localvert)
  }

  function RecordLists(s: seq<RankState>): (ls: seq<seq<seq<int>>>)
    ensures |ls| == |s|
  {
    seq(|s|, r requires 0 <= r < |s| => Blocks(s[r].ele, 3))
  }

  /** Before the element move every rank holds one destination per element. */
  ghost predicate ReadyToMove(s: seq<RankState>)
  {
    AllValid(s) && forall r :: 0 <= r < |s| ==> |s[r].isnewproc| == s[r].mlocalEle
  }

  /** What the element phase needs: at least one rank, one destination per
      element, and every destination a rank. */
  ghost predicate CanMoveElements(s: seq<RankState>)
  {
    |s| > 0 && ReadyToMove(s) && InRange(Concat(DestLists(s)), |s|)
  }

  /** All element records (three vertex ids each), rank after rank; with
      valid states there is one per destination entry. */
  function Records(s: seq<RankState>): (rows: seq<seq<int>>)
    ensures AllValid(s) ==> Triples(rows)
    ensures ReadyToMove(s) ==> |rows| == |Concat(DestLists(s))|
  {
    RecordsShape(s);
    Concat(RecordLists(s))
  }

  lemma RecordsShape(s: seq<RankState>)
    ensures AllValid(s) ==> Triples(Concat(RecordLists(s)))
    ensures ReadyToMove(s) ==> |Concat(RecordLists(s))| == |Concat(DestLists(s))|
  {
    if AllValid(s) {
      RecordsShapeValid(s);
    }
  }

  lemma RecordsShapeValid(s: seq<RankState>)
    requires AllValid(s)
    ensures Triples(Concat(RecordLists(s)))
    ensures ReadyToMove(s) ==> |Concat(RecordLists(s))| == |Concat(DestLists(s))|
  {
    var bl := RecordLists(s);
    forall r | 0 <= r < |s|
      ensures |bl[r]| == s[r].mlocalEle
      ensures forall k :: 0 <= k < |bl[r]| ==> |bl[r][k]| == 3
    {
      BlocksShape(s[r].ele, 3, s[r].mlocalEle);
    }
    if ReadyToMove(s) {
      ConcatSameShape(bl, DestLists(s));
    }
    forall g | 0 <= g < |Concat(bl)|
      ensures |Concat(bl)[g]| == 3
    {
      var r, k := ConcatLocate(bl, g);
      ConcatAt(bl, r, k);
    }
  }

  /** Records carry only vertex ids found in the ranks' element lists. */
  lemma RecordsInRange(s: seq<RankState>, nVert: int)
    requires AllValid(s) && forall r :: 0 <= r < |s| ==> InRange(s[r].ele, nVert)
    ensures forall g :: 0 <= g < |Records(s)| ==> InRange(Records(s)[g], nVert)
  {
    var bl := RecordLists(s);
    forall r | 0 <= r < |s|
      ensures forall k :: 0 <= k < |bl[r]| ==> |bl[r][k]| == 3 && forall c :: 0 <= c < 3 ==> bl[r][k][c] in s[r].ele
    {
      BlocksShape(s[r].ele, 3, s[r].mlocalEle);
    }
    forall g | 0 <= g < |Concat(bl)|
      ensures InRange(Concat(bl)[g], nVert)
    {
      var r, k := ConcatLocate(bl, g);
      ConcatAt(bl, r, k);
    }
  }

  /** The states after the element phase: rank r holds its window of the
      scattered element vector, counts[r] elements, and no destination
      list; nothing else changes. */
  function ElementsMoved(s: seq<RankState>): (t: seq<RankState>)
    requires CanMoveElements(s)
    ensures |t| == |s|
  {
    var dest, rows := Concat(DestLists(s)), Records(s);
    seq(|s|, r requires 0 <= r < |s| =>
      s[r].(ele := Received(dest, |s|, rows, r), mlocalEle := PartitionCount(dest, |s|)[r], isnewproc := []))
  }

  /** Rank r's state after the element phase is its old state with the
      window [3 lo, 3 lo + 3 count) of the scattered vector as its elements,
      where lo is the number of elements headed below r and count the number
      headed to r. */
  lemma ElementShare(s: seq<RankState>, r: nat)
    requires CanMoveElements(s) && r < |s|
    ensures var dest := Concat(DestLists(s));
            var lo, count := Start(dest, |s|, r), PartitionCount(dest, |s|)[r];
            var all := ElementScatter(dest, |s|, Records(s));
            0 <= lo && 3 * lo + 3 * count <= |all| &&
            ElementsMoved(s)[r] == s[r].(ele := all[3 * lo..3 * lo + 3 * count], mlocalEle := count, isnewproc := [])
  {
    var dest := Concat(DestLists(s));
    StartStep(dest, |s|, r, r + 1);
    StartStep(dest, |s|, r + 1, |s|);
  }

  /** The element phase keeps the states valid, moves no coordinates and
      claims no vertex, and every moved element still refers to vertex ids
      in [0, n_vert). Each rank's records are exactly the ones destined for
      it, in rank-major order. */
  lemma ElementsMovedFacts(s: seq<RankState>, nVert: nat)
    requires CanMoveElements(s) && forall r :: 0 <= r < |s| ==> InRange(s[r].ele, nVert)
    ensures AllValid(ElementsMoved(s))
    ensures VertLists(ElementsMoved(s)) == VertLists(s) && ClaimLists(ElementsMoved(s)) == ClaimLists(s)
    ensures RefsValid(EleLists(ElementsMoved(s)), nVert)
    ensures forall r :: 0 <= r < |s| ==>
              ElementsMoved(s)[r].nVert == s[r].nVert &&
              Blocks(ElementsMoved(s)[r].ele, 3) == Kept(Concat(DestLists(s)), Records(s), r)
  {
    var t := ElementsMoved(s);
    var dest, rows := Concat(DestLists(s)), Records(s);
    RecordsInRange(s, nVert);
    forall r | 0 <= r < |s|
      ensures InRange(t[r].ele, nVert) && Blocks(t[r].ele, 3) == Kept(dest, rows, r)
    {
      ReceivedInRange(dest, |s|, rows, r, nVert);
      RankReceives(dest, |s|, rows, r);
    }
    assert VertLists(t) == VertLists(s);
    assert ClaimLists(t) == ClaimLists(s);
  }

  /** What the vertex ring needs: at least one rank, every rank knowing the
      same n_vert, and every reference an id below it. */
  ghost predicate CanClaim(s: seq<RankState>, nVert: nat)
  {
    |s| > 0 && AllValid(s) && RefsValid(EleLists(s), nVert) &&
    forall r :: 0 <= r < |s| ==> s[r].nVert == nVert
  }

  /** The states after the ring: rank r owns Claims(references, n_vert, r). */
  function Owned(s: seq<RankState>, nVert: nat): (t: seq<RankState>)
    requires CanClaim(s, nVert)
    ensures |t| == |s|
  {
    var refs := EleLists(s);
    seq(|s|, r requires 0 <= r < |s| =>
      s[r].(localvert := Claims(refs, nVert, r), nlocal := |Claims(refs, nVert, r)|))
  }

  /** After the ring, the claimed lists, rank after rank, are a permutation
      of [0, n_vert): every vertex has exactly one owner, and the owned
      counts add up to n_vert. Elements and coordinates are untouched. */
  lemma OwnedFacts(s: seq<RankState>, nVert: nat)
    requires CanClaim(s, nVert)
    ensures AllValid(Owned(s, nVert))
    ensures IsPermutation(Concat(ClaimLists(Owned(s, nVert))), nVert)
    ensures Sum(Lengths(ClaimLists(Owned(s, nVert)))) == nVert
    ensures EleLists(Owned(s, nVert)) == EleLists(s) && VertLists(Owned(s, nVert)) == VertLists(s)
  {
    var t := Owned(s, nVert);
    assert ClaimLists(t) == AllClaims(EleLists(s), nVert);
    RingPartition(EleLists(s), nVert);
    assert EleLists(t) == EleLists(s);
    assert VertLists(t) == VertLists(s);
  }

  /** What the vertex move needs: the claimed lists, rank after rank, are a
      permutation of the vertex ids, and the old coordinate vector holds a
      pair per vertex. */
  ghost predicate CanMoveVertices(s: seq<RankState>)
  {
    |Concat(VertLists(s))| % 2 == 0 && IsPermutation(Concat(ClaimLists(s)), |Concat(VertLists(s))| / 2)
  }

  /** The states after the vertex move: every reference renumbered through
      the ordering, each rank's coordinates gathered for its claimed
      vertices, and its vertex count set to its claim count. */
  function VerticesMoved(s: seq<RankState>): (t: seq<RankState>)
    requires CanMoveVertices(s)
    ensures |t| == |s|
  {
    var order, coords := Concat(ClaimLists(s)), Concat(VertLists(s));
    ConcatInRange(ClaimLists(s), |coords| / 2);
    assert forall r :: 0 <= r < |s| ==> ClaimLists(s)[r] == s[r].localvert;
    seq(|s|, r requires 0 <= r < |s| =>
      s[r].(ele := Renumber(order, s[r].ele),
            vert := MovedCoordinates(coords, s[r].localvert),
            mlocalVert := s[r].nlocal))
  }

  /** What the whole redistribution needs: the element phase can run, every
      rank knows n_vert, every reference is below it, and the coordinates
      hold a pair per vertex. */
  ghost predicate CanRedistribute(s: seq<RankState>, nVert: nat)
  {
    CanMoveElements(s) && |Concat(VertLists(s))| == 2 * nVert &&
    forall r :: 0 <= r < |s| ==> s[r].nVert == nVert && InRange(s[r].ele, nVert)
  }

  /** The three phases in order. Afterwards the states are valid, the ranks
      own every vertex exactly once, each rank holds counts[r] elements whose
      references are all new vertex ids, and its vertex count is its claim
      count. */
  function Redistributed(s: seq<RankState>, nVert: nat): (t: seq<RankState>)
    requires CanRedistribute(s, nVert)
    ensures |t| == |s| && AllValid(t)
    ensures IsPermutation(Concat(ClaimLists(t)), nVert) && Sum(Lengths(ClaimLists(t))) == nVert
    ensures forall r :: 0 <= r < |t| ==>
              InRange(t[r].ele, nVert) && t[r].mlocalVert == t[r].nlocal &&
              t[r].mlocalEle == PartitionCount(Concat(DestLists(s)), |s|)[r]
  {
    var m := ElementsMoved(s);
    ElementsMovedFacts(s, nVert);
    var o := Owned(m, nVert);
    OwnedFacts(m, nVert);
    OwnedRefsInRange(m, nVert);
    VerticesMovedFacts(o, nVert);
    VerticesMoved(o)
  }

  /** Each phase of the redistribution may run on what the previous one
      leaves, and the three together are `Redistributed`. */
  lemma RedistributedStages(s: seq<RankState>, nVert: nat)
    requires CanRedistribute(s, nVert)
    ensures CanMoveElements(s) && CanClaim(ElementsMoved(s), nVert)
    ensures AllValid(Owned(ElementsMoved(s), nVert)) && CanMoveVertices(Owned(ElementsMoved(s), nVert))
    ensures Redistributed(s, nVert) == VerticesMoved(Owned(ElementsMoved(s), nVert))
  {
    var m := ElementsMoved(s);
    ElementsMovedFacts(s, nVert);
    OwnedFacts(m, nVert);
    OwnedRefsInRange(m, nVert);
    VerticesMovedFacts(Owned(m, nVert), nVert);
  }

  /** The ring changes no element, so every reference stays below n_vert. */
  lemma OwnedRefsInRange(s: seq<RankState>, nVert: nat)
    requires CanClaim(s, nVert)
    ensures forall r :: 0 <= r < |s| ==> InRange(Owned(s, nVert)[r].ele, nVert)
  {
    var o := Owned(s, nVert);
    forall r | 0 <= r < |o|
      ensures InRange(o[r].ele, nVert)
    {
      assert EleLists(s)[r] == o[r].ele;
    }
  }

  /** The vertex move keeps the states valid and the claims, makes every
      reference a new id below n_vert, and gives every rank as many vertices
      as it claimed. */
  lemma VerticesMovedFacts(s: seq<RankState>, nVert: nat)
    requires AllValid(s) && |Concat(VertLists(s))| == 2 * nVert && IsPermutation(Concat(ClaimLists(s)), nVert)
    requires forall r :: 0 <= r < |s| ==> InRange(s[r].ele, nVert)
    ensures CanMoveVertices(s)
    ensures AllValid(VerticesMoved(s)) && ClaimLists(VerticesMoved(s)) == ClaimLists(s)
    ensures forall r :: 0 <= r < |s| ==>
              InRange(VerticesMoved(s)[r].ele, nVert) && VerticesMoved(s)[r].mlocalVert == VerticesMoved(s)[r].nlocal &&
              VerticesMoved(s)[r].mlocalEle == s[r].mlocalEle
  {
    var t := VerticesMoved(s);
    forall r | 0 <= r < |s|
      ensures InRange(t[r].ele, nVert)
    {
      RenumberRoundTrip(Concat(ClaimLists(s)), s[r].ele, nVert);
    }
    assert ClaimLists(t) == ClaimLists(s);
  }
}
