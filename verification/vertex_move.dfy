/** The vertex phase of the redistribution. The claimed lists, taken rank
    after rank, form the application ordering of an application ordering
    object whose PETSc ordering is the natural one: rank r's k-th claimed
    vertex gets new id (ids owned by lower ranks) + k. Every element
    reference is rewritten through this map, and each rank gathers the
    coordinate pairs (records of size 2) of the vertices it claimed. */
module VertexMove {
  import opened Seqs

  /** Application-to-PETSc mapping: the new id of old vertex v is its
      position in the concatenated claimed lists. */
  function ApplicationToPetsc(order: seq<int>, v: int): (w: nat)
    ensures w <= |order|
    ensures w < |order| ==> order[w] == v
  {
    IndexOf(order, v)
  }

  /** The element vertex lists after renumbering, entry by entry. */
  function Renumber(order: seq<int>, ids: seq<int>): (out: seq<int>)
    ensures |out| == |ids|
  {
    seq(|ids|, i requires 0 <= i < |ids| => ApplicationToPetsc(order, ids[i]))
  }

  /** Rank r's k-th claimed vertex gets new id: the number of vertices the
      ranks before r own, plus k. */
  lemma ClaimedVertexNewId(claims: seq<seq<int>>, r: nat, k: nat)
    requires NoDup(Concat(claims)) && r < |claims| && k < |claims[r]|
    ensures ApplicationToPetsc(Concat(claims), claims[r][k]) == Sum(Lengths(claims)[..r]) + k
  {
    ConcatAt(claims, r, k);
    IndexOfDistinct(Concat(claims), Offset(claims, r) + k);
    OffsetIsSum(claims, r);
  }

  /** With the claimed lists a permutation of [0, n_vert), every renumbered
      reference lies in [0, n_vert), and mapping it back through the
      ordering gives the old id (the map is a bijection). */
  lemma RenumberRoundTrip(order: seq<int>, ids: seq<int>, nVert: nat)
    requires IsPermutation(order, nVert) && InRange(ids, nVert)
    ensures InRange(Renumber(order, ids), nVert)
    ensures forall i :: 0 <= i < |ids| ==> order[Renumber(order, ids)[i]] == ids[i]
  {
    forall i | 0 <= i < |ids|
      ensures Renumber(order, ids)[i] < nVert
    {
      PermutationCovers(order, nVert, ids[i]);
    }
  }

  /** Renumbering two different old ids never merges them. */
  lemma RenumberInjective(order: seq<int>, nVert: nat, x: int, y: int)
    requires IsPermutation(order, nVert) && 0 <= x < nVert && 0 <= y < nVert && x != y
    ensures ApplicationToPetsc(order, x) != ApplicationToPetsc(order, y)
  {
    PermutationCovers(order, nVert, x);
    PermutationCovers(order, nVert, y);
  }

  /** The coordinates rank r receives: for each claimed vertex, in claim
      order, the pair of the old global coordinate vector at 2 * id. */
  function MovedCoordinates(coords: seq<real>, claimed: seq<int>): (vert: seq<real>)
    requires |coords| % 2 == 0 && InRange(claimed, |coords| / 2)
    ensures |vert| == 2 * |claimed|
  {
    ScaledFits(claimed, |coords| / 2);
    GatherBlocks(coords, Scaled(claimed, 2), 2)
  }

  lemma ScaledFits(claimed: seq<int>, n: nat)
    requires InRange(claimed, n)
    ensures Fits(Scaled(claimed, 2), 2, 2 * n)
  {
  }

  /** New vert[2k .. 2k + 1] holds the old coordinates of vertex localvert[k]. */
  lemma MovedCoordinatesAt(coords: seq<real>, claimed: seq<int>, k: nat)
    requires |coords| % 2 == 0 && InRange(claimed, |coords| / 2) && k < |claimed|
    ensures 2 * k + 2 <= |MovedCoordinates(coords, claimed)|
    ensures 2 * claimed[k] + 2 <= |coords|
    ensures Block(MovedCoordinates(coords, claimed), k, 2) == Block(coords, claimed[k], 2)
  {
    ScaledFits(claimed, |coords| / 2);
    GatherBlocksAt(coords, Scaled(claimed, 2), 2, k);
  }

  /** End to end: an element that referenced old vertex x now references
      w = new id of x; w is owned by some rank r at local slot
      w - (ids owned by lower ranks), and that rank's new coordinates at
      that slot are the old coordinates of x. */
  lemma ReferenceConsistency(claims: seq<seq<int>>, coords: seq<real>, nVert: nat, x: int)
    returns (r: nat, k: nat)
    requires IsPermutation(Concat(claims), nVert) && |coords| == 2 * nVert
    requires forall q :: 0 <= q < |claims| ==> InRange(claims[q], nVert)
    requires 0 <= x < nVert
    ensures r < |claims| && k < |claims[r]|
    ensures ApplicationToPetsc(Concat(claims), x) == Sum(Lengths(claims)[..r]) + k
    ensures 2 * k + 2 <= |MovedCoordinates(coords, claims[r])| && 2 * x + 2 <= |coords|
    ensures Block(MovedCoordinates(coords, claims[r]), k, 2) == Block(coords, x, 2)
  {
    var order := Concat(claims);
    PermutationCovers(order, nVert, x);
    var w := ApplicationToPetsc(order, x);
    r, k := ConcatLocate(claims, w);
    ConcatAt(claims, r, k);
    ClaimedVertexNewId(claims, r, k);
    MovedCoordinatesAt(coords, claims[r], k);
  }
}
