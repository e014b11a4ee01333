/** The ring that decides which rank owns which vertex. A bit mask of the
    vertices already claimed travels from rank 0 to rank size - 1. Every
    rank but the last scans the vertex references of its own elements
    (element by element, corner by corner) and claims each id not yet
    marked, marking it, until it holds n_vert / size ids; the check comes
    after the append, so it always stops after at least one claim. The last
    rank claims every id still unmarked, in increasing order. */
module VertexOwnership {
  import opened Seqs

  /** Where one rank's scan stands: the mask as it is now and the ids
      claimed so far, in claim order. */
  datatype Scan = Scan(mask: seq<bool>, claimed: seq<int>)

  /** The scan has left its loop: the append that brought the count to the
      quota has happened. The quota is tested only after an append, so a
      quota of 0 still lets one id through. */
  predicate Stopped(claimed: seq<int>, nmax: int)
  {
    |claimed| > 0 && |claimed| >= nmax
  }

  /** A non-last rank's claim scan over its references `refs`, starting from
      the mask it received. */
  function ScanClaims(mask: seq<bool>, refs: seq<int>, nmax: int): (s: Scan)
    requires InRange(refs, |mask|)
    ensures |s.mask| == |mask|
  {
    if |refs| == 0 then Scan(mask, [])
    else
      var n := |refs| - 1;
      assert InRange(refs[..n], |mask|) by {
        forall i | 0 <= i < n ensures 0 <= refs[..n][i] < |mask| {
          assert refs[..n][i] == refs[i];
        }
      }
      var prev := ScanClaims(mask, refs[..n], nmax);
      var v := refs[n];
      if Stopped(prev.claimed, nmax) || prev.mask[v] then prev
      else Scan(prev.mask[v := true], prev.claimed + [v])
  }

  lemma PrefixInRange(refs: seq<int>, n: int, k: nat)
    requires InRange(refs, n) && k <= |refs|
    ensures InRange(refs[..k], n)
  {
    assert forall i :: 0 <= i < k ==> refs[..k][i] == refs[i];
  }

  /** The mask only gains bits, and what it gains is exactly what was claimed:
      a claimed id is one of the rank's references that was unmarked, no id
      is claimed twice, and at most max(nmax, 1) ids are claimed. */
  lemma {:induction false} ScanSound(mask: seq<bool>, refs: seq<int>, nmax: int)
    requires InRange(refs, |mask|)
    ensures forall v :: 0 <= v < |mask| ==>
              (ScanClaims(mask, refs, nmax).mask[v] <==> mask[v] || v in ScanClaims(mask, refs, nmax).claimed)
    ensures forall k :: 0 <= k < |ScanClaims(mask, refs, nmax).claimed| ==>
              ScanClaims(mask, refs, nmax).claimed[k] in refs &&
              0 <= ScanClaims(mask, refs, nmax).claimed[k] < |mask| &&
              !mask[ScanClaims(mask, refs, nmax).claimed[k]]
    ensures NoDup(ScanClaims(mask, refs, nmax).claimed)
    ensures |ScanClaims(mask, refs, nmax).claimed| <= (if nmax < 1 then 1 else nmax)
  {
    if |refs| > 0 {
      var n := |refs| - 1;
      PrefixInRange(refs, |mask|, n);
      ScanSound(mask, refs[..n], nmax);
      var prev := ScanClaims(mask, refs[..n], nmax);
      assert forall x :: x in refs[..n] ==> x in refs;
    }
  }

  /** Marking a fresh id adds one to the number of marked ids. */
  function CountTrue(m: seq<bool>): nat
  {
    if |m| == 0 then 0 else CountTrue(m[..|m| - 1]) + (if m[|m| - 1] then 1 else 0)
  }

  lemma {:induction false} CountTrueSet(m: seq<bool>, v: nat)
    requires v < |m| && !m[v]
    ensures CountTrue(m[v := true]) == CountTrue(m) + 1
  {
    var n := |m| - 1;
    assert m[v := true][..n] == if v == n then m[..n] else m[..n][v := true];
    if v < n {
      CountTrueSet(m[..n], v);
    }
  }

  /** Every claim sets one more bit. */
  lemma {:induction false} ScanCount(mask: seq<bool>, refs: seq<int>, nmax: int)
    requires InRange(refs, |mask|)
    ensures CountTrue(ScanClaims(mask, refs, nmax).mask) == CountTrue(mask) + |ScanClaims(mask, refs, nmax).claimed|
  {
    if |refs| > 0 {
      var n := |refs| - 1;
      PrefixInRange(refs, |mask|, n);
      ScanCount(mask, refs[..n], nmax);
      var prev := ScanClaims(mask, refs[..n], nmax);
      if !Stopped(prev.claimed, nmax) && !prev.mask[refs[n]] {
        CountTrueSet(prev.mask, refs[n]);
      }
    }
  }

  /** A scan that did not reach its quota skipped nothing: every reference
      is marked at the end. */
  lemma {:induction false} ScanComplete(mask: seq<bool>, refs: seq<int>, nmax: int)
    requires InRange(refs, |mask|)
    requires !Stopped(ScanClaims(mask, refs, nmax).claimed, nmax)
    ensures forall i :: 0 <= i < |refs| ==> ScanClaims(mask, refs, nmax).mask[refs[i]]
  {
    if |refs| > 0 {
      var n := |refs| - 1;
      PrefixInRange(refs, |mask|, n);
      var prev := ScanClaims(mask, refs[..n], nmax);
      assert !Stopped(prev.claimed, nmax);
      ScanComplete(mask, refs[..n], nmax);
      assert forall i :: 0 <= i < n ==> refs[..n][i] == refs[i];
    }
  }

  /** Once stopped, the rest of the references are never looked at. */
  lemma {:induction false} StoppedStays(mask: seq<bool>, refs: seq<int>, nmax: int, k: nat)
    requires InRange(refs, |mask|) && k <= |refs|
    requires InRange(refs[..k], |mask|)
    requires Stopped(ScanClaims(mask, refs[..k], nmax).claimed, nmax)
    ensures ScanClaims(mask, refs, nmax) == ScanClaims(mask, refs[..k], nmax)
    decreases |refs| - k
  {
    if k < |refs| {
      var n := |refs| - 1;
      PrefixInRange(refs, |mask|, n);
      assert refs[..n][..k] == refs[..k];
      StoppedStays(mask, refs[..n], nmax, k);
    } else {
      assert refs[..k] == refs;
    }
  }

  /** The ids below k left unmarked in the mask, in increasing order. */
  function UnsetBelow(mask: seq<bool>, k: nat): seq<int>
    requires k <= |mask|
  {
    if k == 0 then [] else UnsetBelow(mask, k - 1) + (if mask[k - 1] then [] else [k - 1])
  }

  /** What the last rank claims: every id still unmarked, in increasing order. */
  function Unclaimed(mask: seq<bool>): seq<int>
  {
    UnsetBelow(mask, |mask|)
  }

  lemma {:induction false} UnsetBelowFacts(mask: seq<bool>, k: nat)
    requires k <= |mask|
    ensures forall v :: v in UnsetBelow(mask, k) <==> 0 <= v < k && !mask[v]
    ensures forall i, j :: 0 <= i < j < |UnsetBelow(mask, k)| ==> UnsetBelow(mask, k)[i] < UnsetBelow(mask, k)[j]
    ensures |UnsetBelow(mask, k)| + CountTrue(mask[..k]) == k
  {
    if k > 0 {
      UnsetBelowFacts(mask, k - 1);
      assert mask[..k][..k - 1] == mask[..k - 1];
      var u := UnsetBelow(mask, k - 1);
      forall i | 0 <= i < |u|
        ensures u[i] < k - 1
      {
        assert u[i] in u;
      }
    }
  }

  /** The last rank's list holds exactly the unmarked ids, increasing (so
      without repeats), and there are n_vert minus the marked ones of them. */
  lemma UnclaimedExact(mask: seq<bool>)
    ensures forall v :: v in Unclaimed(mask) <==> 0 <= v < |mask| && !mask[v]
    ensures forall i, j :: 0 <= i < j < |Unclaimed(mask)| ==> Unclaimed(mask)[i] < Unclaimed(mask)[j]
    ensures NoDup(Unclaimed(mask))
    ensures |Unclaimed(mask)| == |mask| - CountTrue(mask)
  {
    UnsetBelowFacts(mask, |mask|);
    assert mask[..|mask|] == mask;
  }

  /** Every rank's references lie in [0, n_vert). */
  ghost predicate RefsValid(refs: seq<seq<int>>, nVert: nat)
  {
    forall r :: 0 <= r < |refs| ==> InRange(refs[r], nVert)
  }

  /** The mask rank r receives: all clear for rank 0, and for the others the
      mask the previous rank forwarded after its scan. */
  function MaskAfter(refs: seq<seq<int>>, nVert: nat, r: nat): (m: seq<bool>)
    requires RefsValid(refs, nVert) && r < |refs|
    ensures |m| == nVert
  {
    if r == 0 then seq(nVert, _ => false)
    else ScanClaims(MaskAfter(refs, nVert, r - 1), refs[r - 1], nVert / |refs|).mask
  }

  /** The ids rank r ends up owning (`localvert`, `nlocal` of them). */
  function Claims(refs: seq<seq<int>>, nVert: nat, r: nat): seq<int>
    requires RefsValid(refs, nVert) && r < |refs|
  {
    if r < |refs| - 1 then ScanClaims(MaskAfter(refs, nVert, r), refs[r], nVert / |refs|).claimed
    else Unclaimed(MaskAfter(refs, nVert, r))
  }

  function AllClaims(refs: seq<seq<int>>, nVert: nat): (cs: seq<seq<int>>)
    requires RefsValid(refs, nVert)
    ensures |cs| == |refs|
  {
    seq(|refs|, r requires 0 <= r < |refs| => Claims(refs, nVert, r))
  }

  /** a + b has no repeats when neither has and they share nothing. */
  lemma NoDupAppend(a: seq<int>, b: seq<int>)
    requires NoDup(a) && NoDup(b)
    requires forall k :: 0 <= k < |b| ==> b[k] !in a
    ensures NoDup(a + b)
  {
    forall i, j | 0 <= i < j < |a + b|
      ensures (a + b)[i] != (a + b)[j]
    {
      if j >= |a| && i < |a| {
        assert (a + b)[j] == b[j - |a|];
      }
    }
  }

  /** What has travelled round the ring up to rank r: the mask rank r
      receives marks exactly the ids the earlier ranks claimed, those claims
      repeat no id, and there are as many of them as marked bits. */
  lemma {:induction false} RingPrefix(refs: seq<seq<int>>, nVert: nat, r: nat)
    requires RefsValid(refs, nVert) && r < |refs|
    ensures forall v :: 0 <= v < nVert ==>
              (MaskAfter(refs, nVert, r)[v] <==> v in Concat(AllClaims(refs, nVert)[..r]))
    ensures InRange(Concat(AllClaims(refs, nVert)[..r]), nVert)
    ensures NoDup(Concat(AllClaims(refs, nVert)[..r]))
    ensures |Concat(AllClaims(refs, nVert)[..r])| == CountTrue(MaskAfter(refs, nVert, r))
  {
    var cs := AllClaims(refs, nVert);
    if r == 0 {
      assert cs[..0] == [];
      ZeroMask(nVert);
    } else {
      var p := r - 1;
      var m := MaskAfter(refs, nVert, p);
      RingPrefix(refs, nVert, p);
      ConcatStep(cs, p);
      var before := Concat(cs[..p]);
      var mine := ScanClaims(m, refs[p], nVert / |refs|).claimed;
      assert cs[p] == mine;
      ScanSound(m, refs[p], nVert / |refs|);
      ScanCount(m, refs[p], nVert / |refs|);
      NoDupAppend(before, mine);
      assert forall v :: v in before + mine <==> v in before || v in mine;
    }
  }

  lemma {:induction false} ZeroMask(n: nat)
    ensures CountTrue(seq(n, _ => false)) == 0
  {
    if n > 0 {
      ZeroMask(n - 1);
      assert seq(n, _ => false)[..n - 1] == seq(n - 1, _ => false);
    }
  }

  /** Once the last rank has taken the rest, the concatenated claims (rank 0's
      list, then rank 1's, ...) are a permutation of [0, n_vert): the lists
      are pairwise disjoint and cover every vertex, and their lengths add up
      to n_vert. */
  lemma RingPartition(refs: seq<seq<int>>, nVert: nat)
    requires RefsValid(refs, nVert) && |refs| > 0
    ensures IsPermutation(Concat(AllClaims(refs, nVert)), nVert)
    ensures Sum(Lengths(AllClaims(refs, nVert))) == nVert
  {
    var cs := AllClaims(refs, nVert);
    var p := |refs| - 1;
    var m := MaskAfter(refs, nVert, p);
    var before := Concat(cs[..p]);
    var last := Unclaimed(m);
    RingPrefix(refs, nVert, p);
    ConcatStep(cs, p);
    assert cs[..p + 1] == cs;
    assert cs[p] == last;
    assert Concat(cs) == before + last;
    UnclaimedExact(m);
    assert forall k :: 0 <= k < |last| ==> last[k] in last;
    NoDupAppend(before, last);
    AppendInRange(before, last, nVert);
    ConcatLength(cs);
  }

  lemma AppendInRange(a: seq<int>, b: seq<int>, n: int)
    requires InRange(a, n) && InRange(b, n)
    ensures InRange(a + b, n)
  {
  }


  /** Rank r < size - 1 owns only ids its own elements reference, ids nobody
      before it had claimed, at most max(n_vert / size, 1) of them, and the
      mask it forwards is the one it received plus exactly its claims. */
  lemma NonLastClaims(refs: seq<seq<int>>, nVert: nat, r: nat)
    requires RefsValid(refs, nVert) && r < |refs| - 1
    ensures forall k :: 0 <= k < |Claims(refs, nVert, r)| ==>
              Claims(refs, nVert, r)[k] in refs[r] && !MaskAfter(refs, nVert, r)[Claims(refs, nVert, r)[k]]
    ensures |Claims(refs, nVert, r)| <= (if nVert / |refs| < 1 then 1 else nVert / |refs|)
    ensures forall v :: 0 <= v < nVert ==>
              (MaskAfter(refs, nVert, r + 1)[v] <==> MaskAfter(refs, nVert, r)[v] || v in Claims(refs, nVert, r))
  {
    ScanSound(MaskAfter(refs, nVert, r), refs[r], nVert / |refs|);
  }


  /** One more reference that is already marked leaves the scan as it was. */
  lemma ScanSkip(mask: seq<bool>, refs: seq<int>, nmax: int, p: nat)
    requires InRange(refs, |mask|) && p < |refs|
    requires InRange(refs[..p], |mask|)
    requires ScanClaims(mask, refs[..p], nmax).mask[refs[p]]
    ensures InRange(refs[..p + 1], |mask|)
    ensures ScanClaims(mask, refs[..p + 1], nmax) == ScanClaims(mask, refs[..p], nmax)
  {
    PrefixInRange(refs, |mask|, p + 1);
    assert refs[..p + 1][..p] == refs[..p];
  }

  /** One more reference that is unmarked, while the scan runs, is claimed. */
  lemma ScanClaim(mask: seq<bool>, refs: seq<int>, nmax: int, p: nat)
    requires InRange(refs, |mask|) && p < |refs|
    requires InRange(refs[..p], |mask|)
    requires !Stopped(ScanClaims(mask, refs[..p], nmax).claimed, nmax)
    requires !ScanClaims(mask, refs[..p], nmax).mask[refs[p]]
    ensures InRange(refs[..p + 1], |mask|)
    ensures ScanClaims(mask, refs[..p + 1], nmax).mask == ScanClaims(mask, refs[..p], nmax).mask[refs[p] := true]
    ensures ScanClaims(mask, refs[..p + 1], nmax).claimed == ScanClaims(mask, refs[..p], nmax).claimed + [refs[p]]
  {
    PrefixInRange(refs, |mask|, p + 1);
    assert refs[..p + 1][..p] == refs[..p];
  }

  lemma {:induction false} UnsetBelowMono(mask: seq<bool>, i: nat, k: nat)
    requires i <= k <= |mask|
    ensures |UnsetBelow(mask, i)| <= |UnsetBelow(mask, k)|
    decreases k - i
  {
    if i < k {
      UnsetBelowMono(mask, i, k - 1);
    }
  }

}
