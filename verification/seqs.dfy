/** Sequence vocabulary shared by the mesh pipeline: sums, concatenation of
    per-rank lists, occurrence counts, first-index lookup, permutations and
    the block scatter/gather used to move fixed-size records between ranks. */
module Seqs {

  /** Sum of a sequence, accumulated left to right. */
  function Sum(s: seq<int>): int
  {
    if |s| == 0 then 0 else Sum(s[..|s| - 1]) + s[|s| - 1]
  }

  lemma SumStep(s: seq<int>, k: nat)
    requires k < |s|
    ensures Sum(s[..k + 1]) == Sum(s[..k]) + s[k]
  {
    assert s[..k + 1][..k] == s[..k];
  }

  /** Prefix sums of a non-negative sequence grow with the prefix. */
  lemma {:induction false} SumPrefixMono(s: seq<int>, j: nat, k: nat)
    requires j <= k <= |s|
    requires forall i :: 0 <= i < |s| ==> s[i] >= 0
    ensures Sum(s[..j]) <= Sum(s[..k])
    decreases k - j
  {
    if j < k {
      SumStep(s, k - 1);
      SumPrefixMono(s, j, k - 1);
    }
  }

  /** Concatenation of per-rank lists in rank order. */
  function Concat<T>(ss: seq<seq<T>>): seq<T>
  {
    if |ss| == 0 then [] else Concat(ss[..|ss| - 1]) + ss[|ss| - 1]
  }

  /** Where rank r's list starts inside Concat(ss). */
  function Offset<T>(ss: seq<seq<T>>, r: nat): nat
    requires r <= |ss|
  {
    |Concat(ss[..r])|
  }

  function Lengths<T>(ss: seq<seq<T>>): (ls: seq<int>)
    ensures |ls| == |ss|
    ensures forall r :: 0 <= r < |ss| ==> ls[r] == |ss[r]|
  {
    seq(|ss|, r requires 0 <= r < |ss| => |ss[r]|)
  }

  lemma ConcatStep<T>(ss: seq<seq<T>>, r: nat)
    requires r < |ss|
    ensures Concat(ss[..r + 1]) == Concat(ss[..r]) + ss[r]
  {
    assert ss[..r + 1][..r] == ss[..r];
  }

  lemma {:induction false} ConcatSplit<T>(ss: seq<seq<T>>, r: nat)
    requires r <= |ss|
    ensures Concat(ss) == Concat(ss[..r]) + Concat(ss[r..])
  {
    if r < |ss| {
      var n := |ss| - 1;
      ConcatSplit(ss[..n], r);
      assert ss[..n][..r] == ss[..r];
      assert ss[r..][..|ss[r..]| - 1] == ss[..n][r..];
    } else {
      assert ss[..r] == ss;
    }
  }

  /** The length of a concatenation is the sum of the lengths, and every
      offset is the sum of the lengths of the lists before it. */
  lemma {:induction false} ConcatLength<T>(ss: seq<seq<T>>)
    ensures |Concat(ss)| == Sum(Lengths(ss))
  {
    if |ss| > 0 {
      var n := |ss| - 1;
      ConcatLength(ss[..n]);
      assert Lengths(ss)[..n] == Lengths(ss[..n]);
    }
  }

  lemma OffsetIsSum<T>(ss: seq<seq<T>>, r: nat)
    requires r <= |ss|
    ensures Offset(ss, r) == Sum(Lengths(ss)[..r])
  {
    ConcatLength(ss[..r]);
    assert Lengths(ss[..r]) == Lengths(ss)[..r];
  }

  /** Rank r's list sits in Concat(ss) at [Offset(ss, r), Offset(ss, r + 1)). */
  lemma ConcatSlice<T>(ss: seq<seq<T>>, r: nat)
    requires r < |ss|
    ensures Offset(ss, r + 1) == Offset(ss, r) + |ss[r]| <= |Concat(ss)|
    ensures Concat(ss)[Offset(ss, r)..Offset(ss, r + 1)] == ss[r]
  {
    ConcatStep(ss, r);
    ConcatSplit(ss, r + 1);
  }

  lemma ConcatAt<T>(ss: seq<seq<T>>, r: nat, k: nat)
    requires r < |ss| && k < |ss[r]|
    ensures Offset(ss, r) + k < |Concat(ss)|
    ensures Concat(ss)[Offset(ss, r) + k] == ss[r][k]
  {
    ConcatSlice(ss, r);
    assert Concat(ss)[Offset(ss, r)..Offset(ss, r + 1)][k] == ss[r][k];
  }

  /** The concatenation is within [0, n) exactly when every list is. */
  lemma ConcatInRange(ss: seq<seq<int>>, n: int)
    ensures InRange(Concat(ss), n) <==> forall r :: 0 <= r < |ss| ==> InRange(ss[r], n)
  {
    if InRange(Concat(ss), n) {
      forall r, k | 0 <= r < |ss| && 0 <= k < |ss[r]|
        ensures 0 <= ss[r][k] < n
      {
        ConcatAt(ss, r, k);
      }
    }
    if forall r :: 0 <= r < |ss| ==> InRange(ss[r], n) {
      forall g | 0 <= g < |Concat(ss)|
        ensures 0 <= Concat(ss)[g] < n
      {
        var r, k := ConcatLocate(ss, g);
        ConcatAt(ss, r, k);
      }
    }
  }

  /** Every position of Concat(ss) belongs to exactly one rank's list. */
  lemma {:induction false} ConcatLocate<T>(ss: seq<seq<T>>, g: nat)
    returns (r: nat, k: nat)
    requires g < |Concat(ss)|
    ensures r < |ss| && k < |ss[r]| && g == Offset(ss, r) + k
  {
    var n := |ss| - 1;
    ConcatStep(ss, n);
    assert ss[..n + 1] == ss;
    if g < |Concat(ss[..n])| {
      r, k := ConcatLocate(ss[..n], g);
      assert ss[..n][..r] == ss[..r];
    } else {
      r, k := n, g - |Concat(ss[..n])|;
    }
  }

  /** Lists of the same lengths concatenate to the same length. */
  lemma {:induction false} ConcatSameShape<T, U>(a: seq<seq<T>>, b: seq<seq<U>>)
    requires |a| == |b| && forall r :: 0 <= r < |a| ==> |a[r]| == |b[r]|
    ensures |Concat(a)| == |Concat(b)|
  {
    if |a| > 0 {
      var n := |a| - 1;
      ConcatSameShape(a[..n], b[..n]);
    }
  }

  lemma ConcatAppend<T>(ss: seq<seq<T>>, a: seq<T>)
    ensures Concat(ss + [a]) == Concat(ss) + a
  {
    assert (ss + [a])[..|ss|] == ss;
  }

  /** Number of occurrences of x in s. */
  function Count(s: seq<int>, x: int): nat
  {
    if |s| == 0 then 0
    else Count(s[..|s| - 1], x) + (if s[|s| - 1] == x then 1 else 0)
  }

  lemma CountStep(s: seq<int>, k: nat, x: int)
    requires k < |s|
    ensures Count(s[..k + 1], x) == Count(s[..k], x) + (if s[k] == x then 1 else 0)
  {
    assert s[..k + 1][..k] == s[..k];
  }

  lemma {:induction false} CountPrefixMono(s: seq<int>, j: nat, k: nat, x: int)
    requires j <= k <= |s|
    ensures Count(s[..j], x) <= Count(s[..k], x)
    decreases k - j
  {
    if j < k {
      CountStep(s, k - 1, x);
      CountPrefixMono(s, j, k - 1, x);
    }
  }

  /** All values lie in [0, n). */
  ghost predicate InRange(s: seq<int>, n: int)
  {
    forall i :: 0 <= i < |s| ==> 0 <= s[i] < n
  }

  /** No value occurs twice. */
  ghost predicate NoDup<T>(s: seq<T>)
  {
    forall i, j :: 0 <= i < j < |s| ==> s[i] != s[j]
  }

  /** s lists every id of [0, n) exactly once. */
  ghost predicate IsPermutation(s: seq<int>, n: int)
  {
    |s| == n && InRange(s, n) && NoDup(s)
  }

  /** Index of the first occurrence of x in s, or |s| when x is absent. */
  function IndexOf<T(==)>(s: seq<T>, x: T): (i: nat)
    ensures i <= |s|
    ensures i < |s| ==> s[i] == x
    ensures forall j :: 0 <= j < i ==> s[j] != x
  {
    if |s| == 0 then 0
    else if s[0] == x then 0
    else 1 + IndexOf(s[1..], x)
  }

  lemma IndexOfDistinct<T>(s: seq<T>, i: nat)
    requires NoDup(s) && i < |s|
    ensures IndexOf(s, s[i]) == i
  {
  }

  /** The ids [0, n) as a set. */
  function RangeSet(n: int): (r: set<int>)
    ensures forall x :: x in r <==> 0 <= x < n
    decreases n
  {
    if n <= 0 then {} else RangeSet(n - 1) + {n - 1}
  }

  lemma {:induction false} RangeSetSize(n: nat)
    ensures |RangeSet(n)| == n
  {
    if n > 0 {
      RangeSetSize(n - 1);
    }
  }

  /** A duplicate-free sequence drawn from S is no longer than S is large. */
  lemma {:induction false} DistinctBound(s: seq<int>, S: set<int>)
    requires NoDup(s)
    requires forall i :: 0 <= i < |s| ==> s[i] in S
    ensures |s| <= |S|
  {
    if |s| > 0 {
      var n := |s| - 1;
      DistinctBound(s[..n], S - {s[n]});
    }
  }

  /** Pigeonhole: a permutation of [0, n) hits every id of [0, n). */
  lemma PermutationCovers(s: seq<int>, n: int, v: int)
    requires IsPermutation(s, n)
    requires 0 <= v < n
    ensures v in s
  {
    if v !in s {
      RangeSetSize(n);
      DistinctBound(s, RangeSet(n) - {v});
    }
  }

  /** Every entry multiplied by f (the in-place `idx[i] *= bs`). */
  function Scaled(s: seq<int>, f: int): (r: seq<int>)
    ensures |r| == |s|
  {
    seq(|s|, i requires 0 <= i < |s| => f * s[i])
  }

  function Zeros(n: nat): (r: seq<int>)
    ensures |r| == n && forall i :: 0 <= i < n ==> r[i] == 0
  {
    seq(n, _ => 0)
  }

  lemma MulStep(bs: nat, n: nat)
    ensures bs * (n + 1) == bs * n + bs
  {
  }

  lemma {:induction false} MulMono(bs: nat, i: nat, n: nat)
    requires i < n
    ensures bs * i + bs <= bs * n
  {
    MulStep(bs, n - 1);
    if i < n - 1 {
      MulMono(bs, i, n - 1);
    }
  }

  /** A window of a window is a window of the whole. */
  lemma SliceOfSlice<T>(s: seq<T>, a: nat, b: nat, i: nat, j: nat)
    requires a <= b <= |s| && i <= j <= b - a
    ensures s[a..b][i..j] == s[a + i..a + j]
  {
    var w := s[a..b];
    forall x | 0 <= x < j - i
      ensures w[i..j][x] == s[a + i..a + j][x]
    {
      assert w[i..j][x] == w[i + x] == s[a + i + x];
    }
  }

  /** The k-th record of size bs in a flat array. */
  function Block<T>(s: seq<T>, k: nat, bs: nat): seq<T>
    requires bs * k + bs <= |s|
  {
    s[bs * k..bs * k + bs]
  }

  /** The consecutive records of size bs of a flat array. */
  function Blocks<T>(s: seq<T>, bs: nat): seq<seq<T>>
    decreases |s|
  {
    if bs == 0 || |s| < bs then [] else [s[..bs]] + Blocks(s[bs..], bs)
  }

  lemma {:induction false} BlocksAt<T>(s: seq<T>, bs: nat, n: nat, i: nat)
    requires bs > 0 && |s| == bs * n && i < n
    ensures |Blocks(s, bs)| == n
    ensures bs * i + bs <= |s|
    ensures Blocks(s, bs)[i] == Block(s, i, bs)
  {
    MulStep(bs, n - 1);
    MulMono(bs, i, n);
    var rest := s[bs..];
    assert |rest| == bs * (n - 1);
    assert Blocks(s, bs) == [s[..bs]] + Blocks(rest, bs);
    if n == 1 {
      assert rest == [];
      assert bs * i == 0;
    } else if i == 0 {
      BlocksAt(rest, bs, n - 1, 0);
      assert bs * i == 0;
    } else {
      BlocksAt(rest, bs, n - 1, i - 1);
      BlockOfRest(s, bs, i);
    }
  }

  /** Record i of s is record i - 1 of what follows the first record. */
  lemma BlockOfRest<T>(s: seq<T>, bs: nat, i: nat)
    requires 0 < i && bs * i + bs <= |s|
    ensures bs <= |s| && bs * (i - 1) + bs <= |s| - bs
    ensures Block(s[bs..], i - 1, bs) == Block(s, i, bs)
  {
    MulStep(bs, i - 1);
    var k := bs * (i - 1);
    assert bs * i == k + bs;
    var a, b := s[bs..][k..k + bs], s[k + bs..k + bs + bs];
    assert |a| == |b| == bs;
    forall x | 0 <= x < bs
      ensures a[x] == b[x]
    {
      assert a[x] == s[bs + k + x];
    }
  }

  /** A flat array of n records of size bs splits into n records of size bs,
      each with entries from the array. */
  lemma BlocksShape<T>(s: seq<T>, bs: nat, n: nat)
    requires bs > 0 && |s| == bs * n
    ensures |Blocks(s, bs)| == n
    ensures forall i :: 0 <= i < n ==> |Blocks(s, bs)[i]| == bs
    ensures forall i, k :: 0 <= i < n && 0 <= k < bs ==> Blocks(s, bs)[i][k] in s
  {
    if n == 0 {
      assert Blocks(s, bs) == [];
    } else {
      BlocksAt(s, bs, n, 0);
      forall i | 0 <= i < n
        ensures |Blocks(s, bs)[i]| == bs
        ensures forall k :: 0 <= k < bs ==> Blocks(s, bs)[i][k] in s
      {
        BlocksAt(s, bs, n, i);
        forall k | 0 <= k < bs
          ensures Blocks(s, bs)[i][k] in s
        {
          assert Blocks(s, bs)[i][k] == s[bs * i + k];
        }
      }
    }
  }

  /** Blocks placed at `starts` do not overlap. */
  ghost predicate Disjoint<T>(starts: seq<int>, blocks: seq<seq<T>>)
    requires |starts| == |blocks|
  {
    forall i, j :: 0 <= i < j < |starts| ==>
      starts[i] + |blocks[i]| <= starts[j] || starts[j] + |blocks[j]| <= starts[i]
  }

  ghost predicate BlocksFit<T>(starts: seq<int>, blocks: seq<seq<T>>, len: int)
    requires |starts| == |blocks|
  {
    forall i :: 0 <= i < |starts| ==> 0 <= starts[i] && starts[i] + |blocks[i]| <= len
  }

  /** Personalised block scatter: blocks[i] is written over `dst` at
      position starts[i], in order (insert mode). */
  function ScatterBlocks<T>(dst: seq<T>, starts: seq<int>, blocks: seq<seq<T>>): (r: seq<T>)
    requires |starts| == |blocks|
    requires BlocksFit(starts, blocks, |dst|)
    ensures |r| == |dst|
  {
    if |starts| == 0 then dst
    else
      var n := |starts| - 1;
      var prev := ScatterBlocks(dst, starts[..n], blocks[..n]);
      prev[..starts[n]] + blocks[n] + prev[starts[n] + |blocks[n]|..]
  }

  /** Overwriting [at, at + |blk|) leaves a non-overlapping window intact. */
  lemma WriteKeeps<T>(prev: seq<T>, at: int, blk: seq<T>, lo: int, len: nat)
    requires 0 <= at && at + |blk| <= |prev|
    requires 0 <= lo && lo + len <= |prev|
    requires lo + len <= at || at + |blk| <= lo
    ensures (prev[..at] + blk + prev[at + |blk|..])[lo..lo + len] == prev[lo..lo + len]
  {
    var r := prev[..at] + blk + prev[at + |blk|..];
    assert |r| == |prev|;
    forall x | lo <= x < lo + len
      ensures r[x] == prev[x]
    {
    }
  }

  /** When the blocks do not overlap, each block lands intact. */
  lemma {:induction false} ScatterBlocksLands<T>(dst: seq<T>, starts: seq<int>, blocks: seq<seq<T>>, i: nat)
    requires |starts| == |blocks|
    requires BlocksFit(starts, blocks, |dst|) && Disjoint(starts, blocks)
    requires i < |starts|
    ensures ScatterBlocks(dst, starts, blocks)[starts[i]..starts[i] + |blocks[i]|] == blocks[i]
  {
    var n := |starts| - 1;
    var ss, bb := starts[..n], blocks[..n];
    PrefixFits(starts, blocks, |dst|, n);
    var prev := ScatterBlocks(dst, ss, bb);
    var at := starts[n];
    var whole := prev[..at] + blocks[n] + prev[at + |blocks[n]|..];
    assert ScatterBlocks(dst, starts, blocks) == whole;
    var lo, len := starts[i], |blocks[i]|;
    if i < n {
      assert ss[i] == lo && bb[i] == blocks[i];
      ScatterBlocksLands(dst, ss, bb, i);
      assert lo + len <= at || at + |blocks[n]| <= lo;
      WriteKeeps(prev, at, blocks[n], lo, len);
    } else {
      WriteLands(prev, at, blocks[n]);
    }
  }

  /** The first n blocks fit, and do not overlap when all of them do not. */
  lemma PrefixFits<T>(starts: seq<int>, blocks: seq<seq<T>>, len: int, n: nat)
    requires |starts| == |blocks| && n <= |starts| && BlocksFit(starts, blocks, len)
    ensures BlocksFit(starts[..n], blocks[..n], len)
    ensures Disjoint(starts, blocks) ==> Disjoint(starts[..n], blocks[..n])
  {
  }

  /** The window just overwritten holds the block written. */
  lemma WriteLands<T>(prev: seq<T>, at: int, blk: seq<T>)
    requires 0 <= at && at + |blk| <= |prev|
    ensures (prev[..at] + blk + prev[at + |blk|..])[at..at + |blk|] == blk
  {
    var r := prev[..at] + blk + prev[at + |blk|..];
    assert r[at..at + |blk|] == blk;
  }

  /** Scattering values from [0, n) over values from [0, n) stays in [0, n). */
  lemma {:induction false} ScatterBlocksInRange(dst: seq<int>, starts: seq<int>, blocks: seq<seq<int>>, n: int)
    requires |starts| == |blocks|
    requires BlocksFit(starts, blocks, |dst|)
    requires InRange(dst, n) && forall i :: 0 <= i < |blocks| ==> InRange(blocks[i], n)
    ensures InRange(ScatterBlocks(dst, starts, blocks), n)
  {
    if |starts| > 0 {
      var m := |starts| - 1;
      assert BlocksFit(starts[..m], blocks[..m], |dst|);
      ScatterBlocksInRange(dst, starts[..m], blocks[..m], n);
      var prev := ScatterBlocks(dst, starts[..m], blocks[..m]);
      var r := prev[..starts[m]] + blocks[m] + prev[starts[m] + |blocks[m]|..];
      forall x | 0 <= x < |r|
        ensures 0 <= r[x] < n
      {
        if x < starts[m] {
          assert r[x] == prev[x];
        } else if x < starts[m] + |blocks[m]| {
          assert r[x] == blocks[m][x - starts[m]];
        } else {
          assert r[x] == prev[x];
        }
      }
    }
  }

  /** Every block of size bs at `starts` lies inside [0, len). */
  ghost predicate Fits(starts: seq<int>, bs: nat, len: int)
  {
    forall i :: 0 <= i < |starts| ==> 0 <= starts[i] && starts[i] + bs <= len
  }

  /** Block gather: record k of the result is the block of `src` at starts[k]. */
  function GatherBlocks<T>(src: seq<T>, starts: seq<int>, bs: nat): (r: seq<T>)
    requires Fits(starts, bs, |src|)
    ensures |r| == bs * |starts|
  {
    if |starts| == 0 then []
    else
      var n := |starts| - 1;
      MulStep(bs, n);
      GatherBlocks(src, starts[..n], bs) + src[starts[n]..starts[n] + bs]
  }

  lemma {:induction false} GatherBlocksAt<T>(src: seq<T>, starts: seq<int>, bs: nat, k: nat)
    requires Fits(starts, bs, |src|)
    requires k < |starts|
    ensures bs * k + bs <= bs * |starts|
    ensures Block(GatherBlocks(src, starts, bs), k, bs) == src[starts[k]..starts[k] + bs]
  {
    var n := |starts| - 1;
    MulStep(bs, n);
    MulMono(bs, k, n + 1);
    if k < n {
      MulMono(bs, k, n);
      GatherBlocksAt(src, starts[..n], bs, k);
    }
  }

  lemma {:induction false} GatherBlocksAppend<T>(src: seq<T>, a: seq<int>, b: seq<int>, bs: nat)
    requires Fits(a, bs, |src|) && Fits(b, bs, |src|)
    ensures Fits(a + b, bs, |src|)
    ensures GatherBlocks(src, a + b, bs) == GatherBlocks(src, a, bs) + GatherBlocks(src, b, bs)
  {
    if |b| > 0 {
      var n := |b| - 1;
      GatherBlocksAppend(src, a, b[..n], bs);
      assert (a + b)[..|a + b| - 1] == a + b[..n];
    } else {
      assert a + b == a;
    }
  }
}
