/** The integer hash set as its test exercises it: a mutable set of
    integers with a capacity (the number of keys it has room for). The
    hashing, probing and growth policy are not modelled; only what a caller
    can observe: the elements, the size, and a capacity that never drops
    below the size, does not shrink while keys are added, and is at least
    what was last asked for by Resize. */
module HashSet {
  import opened Seqs

  /** The elements of a listing. */
  ghost function SetOf(s: seq<int>): (r: set<int>)
    ensures forall y :: y in r <==> y in s
  {
    set y | y in s
  }

  /** A listing without repeats has as many elements as entries. */
  lemma {:induction false} NoDupSize(s: seq<int>)
    requires NoDup(s)
    ensures |SetOf(s)| == |s|
    decreases |s|
  {
    if |s| > 0 {
      var init := s[..|s| - 1];
      assert NoDup(init);
      NoDupSize(init);
      assert SetOf(s) == SetOf(init) + {s[|s| - 1]};
      assert s[|s| - 1] !in init;
    } else {
      assert SetOf(s) == {};
    }
  }

  /** The listing without x; the other entries keep their order. */
  function Remove(s: seq<int>, x: int): (r: seq<int>)
    ensures forall y :: y in r <==> y in s && y != x
    ensures NoDup(s) ==> NoDup(r) && |r| == |s| - (if x in s then 1 else 0)
    decreases |s|
  {
    if |s| == 0 then []
    else if s[0] == x then Remove(s[1..], x)
    else
      assert NoDup(s) ==> NoDup(s[1..]) && s[0] !in s[1..];
      [s[0]] + Remove(s[1..], x)
  }

  /** A hash set of integers. Its occupied slots, read in slot order, are
      `keys`; `capacity` is how many keys it has room for. The hash
      function decides the slot order, which the model does not fix: new
      keys go last, and no contract below depends on the order. */
  class HSetI {
    var keys: seq<int>
    var capacity: nat

    ghost predicate Valid()
      reads this
    {
      NoDup(keys) && |keys| <= capacity
    }

    /** The set the keys stand for. */
    ghost function Elems(): set<int>
      reads this
    {
      SetOf(keys)
    }

    /** A new, empty set. */
    constructor ()
      ensures Valid() && Elems() == {} && capacity == 0
    {
      keys, capacity := [], 0;
    }

    /** The number of elements. */
    method GetSize() returns (n: nat)
      requires Valid()
      ensures n == |Elems()|
    {
      NoDupSize(keys);
      n := |keys|;
    }

    method GetCapacity() returns (n: nat)
      requires Valid()
      ensures n == capacity && n >= |Elems()|
    {
      NoDupSize(keys);
      n := capacity;
    }

    method Has(x: int) returns (b: bool)
      ensures b <==> x in Elems()
    {
      b := x in keys;
    }

    /** Makes room for at least k elements; the elements stay. */
    method Resize(k: nat)
      requires Valid()
      modifies this
      ensures Valid() && keys == old(keys)
      ensures capacity >= k && capacity >= old(capacity)
    {
      if capacity < k {
        capacity := k;
      }
    }

    /** Inserts x (no effect when present); grows when full. */
    method Add(x: int)
      requires Valid()
      modifies this
      ensures Valid() && Elems() == old(Elems()) + {x} && capacity >= old(capacity)
      ensures |keys| == |old(keys)| + (if x in old(Elems()) then 0 else 1)
    {
      if x !in keys {
        assert NoDup(keys + [x]);
        keys := keys + [x];
        if |keys| > capacity {
          capacity := 2 * capacity + 1;
        }
      }
      assert Elems() == old(Elems()) + {x};
    }

    /** Removes x; deleting an absent key is not an error. */
    method Del(x: int)
      requires Valid()
      modifies this
      ensures Valid() && Elems() == old(Elems()) - {x} && capacity == old(capacity)
      ensures |keys| == |old(keys)| - (if x in old(Elems()) then 1 else 0)
    {
      keys := Remove(keys, x);
      assert Elems() == old(Elems()) - {x};
    }

    /** Inserts x and tells whether it was absent. */
    method QueryAdd(x: int) returns (added: bool)
      requires Valid()
      modifies this
      ensures Valid() && Elems() == old(Elems()) + {x} && capacity >= old(capacity)
      ensures added <==> x !in old(Elems())
    {
      added := x !in keys;
      Add(x);
    }

    /** Removes x and tells whether it was present. */
    method QueryDel(x: int) returns (deleted: bool)
      requires Valid()
      modifies this
      ensures Valid() && Elems() == old(Elems()) - {x} && capacity == old(capacity)
      ensures deleted <==> x in old(Elems())
    {
      deleted := x in keys;
      Del(x);
    }

    /** Empties the set and keeps its room. */
    method Clear()
      requires Valid()
      modifies this
      ensures Valid() && Elems() == {} && capacity == old(capacity)
    {
      keys := [];
    }

    /** Empties the set and releases its room; it can be used again. */
    method Reset()
      modifies this
      ensures Valid() && Elems() == {} && capacity == 0
    {
      keys, capacity := [], 0;
    }

    /** Writes every element, once each and in slot order, into
        arr[off .. off + size) and returns off + size; nothing else in arr
        changes. */
    method GetElems(off: nat, arr: array<int>) returns (off': nat)
      requires Valid() && off + |Elems()| <= arr.Length
      modifies arr
      ensures off' == off + |keys| && |keys| == |Elems()|
      ensures forall y :: y in Elems() <==> y in arr[off..off']
      ensures NoDup(arr[off..off'])
      ensures arr[..off] == old(arr[..off]) && arr[off'..] == old(arr[off'..])
    {
      NoDupSize(keys);
      off' := off;
      while off' < off + |keys|
        invariant off <= off' <= off + |keys|
        invariant arr[off..off'] == keys[..off' - off]
        invariant arr[..off] == old(arr[..off]) && arr[off + |keys|..] == old(arr[off + |keys|..])
      {
        arr[off'] := keys[off' - off];
        off' := off' + 1;
      }
      assert keys[..off' - off] == keys;
    }

    /** A new set with the same elements and room. */
    method Duplicate() returns (hd: HSetI)
      requires Valid()
      ensures fresh(hd) && hd.Valid() && hd.Elems() == Elems() && hd.capacity == capacity
    {
      hd := new HSetI();
      hd.keys, hd.capacity := keys, capacity;
    }

    /** Adds every element of `other` (which may be this set) to this one,
        one key at a time in other's slot order. */
    method Update(other: HSetI)
      requires Valid()
      modifies this
      ensures Valid() && Elems() == old(Elems()) + old(other.Elems()) && capacity >= old(capacity)
    {
      var ks := other.keys;
      for i := 0 to |ks|
        invariant Valid() && Elems() == old(Elems()) + SetOf(ks[..i]) && capacity >= old(capacity)
      {
        assert SetOf(ks[..i + 1]) == SetOf(ks[..i]) + {ks[i]} by {
          assert ks[..i + 1] == ks[..i] + [ks[i]];
        }
        Add(ks[i]);
      }
      assert ks[..|ks|] == ks;
    }
  }

  /** Strictly increasing. */
  ghost predicate Increasing(s: seq<int>)
  {
    forall i, j :: 0 <= i < j < |s| ==> s[i] < s[j]
  }

  /** Once sorted, a list holding exactly the numbers lo, lo + 1, ...,
      lo + |s| - 1 reads lo, lo + 1, ... in order: sorting what two disjoint
      fills produced gives 1..2n position by position. */
  lemma {:induction false} IncreasingRange(s: seq<int>, lo: int)
    requires Increasing(s)
    requires forall y :: y in s <==> lo <= y < lo + |s|
    ensures forall i :: 0 <= i < |s| ==> s[i] == lo + i
    decreases |s|
  {
    if |s| > 0 {
      assert s[0] == lo by {
        assert s[0] in s;
        assert lo <= lo < lo + |s|;
        assert lo in s;
        var k :| 0 <= k < |s| && s[k] == lo;
      }
      var t := s[1..];
      forall y
        ensures y in t <==> lo + 1 <= y < lo + 1 + |t|
      {
        if y in t {
          var k :| 0 <= k < |t| && t[k] == y;
          assert s[k + 1] == y && s[0] < s[k + 1];
          assert y in s;
        }
        if lo + 1 <= y < lo + 1 + |t| {
          assert lo <= y < lo + |s|;
          assert y in s;
          var k :| 0 <= k < |s| && s[k] == y;
          assert k != 0;
          assert t[k - 1] == y;
        }
      }
      IncreasingRange(t, lo + 1);
      forall i | 1 <= i < |s|
        ensures s[i] == lo + i
      {
        assert s[i] == t[i - 1];
      }
    }
  }

  /** The numbers lo..hi, as a set. */
  function Range(lo: int, hi: int): (r: set<int>)
    ensures forall y :: y in r <==> lo <= y <= hi
    ensures lo <= hi + 1 ==> |r| == hi - lo + 1
    decreases hi - lo
  {
    if hi < lo then {} else Range(lo, hi - 1) + {hi}
  }

  /** `h` is a well-formed set holding exactly lo..hi, with room for at
      least `room` keys. */
  ghost predicate HoldsRange(h: HSetI, lo: int, hi: int, room: nat)
    reads h
  {
    h.Valid() && h.Elems() == Range(lo, hi) && h.capacity >= room
  }

  /** One turn of the fill (ex41.c:122-123): key i + 1 into `ht`, key
      n + i + 1 into `hd`. */
  method FillTurn(ht: HSetI, hd: HSetI, n: nat, i: nat, ra: nat, rb: nat)
    requires ht != hd && HoldsRange(ht, 1, i, ra) && HoldsRange(hd, n + 1, n + i, rb)
    modifies ht, hd
    ensures HoldsRange(ht, 1, i + 1, ra) && HoldsRange(hd, n + 1, n + i + 1, rb)
  {
    ht.Add(i + 1);
    assert ht.Elems() == Range(1, i + 1);
    hd.Add(i + 1 + n);
    assert hd.Elems() == Range(n + 1, n + i + 1);
  }

  /** Fills `ht` with 1..n and `hd` with n+1..2n, key by key; neither
      loses room. */
  method Fill(ht: HSetI, hd: HSetI, n: nat, ra: nat, rb: nat)
    requires ht != hd && HoldsRange(ht, 1, 0, ra) && HoldsRange(hd, n + 1, n, rb)
    modifies ht, hd
    ensures HoldsRange(ht, 1, n, ra) && HoldsRange(hd, n + 1, n + n, rb)
  {
    for i := 0 to n
      invariant HoldsRange(ht, 1, i, ra) && HoldsRange(hd, n + 1, n + i, rb)
    {
      FillTurn(ht, hd, n, i, ra, rb);
    }
  }

  /** The merge part of the test: two sets resized to n have room for n
      (na, nb), the first has lost none after its fill (filled); filled with
      1..n and n+1..2n and merged into the first, its elements, written into
      an array of 2n slots, are exactly 1..2n, each once, so that sorted
      they read 1, 2, ..., 2n. */
  method MergeScenario(n: nat) returns (size: nat, elems: seq<int>, na: nat, nb: nat, filled: nat)
    ensures na >= n && nb >= n && filled >= na
    ensures size == 2 * n && |elems| == 2 * n && NoDup(elems)
    ensures forall y :: y in elems <==> 1 <= y <= 2 * n
    ensures forall s :: |s| == 2 * n && Increasing(s) && (forall y :: y in s <==> y in elems) ==>
              forall i :: 0 <= i < 2 * n ==> s[i] == i + 1
  {
    var ht := new HSetI();
    var hd := new HSetI();
    ht.Resize(n);
    hd.Resize(n);
    na := ht.GetCapacity();
    nb := hd.GetCapacity();
    assert HoldsRange(ht, 1, 0, na) && HoldsRange(hd, n + 1, n, nb);
    Fill(ht, hd, n, na, nb);
    filled := ht.GetCapacity();
    assert filled >= na >= n && nb >= n;
    ht.Update(hd);
    assert ht.Elems() == Range(1, 2 * n);
    size := ht.GetSize();
    var marray := new int[2 * n];
    var off := ht.GetElems(0, marray);
    elems := marray[..off];
    SortedListing(elems, 2 * n);
  }

  /** Whatever order a listing of exactly 1..m comes in, sorting it gives
      1, 2, ..., m. */
  lemma SortedListing(elems: seq<int>, m: nat)
    requires forall y :: y in elems <==> 1 <= y <= m
    ensures forall s :: |s| == m && Increasing(s) && (forall y :: y in s <==> y in elems) ==>
              forall i :: 0 <= i < m ==> s[i] == i + 1
  {
    forall s | |s| == m && Increasing(s) && (forall y :: y in s <==> y in elems)
      ensures forall i :: 0 <= i < m ==> s[i] == i + 1
    {
      IncreasingRange(s, 1);
    }
  }

  /** Lookups, insertions and deletions on a new set: the checks of the
      test's first part hold of the model. */
  method LookupScenario() returns (ok: bool)
    ensures ok
  {
    var ht := new HSetI();
    var n := ht.GetSize();
    ok := n == 0;
    ht.Resize(0);
    n := ht.GetSize();
    ok := ok && n == 0;
    var has := ht.Has(42);
    ok := ok && !has;
    ht.Add(42);
    n := ht.GetSize();
    has := ht.Has(42);
    ok := ok && n == 1 && has;
    ht.Del(42);
    n := ht.GetSize();
    has := ht.Has(42);
    ok := ok && n == 0 && !has;
    ht.Del(42);
    ht.Del(24);
    n := ht.GetSize();
    ok := ok && n == 0;
  }

  /** Reporting insertions and deletions. */
  method QueryScenario() returns (ok: bool)
    ensures ok
  {
    var ht := new HSetI();
    var flag := ht.QueryAdd(123);
    ok := flag;
    flag := ht.QueryAdd(123);
    ok := ok && !flag;
    flag := ht.QueryDel(123);
    ok := ok && flag;
    flag := ht.QueryDel(123);
    ok := ok && !flag;
  }

  /** Resizing and clearing an empty set, then listing two keys into an
      array of four slots twice: each listing holds 13 and 42 once each,
      the second continues at offset 2, ends at 4 and leaves the first two
      slots alone; a duplicate lists the same two keys. */
  method ListingScenario() returns (ok: bool)
    ensures ok
  {
    var ht := new HSetI();
    ht.Resize(13);
    var n := ht.GetSize();
    ok := n == 0;
    ht.Clear();
    n := ht.GetSize();
    ok := ok && n == 0;
    ht.Add(42);
    ht.Add(13);
    n := ht.GetSize();
    ok := ok && n == 2;
    assert ht.Elems() == {42, 13};
    var arr := new int[4];
    var off := ht.GetElems(0, arr);
    PairListing(arr[0..2], 13, 42);
    ok := ok && off == 2 && SortsTo(arr[0], arr[1], 13, 42);
    ghost var first := arr[..2];
    off := ht.GetElems(off, arr);
    assert arr[..2] == first;
    PairListing(arr[2..4], 13, 42);
    ok := ok && off == 4 && SortsTo(arr[0], arr[1], 13, 42) && SortsTo(arr[2], arr[3], 13, 42);
    var hd := ht.Duplicate();
    n := hd.GetSize();
    off := hd.GetElems(0, arr);
    PairListing(arr[0..2], 13, 42);
    ok := ok && n == 2 && off == 2 && SortsTo(arr[0], arr[1], 13, 42);
  }

  /** A two-entry listing of exactly a and b sorts to (a, b). */
  lemma PairListing(s: seq<int>, a: int, b: int)
    requires |s| == 2 && NoDup(s) && forall y :: y in s <==> y == a || y == b
    ensures SortsTo(s[0], s[1], a, b)
  {
    assert s[0] in s && s[1] in s && a in s && b in s;
  }

  /** The pair (x, y), once sorted, is (a, b). */
  predicate SortsTo(x: int, y: int, a: int, b: int)
  {
    (x == a && y == b) || (x == b && y == a)
  }

  /** Reset empties a set, may be repeated, leaves it usable, and is
      harmless on a set that was just created. */
  method ResetScenario() returns (ok: bool)
    ensures ok
  {
    var ht := new HSetI();
    ht.Add(0);
    var n := ht.GetSize();
    ok := n != 0;
    ht.Reset();
    n := ht.GetSize();
    ok := ok && n == 0;
    ht.Reset();
    n := ht.GetSize();
    ok := ok && n == 0;
    ht.Add(0);
    n := ht.GetSize();
    ok := ok && n != 0;
    var h2 := new HSetI();
    h2.Reset();
    n := h2.GetSize();
    ok := ok && n == 0;
  }
}
