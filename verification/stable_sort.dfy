/**
  A stable sort in descending order of a real-valued key, standing in for
  `Array.prototype.sort` called with the comparator `(a, b) => key(b) - key(a)`.
  Section 22.1.3.27 of ECMA-262, 10th edition (2019), requires that sort to be stable, and
  `SortedStableIsUnique` shows that sortedness plus stability pins the result down,
  so the insertion sort used here yields what every conforming engine yields.
 */
module StableSort {
  import opened Seqs

  /** No element is followed by one with a larger key. */
  predicate SortedDesc<T>(s: seq<T>, key: T -> real) {
    forall i, j :: 0 <= i < j < |s| ==> key(s[i]) >= key(s[j])
  }

  /** The subsequence of `s` made of the elements whose key is `k`. */
  function KeyClass<T>(s: seq<T>, key: T -> real, k: real): (r: seq<T>)
    ensures forall i :: 0 <= i < |r| ==> key(r[i]) == k && r[i] in s
  {
    if |s| == 0 then []
    else (if key(s[0]) == k then [s[0]] else []) + KeyClass(s[1..], key, k)
  }

  /** Elements of equal key appear in the same relative order in `a` as in `b`. */
  ghost predicate SameKeyClasses<T>(a: seq<T>, b: seq<T>, key: T -> real) {
    forall k :: KeyClass(a, key, k) == KeyClass(b, key, k)
  }

  /** The comparator the source hands to `sort`: negative when `a` must come first. */
  function Compare<T>(key: T -> real, a: T, b: T): real {
    key(b) - key(a)
  }

  /**
    Inserts `x` in front of the first element it does not compare after, so `x`
    lands before every element of equal key.
   */
  function Insert<T>(x: T, s: seq<T>, key: T -> real): (r: seq<T>)
    ensures |r| == |s| + 1
    ensures multiset(r) == multiset(s) + multiset{x}
    ensures forall i :: 0 <= i < |r| ==> r[i] == x || r[i] in s
  {
    if |s| == 0 || Compare(key, x, s[0]) <= 0.0 then [x] + s
    else
      assert s == [s[0]] + s[1..];
      [s[0]] + Insert(x, s[1..], key)
  }

  /** Inserting into a descending sequence keeps it descending. */
  lemma {:induction false} InsertSorted<T>(x: T, s: seq<T>, key: T -> real)
    requires SortedDesc(s, key)
    ensures SortedDesc(Insert(x, s, key), key)
  {
    if |s| > 0 && Compare(key, x, s[0]) > 0.0 {
      var rest := Insert(x, s[1..], key);
      InsertSorted(x, s[1..], key);
      forall i | 0 <= i < |rest| ensures key(rest[i]) <= key(s[0]) {
        if rest[i] != x {
          var j :| 0 <= j < |s[1..]| && s[1..][j] == rest[i];
          assert s[j + 1] == rest[i];
        }
      }
    }
  }

  /** Insertion sort from the back, so earlier elements are inserted later and win ties. */
  function SortDesc<T>(xs: seq<T>, key: T -> real): (r: seq<T>)
    ensures |r| == |xs|
    ensures multiset(r) == multiset(xs)
    ensures SortedDesc(r, key)
  {
    if |xs| == 0 then []
    else
      assert xs == [xs[0]] + xs[1..];
      var sorted := SortDesc(xs[1..], key);
      InsertSorted(xs[0], sorted, key);
      Insert(xs[0], sorted, key)
  }

  /** Two elements in ascending order of key come out swapped. */
  lemma SortPair<T>(a: T, b: T, key: T -> real)
    requires key(a) < key(b)
    ensures SortDesc([a, b], key) == [b, a]
  {
    assert [a, b][1..] == [b];
    assert [b][1..] == [];
    assert SortDesc([b], key) == [b];
    assert Insert(a, [b], key) == [b, a];
  }

  lemma {:induction false} KeyClassAppend<T>(a: seq<T>, b: seq<T>, key: T -> real, k: real)
    ensures KeyClass(a + b, key, k) == KeyClass(a, key, k) + KeyClass(b, key, k)
  {
    if |a| == 0 {
      assert a + b == b;
    } else {
      assert (a + b)[0] == a[0] && (a + b)[1..] == a[1..] + b;
      KeyClassAppend(a[1..], b, key, k);
    }
  }

  /** An element whose key is `k` shows up in the key class of `k`. */
  lemma {:induction false} KeyClassHasMember<T>(s: seq<T>, key: T -> real, i: int)
    requires 0 <= i < |s|
    ensures |KeyClass(s, key, key(s[i]))| > 0
  {
    if i > 0 {
      KeyClassHasMember(s[1..], key, i - 1);
    }
  }

  /** The key class of a sequence with a known head. */
  lemma KeyClassCons<T>(a: T, s: seq<T>, key: T -> real, k: real)
    ensures KeyClass([a] + s, key, k) == (if key(a) == k then [a] else []) + KeyClass(s, key, k)
  {
    assert ([a] + s)[0] == a && ([a] + s)[1..] == s;
  }

  /** Inserting `x` only affects the key class of `x`'s key, where `x` goes first. */
  lemma {:induction false} InsertKeyClass<T>(x: T, s: seq<T>, key: T -> real, k: real)
    ensures KeyClass(Insert(x, s, key), key, k)
         == (if key(x) == k then [x] else []) + KeyClass(s, key, k)
  {
    if |s| == 0 || Compare(key, x, s[0]) <= 0.0 {
      KeyClassCons(x, s, key, k);
    } else {
      var rest := Insert(x, s[1..], key);
      assert Insert(x, s, key) == [s[0]] + rest;
      InsertKeyClass(x, s[1..], key, k);
      KeyClassCons(s[0], rest, key, k);
      KeyClassCons(s[0], s[1..], key, k);
      assert [s[0]] + s[1..] == s;
      if key(x) == k {
        assert key(s[0]) != k;
        assert KeyClass(s, key, k) == KeyClass(s[1..], key, k);
      } else {
        assert KeyClass(rest, key, k) == KeyClass(s[1..], key, k);
      }
    }
  }

  /** The sort is stable: within each key, the input order survives. */
  lemma {:induction false} SortDescStable<T>(xs: seq<T>, key: T -> real)
    ensures SameKeyClasses(SortDesc(xs, key), xs, key)
  {
    if |xs| > 0 {
      SortDescStable(xs[1..], key);
      forall k ensures KeyClass(SortDesc(xs, key), key, k) == KeyClass(xs, key, k) {
        InsertKeyClass(xs[0], SortDesc(xs[1..], key), key, k);
      }
    }
  }

  /** The first element of a descending sequence carries the largest key. */
  lemma HeadIsLargest<T>(s: seq<T>, key: T -> real, y: T)
    requires SortedDesc(s, key) && |s| > 0 && y in s
    ensures key(y) <= key(s[0])
  {
    var j :| 0 <= j < |s| && s[j] == y;
    if j > 0 {
      assert key(s[0]) >= key(s[j]);
    }
  }

  /**
    Two descending sequences with the same key classes are equal: sortedness
    fixes the order between keys and the key classes fix the order within one.
   */
  lemma {:induction false} SortedStableIsUnique<T>(a: seq<T>, b: seq<T>, key: T -> real)
    requires SortedDesc(a, key) && SortedDesc(b, key)
    requires SameKeyClasses(a, b, key)
    ensures a == b
    decreases |a| + |b|
  {
    if |a| == 0 && |b| == 0 {
    } else if |a| == 0 {
      KeyClassHasMember(b, key, 0);
    } else if |b| == 0 {
      KeyClassHasMember(a, key, 0);
    } else {
      var ka, kb := key(a[0]), key(b[0]);
      KeyClassHasMember(b, key, 0);
      var ya := KeyClass(a, key, kb)[0];
      HeadIsLargest(a, key, ya);
      KeyClassHasMember(a, key, 0);
      var yb := KeyClass(b, key, ka)[0];
      HeadIsLargest(b, key, yb);
      assert ka == kb;
      assert a[0] == KeyClass(a, key, ka)[0] == KeyClass(b, key, ka)[0] == b[0];
      forall k ensures KeyClass(a[1..], key, k) == KeyClass(b[1..], key, k) {
        var ca, cb := KeyClass(a, key, k), KeyClass(b, key, k);
        assert ca == cb;
        if k == ka {
          assert ca == [a[0]] + KeyClass(a[1..], key, k);
          assert cb == [b[0]] + KeyClass(b[1..], key, k);
          assert KeyClass(a[1..], key, k) == ca[1..];
        } else {
          assert ca == [] + KeyClass(a[1..], key, k) == KeyClass(a[1..], key, k);
          assert cb == [] + KeyClass(b[1..], key, k) == KeyClass(b[1..], key, k);
        }
      }
      SortedStableIsUnique(a[1..], b[1..], key);
      assert a == [a[0]] + a[1..] && b == [b[0]] + b[1..];
    }
  }

  /**
    Whatever order a conforming stable sort produces, it is the one `SortDesc` produces.
   */
  lemma SortSpecDeterminesResult<T>(xs: seq<T>, ys: seq<T>, key: T -> real)
    requires SortedDesc(ys, key) && SameKeyClasses(ys, xs, key)
    ensures ys == SortDesc(xs, key)
  {
    SortDescStable(xs, key);
    SortedStableIsUnique(ys, SortDesc(xs, key), key);
  }

  /** Cutting a sequence short cuts each key class short: what remains is a prefix of it. */
  lemma KeyClassOfPrefix<T>(s: seq<T>, key: T -> real, k: real, n: nat)
    requires n <= |s|
    ensures KeyClass(s[..n], key, k) <= KeyClass(s, key, k)
  {
    assert s == s[..n] + s[n..];
    KeyClassAppend(s[..n], s[n..], key, k);
  }

  /** Cutting a descending sequence short drops nothing that ranks above what is kept. */
  lemma TakeDominates<T>(s: seq<T>, key: T -> real, n: nat, y: T)
    requires SortedDesc(s, key)
    requires y in multiset(s) - multiset(Take(s, n))
    ensures forall i :: 0 <= i < |Take(s, n)| ==> key(y) <= key(Take(s, n)[i])
  {
    var m := |Take(s, n)|;
    assert Take(s, n) == s[..m];
    DropPrefixMultiset(s, m);
    var j :| m <= j < |s| && s[j] == y;
  }

  /** The first `n` elements of a descending sequence are descending. */
  lemma SortedTake<T>(s: seq<T>, key: T -> real, n: nat)
    requires SortedDesc(s, key)
    ensures SortedDesc(Take(s, n), key)
  {
    var m := |Take(s, n)|;
    assert Take(s, n) == s[..m];
  }
}
