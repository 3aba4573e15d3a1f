/** Sequence helpers with the meaning of the JavaScript array methods the
    components use: `filter`, `find`/`findIndex`, `slice(0, end)` and a
    stable `sort`. */
module Collections {

  datatype Option<T> = None | Some(value: T)

  /** A value, or the message of the error thrown instead. */
  datatype Result<T> = Success(value: T) | Failure(error: string)

  /** `s.filter(p)`: the elements of `s` that satisfy `p`, in their order. */
  function Filter<T>(s: seq<T>, p: T -> bool): (r: seq<T>)
    ensures |r| <= |s|
    ensures forall i :: 0 <= i < |r| ==> r[i] in s && p(r[i])
    ensures forall i :: 0 <= i < |s| && p(s[i]) ==> s[i] in r
    decreases |s|
  {
    if s == [] then []
    else (if p(s[0]) then [s[0]] else []) + Filter(s[1..], p)
  }

  /** Filtering distributes over concatenation; with `FilterSingle` this pins
      down the order of the result completely. */
  lemma {:induction false} FilterAppend<T>(a: seq<T>, b: seq<T>, p: T -> bool)
    ensures Filter(a + b, p) == Filter(a, p) + Filter(b, p)
    decreases |a|
  {
    if a == [] {
      assert a + b == b;
    } else {
      assert (a + b)[0] == a[0];
      assert (a + b)[1..] == a[1..] + b;
      FilterAppend(a[1..], b, p);
    }
  }

  lemma FilterSingle<T>(x: T, p: T -> bool)
    ensures Filter([x], p) == if p(x) then [x] else []
  {
    assert [x][1..] == [];
  }

  /** An element kept by the filter occurs there as often as in the input. */
  lemma {:induction false} FilterMultiset<T>(s: seq<T>, p: T -> bool, x: T)
    ensures multiset(Filter(s, p))[x] == if p(x) then multiset(s)[x] else 0
    decreases |s|
  {
    if s != [] {
      FilterMultiset(s[1..], p, x);
      assert s == [s[0]] + s[1..];
    }
  }

  /** Filtering by `p` and by its negation splits the input in two. */
  lemma {:induction false} FilterComplementCount<T>(s: seq<T>, p: T -> bool)
    ensures |Filter(s, p)| + |Filter(s, x => !p(x))| == |s|
    decreases |s|
  {
    if s != [] {
      FilterComplementCount(s[1..], p);
    }
  }

  /** Two filters commute: the order in which two conditions are applied
      does not matter. */
  lemma {:induction false} FilterCommute<T>(s: seq<T>, p: T -> bool, q: T -> bool)
    ensures Filter(Filter(s, p), q) == Filter(Filter(s, q), p)
    decreases |s|
  {
    if s != [] {
      var head := [s[0]];
      var hp := if p(s[0]) then head else [];
      var hq := if q(s[0]) then head else [];
      FilterAppend(hp, Filter(s[1..], p), q);
      FilterAppend(hq, Filter(s[1..], q), p);
      FilterSingle(s[0], p);
      FilterSingle(s[0], q);
      FilterCommute(s[1..], p, q);
      assert Filter(hp, q) == Filter(hq, p);
    }
  }

  /** If every element satisfies `p`, the filter changes nothing. */
  lemma {:induction false} FilterKeepsAll<T>(s: seq<T>, p: T -> bool)
    requires forall i :: 0 <= i < |s| ==> p(s[i])
    ensures Filter(s, p) == s
    decreases |s|
  {
    if s != [] {
      FilterKeepsAll(s[1..], p);
    }
  }

  /** No element occurs twice. */
  ghost predicate Distinct<T>(s: seq<T>)
  {
    forall i, j :: 0 <= i < j < |s| ==> s[i] != s[j]
  }

  /** Filtering a list without duplicates leaves one without duplicates. */
  lemma {:induction false} FilterDistinct<T>(s: seq<T>, p: T -> bool)
    requires Distinct(s)
    ensures Distinct(Filter(s, p))
    decreases |s|
  {
    if s != [] {
      FilterDistinct(s[1..], p);
      var rest := Filter(s[1..], p);
      assert s[0] !in s[1..] by {
        forall k | 0 <= k < |s[1..]| ensures s[1..][k] != s[0] {
          assert s[1..][k] == s[k + 1];
        }
      }
      assert s[0] !in rest;
    }
  }

  /** A list without duplicates has as many distinct elements as entries. */
  lemma {:induction false} DistinctCardinality<T>(s: seq<T>)
    requires Distinct(s)
    ensures |set i | 0 <= i < |s| :: s[i]| == |s|
    decreases |s|
  {
    if s != [] {
      var tail := s[1..];
      assert Distinct(tail) by {
        forall i, j | 0 <= i < j < |tail| ensures tail[i] != tail[j] {
          assert tail[i] == s[i + 1] && tail[j] == s[j + 1];
        }
      }
      DistinctCardinality(tail);
      var whole := set i | 0 <= i < |s| :: s[i];
      var rest := set i | 0 <= i < |tail| :: tail[i];
      assert whole == {s[0]} + rest by {
        forall x | x in whole ensures x in {s[0]} + rest {
          var i :| 0 <= i < |s| && s[i] == x;
          if i > 0 { assert tail[i - 1] == x; }
        }
        forall x | x in rest ensures x in whole {
          var i :| 0 <= i < |tail| && tail[i] == x;
          assert s[i + 1] == x;
        }
      }
      assert s[0] !in rest;
    }
  }

  /** `s.findIndex(p)`, with -1 rendered as `None`. */
  function FindIndex<T>(s: seq<T>, p: T -> bool): (r: Option<nat>)
    ensures r.None? <==> forall i :: 0 <= i < |s| ==> !p(s[i])
    ensures r.Some? ==> r.value < |s| && p(s[r.value])
    ensures r.Some? ==> forall j :: 0 <= j < r.value ==> !p(s[j])
    decreases |s|
  {
    if s == [] then None
    else if p(s[0]) then Some(0)
    else match FindIndex(s[1..], p)
      case None => None
      case Some(i) => Some(i + 1)
  }

  /** `s.find(p)`: the first element satisfying `p`; `undefined` is `None`. */
  function Find<T>(s: seq<T>, p: T -> bool): (r: Option<T>)
    ensures r.None? <==> forall i :: 0 <= i < |s| ==> !p(s[i])
    ensures r.Some? ==> exists i :: 0 <= i < |s| && s[i] == r.value && p(s[i]) &&
                                    forall j :: 0 <= j < i ==> !p(s[j])
  {
    match FindIndex(s, p)
    case None => None
    case Some(i) => Some(s[i])
  }

  /** The end index that `slice(0, end)` uses on an array of length `len`:
      a negative end counts from the back, a large one is clamped. */
  function SliceEnd(end: int, len: nat): (k: nat)
    ensures k <= len
    ensures end >= 0 ==> k == if end < len then end else len
    ensures end < 0 ==> k == if len + end > 0 then len + end else 0
  {
    if end < 0 then (if len + end > 0 then len + end else 0)
    else if end < len then end else len
  }

  /** `s.slice(0, end)`. */
  function SliceTo<T>(s: seq<T>, end: int): (r: seq<T>)
    ensures |r| == SliceEnd(end, |s|)
    ensures r <= s
  {
    s[..SliceEnd(end, |s|)]
  }

  /** The order `sort` establishes with the comparator `(a, b) => key(b) - key(a)`:
      non-increasing keys. */
  ghost predicate NonIncreasing<T>(s: seq<T>, key: T -> int)
  {
    forall i, j :: 0 <= i < j < |s| ==> key(s[j]) <= key(s[i])
  }

  /** Place `x` before the first element whose key is not larger, which keeps
      `x` ahead of the later elements with the same key. */
  function InsertDescending<T>(x: T, s: seq<T>, key: T -> int): (r: seq<T>)
    ensures multiset(r) == multiset(s) + multiset{x}
    ensures |r| == |s| + 1
    ensures r[0] == x || (s != [] && r[0] == s[0])
    decreases |s|
  {
    if s == [] then [x]
    else if key(s[0]) <= key(x) then [x] + s
    else
      assert s == [s[0]] + s[1..];
      [s[0]] + InsertDescending(x, s[1..], key)
  }

  lemma {:induction false} InsertKeepsOrder<T>(x: T, s: seq<T>, key: T -> int)
    requires NonIncreasing(s, key)
    ensures NonIncreasing(InsertDescending(x, s, key), key)
    decreases |s|
  {
    if s != [] && key(s[0]) > key(x) {
      var rest := InsertDescending(x, s[1..], key);
      InsertKeepsOrder(x, s[1..], key);
      assert key(rest[0]) <= key(s[0]);
      var r := InsertDescending(x, s, key);
      assert r == [s[0]] + rest;
      forall i, j | 0 <= i < j < |r| ensures key(r[j]) <= key(r[i]) {
        if i == 0 {
          assert r[j] == rest[j - 1];
          assert key(rest[j - 1]) <= key(rest[0]);
        } else {
          assert r[j] == rest[j - 1] && r[i] == rest[i - 1];
        }
      }
    }
  }

  /** Array.prototype.sort is stable: a stable insertion sort, newest key first. */
  function SortDescending<T>(s: seq<T>, key: T -> int): (r: seq<T>)
    ensures multiset(r) == multiset(s)
    ensures |r| == |s|
    ensures NonIncreasing(r, key)
    decreases |s|
  {
    if s == [] then []
    else
      assert s == [s[0]] + s[1..];
      var sorted := SortDescending(s[1..], key);
      InsertKeepsOrder(s[0], sorted, key);
      InsertDescending(s[0], sorted, key)
  }

  /** The predicate "has key `k`", named so that every use is the same value. */
  function HasKey<T>(key: T -> int, k: int): T -> bool
  {
    y => key(y) == k
  }

  /** Inserting only changes the filtered view of `x`'s own key. */
  lemma {:induction false} InsertStable<T>(x: T, s: seq<T>, key: T -> int, k: int)
    ensures Filter(InsertDescending(x, s, key), HasKey(key, k))
         == (if key(x) == k then [x] else []) + Filter(s, HasKey(key, k))
    decreases |s|
  {
    var p := HasKey(key, k);
    if s == [] {
      FilterSingle(x, p);
    } else if key(s[0]) <= key(x) {
      FilterAppend([x], s, p);
      FilterSingle(x, p);
    } else {
      var rest := InsertDescending(x, s[1..], key);
      assert InsertDescending(x, s, key) == [s[0]] + rest;
      FilterAppend([s[0]], rest, p);
      InsertStable(x, s[1..], key, k);
      assert s == [s[0]] + s[1..];
      FilterAppend([s[0]], s[1..], p);
      FilterSingle(s[0], p);
      // s[0] outranks x, so at most one of them can have key k
      assert key(x) == k ==> !p(s[0]);
    }
  }

  /** Stability: the elements that share a key keep their input order. */
  lemma {:induction false} SortStable<T>(s: seq<T>, key: T -> int, k: int)
    ensures Filter(SortDescending(s, key), HasKey(key, k)) == Filter(s, HasKey(key, k))
    decreases |s|
  {
    if s != [] {
      var p := HasKey(key, k);
      SortStable(s[1..], key, k);
      InsertStable(s[0], SortDescending(s[1..], key), key, k);
      assert s == [s[0]] + s[1..];
      FilterAppend([s[0]], s[1..], p);
      FilterSingle(s[0], p);
    }
  }

  /** A prefix of a non-increasing sequence holds the largest keys: nothing
      left behind has a larger key than anything taken. */
  lemma PrefixHoldsLargest<T>(s: seq<T>, key: T -> int, n: nat, x: T, y: T)
    requires NonIncreasing(s, key)
    requires n <= |s|
    requires x in s[..n]
    requires y in multiset(s) - multiset(s[..n])
    ensures key(y) <= key(x)
  {
    assert s == s[..n] + s[n..];
    assert multiset(s) - multiset(s[..n]) == multiset(s[n..]);
    assert y in s[n..];
    var i :| 0 <= i < n && s[..n][i] == x;
    var j :| 0 <= j < |s| - n && s[n..][j] == y;
    assert s[i] == x && s[n + j] == y;
  }
}
