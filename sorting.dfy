/**
  A stable sort in descending order of a real-valued key. It is the ranking
  used by the vocabulary builder (Python's `sorted(..., reverse=True)`, which
  keeps equal elements in their original order) and by top-k selection.
 */
module Sorting {

  /** Every element's key is at least the key of every later element. */
  ghost predicate Descending<T>(s: seq<T>, key: T -> real)
  {
    forall i, j :: 0 <= i < j < |s| ==> key(s[i]) >= key(s[j])
  }

  /** The elements of `s` whose key is exactly `c`, in their order in `s`. */
  function KeyClass<T>(s: seq<T>, key: T -> real, c: real): seq<T>
  {
    if |s| == 0 then []
    else (if key(s[0]) == c then [s[0]] else []) + KeyClass(s[1..], key, c)
  }

  /** Puts `x` in front of the first element whose key does not exceed x's key. */
  function InsertDesc<T>(x: T, s: seq<T>, key: T -> real): (r: seq<T>)
    ensures multiset(r) == multiset(s) + multiset{x}
  {
    if |s| == 0 then [x]
    else if key(s[0]) <= key(x) then [x] + s
    else
      assert s == [s[0]] + s[1..];
      [s[0]] + InsertDesc(x, s[1..], key)
  }

  /** Insertion sort from the back: the earliest element is inserted last. */
  function SortDesc<T>(s: seq<T>, key: T -> real): (r: seq<T>)
    ensures multiset(r) == multiset(s)
  {
    if |s| == 0 then []
    else
      assert s == [s[0]] + s[1..];
      InsertDesc(s[0], SortDesc(s[1..], key), key)
  }

  /** Inserting below a bound keeps every key below it. */
  lemma {:induction false} InsertDescBelow<T>(x: T, s: seq<T>, key: T -> real, b: real)
    requires key(x) <= b
    requires forall k :: 0 <= k < |s| ==> key(s[k]) <= b
    ensures forall k :: 0 <= k < |InsertDesc(x, s, key)| ==> key(InsertDesc(x, s, key)[k]) <= b
  {
    var r := InsertDesc(x, s, key);
    if |s| == 0 {
      assert r == [x];
    } else if key(s[0]) <= key(x) {
      assert r == [x] + s;
      forall k | 0 <= k < |r| ensures key(r[k]) <= b {
        if k > 0 {
          assert r[k] == s[k - 1];
        }
      }
    } else {
      var rest := InsertDesc(x, s[1..], key);
      InsertDescBelow(x, s[1..], key, b);
      assert r == [s[0]] + rest;
      forall k | 0 <= k < |r| ensures key(r[k]) <= b {
        if k > 0 {
          assert r[k] == rest[k - 1];
        }
      }
    }
  }

  lemma {:induction false} InsertDescKeepsDescending<T>(x: T, s: seq<T>, key: T -> real)
    requires Descending(s, key)
    ensures Descending(InsertDesc(x, s, key), key)
  {
    if |s| == 0 {
      assert InsertDesc(x, s, key) == [x];
    } else if key(s[0]) <= key(x) {
      var r := [x] + s;
      assert r == InsertDesc(x, s, key);
      forall i, j | 0 <= i < j < |r| ensures key(r[i]) >= key(r[j]) {
        assert r[j] == s[j - 1];
        if i > 0 {
          assert r[i] == s[i - 1];
        } else {
          assert key(s[0]) >= key(s[j - 1]);
        }
      }
    } else {
      var rest := InsertDesc(x, s[1..], key);
      InsertDescKeepsDescending(x, s[1..], key);
      InsertDescBelow(x, s[1..], key, key(s[0]));
      var r := [s[0]] + rest;
      assert r == InsertDesc(x, s, key);
      forall i, j | 0 <= i < j < |r| ensures key(r[i]) >= key(r[j]) {
        assert r[j] == rest[j - 1];
        if i > 0 {
          assert r[i] == rest[i - 1];
        }
      }
    }
  }

  lemma KeyClassCons<T>(y: T, s: seq<T>, key: T -> real, c: real)
    ensures KeyClass([y] + s, key, c) == (if key(y) == c then [y] else []) + KeyClass(s, key, c)
  {
    assert ([y] + s)[1..] == s;
  }

  lemma {:induction false} InsertDescKeyClass<T>(x: T, s: seq<T>, key: T -> real, c: real)
    ensures KeyClass(InsertDesc(x, s, key), key, c)
         == (if key(x) == c then [x] else []) + KeyClass(s, key, c)
  {
    if |s| == 0 || key(s[0]) <= key(x) {
      assert InsertDesc(x, s, key) == [x] + s;
      KeyClassCons(x, s, key, c);
    } else {
      var rest := InsertDesc(x, s[1..], key);
      var head: seq<T> := if key(s[0]) == c then [s[0]] else [];
      var mine: seq<T> := if key(x) == c then [x] else [];
      assert InsertDesc(x, s, key) == [s[0]] + rest;
      assert s == [s[0]] + s[1..];
      KeyClassCons(s[0], rest, key, c);
      KeyClassCons(s[0], s[1..], key, c);
      InsertDescKeyClass(x, s[1..], key, c);
      assert KeyClass(rest, key, c) == mine + KeyClass(s[1..], key, c);
      assert head == [] || mine == [];
      assert head + (mine + KeyClass(s[1..], key, c)) == mine + (head + KeyClass(s[1..], key, c));
    }
  }

  /** The result is in descending key order. */
  lemma {:induction false} SortDescIsDescending<T>(s: seq<T>, key: T -> real)
    ensures Descending(SortDesc(s, key), key)
  {
    if |s| > 0 {
      SortDescIsDescending(s[1..], key);
      InsertDescKeepsDescending(s[0], SortDesc(s[1..], key), key);
    }
  }

  /** Stability: within each key value the original order is kept. */
  lemma {:induction false} SortDescIsStable<T>(s: seq<T>, key: T -> real, c: real)
    ensures KeyClass(SortDesc(s, key), key, c) == KeyClass(s, key, c)
  {
    if |s| > 0 {
      SortDescIsStable(s[1..], key, c);
      InsertDescKeyClass(s[0], SortDesc(s[1..], key), key, c);
    }
  }
}
