/**
 * Small shared vocabulary: an optional value, and the "first-seen, without
 * repeats" order in which a JavaScript object collects the keys it is given.
 */
module Base {

  /** A value that may be absent (JavaScript `null` / `undefined`). */
  datatype Option<+T> = None | Some(value: T)

  /** No element occurs twice. */
  predicate NoDup<T(==)>(s: seq<T>)
  {
    forall i, j :: 0 <= i < j < |s| ==> s[i] != s[j]
  }

  /** The least index at which `x` occurs in `s`. */
  function FirstIndex<T(==)>(s: seq<T>, x: T): (k: nat)
    requires x in s
    ensures k < |s| && s[k] == x
    ensures forall j :: 0 <= j < k ==> s[j] != x
  {
    if s[0] == x then 0 else 1 + FirstIndex(s[1..], x)
  }

  /**
   * The distinct elements of `s` in the order of their first occurrence:
   * the key order of an object filled by a left-to-right scan that inserts
   * a key the first time it meets it.
   */
  function FirstSeen<T(==,!new)>(s: seq<T>): (r: seq<T>)
    ensures NoDup(r)
    ensures forall x :: x in r <==> x in s
    ensures |r| <= |s|
  {
    if s == [] then []
    else
      var d := FirstSeen(s[..|s| - 1]);
      var x := s[|s| - 1];
      assert forall y :: y in s <==> y in s[..|s| - 1] || y == x by {
        assert s == s[..|s| - 1] + [x];
      }
      if x in d then d else d + [x]
  }

  /** A prefix one longer is the shorter prefix plus the next element. */
  lemma PrefixSnoc<T>(s: seq<T>, i: nat)
    requires i < |s|
    ensures s[..i + 1] == s[..i] + [s[i]]
  {
  }

  lemma AppendAssoc<T>(x: seq<T>, y: seq<T>, z: seq<T>)
    ensures x + (y + z) == (x + y) + z
  {
  }

  /** Dropping the last element of `a + b`, for a non-empty `b`, drops it from `b`. */
  lemma AppendInit<T>(a: seq<T>, b: seq<T>)
    requires b != []
    ensures (a + b)[..|a + b| - 1] == a + b[..|b| - 1]
    ensures (a + b)[|a + b| - 1] == b[|b| - 1]
  {
  }

  lemma FirstSeenSnoc<T(!new)>(s: seq<T>, x: T)
    ensures FirstSeen(s + [x]) == if x in FirstSeen(s) then FirstSeen(s) else FirstSeen(s) + [x]
  {
    assert (s + [x])[..|s|] == s;
  }

  /** Scanning more of the input only appends to the first-seen order. */
  lemma {:induction false} FirstSeenPrefix<T(!new)>(s: seq<T>, i: nat, j: nat)
    requires i <= j <= |s|
    ensures |FirstSeen(s[..i])| <= |FirstSeen(s[..j])|
    ensures FirstSeen(s[..i]) == FirstSeen(s[..j])[..|FirstSeen(s[..i])|]
    decreases j - i
  {
    if i < j {
      FirstSeenPrefix(s, i, j - 1);
      assert s[..j][..j - 1] == s[..j - 1];
    }
  }

  /**
   * The order is that of first occurrence: an element listed before another
   * first occurs in the input before the other does.
   */
  lemma {:induction false} FirstSeenOrder<T(!new)>(s: seq<T>, a: nat, b: nat)
    requires a < b < |FirstSeen(s)|
    ensures FirstIndex(s, FirstSeen(s)[a]) < FirstIndex(s, FirstSeen(s)[b])
  {
    var r := FirstSeen(s);
    var x, y := r[a], r[b];
    var n := |s| - 1;
    var d := FirstSeen(s[..n]);
    if s[n] in d || b < |d| {
      assert r[..|d|] == d;
      if s[n] in d {
        assert r == d;
      }
      FirstSeenOrder(s[..n], a, b);
      FirstIndexPrefix(s, n, x);
      FirstIndexPrefix(s, n, y);
    } else {
      assert r == d + [s[n]] && b == |d| && y == s[n];
      assert x in d && y !in s[..n];
      FirstIndexPrefix(s, n, x);
      assert FirstIndex(s, x) < n;
      assert FirstIndex(s, y) == n by {
        forall j | 0 <= j < n ensures s[j] != y {
          assert s[j] == s[..n][j];
        }
        FirstIndexUnique(s, y, n);
      }
    }
  }

  /** The first index of `x` in a prefix that holds `x` is its first index in the whole. */
  lemma FirstIndexPrefix<T>(s: seq<T>, n: nat, x: T)
    requires n <= |s| && x in s[..n]
    ensures FirstIndex(s, x) == FirstIndex(s[..n], x)
  {
    var k := FirstIndex(s[..n], x);
    forall j | 0 <= j < k ensures s[j] != x {
      assert s[j] == s[..n][j];
    }
    FirstIndexUnique(s, x, k);
  }

  /** An index that holds `x` and has no earlier `x` is the first index. */
  lemma {:induction false} FirstIndexUnique<T>(s: seq<T>, x: T, k: nat)
    requires k < |s| && s[k] == x
    requires forall j :: 0 <= j < k ==> s[j] != x
    ensures FirstIndex(s, x) == k
  {
    if k > 0 {
      FirstIndexUnique(s[1..], x, k - 1);
    }
  }

  /** The elements of `s` that satisfy `p`, in order. */
  function Filter<T(!new)>(s: seq<T>, p: T -> bool): (r: seq<T>)
    ensures |r| <= |s|
    ensures forall x :: x in r <==> x in s && p(x)
  {
    if s == [] then []
    else
      var x := s[|s| - 1];
      var d := Filter(s[..|s| - 1], p);
      assert forall y :: y in s <==> y in s[..|s| - 1] || y == x by {
        assert s == s[..|s| - 1] + [x];
      }
      if p(x) then d + [x] else d
  }
}
