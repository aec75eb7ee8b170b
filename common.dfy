/** Small shared vocabulary: optional values, results, and the ascending
    listing of integer keys that the database uses for primary keys. */
module Common {

  datatype Option<T> = None | Some(value: T)

  /** The outcome of a service call: a value, or the error the service
      reports (an HTTP status and message in the running system). */
  datatype Result<T, E> = Ok(value: T) | Err(error: E)

  predicate StrictlyIncreasing(s: seq<int>)
  {
    forall i, j :: 0 <= i < j < |s| ==> s[i] < s[j]
  }

  /** Every non-empty finite set of integers has a least element. */
  lemma {:induction false} MinExists(s: set<int>)
    requires s != {}
    ensures exists m :: m in s && forall k :: k in s ==> m <= k
    decreases |s|
  {
    if forall y :: y !in s { assert false; }
    var x :| x in s;
    if s == {x} {
      assert forall k :: k in s ==> x <= k;
    } else {
      var rest := s - {x};
      assert |rest| == |s| - 1;
      MinExists(rest);
      var m :| m in rest && forall k :: k in rest ==> m <= k;
      var w := if x < m then x else m;
      forall k | k in s ensures w <= k {
        if k != x { assert k in rest; }
      }
      assert w in s;
    }
  }

  /** The least element of a non-empty set. */
  function Min(s: set<int>): (m: int)
    requires s != {}
    ensures m in s && forall k :: k in s ==> m <= k
  {
    MinExists(s);
    var m :| m in s && forall k :: k in s ==> m <= k;
    m
  }

  /** Putting the least element of `s` in front of an ascending listing
      of the rest lists `s` in ascending order. */
  lemma PrependLeast(s: set<int>, m: int, tail: seq<int>)
    requires m in s && forall k :: k in s ==> m <= k
    requires forall k :: k in s - {m} <==> k in tail
    requires StrictlyIncreasing(tail)
    ensures forall k :: k in s <==> k in [m] + tail
    ensures StrictlyIncreasing([m] + tail)
  {
    var r := [m] + tail;
    forall k ensures k in s <==> k in r {
      assert k in s <==> k == m || k in s - {m};
    }
    forall i, j | 0 <= i < j < |r| ensures r[i] < r[j] {
      assert r[j] == tail[j - 1] && r[j] in s - {m};
      if i > 0 { assert r[i] == tail[i - 1]; }
    }
  }

  /** The keys of `s` in ascending order, each exactly once. */
  function SortedKeys(s: set<int>): (r: seq<int>)
    ensures |r| == |s|
    ensures forall k :: k in s <==> k in r
    ensures StrictlyIncreasing(r)
    decreases |s|
  {
    if s == {} then []
    else
      var m := Min(s);
      var tail := SortedKeys(s - {m});
      PrependLeast(s, m, tail);
      [m] + tail
  }
}
