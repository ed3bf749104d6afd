/** The two lodash list helpers the pipeline uses to gather its streams. */
module Lists {
  import opened Wrappers

  /** `_.flatten`: concatenates the inner lists, one level deep, in order. */
  function Flatten<T>(xss: seq<seq<T>>): (r: seq<T>)
    ensures forall i, j :: 0 <= i < |xss| && 0 <= j < |xss[i]| ==> xss[i][j] in r
    ensures forall k :: 0 <= k < |r| ==> exists i, j :: 0 <= i < |xss| && 0 <= j < |xss[i]| && r[k] == xss[i][j]
  {
    if |xss| == 0 then []
    else
      var rest := Flatten(xss[1..]);
      assert forall i :: 1 <= i < |xss| ==> xss[i] == xss[1..][i - 1];
      var r := xss[0] + rest;
      assert forall k :: |xss[0]| <= k < |r| ==> r[k] == rest[k - |xss[0]|];
      r
  }

  /** `_.compact`: drops the absent (falsy) elements and keeps the others in order. */
  function Compact<T>(xs: seq<Option<T>>): (r: seq<T>)
    ensures |r| <= |xs|
    ensures |r| == |xs| <==> forall i :: 0 <= i < |xs| ==> xs[i].Some?
  {
    if |xs| == 0 then []
    else (if xs[0].Some? then [xs[0].value] else []) + Compact(xs[1..])
  }

  /** An element is kept by `Compact` exactly when it is present in the input. */
  lemma {:induction false} CompactMember<T>(xs: seq<Option<T>>, y: T)
    ensures y in Compact(xs) <==> Some(y) in xs
  {
    if |xs| > 0 {
      CompactMember(xs[1..], y);
      assert Some(y) in xs <==> xs[0] == Some(y) || Some(y) in xs[1..];
    }
  }

  /** Compacting a concatenation compacts each part: the kept elements stay in input order. */
  lemma {:induction false} CompactConcat<T>(a: seq<Option<T>>, b: seq<Option<T>>)
    ensures Compact(a + b) == Compact(a) + Compact(b)
    decreases |a|
  {
    if |a| > 0 {
      assert (a + b)[1..] == a[1..] + b;
      CompactConcat(a[1..], b);
    } else {
      assert a + b == b;
    }
  }
}
