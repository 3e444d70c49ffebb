/**
 * The array operations the pages use on fetched rows: `filter`, `map` with
 * a per-row patch, `find`, and the "exactly one row" reading of a
 * `.single()` query.
 */
module Lists {
  import opened Wrappers

  /** `xs.filter(keep)`: the elements that satisfy `keep`, in their original order. */
  function Filter<T(==)>(xs: seq<T>, keep: T -> bool): (r: seq<T>)
    ensures |r| <= |xs|
    ensures forall i :: 0 <= i < |r| ==> r[i] in xs && keep(r[i])
    ensures forall i :: 0 <= i < |xs| && keep(xs[i]) ==> xs[i] in r
  {
    if xs == [] then []
    else (if keep(xs[0]) then [xs[0]] else []) + Filter(xs[1..], keep)
  }

  /** Filtering distributes over concatenation, so the kept elements keep their relative order. */
  lemma {:induction false} FilterAppend<T>(a: seq<T>, b: seq<T>, keep: T -> bool)
    ensures Filter(a + b, keep) == Filter(a, keep) + Filter(b, keep)
  {
    if a == [] {
      assert a + b == b;
    } else {
      assert (a + b)[1..] == a[1..] + b;
      FilterAppend(a[1..], b, keep);
    }
  }

  /** `xs.map(x => sel(x) ? f(x) : x)`: rewrite the selected elements, keep the others in place. */
  function Patch<T>(xs: seq<T>, sel: T -> bool, f: T -> T): (r: seq<T>)
    ensures |r| == |xs|
    ensures forall i :: 0 <= i < |xs| ==> r[i] == if sel(xs[i]) then f(xs[i]) else xs[i]
  {
    seq(|xs|, i requires 0 <= i < |xs| => if sel(xs[i]) then f(xs[i]) else xs[i])
  }

  /** The `.single()` reading of a query result: a row only when exactly one row came back. */
  function Single<T>(xs: seq<T>): (r: Option<T>)
    ensures r.Some? <==> |xs| == 1
    ensures r.Some? ==> r.value == xs[0]
  {
    if |xs| == 1 then Some(xs[0]) else None
  }

  /** `xs.find(p)`: the first element satisfying `p`, if any. */
  function FindFirst<T>(xs: seq<T>, p: T -> bool): (r: Option<T>)
    ensures r.None? <==> forall i :: 0 <= i < |xs| ==> !p(xs[i])
    ensures r.Some? ==> exists i :: 0 <= i < |xs| && xs[i] == r.value && p(xs[i])
                          && forall j :: 0 <= j < i ==> !p(xs[j])
  {
    if xs == [] then None
    else if p(xs[0]) then Some(xs[0])
    else
      var rest := FindFirst(xs[1..], p);
      assert rest.Some? ==> exists i :: 1 <= i < |xs| && xs[i] == rest.value && p(xs[i])
                              && forall j :: 0 <= j < i ==> !p(xs[j]) by {
        if rest.Some? {
          var k :| 0 <= k < |xs[1..]| && xs[1..][k] == rest.value && p(xs[1..][k])
                   && forall j :: 0 <= j < k ==> !p(xs[1..][j]);
          assert forall j :: 0 <= j < k + 1 ==> !p(xs[j]) by {
            forall j | 0 <= j < k + 1 ensures !p(xs[j]) {
              if j > 0 { assert xs[j] == xs[1..][j - 1]; }
            }
          }
        }
      }
      rest
  }
}
