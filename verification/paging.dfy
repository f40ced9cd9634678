/** Offset pagination as the list endpoints compute it: a newest-first
    result list is cut with MongoDB's `.skip(n).limit(m)`, and the response
    reports `Math.ceil(total / limit)` pages. */
module Paging {
  import opened Common

  function Abs(n: int): nat { if n < 0 then -n else n }

  /** `.limit(n)`: zero means no limit, a negative `n` means `|n|`. */
  function Limit<T>(xs: seq<T>, n: int): (r: seq<T>)
    ensures n == 0 ==> r == xs
    ensures n != 0 ==> |r| == (if Abs(n) < |xs| then Abs(n) else |xs|)
    ensures r == xs[..|r|]
  {
    if n == 0 || Abs(n) >= |xs| then xs else xs[..Abs(n)]
  }

  /** `.skip(n)` for a non-negative `n`. */
  function Skip<T>(xs: seq<T>, n: nat): (r: seq<T>)
    ensures |r| == (if n < |xs| then |xs| - n else 0)
    ensures forall k :: 0 <= k < |r| ==> r[k] == xs[n + k]
  {
    if n >= |xs| then [] else xs[n..]
  }

  /** `.skip(skip).limit(limit)`. */
  function Window<T>(xs: seq<T>, skip: nat, limit: int): seq<T> {
    Limit(Skip(xs, skip), limit)
  }

  /** The query value `parseInt(q) || d`: an absent, unparsable or zero
      value falls back to the default. */
  function OrDefault(q: Option<int>, d: int): (r: int)
    ensures r != 0 || d == 0
    ensures q.Some? && q.value != 0 ==> r == q.value
  {
    if q.None? || q.value == 0 then d else q.value
  }

  /** `Math.ceil(total / limit)`.  A zero limit gives a quotient that is
      not a finite number (JSON shows it as null): `None`. */
  function TotalPages(total: nat, limit: int): (r: Option<int>)
    ensures r.None? <==> limit == 0
    ensures limit > 0 ==> r.Some? && r.value >= 0 && (r.value - 1) * limit < total <= r.value * limit
  {
    if limit == 0 then None
    else if limit > 0 then Some(CeilDiv(total, limit))
    else Some(-FloorDiv(total, -limit))
  }

  /** The first `n` pages of `limit` items, one after the other. */
  function Pages<T>(xs: seq<T>, limit: nat, n: nat): seq<T> {
    if n == 0 then [] else Pages(xs, limit, n - 1) + Window(xs, Offset(n - 1, limit), limit)
  }

  /** `k * limit`, the skip of page `k + 1`, by repeated addition. */
  function Offset(k: nat, limit: nat): (r: nat)
    ensures r == k * limit
  {
    if k == 0 then 0 else Offset(k - 1, limit) + limit
  }

  /** `k` clamped to the indices `0 ..= n`. */
  function Clip(k: int, n: nat): nat { if k < 0 then 0 else if k < n then k else n }

  /** A window with a positive limit is a slice of the list. */
  lemma WindowSlice<T>(xs: seq<T>, a: nat, limit: nat)
    requires limit >= 1
    ensures Window(xs, a, limit) == xs[Clip(a, |xs|)..Clip(a + limit, |xs|)]
  {
  }

  /** Consecutive pages tile the list: the first `n` pages, read in order,
      are exactly its first `n * limit` items, with nothing skipped and
      nothing repeated. */
  lemma {:induction false} PagesTile<T>(xs: seq<T>, limit: nat, n: nat)
    requires limit >= 1
    ensures Pages(xs, limit, n) == xs[..Clip(Offset(n, limit), |xs|)]
  {
    if n > 0 {
      var a := Offset(n - 1, limit);
      var c, d := Clip(a, |xs|), Clip(a + limit, |xs|);
      PagesTile(xs, limit, n - 1);
      WindowSlice(xs, a, limit);
      assert Pages(xs, limit, n) == Pages(xs, limit, n - 1) + Window(xs, a, limit);
      SliceJoin(xs, c, d);
      assert Offset(n, limit) == a + limit;
    }
  }

  lemma SliceJoin<T>(xs: seq<T>, c: nat, d: nat)
    requires c <= d <= |xs|
    ensures xs[..c] + xs[c..d] == xs[..d]
  {
  }

  /** A page reports a next page exactly when items lie beyond it, and then
      the next page is not empty. */
  lemma HasNextIffMore<T>(xs: seq<T>, page: int, limit: nat)
    requires page >= 1 && limit >= 1
    ensures (page - 1) * limit + |Window(xs, (page - 1) * limit, limit)| < |xs| <==> page * limit < |xs|
    ensures page * limit < |xs| ==> |Window(xs, page * limit, limit)| >= 1
  {
    var a := (page - 1) * limit;
    assert page * limit == a + limit;
  }
}
