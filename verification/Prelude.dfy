// Shared vocabulary: optional values, error results and the list operations that the
// database queries of the services are built from.
module Prelude {

  datatype Option<+T> = None | Some(value: T)

  datatype Result<+T, +E> = Ok(value: T) | Err(error: E)

  // Python truthiness of an optional string: None and "" are both falsy.
  predicate Truthy(s: Option<string>) {
    s.Some? && s.value != ""
  }

  // A row is visible to a caller scoped to its tenant, and to the unscoped operator.
  predicate InScope(rowTenant: Option<string>, scope: Option<string>) {
    scope.None? || rowTenant == scope
  }

  // Python's `part in text`.
  predicate Contains(text: string, part: string) {
    part <= text || (text != "" && Contains(text[1..], part))
  }

  lemma {:induction false} ContainsMeans(text: string, part: string)
    ensures Contains(text, part) <==> exists i :: 0 <= i <= |text| && part <= text[i..]
  {
    assert text[0..] == text;
    if text != "" {
      ContainsMeans(text[1..], part);
      assert forall i :: 0 <= i <= |text| - 1 ==> text[1..][i..] == text[i + 1..];
      if i :| 0 <= i <= |text| && part <= text[i..] {
        assert i > 0 ==> text[1..][i - 1..] == text[i..];
      }
    }
  }

  // SELECT ... WHERE keep(row), in table order.
  function Filter<T>(keep: T -> bool, xs: seq<T>): seq<T> {
    if xs == [] then []
    else Filter(keep, xs[..|xs| - 1]) + if keep(xs[|xs| - 1]) then [xs[|xs| - 1]] else []
  }

  function Map<A, B>(f: A -> B, xs: seq<A>): (r: seq<B>) {
    seq(|xs|, i requires 0 <= i < |xs| => f(xs[i]))
  }

  // Concatenation of f over the list: what a loop of `.append` calls builds.
  function FlatMap<A, B>(f: A -> seq<B>, xs: seq<A>): (r: seq<B>) {
    if xs == [] then [] else FlatMap(f, xs[..|xs| - 1]) + f(xs[|xs| - 1])
  }

  lemma MapLast<A, B>(f: A -> B, xs: seq<A>)
    requires xs != []
    ensures Map(f, xs) == Map(f, xs[..|xs| - 1]) + [f(xs[|xs| - 1])]
  {
  }

  lemma {:induction false} FilterAppend<T>(keep: T -> bool, xs: seq<T>, ys: seq<T>)
    ensures Filter(keep, xs + ys) == Filter(keep, xs) + Filter(keep, ys)
  {
    if ys == [] {
      assert xs + ys == xs;
    } else {
      var n := |ys| - 1;
      assert (xs + ys)[..|xs + ys| - 1] == xs + ys[..n];
      FilterAppend(keep, xs, ys[..n]);
    }
  }

  lemma {:induction false} FilterSound<T>(keep: T -> bool, xs: seq<T>)
    ensures forall i :: 0 <= i < |Filter(keep, xs)| ==> keep(Filter(keep, xs)[i]) && Filter(keep, xs)[i] in xs
  {
    if xs != [] {
      FilterSound(keep, xs[..|xs| - 1]);
    }
  }

  lemma {:induction false} FilterComplete<T>(keep: T -> bool, xs: seq<T>, i: nat)
    requires i < |xs| && keep(xs[i])
    ensures xs[i] in Filter(keep, xs)
  {
    if i < |xs| - 1 {
      FilterComplete(keep, xs[..|xs| - 1], i);
    }
  }

  // Narrowing a query to `keep` first loses nothing that a query for a subset would see.
  lemma {:induction false} FilterWithin<T>(inner: T -> bool, keep: T -> bool, xs: seq<T>)
    requires forall i :: 0 <= i < |xs| && inner(xs[i]) ==> keep(xs[i])
    ensures Filter(inner, xs) == Filter(inner, Filter(keep, xs))
  {
    if xs != [] {
      var n := |xs| - 1;
      FilterWithin(inner, keep, xs[..n]);
      FilterAppend(inner, Filter(keep, xs[..n]), if keep(xs[n]) then [xs[n]] else []);
      assert Filter(inner, [xs[n]]) == if inner(xs[n]) then [xs[n]] else [];
      assert Filter(inner, []) == [];
    }
  }

  lemma {:induction false} FlatMapSame<A, B>(f: A -> seq<B>, g: A -> seq<B>, xs: seq<A>)
    requires forall i :: 0 <= i < |xs| ==> f(xs[i]) == g(xs[i])
    ensures FlatMap(f, xs) == FlatMap(g, xs)
  {
    if xs != [] {
      FlatMapSame(f, g, xs[..|xs| - 1]);
    }
  }

  // Selecting commutes with reading one column.
  lemma {:induction false} FilterMap<A, B>(f: A -> B, keep: B -> bool, also: A -> bool, xs: seq<A>)
    requires forall i :: 0 <= i < |xs| ==> (also(xs[i]) <==> keep(f(xs[i])))
    ensures Filter(keep, Map(f, xs)) == Map(f, Filter(also, xs))
  {
    if xs != [] {
      var n := |xs| - 1;
      FilterMap(f, keep, also, xs[..n]);
      assert Map(f, xs)[..n] == Map(f, xs[..n]);
    }
  }

  // ORDER BY: a stable insertion sort under the preorder `le`.
  function Insert<T>(le: (T, T) -> bool, x: T, xs: seq<T>): seq<T> {
    if xs == [] then [x]
    else if le(xs[|xs| - 1], x) then xs + [x]
    else Insert(le, x, xs[..|xs| - 1]) + [xs[|xs| - 1]]
  }

  function OrderBy<T>(le: (T, T) -> bool, xs: seq<T>): seq<T> {
    if xs == [] then [] else Insert(le, xs[|xs| - 1], OrderBy(le, xs[..|xs| - 1]))
  }

  // Ordering a query result neither adds, drops nor repeats a row.
  lemma {:induction false} OrderByPermutes<T>(le: (T, T) -> bool, xs: seq<T>)
    ensures multiset(OrderBy(le, xs)) == multiset(xs)
  {
    if xs != [] {
      var n := |xs| - 1;
      OrderByPermutes(le, xs[..n]);
      InsertAdds(le, xs[n], OrderBy(le, xs[..n]));
      MultisetLast(xs);
    }
  }

  lemma MultisetLast<T>(xs: seq<T>)
    requires xs != []
    ensures multiset(xs) == multiset(xs[..|xs| - 1]) + multiset{xs[|xs| - 1]}
  {
    assert xs == xs[..|xs| - 1] + [xs[|xs| - 1]];
  }

  lemma OrderBySound<T>(le: (T, T) -> bool, xs: seq<T>)
    ensures forall i :: 0 <= i < |OrderBy(le, xs)| ==> OrderBy(le, xs)[i] in xs
  {
    OrderByPermutes(le, xs);
    forall i | 0 <= i < |OrderBy(le, xs)| ensures OrderBy(le, xs)[i] in xs {
      assert OrderBy(le, xs)[i] in multiset(OrderBy(le, xs));
    }
  }

  lemma {:induction false} InsertAdds<T>(le: (T, T) -> bool, x: T, xs: seq<T>)
    ensures multiset(Insert(le, x, xs)) == multiset(xs) + multiset{x}
  {
    if xs != [] && !le(xs[|xs| - 1], x) {
      InsertAdds(le, x, xs[..|xs| - 1]);
      MultisetLast(xs);
    }
  }

  // A list that is already in order comes back unchanged.
  lemma {:induction false} OrderByOrdered<T>(le: (T, T) -> bool, xs: seq<T>)
    requires forall i :: 0 <= i < |xs| - 1 ==> le(xs[i], xs[i + 1])
    ensures OrderBy(le, xs) == xs
  {
    if xs != [] {
      var n := |xs| - 1;
      OrderByOrdered(le, xs[..n]);
      assert n > 0 ==> le(xs[n - 1], xs[n - 1 + 1]);
      assert xs == xs[..n] + [xs[n]];
    }
  }

  ghost predicate Ordered<T>(le: (T, T) -> bool, xs: seq<T>) {
    forall i :: 0 <= i < |xs| - 1 ==> le(xs[i], xs[i + 1])
  }

  // An element smaller than all of an ordered list goes to its front.
  lemma {:induction false} InsertFront<T>(le: (T, T) -> bool, x: T, xs: seq<T>)
    requires forall i :: 0 <= i < |xs| ==> !le(xs[i], x)
    ensures Insert(le, x, xs) == [x] + xs
  {
    if xs != [] {
      InsertFront(le, x, xs[..|xs| - 1]);
    }
  }

  // Elements that follow what is ordered already stay where they are.
  lemma {:induction false} OrderByThen<T>(le: (T, T) -> bool, xs: seq<T>, ys: seq<T>)
    requires Ordered(le, OrderBy(le, xs) + ys)
    ensures OrderBy(le, xs + ys) == OrderBy(le, xs) + ys
  {
    if ys == [] {
      assert xs + ys == xs;
    } else {
      var n := |ys| - 1;
      var front := OrderBy(le, xs) + ys[..n];
      var whole := OrderBy(le, xs) + ys;
      assert whole == front + [ys[n]];
      assert forall i :: 0 <= i < |front| ==> front[i] == whole[i];
      OrderByThen(le, xs, ys[..n]);
      assert (xs + ys)[..|xs + ys| - 1] == xs + ys[..n];
      assert front != [] ==> le(whole[|front| - 1], whole[|front| - 1 + 1]);
    }
  }

  // Elements smaller than the last one slip in before it.
  lemma {:induction false} OrderByBefore<T>(le: (T, T) -> bool, xs: seq<T>, front: seq<T>, last: T, ys: seq<T>)
    requires OrderBy(le, xs) == front + [last] && Ordered(le, front + ys)
    requires forall i :: 0 <= i < |ys| ==> !le(last, ys[i])
    ensures OrderBy(le, xs + ys) == front + ys + [last]
  {
    if ys == [] {
      assert xs + ys == xs;
    } else {
      var n := |ys| - 1;
      var before := front + ys[..n];
      var whole := front + ys;
      assert whole == before + [ys[n]];
      assert forall i :: 0 <= i < |before| ==> before[i] == whole[i];
      OrderByBefore(le, xs, front, last, ys[..n]);
      assert (xs + ys)[..|xs + ys| - 1] == xs + ys[..n];
      assert before != [] ==> le(whole[|before| - 1], whole[|before| - 1 + 1]);
      assert (before + [last])[..|before|] == before;
      assert Insert(le, ys[n], before + [last]) == Insert(le, ys[n], before) + [last];
      assert Insert(le, ys[n], before) == whole;
    }
  }

  // ---- What a query returns, without saying how ----

  // ys holds exactly the elements of xs that `keep` keeps, each as often as xs does.
  ghost predicate Selects<T(!new)>(keep: T -> bool, xs: seq<T>, ys: seq<T>) {
    forall x :: multiset(ys)[x] == if keep(x) then multiset(xs)[x] else 0
  }

  ghost predicate Sorted<T>(le: (T, T) -> bool, xs: seq<T>) {
    forall i, j :: 0 <= i < j < |xs| ==> le(xs[i], xs[j])
  }

  ghost predicate TotalPreorder<T(!new)>(le: (T, T) -> bool) {
    && (forall a, b :: le(a, b) || le(b, a))
    && (forall a, b, c :: le(a, b) && le(b, c) ==> le(a, c))
  }

  lemma {:induction false} FilterSelects<T(!new)>(keep: T -> bool, xs: seq<T>)
    ensures Selects(keep, xs, Filter(keep, xs))
  {
    if xs != [] {
      FilterSelects(keep, xs[..|xs| - 1]);
      MultisetLast(xs);
    }
  }

  lemma {:induction false} InsertKeepsSorted<T(!new)>(le: (T, T) -> bool, x: T, xs: seq<T>)
    requires TotalPreorder(le) && Sorted(le, xs)
    ensures Sorted(le, Insert(le, x, xs))
  {
    if xs != [] && !le(xs[|xs| - 1], x) {
      var front, last := xs[..|xs| - 1], xs[|xs| - 1];
      var rest := Insert(le, x, front);
      InsertKeepsSorted(le, x, front);
      InsertAdds(le, x, front);
      forall i | 0 <= i < |rest| ensures le(rest[i], last) {
        assert rest[i] in multiset(rest);
        assert rest[i] == x || rest[i] in multiset(front);
      }
    }
  }

  lemma {:induction false} OrderBySorts<T(!new)>(le: (T, T) -> bool, xs: seq<T>)
    requires TotalPreorder(le)
    ensures Sorted(le, OrderBy(le, xs))
  {
    if xs != [] {
      OrderBySorts(le, xs[..|xs| - 1]);
      InsertKeepsSorted(le, xs[|xs| - 1], OrderBy(le, xs[..|xs| - 1]));
    }
  }

  // SELECT ... WHERE keep ORDER BY le: the kept rows, each once, in order.
  lemma QueryMeans<T(!new)>(le: (T, T) -> bool, keep: T -> bool, xs: seq<T>)
    requires TotalPreorder(le)
    ensures Selects(keep, xs, OrderBy(le, Filter(keep, xs)))
    ensures Sorted(le, OrderBy(le, Filter(keep, xs)))
  {
    FilterSelects(keep, xs);
    OrderByPermutes(le, Filter(keep, xs));
    OrderBySorts(le, Filter(keep, xs));
  }

  lemma SelectsMembers<T(!new)>(keep: T -> bool, xs: seq<T>, ys: seq<T>, x: T)
    requires Selects(keep, xs, ys)
    ensures x in ys <==> x in xs && keep(x)
  {
    assert x in ys <==> multiset(ys)[x] > 0;
    assert x in xs <==> multiset(xs)[x] > 0;
  }

  lemma LastIsGreatest<T(!new)>(le: (T, T) -> bool, xs: seq<T>, x: T)
    requires TotalPreorder(le) && Sorted(le, xs) && x in xs
    ensures le(x, xs[|xs| - 1])
  {
    var i :| 0 <= i < |xs| && xs[i] == x;
    assert le(x, x);
  }
}
