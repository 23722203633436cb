/** Datatypes and list functions shared by every module of the model. */
module Base {

  /** An optional value; the source's `null` and `None`. */
  datatype Option<+T> = None | Some(value: T)

  function Optional<A>(o: Option<A>): seq<A> {
    match o case None => [] case Some(a) => [a]
  }

  /** The values `f` yields, in order, where it yields one. */
  function MapSome<A, B>(f: A -> Option<B>, xs: seq<A>): seq<B> {
    if xs == [] then [] else Optional(f(xs[0])) + MapSome(f, xs[1..])
  }

  lemma ConcatAssociates<A>(a: seq<A>, b: seq<A>, c: seq<A>)
    ensures (a + b) + c == a + (b + c)
  {
  }

  lemma MapSomeCons<A, B>(f: A -> Option<B>, x: A, xs: seq<A>)
    ensures MapSome(f, [x] + xs) == Optional(f(x)) + MapSome(f, xs)
  {
    assert ([x] + xs)[1..] == xs;
  }

  lemma {:induction false} MapSomeConcat<A, B>(f: A -> Option<B>, xs: seq<A>, ys: seq<A>)
    ensures MapSome(f, xs + ys) == MapSome(f, xs) + MapSome(f, ys)
  {
    if xs == [] {
      assert xs + ys == ys;
    } else {
      hide MapSome, Optional;
      var x, rest := xs[0], xs[1..];
      assert xs == [x] + rest && xs + ys == [x] + (rest + ys);
      MapSomeCons(f, x, rest);
      MapSomeCons(f, x, rest + ys);
      MapSomeConcat(f, rest, ys);
      ConcatAssociates(Optional(f(x)), MapSome(f, rest), MapSome(f, ys));
    }
  }

  lemma MapSomeOne<A, B>(f: A -> Option<B>, x: A)
    ensures MapSome(f, [x]) == Optional(f(x))
  {
    assert [x][1..] == [];
  }

  function MapAll<A, B>(f: A -> B, xs: seq<A>): seq<B> {
    if xs == [] then [] else [f(xs[0])] + MapAll(f, xs[1..])
  }

  lemma MapAllCons<A, B>(f: A -> B, x: A, xs: seq<A>)
    ensures MapAll(f, [x] + xs) == [f(x)] + MapAll(f, xs)
  {
    assert ([x] + xs)[1..] == xs;
  }

  lemma {:induction false} MapAllMembers<A, B>(f: A -> B, xs: seq<A>)
    ensures |MapAll(f, xs)| == |xs|
    ensures forall i :: 0 <= i < |xs| ==> MapAll(f, xs)[i] == f(xs[i])
  {
    if xs != [] {
      MapAllMembers(f, xs[1..]);
      forall i | 0 <= i < |xs| ensures MapAll(f, xs)[i] == f(xs[i]) {
        if i > 0 {
          assert xs[1..][i - 1] == xs[i];
        }
      }
    }
  }

  /** The elements satisfying `keep`, in order. */
  function Filter<A>(keep: A -> bool, xs: seq<A>): seq<A> {
    if xs == [] then [] else (if keep(xs[0]) then [xs[0]] else []) + Filter(keep, xs[1..])
  }

  lemma FilterCons<A>(keep: A -> bool, x: A, xs: seq<A>)
    ensures Filter(keep, [x] + xs) == (if keep(x) then [x] else []) + Filter(keep, xs)
  {
    assert ([x] + xs)[1..] == xs;
  }

  lemma {:induction false} FilterConcat<A>(keep: A -> bool, xs: seq<A>, ys: seq<A>)
    ensures Filter(keep, xs + ys) == Filter(keep, xs) + Filter(keep, ys)
  {
    if xs == [] {
      assert xs + ys == ys;
    } else {
      hide Filter;
      var x, rest := xs[0], xs[1..];
      assert xs == [x] + rest && xs + ys == [x] + (rest + ys);
      FilterCons(keep, x, rest);
      FilterCons(keep, x, rest + ys);
      FilterConcat(keep, rest, ys);
      ConcatAssociates(if keep(x) then [x] else [], Filter(keep, rest), Filter(keep, ys));
    }
  }

  lemma FilterInsert<A>(keep: A -> bool, xs: seq<A>, x: A, ys: seq<A>)
    requires !keep(x)
    ensures Filter(keep, xs + [x] + ys) == Filter(keep, xs + ys)
  {
    FilterConcat(keep, xs, [x]);
    FilterConcat(keep, xs + [x], ys);
    FilterConcat(keep, xs, ys);
    FilterDropsOne(keep, x);
    assert Filter(keep, xs) + [] == Filter(keep, xs);
  }

  lemma FilterDropsOne<A>(keep: A -> bool, x: A)
    requires !keep(x)
    ensures Filter(keep, [x]) == []
  {
    assert [x][1..] == [];
  }

  lemma {:induction false} FilterIs<A(!new)>(keep: A -> bool, xs: seq<A>)
    ensures forall x :: x in Filter(keep, xs) <==> x in xs && keep(x)
  {
    if xs != [] {
      FilterIs(keep, xs[1..]);
      assert xs == [xs[0]] + xs[1..];
    }
  }

  ghost predicate Distinct<A(!new)>(xs: seq<A>) {
    forall i, j :: 0 <= i < j < |xs| ==> xs[i] != xs[j]
  }

  lemma TailDistinct<A(!new)>(xs: seq<A>)
    requires xs != [] && Distinct(xs)
    ensures Distinct(xs[1..]) && xs[0] !in xs[1..]
    ensures forall x :: x in xs <==> x == xs[0] || x in xs[1..]
  {
    assert xs == [xs[0]] + xs[1..];
  }

  function Min(x: int, y: int): int {
    if x <= y then x else y
  }

  /** A loop over `xs` that updates a state with `step`. */
  function Fold<S, A>(step: (S, A) -> S, s: S, xs: seq<A>): S
    decreases |xs|
  {
    if xs == [] then s else Fold(step, step(s, xs[0]), xs[1..])
  }

  lemma FoldCons<S, A>(step: (S, A) -> S, s: S, x: A, xs: seq<A>)
    ensures Fold(step, s, [x] + xs) == Fold(step, step(s, x), xs)
  {
    assert ([x] + xs)[1..] == xs;
  }

  lemma FoldOne<S, A>(step: (S, A) -> S, s: S, x: A)
    ensures Fold(step, s, [x]) == step(s, x)
  {
    assert [x][1..] == [];
  }

  lemma {:induction false} FoldConcat<S, A>(step: (S, A) -> S, s: S, xs: seq<A>, ys: seq<A>)
    ensures Fold(step, s, xs + ys) == Fold(step, Fold(step, s, xs), ys)
    decreases |xs|
  {
    if xs == [] {
      assert xs + ys == ys;
    } else {
      assert (xs + ys)[0] == xs[0] && (xs + ys)[1..] == xs[1..] + ys;
      FoldConcat(step, step(s, xs[0]), xs[1..], ys);
    }
  }

  /** One more turn of the loop. */
  lemma FoldNext<S, A>(step: (S, A) -> S, s: S, xs: seq<A>, i: nat)
    requires i < |xs|
    ensures Fold(step, s, xs[..i + 1]) == step(Fold(step, s, xs[..i]), xs[i])
  {
    assert xs[..i + 1] == xs[..i] + [xs[i]];
    FoldConcat(step, s, xs[..i], [xs[i]]);
    assert [xs[i]][1..] == [];
  }

  /** Elements the step does not react to may be dropped first. */
  lemma {:induction false} FoldFilter<S(!new), A>(step: (S, A) -> S, keep: A -> bool, s: S, xs: seq<A>)
    requires forall t: S, x :: x in xs && !keep(x) ==> step(t, x) == t
    ensures Fold(step, s, xs) == Fold(step, s, Filter(keep, xs))
    decreases |xs|
  {
    if xs != [] {
      FoldFilter(step, keep, step(s, xs[0]), xs[1..]);
      if keep(xs[0]) {
        assert Filter(keep, xs)[1..] == Filter(keep, xs[1..]);
      } else {
        assert xs[0] in xs && step(s, xs[0]) == s;
        assert Filter(keep, xs) == Filter(keep, xs[1..]);
      }
    }
  }
}
