/**
  The closure adapter of src/lib.rs (the `Predicate` trait's three
  `predicate_*` methods) and the iterator filter the closures are handed to.

  A Rust closure capturing the root becomes a Dafny function value built from
  the root. `Ref<T>` stands for a borrowed `&T`, so the three calling shapes
  keep distinct parameter types: `I`, `Ref<I>` and `Ref<Ref<I>>`.
*/
module Predicates {
  import opened Combinator

  /** A shared borrow `&T`; dereferencing yields `target`. */
  datatype Ref<T> = Ref(target: T)

  /** `predicate_self`: a reusable test taking the item by value. */
  function PredicateSelf<A, I(!new)>(cap: Capability<A, I>, root: Operand<A>): (f: I -> bool)
    ensures forall x :: f(x) == Check(cap, View(root), x)
  {
    (x: I) => Check(cap, View(root), x)
  }

  /** `predicate_ref_one`: a reusable test taking `&Item`. */
  function PredicateRefOne<A, I(!new)>(cap: Capability<A, I>, root: Operand<A>): (f: Ref<I> -> bool)
    ensures forall x :: f(Ref(x)) == Check(cap, View(root), x)
  {
    (x: Ref<I>) => Check(cap, View(root), x.target)
  }

  /** `predicate_ref_double`: a reusable test taking `&&Item`. */
  function PredicateRefDouble<A, I(!new)>(cap: Capability<A, I>, root: Operand<A>): (f: Ref<Ref<I>> -> bool)
    ensures forall x :: f(Ref(Ref(x))) == Check(cap, View(root), x)
  {
    (x: Ref<Ref<I>>) => Check(cap, View(root), x.target.target)
  }

  /** The three calling shapes give the same verdict on the same item. */
  lemma ShapesAgree<A, I(!new)>(cap: Capability<A, I>, root: Operand<A>, x: I)
    ensures PredicateSelf(cap, root)(x) == PredicateRefOne(cap, root)(Ref(x))
    ensures PredicateRefOne(cap, root)(Ref(x)) == PredicateRefDouble(cap, root)(Ref(Ref(x)))
  {
  }

  /**
    `into_iter().filter(p).collect()`: the items `p` accepts, in their
    original order. `Iterator::filter` lends each item to `p` as `&Item`.
  */
  function Filter<X>(p: Ref<X> -> bool, s: seq<X>): (kept: seq<X>)
  {
    FilterFrom(p, s, 0)
  }

  /** What the filtering iterator still yields once it has passed the first `i` items. */
  function FilterFrom<X>(p: Ref<X> -> bool, s: seq<X>, i: nat): (kept: seq<X>)
    requires i <= |s|
    decreases |s| - i
  {
    if i == |s| then []
    else if p(Ref(s[i])) then [s[i]] + FilterFrom(p, s, i + 1)
    else FilterFrom(p, s, i + 1)
  }

  lemma {:induction false} FilterFromMembership<X>(p: Ref<X> -> bool, s: seq<X>, i: nat)
    requires i <= |s|
    ensures |FilterFrom(p, s, i)| <= |s| - i
    ensures forall x :: x in FilterFrom(p, s, i) <==> x in s[i..] && p(Ref(x))
    decreases |s| - i
  {
    if i < |s| {
      FilterFromMembership(p, s, i + 1);
      assert s[i..] == [s[i]] + s[i + 1..];
    }
  }

  /**
    What `Filter` keeps: only accepted items of `s`, and every accepted one,
    never more items than `s` has.
  */
  lemma FilterMembership<X>(p: Ref<X> -> bool, s: seq<X>)
    ensures |Filter(p, s)| <= |s|
    ensures forall x :: x in Filter(p, s) <==> x in s && p(Ref(x))
  {
    FilterFromMembership(p, s, 0);
    assert s[0..] == s;
  }

  /** Past the end of `s`, filtering `s + t` is filtering `t`. */
  lemma {:induction false} FilterFromShift<X>(p: Ref<X> -> bool, s: seq<X>, t: seq<X>, j: nat)
    requires j <= |t|
    ensures FilterFrom(p, s + t, |s| + j) == FilterFrom(p, t, j)
    decreases |t| - j
  {
    if j < |t| {
      assert (s + t)[|s| + j] == t[j];
      FilterFromShift(p, s, t, j + 1);
    }
  }

  lemma {:induction false} FilterFromConcat<X>(p: Ref<X> -> bool, s: seq<X>, t: seq<X>, i: nat)
    requires i <= |s|
    ensures FilterFrom(p, s + t, i) == FilterFrom(p, s, i) + FilterFrom(p, t, 0)
    decreases |s| - i
  {
    if i == |s| {
      FilterFromShift(p, s, t, 0);
    } else {
      assert (s + t)[i] == s[i];
      FilterFromConcat(p, s, t, i + 1);
    }
  }

  /** Filtering a concatenation filters each part independently. */
  lemma FilterConcat<X>(p: Ref<X> -> bool, s: seq<X>, t: seq<X>)
    ensures Filter(p, s + t) == Filter(p, s) + Filter(p, t)
  {
    FilterFromConcat(p, s, t, 0);
  }

  lemma {:induction false} FilterFromKeepsAllIff<X>(p: Ref<X> -> bool, s: seq<X>, i: nat)
    requires i <= |s|
    ensures FilterFrom(p, s, i) == s[i..] <==> forall j :: i <= j < |s| ==> p(Ref(s[j]))
    decreases |s| - i
  {
    if i < |s| {
      FilterFromKeepsAllIff(p, s, i + 1);
      assert s[i..] == [s[i]] + s[i + 1..];
      if !p(Ref(s[i])) {
        FilterFromMembership(p, s, i + 1);
      } else if FilterFrom(p, s, i + 1) != s[i + 1..] {
        assert FilterFrom(p, s, i)[1..] == FilterFrom(p, s, i + 1);
      }
    }
  }

  /** Filtering keeps every item exactly when every item is accepted. */
  lemma FilterKeepsAllIff<X>(p: Ref<X> -> bool, s: seq<X>)
    ensures Filter(p, s) == s <==> forall i :: 0 <= i < |s| ==> p(Ref(s[i]))
  {
    FilterFromKeepsAllIff(p, s, 0);
    assert s[0..] == s;
  }

  lemma {:induction false} FilterFromKeepsNoneIff<X>(p: Ref<X> -> bool, s: seq<X>, i: nat)
    requires i <= |s|
    ensures FilterFrom(p, s, i) == [] <==> forall j :: i <= j < |s| ==> !p(Ref(s[j]))
    decreases |s| - i
  {
    if i < |s| {
      FilterFromKeepsNoneIff(p, s, i + 1);
    }
  }

  /** Filtering keeps nothing exactly when no item is accepted. */
  lemma FilterKeepsNoneIff<X>(p: Ref<X> -> bool, s: seq<X>)
    ensures Filter(p, s) == [] <==> forall i :: 0 <= i < |s| ==> !p(Ref(s[i]))
  {
    FilterFromKeepsNoneIff(p, s, 0);
  }

  /**
    One closure, built once, keeps answering the same way: a single filtering
    pass over `s + s` yields two copies of the result of filtering `s`.
  */
  lemma PredicateReusable<A, I(!new)>(cap: Capability<A, I>, root: Operand<A>, s: seq<I>)
    ensures Filter(PredicateRefOne(cap, root), s + s)
         == Filter(PredicateRefOne(cap, root), s) + Filter(PredicateRefOne(cap, root), s)
  {
    FilterConcat(PredicateRefOne(cap, root), s, s);
  }
}
