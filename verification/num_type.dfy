/**
  The concrete instantiation of src/tests.rs: the `NumType` rule set over
  `i32` items and the four expressions of its filter test. In Rust `&` binds
  tighter than `|` and both associate to the left, which fixes the tree shapes
  below.
*/
module NumTypes {
  import opened Wrappers
  import opened Combinator
  import opened Predicates

  newtype i32 = x: int | -0x8000_0000 <= x < 0x8000_0000

  /**
    The five listed rules, plus `Unset`: the variant the `add_fields` macro is
    taken to add so that `NumType` has a `Default`. The macro is not part of
    this model; the variant's name is chosen here.
  */
  datatype NumType = Odd | Even | DivByThree | DivByFour | DivByFive | Unset

  /** The magnitude of an integer. */
  function Abs(a: int): (m: nat)
    ensures m == a || m == -a
  {
    if a < 0 then -a else a
  }

  /**
    Rust's `%` on integers: truncating, so the remainder takes the sign of the
    dividend (Dafny's `%` is Euclidean: never negative). The rules only divide
    by small positive constants, so the operation cannot overflow `i32`.
  */
  function RustRem(a: int, b: int): (r: int)
    requires b > 0
    ensures 0 <= a ==> 0 <= r < b && r == a % b
    ensures a < 0 ==> -b < r <= 0
    ensures Abs(r) == Abs(a) % b
    ensures r != 0 ==> (r < 0 <==> a < 0)
  {
    if a >= 0 then a % b else -((-a) % b)
  }

  /**
    The intended meaning of each rule, stated with Dafny's Euclidean `%`:
    the reference `Rules` is checked against.
  */
  ghost predicate Accepts(rule: NumType, n: int)
  {
    match rule
    case Odd => n % 2 == 1
    case Even => n % 2 == 0
    case DivByThree => n % 3 == 0
    case DivByFour => n % 4 == 0
    case DivByFive => n % 5 == 0
    case Unset => false
  }

  /**
    `NumType::rules`. Any operand other than the five listed atoms (the
    default and every composite) is rejected by the catch-all arm.
  */
  function Rules(t: Operand<NumType>, x: i32): (accepted: bool)
  {
    match t
    case Atom(Odd) => RustRem(x as int, 2) != 0
    case Atom(Even) => RustRem(x as int, 2) == 0
    case Atom(DivByThree) => RustRem(x as int, 3) == 0
    case Atom(DivByFour) => RustRem(x as int, 4) == 0
    case Atom(DivByFive) => RustRem(x as int, 5) == 0
    case _ => false
  }

  /**
    Each rule accepts exactly what its name says, although Rust's `%` is
    truncating; every other operand is rejected.
  */
  lemma RulesMeaning(t: Operand<NumType>, x: i32)
    ensures t.Atom? ==> (Rules(t, x) <==> Accepts(t.rule, x as int))
    ensures t.Composite? ==> !Rules(t, x)
  {
    RemaindersAgree(x);
  }

  /** For the divisors the rules use, Rust's and Dafny's remainders vanish together. */
  lemma RemaindersAgree(x: i32)
    ensures RustRem(x as int, 2) == 0 <==> x as int % 2 == 0
    ensures RustRem(x as int, 3) == 0 <==> x as int % 3 == 0
    ensures RustRem(x as int, 4) == 0 <==> x as int % 4 == 0
    ensures RustRem(x as int, 5) == 0 <==> x as int % 5 == 0
  {
    if x < 0 {
      NegationKeepsDivisibility(x as int, 2);
      NegationKeepsDivisibility(x as int, 3);
      NegationKeepsDivisibility(x as int, 4);
      NegationKeepsDivisibility(x as int, 5);
    }
  }

  /** For the divisors the rules use, a multiple of `k` leaves no remainder. */
  lemma MultipleOf(q: int, k: int)
    requires 2 <= k <= 5
    ensures (k * q) % k == 0
  {
    if k == 2 { assert (2 * q) % 2 == 0; }
    else if k == 3 { assert (3 * q) % 3 == 0; }
    else if k == 4 { assert (4 * q) % 4 == 0; }
    else { assert (5 * q) % 5 == 0; }
  }

  /** Divisibility by each divisor the rules use is unaffected by negation. */
  lemma NegationKeepsDivisibility(a: int, k: int)
    requires 2 <= k <= 5
    ensures (-a) % k == 0 <==> a % k == 0
  {
    if a % k == 0 {
      var q := a / k;
      assert -a == k * (-q);
      MultipleOf(-q, k);
    }
    if (-a) % k == 0 {
      var q := (-a) / k;
      assert a == k * (-q);
      MultipleOf(-q, k);
    }
  }

  /** The capability `NumType` supplies: its rules and its default variant. */
  function NumCap(): (cap: Capability<NumType, i32>)
  {
    Capability(Rules, Unset)
  }

  /** `Odd` and `Even` are complementary: exactly one accepts each item. */
  lemma OddEvenComplementary(x: i32)
    ensures Rules(Atom(Odd), x) != Rules(Atom(Even), x)
    ensures Holds(NumCap(), Atom(Odd), x) == !Holds(NumCap(), Atom(Even), x)
    ensures Rules(Atom(Odd), x) <==> x as int % 2 == 1
  {
    RulesMeaning(Atom(Odd), x);
  }

  /** The default and every composite fall into the catch-all arm and are rejected. */
  lemma OtherOperandsRejected(t: Operand<NumType>, x: i32)
    requires t.Composite? || t.rule == Unset
    ensures !Rules(t, x)
    ensures t.Atom? ==> !Holds(NumCap(), t, x)
  {
  }

  /**
    A node with a missing operand does not abort: the slot evaluates as the
    rejecting default, so an `And` missing either side rejects everything and
    an `Or` missing its right side is just its left side.
  */
  lemma MalformedNodes(a: Operand<NumType>, x: i32)
    ensures !Check(NumCap(), New(Some(a), None, And), x)
    ensures !Check(NumCap(), New(None, Some(a), And), x)
    ensures Check(NumCap(), New(Some(a), None, Or), x) == Holds(NumCap(), a, x)
    ensures !Check(NumCap(), New(None, None, Single), x)
  {
  }

  /** The input sequence of `filter_test`. */
  function Nums(): (s: seq<i32>)
  {
    [1, 2, 3, 4, 5, 6, 9, 12, 15, 16, 20, 22, 24]
  }

  /** `Odd | Even & DivByThree & DivByFour | DivByFive`. */
  function FirstTest(): (e: Operand<NumType>)
  {
    BitOr(BitOr(Atom(Odd), BitAnd(BitAnd(Atom(Even), Atom(DivByThree)), Atom(DivByFour))), Atom(DivByFive))
  }

  /** `Odd & Even`. */
  function SecondTest(): (e: Operand<NumType>)
  {
    BitAnd(Atom(Odd), Atom(Even))
  }

  /** `Odd | Even`. */
  function ThirdTest(): (e: Operand<NumType>)
  {
    BitOr(Atom(Odd), Atom(Even))
  }

  /** `DivByThree & Odd | DivByFive`. */
  function FourthTest(): (e: Operand<NumType>)
  {
    BitOr(BitAnd(Atom(DivByThree), Atom(Odd)), Atom(DivByFive))
  }

  /** Every one of the five rules means what `Accepts` says, on `x`. */
  lemma AllRulesMeaning(x: i32)
    ensures forall rule :: Rules(Atom(rule), x) <==> Accepts(rule, x as int)
  {
    forall rule
      ensures Rules(Atom(rule), x) <==> Accepts(rule, x as int)
    {
      RulesMeaning(Atom(rule), x);
    }
  }

  /** The first expression accepts the odd numbers, the multiples of both three and four, and the multiples of five. */
  lemma FirstTestMeaning(x: i32)
    ensures Holds(NumCap(), FirstTest(), x)
        <==> x as int % 2 == 1 || (x as int % 3 == 0 && x as int % 4 == 0) || x as int % 5 == 0
  {
    AllRulesMeaning(x);
  }

  /** The items the first expression accepts. */
  predicate FirstTestAccepts(x: i32)
  {
    x as int % 2 == 1 || (x as int % 3 == 0 && x as int % 4 == 0) || x as int % 5 == 0
  }

  /** The closure built from the first expression accepts exactly `FirstTestAccepts`. */
  lemma FirstTestClosure()
    ensures forall x: i32 :: PredicateRefOne(NumCap(), FirstTest())(Ref(x)) == FirstTestAccepts(x)
  {
    forall x: i32
      ensures PredicateRefOne(NumCap(), FirstTest())(Ref(x)) == FirstTestAccepts(x)
    {
      FirstTestMeaning(x);
    }
  }

  /** Any test that accepts exactly `FirstTestAccepts` keeps these items of `Nums()`. */
  lemma NumsUnderFirstTest(p: Ref<i32> -> bool)
    requires forall x: i32 :: p(Ref(x)) == FirstTestAccepts(x)
    ensures Filter(p, Nums()) == [1, 3, 5, 9, 12, 15, 20, 24]
  {
    var s := Nums();
    assert FilterFrom(p, s, 13) == [];
    assert FilterFrom(p, s, 12) == [24];
    assert FilterFrom(p, s, 11) == [24];
    assert FilterFrom(p, s, 10) == [20, 24];
    assert FilterFrom(p, s, 9) == [20, 24];
    assert FilterFrom(p, s, 8) == [15, 20, 24];
    assert FilterFrom(p, s, 7) == [12, 15, 20, 24];
    assert FilterFrom(p, s, 6) == [9, 12, 15, 20, 24];
    assert FilterFrom(p, s, 5) == [9, 12, 15, 20, 24];
    assert FilterFrom(p, s, 4) == [5, 9, 12, 15, 20, 24];
    assert FilterFrom(p, s, 3) == [5, 9, 12, 15, 20, 24];
    assert FilterFrom(p, s, 2) == [3, 5, 9, 12, 15, 20, 24];
    assert FilterFrom(p, s, 1) == [3, 5, 9, 12, 15, 20, 24];
    assert FilterFrom(p, s, 0) == [1, 3, 5, 9, 12, 15, 20, 24];
  }

  /** `filter_test`'s first assertion. */
  lemma FirstTestFilter()
    ensures Filter(PredicateRefOne(NumCap(), FirstTest()), Nums()) == [1, 3, 5, 9, 12, 15, 20, 24]
  {
    FirstTestClosure();
    NumsUnderFirstTest(PredicateRefOne(NumCap(), FirstTest()));
  }

  /** `Odd & Even` rejects every item, so filtering any sequence yields nothing. */
  lemma SecondTestFilter(s: seq<i32>)
    ensures Filter(PredicateRefOne(NumCap(), SecondTest()), s) == []
  {
    forall x: i32
      ensures !Holds(NumCap(), SecondTest(), x)
    {
      OddEvenComplementary(x);
    }
    FilterKeepsNoneIff(PredicateRefOne(NumCap(), SecondTest()), s);
  }

  /** `Odd | Even` accepts every item, so filtering returns any sequence unchanged. */
  lemma ThirdTestFilter(s: seq<i32>)
    ensures Filter(PredicateRefOne(NumCap(), ThirdTest()), s) == s
  {
    forall x: i32
      ensures Holds(NumCap(), ThirdTest(), x)
    {
      OddEvenComplementary(x);
    }
    FilterKeepsAllIff(PredicateRefOne(NumCap(), ThirdTest()), s);
  }

  /** The fourth expression accepts the odd multiples of three and the multiples of five. */
  lemma FourthTestMeaning(x: i32)
    ensures Holds(NumCap(), FourthTest(), x) <==> (x as int % 3 == 0 && x as int % 2 == 1) || x as int % 5 == 0
  {
    AllRulesMeaning(x);
  }

  /** The items the fourth expression accepts. */
  predicate FourthTestAccepts(x: i32)
  {
    (x as int % 3 == 0 && x as int % 2 == 1) || x as int % 5 == 0
  }

  /** The closure built from the fourth expression accepts exactly `FourthTestAccepts`. */
  lemma FourthTestClosure()
    ensures forall x: i32 :: PredicateRefOne(NumCap(), FourthTest())(Ref(x)) == FourthTestAccepts(x)
  {
    forall x: i32
      ensures PredicateRefOne(NumCap(), FourthTest())(Ref(x)) == FourthTestAccepts(x)
    {
      FourthTestMeaning(x);
    }
  }

  /** Any test that accepts exactly `FourthTestAccepts` keeps these items of `Nums()`. */
  lemma NumsUnderFourthTest(p: Ref<i32> -> bool)
    requires forall x: i32 :: p(Ref(x)) == FourthTestAccepts(x)
    ensures Filter(p, Nums()) == [3, 5, 9, 15, 20]
  {
    var s := Nums();
    assert FilterFrom(p, s, 13) == [];
    assert FilterFrom(p, s, 12) == [];
    assert FilterFrom(p, s, 11) == [];
    assert FilterFrom(p, s, 10) == [20];
    assert FilterFrom(p, s, 9) == [20];
    assert FilterFrom(p, s, 8) == [15, 20];
    assert FilterFrom(p, s, 7) == [15, 20];
    assert FilterFrom(p, s, 6) == [9, 15, 20];
    assert FilterFrom(p, s, 5) == [9, 15, 20];
    assert FilterFrom(p, s, 4) == [5, 9, 15, 20];
    assert FilterFrom(p, s, 3) == [5, 9, 15, 20];
    assert FilterFrom(p, s, 2) == [3, 5, 9, 15, 20];
    assert FilterFrom(p, s, 1) == [3, 5, 9, 15, 20];
    assert FilterFrom(p, s, 0) == [3, 5, 9, 15, 20];
  }

  /** `filter_test`'s fourth assertion. */
  lemma FourthTestFilter()
    ensures Filter(PredicateRefOne(NumCap(), FourthTest()), Nums()) == [3, 5, 9, 15, 20]
  {
    FourthTestClosure();
    NumsUnderFourthTest(PredicateRefOne(NumCap(), FourthTest()));
  }
}
