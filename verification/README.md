# predicate — a Dafny model of the combinator evaluator

This project models the core of the Rust crate `predicate`. A caller's rule
type (`NumType` in the crate's test) gets `&` and `|` operators. These build
an expression tree of `OpUnit` nodes, and the tree is evaluated on an item by
`OpUnit::check`:

- an `And` node combines its operands with short-circuit `&&`;
- an `Or` node combines them with short-circuit `||`;
- a `Single` node hands its left operand to the caller's `rules`.

A missing operand is not an error: `get_lhs_and_rhs` replaces it with
`T::default()`. The `Predicate` trait wraps a root in a reusable closure of
one of three calling shapes: by value, `&Item` and `&&Item`.

Modules:

- `Wrappers` (`wrappers.dfy`): `Option`.
- `Combinator` (`combinator.dfy`): `Operation`, `OpUnit`, `new`,
  `get_lhs_and_rhs`, `check`, and the derived `&` and `|`.
  - `Run` is an instrumented evaluation. It returns the verdict together with
    the operands whose `rules` ran, in order, so the short-circuit behaviour
    is proved rather than assumed.
  - `Leaves` is the reference full walk that `Run`'s trace is compared with.
- `Predicates` (`predicates.dfy`): the three closure shapes, and
  `into_iter().filter(..).collect()` as a sequence filter.
  - `Ref<T>` stands for a borrow `&T`.
- `NumTypes` (`num_type.dfy`): the `NumType` rule set over `i32`, and the four
  expressions of `filter_test` with their expected results.

Modelling decisions:

- The caller's type `T` is `Operand<A> = Atom(a) | Composite(unit)`.
  - An atom is one of the enum's listed variants.
  - A composite is the value `&`/`|` produce, wrapping the node.
  - `rules` is defined on every `T`, as in Rust. The catch-all arm of
    `NumType::rules` therefore also covers composites.
- `T::default()` is an atom, and the caller supplies it.
  - For `NumType` this is the variant `Unset`. The crate's `add_fields` macro
    is taken to add that variant; the name is chosen here.
  - Because the default is an atom, the evaluation terminates. In Dafny this
    is shown by `Height`: only `And`/`Or` nodes add height.
- `get_op_unit` comes from a derive macro that is not part of this model.
  `View` assumes an atom's view is `Single(Some(self), None)` and a
  composite's view is its stored node.
- Rust's `%` truncates toward zero; Dafny's is Euclidean. `RustRem` models
  Rust's operator. `RemaindersAgree` proves that the `== 0` tests the rules
  make agree with Dafny's `%`.
- A node with a missing operand does not abort: `get_lhs_and_rhs`
  (src/lib.rs:35-46) substitutes `T::default()`. See
  `MissingOperandActsAsDefault` and `MalformedNodes`.

## Model

| member | source | states |
|---|---|---|
| Combinator.New | src/lib.rs:27-33 | the node holds exactly the given operation and both operand slots; nothing is validated |
| Combinator.GetLhsAndRhs | src/lib.rs:35-46 | a present operand is returned as stored; an absent one becomes the atomic `T::default()`; there is no failure case |
| Combinator.View | src/lib.rs:73 | the assumed `get_op_unit`: an atom is seen as `Single(Some(self), None)`, a composite as its stored node; no contract of its own, its consequences are stated by `AtomHoldsByRule` and `SingleIgnoresRhs` |
| Combinator.Check | src/lib.rs:48-56 | `OpUnit::check`; it carries no contract of its own, and its meaning is stated by `Run` (agreement with a traced walk), `AndShortCircuits`, `OrShortCircuits` and `SingleIgnoresRhs` |
| Combinator.Run | src/lib.rs:48-56 | the instrumented walk agrees with `check` on every tree and item; at least one rule runs; the last rule invoked decides the verdict |
| Combinator.AtomHoldsByRule | src/lib.rs:54 | an atom evaluates to its own `rules` verdict, and that is the only rule invoked |
| Combinator.SingleIgnoresRhs | src/lib.rs:54 | a `Single` node's verdict is `rules` applied to its left operand (or the default); it invokes only that operand; it does not walk into a composite; any right slot leaves the verdict unchanged |
| Combinator.AndShortCircuits | src/lib.rs:52 | an `And` node is the conjunction of its operands' verdicts; when the left fails, the trace is the left's alone; otherwise it is the left's trace followed by the right's |
| Combinator.OrShortCircuits | src/lib.rs:53 | an `Or` node is the disjunction of its operands' verdicts; when the left holds, the trace is the left's alone; otherwise it is both traces in order |
| Combinator.BitAnd | src/tests.rs:5 | `a & b` is a composite `And` node with `a` on the left and `b` on the right |
| Combinator.BitOr | src/tests.rs:5 | `BitOr(a, b)` is a composite `Or` node with `a` on the left and `b` on the right |
| Combinator.BitAndIsConjunction | src/lib.rs:52 | `a & b` holds on an item exactly when both `a` and `b` hold |
| Combinator.BitOrIsDisjunction | src/lib.rs:53 | `BitOr(a, b)` holds on an item exactly when `a` or `b` holds |
| Combinator.MissingOperandActsAsDefault | src/lib.rs:35-46 | a node with an empty slot behaves exactly like the node with the default atom in that slot: same verdict, same trace |
| Combinator.TraceWithinLeaves | src/lib.rs:51-55 | the rules invoked by the short-circuit walk form a subsequence of the leaves of a full left-to-right walk |
| Combinator.LeftmostLeafRunsFirst | src/lib.rs:51-55 | the first rule invoked is always the leftmost leaf's |
| Predicates.PredicateSelf | src/lib.rs:93-97 | the by-value closure answers every item with the root's `get_op_unit().check` |
| Predicates.PredicateRefOne | src/lib.rs:87-91 | the `&Item` closure answers every borrowed item with the root's check of the item |
| Predicates.PredicateRefDouble | src/lib.rs:81-85 | the `&&Item` closure answers every doubly borrowed item with the root's check of the item |
| Predicates.ShapesAgree | src/lib.rs:81-97 | the three calling shapes give the same verdict on the same item |
| Predicates.PredicateReusable | src/lib.rs:87-91 | one closure filtering the same items twice in a row gives the same result both times |
| Predicates.Filter | src/tests.rs:35-39 | `into_iter().filter(p).collect()`: the items `p` accepts, in order; no contract of its own, its meaning is stated by `FilterMembership`, `FilterConcat`, `FilterKeepsAllIff` and `FilterKeepsNoneIff` |
| Predicates.FilterMembership | src/tests.rs:35-39 | the filtered sequence has at most as many items as the input; it holds exactly the input items the test accepts |
| Predicates.FilterConcat | src/tests.rs:35-39 | filtering a concatenation filters each part independently and keeps the order |
| Predicates.FilterKeepsAllIff | src/tests.rs:35-39 | filtering returns the input unchanged if and only if the test accepts every item |
| Predicates.FilterKeepsNoneIff | src/tests.rs:35-39 | filtering returns nothing if and only if the test rejects every item |
| NumTypes.RustRem | src/tests.rs:19-23 | Rust's truncating `%`: the remainder's magnitude is the dividend's magnitude modulo the divisor, and a non-zero remainder has the dividend's sign; for a non-negative dividend it is the usual remainder, for a negative one it lies in `(-b, 0]` |
| NumTypes.Rules | src/tests.rs:17-26 | `NumType::rules`; no contract of its own, its meaning is stated by `RulesMeaning` against the reference `Accepts` |
| NumTypes.RemaindersAgree | src/tests.rs:19-23 | for the divisors 2, 3, 4 and 5, Rust's remainder is zero exactly when the Euclidean one is |
| NumTypes.RulesMeaning | src/tests.rs:17-26 | each listed variant accepts exactly the integers its name describes; every composite is rejected |
| NumTypes.OddEvenComplementary | src/tests.rs:19-20 | exactly one of `Odd` and `Even` accepts each item, including negative ones, and `Odd` accepts exactly the `x` with `x mod 2 = 1` |
| NumTypes.OtherOperandsRejected | src/tests.rs:24 | the default variant and every composite fall into the catch-all arm and are rejected |
| NumTypes.MalformedNodes | src/lib.rs:35-46 | with the rejecting default: an `And` missing either side rejects everything; an `Or` missing its right side is its left side; an empty `Single` rejects everything |
| NumTypes.FirstTestMeaning | src/tests.rs:32-34 | the first expression accepts the odd numbers, the common multiples of 3 and 4, and the multiples of 5 |
| NumTypes.FirstTestClosure | src/tests.rs:38 | the `&Item` closure built from the first expression accepts exactly the odd numbers, the common multiples of 3 and 4, and the multiples of 5 |
| NumTypes.FirstTestFilter | src/tests.rs:31-40 | the first expression filters the test input to `[1, 3, 5, 9, 12, 15, 20, 24]` |
| NumTypes.SecondTestFilter | src/tests.rs:42-48 | `Odd & Even` filters every sequence to nothing |
| NumTypes.ThirdTestFilter | src/tests.rs:50-56 | the disjunction of `Odd` and `Even` returns every sequence unchanged |
| NumTypes.FourthTestMeaning | src/tests.rs:58 | the fourth expression, `(DivByThree & Odd)` or-ed with `DivByFive`, accepts the odd multiples of 3 and the multiples of 5 |
| NumTypes.FourthTestClosure | src/tests.rs:62 | the `&Item` closure built from the fourth expression accepts exactly the odd multiples of 3 and the multiples of 5 |
| NumTypes.FourthTestFilter | src/tests.rs:58-64 | the fourth expression filters the test input to `[3, 5, 9, 15, 20]` |

## Left out

- `OpUnitRcType` (src/lib.rs:4-8) is left out. `Rc`/`Arc` is ownership plumbing, so operands are plain immutable shared values.
- The `Debug` implementation (src/lib.rs:59-70) is left out because it only formats.
- `Box<dyn FnMut>` and closure capture are left out. Each shape is a Dafny function value built from the root.
- Read-only evaluation needs no contract. `check` takes `&self`, and in the model every operation is a pure function, so the same tree on the same item always gives the same verdict and is never changed.
- The `filter_macros` crate is not part of this model: `add_fields` and the `BitAnd`, `BitOr` and `OpUnitTrait` derives. Its effects are assumed:
  - `View` for `get_op_unit`;
  - `BitAnd`/`BitOr` as fresh nodes with both slots filled;
  - `Unset` as the default variant.
- `into_iter().filter(..).collect()` is modelled only as a sequence filter; the iterator machinery is left out.
- The test file calls the trait `Filter` and the closure `ref_one_filter`, while src/lib.rs names them `Predicate` and `predicate_ref_one`. Both are treated as the same interface.
- Integer overflow is not modelled. The rules only divide `i32` items by the constants 2 to 5, which cannot overflow.
