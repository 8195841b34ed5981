/**
  The combinator node of the predicate engine (src/lib.rs): a binary tree of
  `OpUnit`s tagged `And`, `Or` or `Single`, and its recursive evaluation `Check`.

  The caller's rule type `T` is modelled as `Operand<A>`: either an atomic rule
  value `Atom(a)` or a value produced by composition, `Composite(unit)`. The
  caller supplies, through a `Capability`, the rule check (`rules`, defined on
  every `T`, as in Rust) and the atomic value `T::default()`.

  Modelling assumption: the derive macro that produces `get_op_unit` is not
  part of this model. `View` assumes that an atom's view is
  `Single(Some(self), None)` and a composite's view is its stored node.
*/
module Combinator {
  import opened Wrappers

  datatype Operation = And | Or | Single

  /** An operand handle: a shared, immutable atomic rule or composed tree. */
  datatype Operand<A> = Atom(rule: A) | Composite(unit: OpUnit<A>)

  /** One node of the tree; nothing checks at construction that the operands are present. */
  datatype OpUnit<A> = OpUnit(op: Operation, lhs: Option<Operand<A>>, rhs: Option<Operand<A>>)

  /** What the caller's rule type supplies: its leaf check and its `Default` value. */
  datatype Capability<!A, -I> = Capability(rules: (Operand<A>, I) -> bool, defaultValue: A)

  /** `OpUnit::new`: stores the operation and both operand slots as given. */
  function New<A>(lhs: Option<Operand<A>>, rhs: Option<Operand<A>>, op: Operation): (u: OpUnit<A>)
    ensures u.op == op && u.lhs == lhs && u.rhs == rhs
  {
    OpUnit(op, lhs, rhs)
  }

  /** Number of nested `And`/`Or` levels; a `Single` node never recurses, so it has height 0. */
  function Height<A>(u: OpUnit<A>): (h: nat)
    decreases u
  {
    match u.op
    case Single => 0
    case _ =>
      var hl := SlotHeight(u.lhs);
      var hr := SlotHeight(u.rhs);
      1 + (if hl < hr then hr else hl)
  }

  function SlotHeight<A>(slot: Option<Operand<A>>): (h: nat)
    decreases slot
  {
    match slot
    case None => 0
    case Some(o) => OperandHeight(o)
  }

  function OperandHeight<A>(o: Operand<A>): (h: nat)
    decreases o
  {
    match o
    case Atom(_) => 0
    case Composite(u) => Height(u)
  }

  /** `get_op_unit`: the combinator view of an operand (see the modelling assumption above). */
  function View<A>(o: Operand<A>): (u: OpUnit<A>)
  {
    match o
    case Atom(_) => OpUnit(Single, Some(o), None)
    case Composite(unit) => unit
  }

  /**
    `get_lhs_and_rhs`: both operands, with a missing one replaced by the
    atomic `T::default()`. It never fails.
  */
  function GetLhsAndRhs<A, I>(cap: Capability<A, I>, u: OpUnit<A>): (r: (Operand<A>, Operand<A>))
    ensures u.lhs.Some? ==> r.0 == u.lhs.value
    ensures u.lhs.None? ==> r.0 == Atom(cap.defaultValue)
    ensures u.rhs.Some? ==> r.1 == u.rhs.value
    ensures u.rhs.None? ==> r.1 == Atom(cap.defaultValue)
  {
    var fallback := Atom(cap.defaultValue);
    (u.lhs.UnwrapOr(fallback), u.rhs.UnwrapOr(fallback))
  }

  /** The views of an `And`/`Or` node's operands are strictly lower than the node: the walk terminates. */
  lemma OperandsAreLower<A, I>(cap: Capability<A, I>, u: OpUnit<A>)
    ensures u.op != Single ==> Height(View(GetLhsAndRhs(cap, u).0)) < Height(u)
    ensures u.op != Single ==> Height(View(GetLhsAndRhs(cap, u).1)) < Height(u)
  {
    var (lhs, rhs) := GetLhsAndRhs(cap, u);
    assert Height(View(lhs)) <= SlotHeight(u.lhs) by { ViewKeepsHeight(lhs); }
    assert Height(View(rhs)) <= SlotHeight(u.rhs) by { ViewKeepsHeight(rhs); }
  }

  /** Viewing an operand as a combinator node does not change its height. */
  lemma ViewKeepsHeight<A>(o: Operand<A>)
    ensures Height(View(o)) == OperandHeight(o)
  {
  }

  /** `OpUnit::check`: evaluates the tree on `item` with native short-circuit `&&` and `||`. */
  function Check<A, I>(cap: Capability<A, I>, u: OpUnit<A>, item: I): (verdict: bool)
    decreases Height(u)
  {
    var (lhs, rhs) := GetLhsAndRhs(cap, u);
    OperandsAreLower(cap, u);
    match u.op
    case And => Check(cap, View(lhs), item) && Check(cap, View(rhs), item)
    case Or => Check(cap, View(lhs), item) || Check(cap, View(rhs), item)
    case Single => cap.rules(lhs, item)
  }

  /** The outcome of an instrumented evaluation: the result and the leaves whose rule ran, in order. */
  datatype Traced<A> = Traced(value: bool, invoked: seq<Operand<A>>)

  /**
    `check` instrumented with the sequence of operands whose `rules` it
    invokes. Its result is always `Check`'s, at least one rule runs, and the
    rule that ran last decides the outcome.
  */
  function Run<A, I>(cap: Capability<A, I>, u: OpUnit<A>, item: I): (r: Traced<A>)
    decreases Height(u)
    ensures r.value == Check(cap, u, item)
    ensures |r.invoked| > 0
    ensures r.value == cap.rules(r.invoked[|r.invoked| - 1], item)
  {
    var (lhs, rhs) := GetLhsAndRhs(cap, u);
    OperandsAreLower(cap, u);
    match u.op
    case Single => Traced(cap.rules(lhs, item), [lhs])
    case And =>
      var left := Run(cap, View(lhs), item);
      if !left.value then left
      else
        var right := Run(cap, View(rhs), item);
        Traced(right.value, left.invoked + right.invoked)
    case Or =>
      var left := Run(cap, View(lhs), item);
      if left.value then left
      else
        var right := Run(cap, View(rhs), item);
        Traced(right.value, left.invoked + right.invoked)
  }

  /** Every leaf a full, non-short-circuiting walk would hand to `rules`, left to right. */
  function Leaves<A, I>(cap: Capability<A, I>, u: OpUnit<A>): (r: seq<Operand<A>>)
    decreases Height(u)
    ensures |r| > 0
  {
    var (lhs, rhs) := GetLhsAndRhs(cap, u);
    OperandsAreLower(cap, u);
    match u.op
    case Single => [lhs]
    case _ => Leaves(cap, View(lhs)) + Leaves(cap, View(rhs))
  }

  /** `a & b` (the derived `BitAnd`): a fresh `And` node over both operands. */
  function BitAnd<A>(a: Operand<A>, b: Operand<A>): (r: Operand<A>)
    ensures r.Composite? && r.unit.op == And
    ensures r.unit.lhs == Some(a) && r.unit.rhs == Some(b)
  {
    Composite(New(Some(a), Some(b), And))
  }

  /** `a | b` (the derived `BitOr`): a fresh `Or` node over both operands. */
  function BitOr<A>(a: Operand<A>, b: Operand<A>): (r: Operand<A>)
    ensures r.Composite? && r.unit.op == Or
    ensures r.unit.lhs == Some(a) && r.unit.rhs == Some(b)
  {
    Composite(New(Some(a), Some(b), Or))
  }

  /** Evaluating an operand: `get_op_unit().check(item)`. */
  function Holds<A, I>(cap: Capability<A, I>, o: Operand<A>, item: I): (verdict: bool)
  {
    Check(cap, View(o), item)
  }

  /** A leaf's verdict is its own rule check, and that check is the only rule invoked. */
  lemma AtomHoldsByRule<A, I>(cap: Capability<A, I>, a: A, item: I)
    ensures Holds(cap, Atom(a), item) == cap.rules(Atom(a), item)
    ensures Run(cap, View(Atom(a)), item).invoked == [Atom(a)]
  {
  }

  /**
    A `Single` node applies `rules` once, to its left operand (or the default),
    even when that operand is itself a composite: it does not walk into it,
    and its right slot plays no part.
  */
  lemma SingleIgnoresRhs<A, I>(cap: Capability<A, I>, u: OpUnit<A>, otherRhs: Option<Operand<A>>, item: I)
    requires u.op == Single
    ensures Check(cap, u, item) == cap.rules(u.lhs.UnwrapOr(Atom(cap.defaultValue)), item)
    ensures Run(cap, u, item).invoked == [u.lhs.UnwrapOr(Atom(cap.defaultValue))]
    ensures Check(cap, u.(rhs := otherRhs), item) == Check(cap, u, item)
  {
  }

  /**
    An `And` node is the conjunction of its operands, and when the left one
    fails no rule of the right one runs: the trace is the left operand's alone.
  */
  lemma AndShortCircuits<A, I>(cap: Capability<A, I>, u: OpUnit<A>, item: I)
    requires u.op == And
    ensures var (l, r) := GetLhsAndRhs(cap, u);
      Check(cap, u, item) == (Holds(cap, l, item) && Holds(cap, r, item))
    ensures var (l, r) := GetLhsAndRhs(cap, u);
      !Holds(cap, l, item) ==> Run(cap, u, item).invoked == Run(cap, View(l), item).invoked
    ensures var (l, r) := GetLhsAndRhs(cap, u);
      Holds(cap, l, item) ==>
        Run(cap, u, item).invoked == Run(cap, View(l), item).invoked + Run(cap, View(r), item).invoked
  {
  }

  /**
    An `Or` node is the disjunction of its operands, and when the left one
    holds no rule of the right one runs.
  */
  lemma OrShortCircuits<A, I>(cap: Capability<A, I>, u: OpUnit<A>, item: I)
    requires u.op == Or
    ensures var (l, r) := GetLhsAndRhs(cap, u);
      Check(cap, u, item) == (Holds(cap, l, item) || Holds(cap, r, item))
    ensures var (l, r) := GetLhsAndRhs(cap, u);
      Holds(cap, l, item) ==> Run(cap, u, item).invoked == Run(cap, View(l), item).invoked
    ensures var (l, r) := GetLhsAndRhs(cap, u);
      !Holds(cap, l, item) ==>
        Run(cap, u, item).invoked == Run(cap, View(l), item).invoked + Run(cap, View(r), item).invoked
  {
  }

  /** `a & b` holds exactly when both operands hold. */
  lemma BitAndIsConjunction<A, I>(cap: Capability<A, I>, a: Operand<A>, b: Operand<A>, item: I)
    ensures Holds(cap, BitAnd(a, b), item) == (Holds(cap, a, item) && Holds(cap, b, item))
  {
  }

  /** `a | b` holds exactly when either operand holds. */
  lemma BitOrIsDisjunction<A, I>(cap: Capability<A, I>, a: Operand<A>, b: Operand<A>, item: I)
    ensures Holds(cap, BitOr(a, b), item) == (Holds(cap, a, item) || Holds(cap, b, item))
  {
  }

  /**
    A missing operand is not an error: the node behaves, result and trace
    alike, exactly as if the slot held the atomic default.
  */
  lemma MissingOperandActsAsDefault<A, I>(cap: Capability<A, I>, u: OpUnit<A>, item: I)
    ensures u.lhs.None? ==>
      Run(cap, u, item) == Run(cap, u.(lhs := Some(Atom(cap.defaultValue))), item)
    ensures u.rhs.None? ==>
      Run(cap, u, item) == Run(cap, u.(rhs := Some(Atom(cap.defaultValue))), item)
  {
  }

  /**
    The rules a short-circuiting evaluation invokes are a subsequence of the
    leaves a full walk would reach, in the same left-to-right order.
  */
  lemma {:induction false} TraceWithinLeaves<A, I>(cap: Capability<A, I>, u: OpUnit<A>, item: I)
    ensures IsSubseq(Run(cap, u, item).invoked, Leaves(cap, u))
    decreases Height(u)
  {
    var (lhs, rhs) := GetLhsAndRhs(cap, u);
    OperandsAreLower(cap, u);
    match u.op
    case Single =>
      SubseqRefl([lhs]);
    case _ =>
      var left := Run(cap, View(lhs), item);
      TraceWithinLeaves(cap, View(lhs), item);
      TraceWithinLeaves(cap, View(rhs), item);
      var right := Run(cap, View(rhs), item);
      if Run(cap, u, item) == left {
        SubseqAppend(left.invoked, Leaves(cap, View(lhs)), Leaves(cap, View(rhs)));
      } else {
        SubseqConcat(left.invoked, Leaves(cap, View(lhs)), right.invoked, Leaves(cap, View(rhs)));
      }
  }

  /** Evaluation always starts with the leftmost leaf: its rule runs first on every item. */
  lemma {:induction false} LeftmostLeafRunsFirst<A, I>(cap: Capability<A, I>, u: OpUnit<A>, item: I)
    ensures Run(cap, u, item).invoked[0] == Leaves(cap, u)[0]
    decreases Height(u)
  {
    var (lhs, rhs) := GetLhsAndRhs(cap, u);
    OperandsAreLower(cap, u);
    if u.op != Single {
      LeftmostLeafRunsFirst(cap, View(lhs), item);
    }
  }

  /** `a` can be obtained from `b` by deleting elements. */
  ghost predicate IsSubseq<T>(a: seq<T>, b: seq<T>)
    decreases |b|
  {
    if |a| == 0 then true
    else if |b| == 0 then false
    else if a[0] == b[0] then IsSubseq(a[1..], b[1..])
    else IsSubseq(a, b[1..])
  }

  lemma {:induction false} SubseqRefl<T>(a: seq<T>)
    ensures IsSubseq(a, a)
    decreases |a|
  {
    if |a| > 0 {
      SubseqRefl(a[1..]);
    }
  }

  lemma {:induction false} SubseqAppend<T>(a: seq<T>, b: seq<T>, c: seq<T>)
    requires IsSubseq(a, b)
    ensures IsSubseq(a, b + c)
    decreases |b|
  {
    if |a| > 0 && |b| > 0 {
      assert (b + c)[1..] == b[1..] + c;
      if a[0] == b[0] {
        SubseqAppend(a[1..], b[1..], c);
      } else {
        SubseqAppend(a, b[1..], c);
      }
    }
  }

  /** Dropping the first element of `a` keeps it a subsequence of `b`. */
  lemma {:induction false} SubseqTail<T>(a: seq<T>, b: seq<T>)
    requires |a| > 0 && IsSubseq(a, b)
    ensures IsSubseq(a[1..], b)
    decreases |b|, 1
  {
    if a[0] == b[0] {
      SubseqCons(a[1..], b[1..], b[0]);
    } else {
      SubseqTail(a, b[1..]);
      SubseqCons(a[1..], b[1..], b[0]);
    }
    assert [b[0]] + b[1..] == b;
  }

  /** Putting one more element in front of `t` keeps `a` a subsequence. */
  lemma {:induction false} SubseqCons<T>(a: seq<T>, t: seq<T>, x: T)
    requires IsSubseq(a, t)
    ensures IsSubseq(a, [x] + t)
    decreases |t| + 1, 0
  {
    assert ([x] + t)[1..] == t;
    if |a| > 0 && a[0] == x {
      SubseqTail(a, t);
    }
  }

  lemma {:induction false} SubseqPrepend<T>(a: seq<T>, b: seq<T>, c: seq<T>)
    requires IsSubseq(a, b)
    ensures IsSubseq(a, c + b)
    decreases |c|
  {
    if |c| > 0 {
      SubseqPrepend(a, b, c[1..]);
      SubseqCons(a, c[1..] + b, c[0]);
      assert [c[0]] + (c[1..] + b) == c + b;
    } else {
      assert c + b == b;
    }
  }

  lemma {:induction false} SubseqConcat<T>(a1: seq<T>, b1: seq<T>, a2: seq<T>, b2: seq<T>)
    requires IsSubseq(a1, b1) && IsSubseq(a2, b2)
    ensures IsSubseq(a1 + a2, b1 + b2)
    decreases |b1|
  {
    if |a1| == 0 {
      assert a1 + a2 == a2;
      SubseqPrepend(a2, b2, b1);
    } else {
      assert (b1 + b2)[1..] == b1[1..] + b2;
      assert (a1 + a2)[1..] == a1[1..] + a2;
      if a1[0] == b1[0] {
        SubseqConcat(a1[1..], b1[1..], a2, b2);
      } else {
        SubseqConcat(a1, b1[1..], a2, b2);
      }
    }
  }
}
