/**
 * The parts that generated code is made of. Longer proofs know code only by these relations, each of
 * which keeps its equation behind a trigger.
 */
module GeneratorParts {
  import opened Sealing
  import opened Bytecode
  import opened Generator

  ghost predicate Conds(g: Gen, x: Expr, tt: Label, ft: Label, r: Gen) {
    forall k {:trigger Key(PartFacts, k)} :: Key(PartFacts, k) ==> r == LoadConditional(g, x, tt, ft)
  }

  ghost predicate Loads(g: Gen, x: Expr, r: Gen) {
    forall k {:trigger Key(PartFacts, k)} :: Key(PartFacts, k) ==> r == Load(g, x)
  }

  ghost predicate Tests(g: Gen, x: Expr, tt: Label, ft: Label, op: BranchOp, l: Label, r: Gen) {
    forall k {:trigger Key(PartFacts, k)} :: Key(PartFacts, k) ==> r == Test(g, x, tt, ft, op, l)
  }

  ghost predicate LoopTests(g: Gen, s: Stmt, own: LoopLabels, r: Gen) {
    forall k {:trigger Key(PartFacts, k)} :: Key(PartFacts, k) ==> s.Loop? && r == LoopTest(g, s, own)
  }

  ghost predicate IfParts(g: Gen, s: Stmt, part: Stmt, here: Label, done: Label, exit: Label, cont: Label, r: Gen) {
    forall k {:trigger Key(PartFacts, k)} :: Key(PartFacts, k) ==> s.If? && (part == s.yes || part == s.no) && r == IfPart(g, s, part, here, done, exit, cont)
  }

  ghost predicate IfBodies(g: Gen, s: Stmt, then_: Label, done: Label, else_: Label, exit: Label, cont: Label, r: Gen) {
    forall k {:trigger Key(PartFacts, k)} :: Key(PartFacts, k) ==> s.If? && r == IfBody(g, s, then_, done, else_, exit, cont)
  }

  ghost predicate IfRests(g: Gen, s: Stmt, done: Label, else_: Label, exit: Label, cont: Label, r: Gen) {
    forall k {:trigger Key(PartFacts, k)} :: Key(PartFacts, k) ==> s.If? && r == IfRest(g, s, done, else_, exit, cont)
  }

  ghost predicate LoopBodies(g: Gen, s: Stmt, own: LoopLabels, exit: Label, cont: Label, r: Gen) {
    forall k {:trigger Key(PartFacts, k)} :: Key(PartFacts, k) ==> s.Loop? && r == LoopBody(g, s, own, exit, cont)
  }

  ghost predicate LoopRests(g: Gen, s: Stmt, own: LoopLabels, exit: Label, cont: Label, r: Gen) {
    forall k {:trigger Key(PartFacts, k)} :: Key(PartFacts, k) ==> s.Loop? && r == LoopRest(g, s, own, exit, cont)
  }

  ghost predicate Executes(g: Gen, s: Stmt, exit: Label, cont: Label, r: Gen) {
    forall k {:trigger Key(PartFacts, k)} :: Key(PartFacts, k) ==> r == Execute(g, s, exit, cont)
  }

  // -------------------------------------------------------------------------------- expressions

  lemma CondSimple(g: Gen, x: Expr, tt: Label, ft: Label, r: Gen)
    requires Conds(g, x, tt, ft, r) && (x.Literal? || x.Variable?)
    ensures r == Emit(g, if x.Literal? then PushV(x.v) else LoadV(x.n, x.ty), 1)
  {
    assert Key(PartFacts, 0);
  }

  function OperatorOf(x: Expr): (i: Instr)
    requires x.Arith? || x.Compare?
  {
    if x.Arith? then Calc(x.aop) else Cmp(x.cop)
  }

  function Operate(g: Gen, i: Instr): (r: Gen) {
    Emit(g, i, if i.Cmp? then -2 else -1).(cc := i.Cmp?)
  }

  lemma CondBinary(g: Gen, x: Expr, tt: Label, ft: Label, r: Gen) returns (g1: Gen, g2: Gen)
    requires Conds(g, x, tt, ft, r) && (x.Arith? || x.Compare?)
    ensures Loads(g, x.left, g1) && Loads(g1, x.right, g2) && (!g2.cc ==> r == Operate(g2, OperatorOf(x)))
  {
    assert Key(PartFacts, 0);
    g1 := Load(g, x.left);
    g2 := Load(g1, x.right);
  }

  /** The targets of the left operand: the label between the operands takes the place of one of them. */
  function LeftTrue(g: Gen, x: Expr, tt: Label): (l: Label) {
    if x.And? then g.next else tt
  }

  function LeftFalse(g: Gen, x: Expr, ft: Label): (l: Label) {
    if x.And? then ft else g.next
  }

  function Exit(x: Expr): (op: BranchOp) {
    if x.And? then IfFalse else IfTrue
  }

  function Out(x: Expr, tt: Label, ft: Label): (l: Label) {
    if x.And? then ft else tt
  }

  lemma CondShort(g: Gen, x: Expr, tt: Label, ft: Label, r: Gen) returns (g1: Gen, g3: Gen)
    requires Conds(g, x, tt, ft, r) && (x.And? || x.Or?)
    ensures Conds(NewLabels(g, 1), x.left, LeftTrue(g, x, tt), LeftFalse(g, x, ft), g1)
    ensures g3 == Bind(Branch(g1, Exit(x), Out(x, tt, ft)), g.next) && Conds(g3, x.right, tt, ft, r)
  {
    assert Key(PartFacts, 0);
    g1 := LoadConditional(NewLabels(g, 1), x.left, LeftTrue(g, x, tt), LeftFalse(g, x, ft));
    g3 := Bind(Branch(g1, Exit(x), Out(x, tt, ft)), g.next);
  }

  lemma LoadSplits(g: Gen, x: Expr, r: Gen) returns (g1: Gen)
    requires Loads(g, x, r)
    ensures Conds(NewLabels(g, 2), x, g.next, g.next + 1, g1) && r == Reload(Clear(g1), g.height, g.next, g.next + 1)
  {
    assert Key(PartFacts, 0);
    g1 := LoadConditional(NewLabels(g, 2), x, g.next, g.next + 1);
  }

  lemma TestSplits(g: Gen, x: Expr, tt: Label, ft: Label, op: BranchOp, l: Label, r: Gen) returns (g1: Gen)
    requires Tests(g, x, tt, ft, op, l, r)
    ensures Conds(g, x, tt, ft, g1) && r == Branch(g1, op, l)
  {
    assert Key(PartFacts, 0);
    g1 := LoadConditional(g, x, tt, ft);
  }

  // --------------------------------------------------------------------------------- statements

  function LastOf(s: Stmt): (i: Instr)
    requires s.Assign? || s.ExprStat?
  {
    if s.Assign? then StoreV(s.n) else PopV
  }

  lemma ExecValue(g: Gen, s: Stmt, exit: Label, cont: Label, r: Gen) returns (g1: Gen)
    requires Executes(g, s, exit, cont, r) && (s.Assign? || s.ExprStat?)
    ensures Loads(NewLabels(g, 1), s.x, g1) && r == Bind(Emit(g1, LastOf(s), -1), g.next)
  {
    assert Key(PartFacts, 0);
    g1 := Load(NewLabels(g, 1), s.x);
  }

  lemma ExecSeq(g: Gen, s: Stmt, exit: Label, cont: Label, r: Gen) returns (g1: Gen)
    requires Executes(g, s, exit, cont, r) && s.Seq?
    ensures Executes(g, s.first, exit, cont, g1) && Executes(g1, s.second, exit, cont, r)
  {
    assert Key(PartFacts, 0);
    g1 := Execute(g, s.first, exit, cont);
  }

  lemma ExecPlain(g: Gen, s: Stmt, exit: Label, cont: Label, r: Gen)
    requires Executes(g, s, exit, cont, r)
    ensures s.Empty? ==> r == g
    ensures s.Break? ==> r == Branch(g, Always, exit)
    ensures s.Continue? ==> r == Branch(g, Always, cont)
    ensures s.Return? ==> r == Emit(g, Ret, 0).(dead := true)
  {
    assert Key(PartFacts, 0);
  }

  lemma ExecIfBoth(g: Gen, s: Stmt, exit: Label, cont: Label, r: Gen) returns (t: Gen)
    requires Executes(g, s, exit, cont, r) && s.If? && s.yes != Empty && s.no != Empty
    ensures Tests(NewLabels(g, 3), s.x, g.next + 1, g.next + 2, IfFalse, g.next + 2, t)
    ensures IfBodies(t, s, g.next + 1, g.next, g.next + 2, exit, cont, r)
  {
    t := Test(NewLabels(g, 3), s.x, g.next + 1, g.next + 2, IfFalse, g.next + 2);
    IsIfBoth(g, s, exit, cont, r, t);
  }

  lemma IsIfBoth(g: Gen, s: Stmt, exit: Label, cont: Label, r: Gen, t: Gen)
    requires Executes(g, s, exit, cont, r) && s.If? && s.yes != Empty && s.no != Empty
    requires t == Test(NewLabels(g, 3), s.x, g.next + 1, g.next + 2, IfFalse, g.next + 2)
    ensures IfBodies(t, s, g.next + 1, g.next, g.next + 2, exit, cont, r)
  {
    assert Key(PartFacts, 0);
    ExecuteBoth(g, s, exit, cont, t, r);
  }

  lemma ExecuteBoth(g: Gen, s: Stmt, exit: Label, cont: Label, t: Gen, r: Gen)
    requires s.If? && s.yes != Empty && s.no != Empty && r == Execute(g, s, exit, cont)
    requires t == Test(NewLabels(g, 3), s.x, g.next + 1, g.next + 2, IfFalse, g.next + 2)
    ensures r == IfBody(t, s, g.next + 1, g.next, g.next + 2, exit, cont)
  {
  }

  lemma IfBodySplits(g: Gen, s: Stmt, then_: Label, done: Label, else_: Label, exit: Label, cont: Label, r: Gen) returns (k: Gen)
    requires s.If? && IfBodies(g, s, then_, done, else_, exit, cont, r)
    ensures Executes(Bind(g, then_), s.yes, exit, cont, k) && IfRests(k, s, done, else_, exit, cont, r)
  {
    assert Key(PartFacts, 0);
    k := Execute(Bind(g, then_), s.yes, exit, cont);
  }

  lemma IfRestSplits(g: Gen, s: Stmt, done: Label, else_: Label, exit: Label, cont: Label, r: Gen) returns (k: Gen)
    requires s.If? && IfRests(g, s, done, else_, exit, cont, r)
    ensures Executes(Bind(Branch(g, Always, done), else_), s.no, exit, cont, k) && r == Bind(k, done)
  {
    assert Key(PartFacts, 0);
    k := Execute(Bind(Branch(g, Always, done), else_), s.no, exit, cont);
  }

  /** The only part of an `if`, and the targets of its condition. */
  predicate OnePart(s: Stmt) {
    s.If? && (s.yes != Empty <==> s.no == Empty)
  }

  function PartOf(s: Stmt): (part: Stmt)
    requires OnePart(s)
    ensures part < s
  {
    if s.yes != Empty then s.yes else s.no
  }

  function PartTrue(s: Stmt, next: Label): (l: Label)
    requires OnePart(s)
  {
    if s.yes != Empty then next + 1 else next
  }

  function PartFalse(s: Stmt, next: Label): (l: Label)
    requires OnePart(s)
  {
    if s.yes != Empty then next else next + 1
  }

  function PartOp(s: Stmt): (op: BranchOp)
    requires OnePart(s)
  {
    if s.yes != Empty then IfFalse else IfTrue
  }

  lemma ExecIfOne(g: Gen, s: Stmt, exit: Label, cont: Label, r: Gen) returns (t: Gen)
    requires Executes(g, s, exit, cont, r) && OnePart(s)
    ensures Tests(NewLabels(g, 2), s.x, PartTrue(s, g.next), PartFalse(s, g.next), PartOp(s), g.next, t)
    ensures IfParts(t, s, PartOf(s), g.next + 1, g.next, exit, cont, r)
  {
    assert Key(PartFacts, 0);
    t := Test(NewLabels(g, 2), s.x, PartTrue(s, g.next), PartFalse(s, g.next), PartOp(s), g.next);
  }

  lemma IfPartSplits(g: Gen, s: Stmt, part: Stmt, here: Label, done: Label, exit: Label, cont: Label, r: Gen) returns (k: Gen)
    requires s.If? && IfParts(g, s, part, here, done, exit, cont, r)
    ensures Executes(Bind(g, here), part, exit, cont, k) && r == Bind(k, done)
  {
    assert Key(PartFacts, 0);
    k := Execute(Bind(g, here), part, exit, cont);
  }

  lemma ExecIfNone(g: Gen, s: Stmt, exit: Label, cont: Label, r: Gen) returns (g1: Gen)
    requires Executes(g, s, exit, cont, r) && s.If? && s.yes == Empty && s.no == Empty
    ensures Conds(NewLabels(g, 1), s.x, g.next, g.next, g1) && r == Bind(Pop(g1), g.next)
  {
    assert Key(PartFacts, 0);
    g1 := LoadConditional(NewLabels(g, 1), s.x, g.next, g.next);
  }

  function OwnLabels(next: Label): (own: LoopLabels) {
    LoopLabels(next, next + 1, next + 2, next + 3)
  }

  lemma ExecLoop(g: Gen, s: Stmt, exit: Label, cont: Label, r: Gen) returns (g1: Gen)
    requires Executes(g, s, exit, cont, r) && s.Loop?
    ensures Executes(NewLabels(g, 4), s.before, exit, cont, g1)
    ensures LoopBodies(LoopTop(g1, s.kind, OwnLabels(g.next)), s, OwnLabels(g.next), exit, cont, r)
  {
    assert Key(PartFacts, 0);
    g1 := Execute(NewLabels(g, 4), s.before, exit, cont);
  }

  lemma LoopBodySplits(g: Gen, s: Stmt, own: LoopLabels, exit: Label, cont: Label, r: Gen) returns (k: Gen)
    requires s.Loop? && LoopBodies(g, s, own, exit, cont, r)
    ensures Executes(g, s.body, own.exit, own.cont, k) && LoopRests(Bind(k, own.cont), s, own, exit, cont, r)
  {
    assert Key(PartFacts, 0);
    k := Execute(g, s.body, own.exit, own.cont);
  }

  lemma LoopRestSplits(g: Gen, s: Stmt, own: LoopLabels, exit: Label, cont: Label, r: Gen) returns (k: Gen, t: Gen)
    requires s.Loop? && LoopRests(g, s, own, exit, cont, r)
    ensures Executes(g, s.after, exit, cont, k) && LoopTests(Bind(k, own.entry), s, own, t) && r == Bind(t, own.exit)
  {
    assert Key(PartFacts, 0);
    k := Execute(g, s.after, exit, cont);
    t := LoopTest(Bind(k, own.entry), s, own);
  }

  lemma LoopTestSplits(g: Gen, s: Stmt, own: LoopLabels, r: Gen)
    requires s.Loop? && LoopTests(g, s, own, r)
    ensures if Endless(s) then r == Branch(g, Always, own.loop) else Tests(g, s.cond.x, own.loop, own.exit, IfTrue, own.loop, r)
  {
    assert Key(PartFacts, 0);
  }

  // --------------------------------------------------------------------------------- and put together

  lemma JoinSimple(g: Gen, x: Expr, tt: Label, ft: Label)
    requires x.Literal? || x.Variable?
    ensures Conds(g, x, tt, ft, Emit(g, if x.Literal? then PushV(x.v) else LoadV(x.n, x.ty), 1))
  {
  }

  lemma JoinBinary(g: Gen, x: Expr, tt: Label, ft: Label, g1: Gen, g2: Gen)
    requires (x.Arith? || x.Compare?) && Loads(g, x.left, g1) && Loads(g1, x.right, g2) && !g2.cc
    ensures Conds(g, x, tt, ft, Operate(g2, OperatorOf(x)))
  {
    assert Key(PartFacts, 0);
  }

  lemma JoinShort(g: Gen, x: Expr, tt: Label, ft: Label, g1: Gen, r: Gen)
    requires (x.And? || x.Or?) && Conds(NewLabels(g, 1), x.left, LeftTrue(g, x, tt), LeftFalse(g, x, ft), g1)
    requires Conds(Bind(Branch(g1, Exit(x), Out(x, tt, ft)), g.next), x.right, tt, ft, r)
    ensures Conds(g, x, tt, ft, r)
  {
    assert Key(PartFacts, 0);
  }

  lemma JoinLoad(g: Gen, x: Expr, g1: Gen)
    requires Conds(NewLabels(g, 2), x, g.next, g.next + 1, g1)
    ensures Loads(g, x, Reload(Clear(g1), g.height, g.next, g.next + 1))
  {
    assert Key(PartFacts, 0);
  }

  lemma JoinTest(g: Gen, x: Expr, tt: Label, ft: Label, op: BranchOp, l: Label, g1: Gen)
    requires Conds(g, x, tt, ft, g1)
    ensures Tests(g, x, tt, ft, op, l, Branch(g1, op, l))
  {
    assert Key(PartFacts, 0);
  }

  lemma JoinValue(g: Gen, s: Stmt, exit: Label, cont: Label, g1: Gen)
    requires (s.Assign? || s.ExprStat?) && Loads(NewLabels(g, 1), s.x, g1)
    ensures Executes(g, s, exit, cont, Bind(Emit(g1, LastOf(s), -1), g.next))
  {
    assert Key(PartFacts, 0);
  }

  lemma JoinSeq(g: Gen, s: Stmt, exit: Label, cont: Label, g1: Gen, r: Gen)
    requires s.Seq? && Executes(g, s.first, exit, cont, g1) && Executes(g1, s.second, exit, cont, r)
    ensures Executes(g, s, exit, cont, r)
  {
    assert Key(PartFacts, 0);
  }

  lemma JoinPlain(g: Gen, exit: Label, cont: Label)
    ensures Executes(g, Empty, exit, cont, g)
    ensures Executes(g, Break, exit, cont, Branch(g, Always, exit))
    ensures Executes(g, Continue, exit, cont, Branch(g, Always, cont))
    ensures Executes(g, Return, exit, cont, Emit(g, Ret, 0).(dead := true))
  {
  }

  lemma JoinIfRest(g: Gen, s: Stmt, done: Label, else_: Label, exit: Label, cont: Label, k: Gen)
    requires s.If? && Executes(Bind(Branch(g, Always, done), else_), s.no, exit, cont, k)
    ensures IfRests(g, s, done, else_, exit, cont, Bind(k, done))
  {
    assert Key(PartFacts, 0);
  }

  lemma JoinIfBody(g: Gen, s: Stmt, then_: Label, done: Label, else_: Label, exit: Label, cont: Label, k: Gen, r: Gen)
    requires s.If? && Executes(Bind(g, then_), s.yes, exit, cont, k) && IfRests(k, s, done, else_, exit, cont, r)
    ensures IfBodies(g, s, then_, done, else_, exit, cont, r)
  {
    assert Key(PartFacts, 0);
  }

  lemma JoinIfBoth(g: Gen, s: Stmt, exit: Label, cont: Label, t: Gen, r: Gen)
    requires s.If? && s.yes != Empty && s.no != Empty && Tests(NewLabels(g, 3), s.x, g.next + 1, g.next + 2, IfFalse, g.next + 2, t)
    requires IfBodies(t, s, g.next + 1, g.next, g.next + 2, exit, cont, r)
    ensures Executes(g, s, exit, cont, r)
  {
    assert Key(PartFacts, 0);
  }

  lemma JoinIfPart(g: Gen, s: Stmt, part: Stmt, here: Label, done: Label, exit: Label, cont: Label, k: Gen)
    requires s.If? && (part == s.yes || part == s.no) && Executes(Bind(g, here), part, exit, cont, k)
    ensures IfParts(g, s, part, here, done, exit, cont, Bind(k, done))
  {
    assert Key(PartFacts, 0);
  }

  lemma JoinIfOne(g: Gen, s: Stmt, exit: Label, cont: Label, t: Gen, r: Gen)
    requires OnePart(s) && Tests(NewLabels(g, 2), s.x, PartTrue(s, g.next), PartFalse(s, g.next), PartOp(s), g.next, t)
    requires IfParts(t, s, PartOf(s), g.next + 1, g.next, exit, cont, r)
    ensures Executes(g, s, exit, cont, r)
  {
    assert Key(PartFacts, 0);
  }

  lemma JoinIfNone(g: Gen, s: Stmt, exit: Label, cont: Label, g1: Gen)
    requires s.If? && s.yes == Empty && s.no == Empty && Conds(NewLabels(g, 1), s.x, g.next, g.next, g1)
    ensures Executes(g, s, exit, cont, Bind(Pop(g1), g.next))
  {
    assert Key(PartFacts, 0);
  }

  lemma JoinLoop(g: Gen, s: Stmt, exit: Label, cont: Label, g1: Gen, r: Gen)
    requires s.Loop? && Executes(NewLabels(g, 4), s.before, exit, cont, g1)
    requires LoopBodies(LoopTop(g1, s.kind, OwnLabels(g.next)), s, OwnLabels(g.next), exit, cont, r)
    ensures Executes(g, s, exit, cont, r)
  {
    assert Key(PartFacts, 0);
  }

  lemma JoinLoopBody(g: Gen, s: Stmt, own: LoopLabels, exit: Label, cont: Label, k: Gen, r: Gen)
    requires s.Loop? && Executes(g, s.body, own.exit, own.cont, k) && LoopRests(Bind(k, own.cont), s, own, exit, cont, r)
    ensures LoopBodies(g, s, own, exit, cont, r)
  {
    assert Key(PartFacts, 0);
  }

  lemma JoinLoopRest(g: Gen, s: Stmt, own: LoopLabels, exit: Label, cont: Label, k: Gen, t: Gen)
    requires s.Loop? && Executes(g, s.after, exit, cont, k) && LoopTests(Bind(k, own.entry), s, own, t)
    ensures LoopRests(g, s, own, exit, cont, Bind(t, own.exit))
  {
    assert Key(PartFacts, 0);
  }

  lemma JoinLoopTest(g: Gen, s: Stmt, own: LoopLabels, t: Gen)
    requires s.Loop? && if Endless(s) then t == Branch(g, Always, own.loop) else Tests(g, s.cond.x, own.loop, own.exit, IfTrue, own.loop, t)
    ensures LoopTests(g, s, own, t)
  {
    assert Key(PartFacts, 0);
  }
}
