/**
 * The code generator for control flow, as a function on its state: jumping code for conditions, labels
 * that are bound after they are used, and no code where control cannot get.
 */
module Generator {
  import opened Bytecode

  /**
   * The state of the generator. `ok` says that none of its assertions has failed: the stack has the same
   * height at a label and at every branch to it, and the condition code is set only where it is used.
   */
  datatype Gen = Gen(
    code: seq<Instr>,
    bound: map<Label, nat>,
    linked: set<Label>,
    heights: map<Label, int>,
    next: nat,
    height: int,
    dead: bool,
    cc: bool,
    ok: bool)

  const START := Gen([], map[], {}, map[], 0, 0, false, false, true)

  // ---------------------------------------------------------------------------------- primitives

  /** Stack heights are kept in dead code too. */
  function Emit(g: Gen, i: Instr, delta: int): (r: Gen) {
    g.(code := if g.dead then g.code else g.code + [i], height := g.height + delta, ok := g.ok && g.height + delta >= 0)
  }

  predicate HeightIs(g: Gen, l: Label, h: int) {
    l in g.heights && g.heights[l] == h
  }

  function Bind(g: Gen, l: Label): (r: Gen) {
    g.(dead := false, bound := g.bound[l := |g.code|], linked := g.linked - {l}, heights := g.heights[l := g.height],
       ok := g.ok && (l in g.linked ==> HeightIs(g, l, g.height)))
  }

  /** A branch in dead code must not be recorded with its label. */
  function Jumping(g: Gen, op: BranchOp, l: Label): (r: Gen) {
    if g.dead then g
    else if l in g.bound then g.(code := g.code + [Jump(op, l)], ok := g.ok && HeightIs(g, l, g.height))
    else
      g.(code := g.code + [Jump(op, l)], linked := g.linked + {l}, heights := g.heights[l := g.height],
         ok := g.ok && (l in g.linked ==> HeightIs(g, l, g.height)))
  }

  function Branch(g: Gen, op: BranchOp, l: Label): (r: Gen) {
    var g1 := if op != Always && !g.cc then Emit(g, SetCC, -1) else g;
    var g2 := Jumping(g1, op, l);
    g2.(cc := false, dead := g2.dead || op == Always, ok := g2.ok && (op == Always ==> !g.cc))
  }

  function NewLabels(g: Gen, n: nat): (r: Gen) {
    g.(next := g.next + n)
  }

  function Clear(g: Gen): (r: Gen) {
    if g.cc then Emit(g, GetCC, 1).(cc := false) else g
  }

  function IsLinked(g: Gen, l: Label): (b: bool) {
    l in g.linked
  }

  // --------------------------------------------------------------------------------- expressions

  /** Leaves the value on the stack, or in the condition code, or has branched to one of the targets. */
  function LoadConditional(g: Gen, x: Expr, tt: Label, ft: Label): (r: Gen)
    decreases x, 0
  {
    match x
    case Literal(v) => Emit(g, PushV(v), 1)
    case Variable(n, ty) => Emit(g, LoadV(n, ty), 1)
    case Arith(op, l, r) => Emit(Load(Load(g, l), r), Calc(op), -1)
    case Compare(op, l, r) => Emit(Load(Load(g, l), r), Cmp(op), -2).(cc := true)
    case And(l, r) =>
      var isTrue := g.next;
      var g1 := Branch(LoadConditional(NewLabels(g, 1), l, isTrue, ft), IfFalse, ft);
      LoadConditional(Bind(g1, isTrue), r, tt, ft)
    case Or(l, r) =>
      var isFalse := g.next;
      var g1 := Branch(LoadConditional(NewLabels(g, 1), l, tt, isFalse), IfTrue, tt);
      LoadConditional(Bind(g1, isFalse), r, tt, ft)
  }

  /** Leaves the value on the stack: what was translated into branches is made a value again. */
  function Load(g: Gen, x: Expr): (r: Gen)
    decreases x, 1
  {
    var tt, ft := g.next, g.next + 1;
    Reload(Clear(LoadConditional(NewLabels(g, 2), x, tt, ft)), g.height, tt, ft)
  }

  function Reload(g: Gen, height0: int, tt: Label, ft: Label): (r: Gen) {
    if !IsLinked(g, tt) && !IsLinked(g, ft) then g
    else
      var both := IsLinked(g, tt) && IsLinked(g, ft);
      ReloadFalse(ReloadTrue(Branch(NewLabels(g, 1), Always, g.next), height0, tt, both, g.next), height0, ft, g.next)
  }

  function ReloadTrue(g: Gen, height0: int, tt: Label, both: bool, loaded: Label): (r: Gen) {
    var g1 := if IsLinked(g, tt) then Revive(g, height0, tt, true) else g;
    if both then Branch(g1, Always, loaded) else g1
  }

  function ReloadFalse(g: Gen, height0: int, ft: Label, loaded: Label): (r: Gen) {
    Bind(if IsLinked(g, ft) then Revive(g, height0, ft, false) else g, loaded)
  }

  function Revive(g: Gen, height0: int, l: Label, b: bool): (r: Gen) {
    Emit(Bind(g.(height := height0), l), PushV(B(b)), 1)
  }

  // ---------------------------------------------------------------------------------- statements

  /** A statement, in a loop with these labels if it is in one. */
  function Execute(g: Gen, s: Stmt, exit: Label, cont: Label): (r: Gen)
    decreases s, 2
  {
    match s
    case Empty => g
    case Assign(n, x) => Bind(Emit(Load(NewLabels(g, 1), x), StoreV(n), -1), g.next)
    case ExprStat(x) => Bind(Emit(Load(NewLabels(g, 1), x), PopV, -1), g.next)
    case Seq(a, b) => Execute(Execute(g, a, exit, cont), b, exit, cont)
    case If(x, yes, no) =>
      var done := g.next;
      if yes != Empty && no != Empty then
        var then_, else_ := g.next + 1, g.next + 2;
        IfBody(Test(NewLabels(g, 3), x, then_, else_, IfFalse, else_), s, then_, done, else_, exit, cont)
      else if yes != Empty then
        var then_ := g.next + 1;
        IfPart(Test(NewLabels(g, 2), x, then_, done, IfFalse, done), s, yes, then_, done, exit, cont)
      else if no != Empty then
        var else_ := g.next + 1;
        IfPart(Test(NewLabels(g, 2), x, done, else_, IfTrue, done), s, no, else_, done, exit, cont)
      else
        Bind(Pop(LoadConditional(NewLabels(g, 1), x, done, done)), done)
    case Loop(kind, before, _, _, _) =>
      var own := LoopLabels(g.next, g.next + 1, g.next + 2, g.next + 3);
      LoopBody(LoopTop(Execute(NewLabels(g, 4), before, exit, cont), kind, own), s, own, exit, cont)
    case Break => Branch(g, Always, exit)
    case Continue => Branch(g, Always, cont)
    case Return => Emit(g, Ret, 0).(dead := true)
  }

  /** The only part of an `if`, after the condition. */
  function IfPart(g: Gen, s: Stmt, part: Stmt, here: Label, done: Label, exit: Label, cont: Label): (r: Gen)
    requires s.If? && (part == s.yes || part == s.no)
    decreases s, 1
  {
    Bind(Execute(Bind(g, here), part, exit, cont), done)
  }

  /** The two parts of an `if`, after the condition. */
  function IfBody(g: Gen, s: Stmt, then_: Label, done: Label, else_: Label, exit: Label, cont: Label): (r: Gen)
    requires s.If?
    decreases s, 1
  {
    IfRest(Execute(Bind(g, then_), s.yes, exit, cont), s, done, else_, exit, cont)
  }

  /** From the end of the first part of an `if` with two parts. */
  function IfRest(g: Gen, s: Stmt, done: Label, else_: Label, exit: Label, cont: Label): (r: Gen)
    requires s.If?
    decreases s, 0
  {
    Bind(Execute(Bind(Branch(g, Always, done), else_), s.no, exit, cont), done)
  }

  datatype LoopLabels = LoopLabels(entry: Label, loop: Label, cont: Label, exit: Label)

  function LoopTop(g: Gen, kind: LoopKind, own: LoopLabels): (r: Gen) {
    Bind(if kind != Do then Branch(g, Always, own.entry) else g, own.loop)
  }

  function LoopBody(g: Gen, s: Stmt, own: LoopLabels, exit: Label, cont: Label): (r: Gen)
    requires s.Loop?
    decreases s, 1
  {
    LoopRest(Bind(Execute(g, s.body, own.exit, own.cont), own.cont), s, own, exit, cont)
  }

  function LoopRest(g: Gen, s: Stmt, own: LoopLabels, exit: Label, cont: Label): (r: Gen)
    requires s.Loop?
    decreases s, 0
  {
    Bind(LoopTest(Bind(Execute(g, s.after, exit, cont), own.entry), s, own), own.exit)
  }

  /** A condition and the branch that depends on it. */
  function Test(g: Gen, x: Expr, tt: Label, ft: Label, op: BranchOp, l: Label): (r: Gen) {
    Branch(LoadConditional(g, x, tt, ft), op, l)
  }

  function LoopTest(g: Gen, s: Stmt, own: LoopLabels): (r: Gen)
    requires s.Loop?
  {
    if Endless(s) then Branch(g, Always, own.loop) else Test(g, s.cond.x, own.loop, own.exit, IfTrue, own.loop)
  }

  /** No condition, which only a `for` can lack, or one that is seen to be always true. */
  predicate Endless(s: Stmt)
    requires s.Loop?
  {
    s.cond.NoCond? || (s.kind != For && s.cond == Cond(Literal(B(true))))
  }

  function Pop(g: Gen): (r: Gen) {
    if g.cc then g.(cc := false) else Emit(g, PopV, -1)
  }

  /** A function body, and the return at its end. */
  function Generate(body: Stmt): (r: Gen) {
    Emit(Execute(START, body, 0, 0), Ret, 0)
  }
}
