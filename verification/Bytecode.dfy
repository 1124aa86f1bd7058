/** The language that the code generator translates, and the stack machine that runs the result. */
module Bytecode {

  // --------------------------------------------------------------------------------- the language

  datatype Ty = IntTy | BoolTy

  datatype Val = I(i: int) | B(b: bool)

  /** `Both` and `Either` are the operators on boolean values that always take both operands. */
  datatype ArithOp = Add | Sub | Mul | Both | Either

  datatype CmpOp = Eql | Neq | Lss | Leq | Gtr | Geq

  datatype Expr =
    | Literal(v: Val)
    | Variable(n: nat, ty: Ty)
    | Arith(aop: ArithOp, left: Expr, right: Expr)
    | Compare(cop: CmpOp, left: Expr, right: Expr)
    | And(left: Expr, right: Expr)
    | Or(left: Expr, right: Expr)

  datatype LoopKind = While | Do | For

  datatype Cond = NoCond | Cond(x: Expr)

  datatype Stmt =
    | Empty
    | Assign(n: nat, x: Expr)
    | ExprStat(x: Expr)
    | Seq(first: Stmt, second: Stmt)
    | If(x: Expr, yes: Stmt, no: Stmt)
    | Loop(kind: LoopKind, before: Stmt, cond: Cond, after: Stmt, body: Stmt)
    | Break
    | Continue
    | Return

  /** Arithmetic is on numbers, `Both` and `Either` on boolean values. */
  function OperandOf(op: ArithOp): (ty: Ty) {
    if op.Both? || op.Either? then BoolTy else IntTy
  }

  /** Only numbers have an order. */
  predicate Comparable(op: CmpOp, ty: Ty) {
    ty == IntTy || op == Eql || op == Neq
  }

  predicate HasType(x: Expr, ty: Ty) {
    match x
    case Literal(v) => v.I? <==> ty == IntTy
    case Variable(_, t) => t == ty
    case Arith(op, l, r) => ty == OperandOf(op) && HasType(l, ty) && HasType(r, ty)
    case Compare(op, l, r) =>
      ty == BoolTy && ((HasType(l, IntTy) && HasType(r, IntTy)) || (Comparable(op, BoolTy) && HasType(l, BoolTy) && HasType(r, BoolTy)))
    case And(l, r) => ty == BoolTy && HasType(l, BoolTy) && HasType(r, BoolTy)
    case Or(l, r) => ty == BoolTy && HasType(l, BoolTy) && HasType(r, BoolTy)
  }

  /** Statements without jumps, as the grammar allows before and after the condition of a `for`. */
  predicate Simple(s: Stmt) {
    s.Empty? || s.Assign? || s.ExprStat?
  }

  predicate Typed(s: Stmt) {
    match s
    case Assign(_, x) => HasType(x, IntTy) || HasType(x, BoolTy)
    case ExprStat(x) => HasType(x, IntTy) || HasType(x, BoolTy)
    case Seq(a, b) => Typed(a) && Typed(b)
    case If(x, yes, no) => HasType(x, BoolTy) && Typed(yes) && Typed(no)
    case Loop(kind, before, cond, after, body) =>
      && (if cond.Cond? then HasType(cond.x, BoolTy) else kind == For)
      && (kind == For || (before.Empty? && after.Empty?))
      && Simple(before) && Simple(after) && Typed(before) && Typed(after) && Typed(body)
    case _ => true
  }

  /** `break` and `continue` only in loops. */
  predicate JumpsIn(s: Stmt, inLoop: bool) {
    match s
    case Break => inLoop
    case Continue => inLoop
    case Seq(a, b) => JumpsIn(a, inLoop) && JumpsIn(b, inLoop)
    case If(_, yes, no) => JumpsIn(yes, inLoop) && JumpsIn(no, inLoop)
    case Loop(_, _, _, _, body) => JumpsIn(body, true)
    case _ => true
  }

  datatype Store = Store(ints: nat -> int, bools: nat -> bool)

  function Fetch(m: Store, n: nat, ty: Ty): (v: Val) {
    if ty == IntTy then I(m.ints(n)) else B(m.bools(n))
  }

  function Put(m: Store, n: nat, v: Val): (r: Store) {
    match v
    case I(i) => m.(ints := (k: nat) => if k == n then i else m.ints(k))
    case B(b) => m.(bools := (k: nat) => if k == n then b else m.bools(k))
  }

  function TypeOf(v: Val): (ty: Ty) {
    if v.I? then IntTy else BoolTy
  }

  function Calculate(op: ArithOp, v: Val, w: Val): (r: Val)
    requires TypeOf(v) == TypeOf(w) == OperandOf(op)
    ensures TypeOf(r) == OperandOf(op)
  {
    match op
    case Add => I(v.i + w.i)
    case Sub => I(v.i - w.i)
    case Mul => I(v.i * w.i)
    case Both => B(v.b && w.b)
    case Either => B(v.b || w.b)
  }

  function Holds(op: CmpOp, a: int, b: int): (r: bool) {
    match op
    case Eql => a == b
    case Neq => a != b
    case Lss => a < b
    case Leq => a <= b
    case Gtr => a > b
    case Geq => a >= b
  }

  /** A comparison of two values of the same type. */
  function Judge(op: CmpOp, v: Val, w: Val): (r: bool)
    requires TypeOf(v) == TypeOf(w) && Comparable(op, TypeOf(v))
  {
    if v.I? then Holds(op, v.i, w.i) else if op == Eql then v.b == w.b else v.b != w.b
  }

  function Eval(x: Expr, m: Store): (v: Val)
    requires HasType(x, IntTy) || HasType(x, BoolTy)
    ensures HasType(x, IntTy) ==> v.I?
    ensures HasType(x, BoolTy) ==> v.B?
  {
    match x
    case Literal(v) => v
    case Variable(n, ty) => Fetch(m, n, ty)
    case Arith(op, l, r) => Calculate(op, Eval(l, m), Eval(r, m))
    case Compare(op, l, r) => B(Judge(op, Eval(l, m), Eval(r, m)))
    case And(l, r) => B(Eval(l, m).b && Eval(r, m).b)
    case Or(l, r) => B(Eval(l, m).b || Eval(r, m).b)
  }

  /** How a statement ends; `Running` if it does not within the given number of loop rounds. */
  datatype Outcome = Normal(m: Store) | Broke(m: Store) | Continued(m: Store) | Returned(m: Store) | Running

  function Run(s: Stmt, m: Store, rounds: nat): (o: Outcome)
    requires Typed(s)
    decreases rounds, s
  {
    match s
    case Empty => Normal(m)
    case Assign(n, x) => Normal(Put(m, n, Eval(x, m)))
    case ExprStat(_) => Normal(m)
    case Seq(a, b) => (match Run(a, m, rounds) case Normal(m') => Run(b, m', rounds) case o => o)
    case If(x, yes, no) => if Eval(x, m).b then Run(yes, m, rounds) else Run(no, m, rounds)
    case Loop(kind, before, _, _, _) =>
      (match Run(before, m, rounds)
       case Normal(m') => if kind == Do then RunBody(s, m', rounds) else RunCond(s, m', rounds)
       case o => o)
    case Break => Broke(m)
    case Continue => Continued(m)
    case Return => Returned(m)
  }

  /** A loop from its condition on. */
  function RunCond(s: Stmt, m: Store, rounds: nat): (o: Outcome)
    requires s.Loop? && Typed(s)
    decreases rounds, s, 0
  {
    if s.cond.Cond? && !Eval(s.cond.x, m).b then Normal(m)
    else if rounds == 0 then Running
    else RunBody(s, m, rounds - 1)
  }

  /** A loop from its body on. */
  function RunBody(s: Stmt, m: Store, rounds: nat): (o: Outcome)
    requires s.Loop? && Typed(s)
    decreases rounds, s, 1
  {
    match Run(s.body, m, rounds)
    case Broke(m') => Normal(m')
    case Returned(m') => Returned(m')
    case Running => Running
    case o => (match Run(s.after, o.m, rounds) case Normal(m'') => RunCond(s, m'', rounds) case o' => o')
  }

  // --------------------------------------------------------------------------------- the machine

  type Label = nat

  datatype BranchOp = Always | IfTrue | IfFalse

  datatype Instr =
    | PushV(v: Val)
    | LoadV(n: nat, ty: Ty)
    | StoreV(n: nat)
    | PopV
    | Calc(aop: ArithOp)
    | Cmp(cop: CmpOp)
    | SetCC
    | GetCC
    | Jump(op: BranchOp, to: Label)
    | Ret

  /** Code, and the place that each label stands for. */
  datatype Program = Program(code: seq<Instr>, place: Label -> nat)

  /** Program counter, stack, condition code and variables. */
  datatype Config = Config(pc: nat, stack: seq<Val>, cc: bool, m: Store)

  datatype Effect = Next(c: Config) | Halt(m: Store) | Stuck

  function Step(p: Program, c: Config): (e: Effect) {
    if c.pc >= |p.code| then Stuck
    else
      var next, s, n := c.pc + 1, c.stack, |c.stack|;
      match p.code[c.pc]
      case PushV(v) => Next(c.(pc := next, stack := s + [v]))
      case LoadV(x, ty) => Next(c.(pc := next, stack := s + [Fetch(c.m, x, ty)]))
      case StoreV(x) => if n < 1 then Stuck else Next(c.(pc := next, stack := s[..n - 1], m := Put(c.m, x, s[n - 1])))
      case PopV => if n < 1 then Stuck else Next(c.(pc := next, stack := s[..n - 1]))
      case Calc(op) =>
        if n < 2 || TypeOf(s[n - 2]) != OperandOf(op) || TypeOf(s[n - 1]) != OperandOf(op) then Stuck
        else Next(c.(pc := next, stack := s[..n - 2] + [Calculate(op, s[n - 2], s[n - 1])]))
      case Cmp(op) =>
        if n < 2 || TypeOf(s[n - 2]) != TypeOf(s[n - 1]) || !Comparable(op, TypeOf(s[n - 1])) then Stuck
        else Next(c.(pc := next, stack := s[..n - 2], cc := Judge(op, s[n - 2], s[n - 1])))
      case SetCC => if n < 1 || !s[n - 1].B? then Stuck else Next(c.(pc := next, stack := s[..n - 1], cc := s[n - 1].b))
      case GetCC => Next(c.(pc := next, stack := s + [B(c.cc)]))
      case Jump(op, to) => Next(c.(pc := if Taken(op, c.cc) then p.place(to) else next))
      case Ret => Halt(c.m)
  }

  predicate Taken(op: BranchOp, cc: bool) {
    match op case Always => true case IfTrue => cc case IfFalse => !cc
  }

  /** The machine gets from `c` to `d` in `n` steps. */
  ghost predicate Steps(p: Program, c: Config, n: nat, d: Config)
    decreases n
  {
    if n == 0 then c == d else var e := Step(p, c); e.Next? && Steps(p, e.c, n - 1, d)
  }

  lemma {:induction false} StepsThen(p: Program, c: Config, n: nat, d: Config, m: nat, e: Config)
    requires Steps(p, c, n, d) && Steps(p, d, m, e)
    ensures Steps(p, c, n + m, e)
    decreases n
  {
    if n > 0 { StepsThen(p, Step(p, c).c, n - 1, d, m, e); }
  }

  lemma OneStep(p: Program, c: Config, d: Config)
    requires Step(p, c) == Next(d)
    ensures Steps(p, c, 1, d)
  {
    assert Steps(p, d, 0, d);
  }

  /** The machine is deterministic: a run that halts is no longer than that. */
  lemma {:induction false} HaltsOnce(p: Program, c: Config, n: nat, d: Config, m: nat, e: Config)
    requires Steps(p, c, n, d) && Step(p, d).Halt? && Steps(p, c, m, e)
    ensures m <= n && (Step(p, e).Halt? ==> m == n && d == e)
    decreases n
  {
    if n > 0 && m > 0 {
      HaltsOnce(p, Step(p, c).c, n - 1, d, m - 1, e);
    }
  }
}
