/**
 * Generated code for statements: it ends as the statement does, with the same variables and the stack as
 * it was, or runs on for as long as the statement does.
 */
module GeneratedStatements {
  import opened Sealing
  import opened Bytecode
  import opened Generator
  import opened GeneratorParts
  import opened GeneratorOrder
  import opened GeneratedCode

  /** The finished program contains code for a statement that was generated in good order, where control can get. */
  ghost predicate StmtIn(p: Program, g: Gen, e: Env, r: Gen) {
    forall k {:trigger Key(OrderFacts, k)} :: Key(OrderFacts, k) ==> Ready(g) && EnvAt(g, e, g.next, g.height) && !g.dead && Extends(p, r)
  }

  /** A condition and its branch, followed by the label for the other case. */
  ghost predicate TestIn(p: Program, g: Gen, tt: Label, ft: Label, t: Gen, mid: Label) {
    forall k {:trigger Key(OrderFacts, k)} :: Key(OrderFacts, k) ==>
      && Ready(g) && tt < g.next && ft < g.next && At(g, tt, g.height) && At(g, ft, g.height) && !g.dead
      && mid !in t.bound && Extends(p, Bind(t, mid))
  }

  /** Where the machine is when a statement has ended so, or that it has taken as many steps as asked for. */
  ghost predicate Lands(p: Program, r: Gen, e: Env, o: Outcome, s: seq<Val>, d: Config, n: nat, rounds: nat) {
    match o
    case Normal(m) => !r.dead && Reached(r, d, s, m)
    case Broke(m) => e.inLoop && IsAt(p.place(e.exit), d, s, m)
    case Continued(m) => e.inLoop && IsAt(p.place(e.cont), d, s, m)
    case Returned(m) => d.pc < |p.code| && p.code[d.pc] == Ret && d.m == m
    case Running => n >= rounds
  }

  /** The program contains the code so far; kept behind a trigger. */
  ghost predicate Contains(p: Program, g: Gen) {
    forall k {:trigger Key(OrderFacts, k)} :: Key(OrderFacts, k) ==> Extends(p, g)
  }

  lemma BindContains(p: Program, g: Gen, l: Label)
    requires l !in g.bound && Contains(p, Bind(g, l))
    ensures Contains(p, g) && p.place(l) == |g.code|
  {
    assert Key(OrderFacts, 0);
    BindLater(p, g, l);
  }

  lemma BranchContains(p: Program, g: Gen, op: BranchOp, l: Label)
    requires Contains(p, Branch(g, op, l))
    ensures Contains(p, g)
  {
    assert Key(OrderFacts, 0);
    BranchLater(p, g, op, l);
  }

  lemma StmtInEnter(p: Program, g: Gen, e: Env, r: Gen)
    requires StmtIn(p, g, e, r)
    ensures CanEnter(g, e) && !g.dead
  {
    assert Key(OrderFacts, 0);
  }

  lemma DoneLater(p: Program, g: Gen, e: Env, r: Gen)
    requires CanEnter(g, e) && Done(g, r, e) && Contains(p, r)
    ensures Contains(p, g)
  {
    assert Key(OrderFacts, 0);
    GrowsLater(g, r, Touch(e));
    ExtendsLater(p, g, r);
  }

  lemma MakeStmtIn(p: Program, g: Gen, e: Env, r: Gen)
    requires CanEnter(g, e) && !g.dead && Contains(p, r)
    ensures StmtIn(p, g, e, r)
  {
    assert Key(OrderFacts, 0);
  }

  // -------------------------------------------------------------------------- conditions in statements

  /** The targets of a condition whose branch goes to `out`, and after which `mid` is bound. */
  ghost predicate Targets(op: BranchOp, tt: Label, ft: Label, mid: Label, out: Label) {
    mid != out && ((op == IfFalse && tt == mid && ft == out) || (op == IfTrue && tt == out && ft == mid))
  }

  lemma TestRuns(p: Program, g: Gen, x: Expr, tt: Label, ft: Label, op: BranchOp, out: Label, mid: Label, t: Gen, c: Config)
    returns (n: nat, d: Config)
    requires HasType(x, BoolTy) && Tests(g, x, tt, ft, op, out, t) && Targets(op, tt, ft, mid, out)
    requires TestIn(p, g, tt, ft, t, mid) && c.pc == |g.code|
    ensures Leads(p, c, n, d) && n >= 1
    ensures if Taken(op, Eval(x, c.m).b) then IsAt(p.place(out), d, c.stack, c.m) else Reached(Bind(t, mid), d, c.stack, c.m)
  {
    var g1 := TestSplits(g, x, tt, ft, op, out, t);
    TestParts(p, g, x, tt, ft, op, out, mid, g1);
    var n1, d1 := CondRuns(p, g, x, tt, ft, g1, c);
    var n2, d2 := ShortCutRuns(p, g1, op, mid, out, d1, c.stack, Eval(x, c.m).b, c.m);
    LeadsThen(p, c, n1, d1, n2, d2);
    n, d := n1 + n2, d2;
  }

  lemma TestParts(p: Program, g: Gen, x: Expr, tt: Label, ft: Label, op: BranchOp, out: Label, mid: Label, g1: Gen)
    requires Conds(g, x, tt, ft, g1) && Targets(op, tt, ft, mid, out) && TestIn(p, g, tt, ft, Branch(g1, op, out), mid)
    ensures CondIn(p, g, tt, ft, g1) && ShortCutIn(p, g1, op, mid, out)
  {
    TestOpens(p, g, tt, ft, Branch(g1, op, out), mid);
    CondKeeps(g, x, tt, ft, g1);
    TestContains(p, g, tt, ft, op, out, mid, g1);
  }

  lemma TestOpens(p: Program, g: Gen, tt: Label, ft: Label, t: Gen, mid: Label)
    requires TestIn(p, g, tt, ft, t, mid)
    ensures Opens(g, tt, ft)
  {
    assert Key(OrderFacts, 0);
  }

  lemma TestContains(p: Program, g: Gen, tt: Label, ft: Label, op: BranchOp, out: Label, mid: Label, g1: Gen)
    requires CondDone(g, g1, tt, ft) && Targets(op, tt, ft, mid, out) && TestIn(p, g, tt, ft, Branch(g1, op, out), mid)
    ensures CondIn(p, g, tt, ft, g1) && ShortCutIn(p, g1, op, mid, out)
  {
    assert Key(OrderFacts, 0);
    BindLater(p, Branch(g1, op, out), mid);
    BranchLater(p, g1, op, out);
  }

  /** The code before a condition is contained if the code after it is. */
  lemma TestBefore(p: Program, g: Gen, x: Expr, tt: Label, ft: Label, op: BranchOp, l: Label, t: Gen)
    requires Tests(g, x, tt, ft, op, l, t) && Opens(g, tt, ft) && Contains(p, t)
    ensures Contains(p, g)
  {
    var g1 := TestSplits(g, x, tt, ft, op, l, t);
    CondKeeps(g, x, tt, ft, g1);
    BranchContains(p, g1, op, l);
    CondBefore(p, g, tt, ft, g1);
  }

  lemma CondBefore(p: Program, g: Gen, tt: Label, ft: Label, g1: Gen)
    requires Opens(g, tt, ft) && CondDone(g, g1, tt, ft) && Contains(p, g1)
    ensures Contains(p, g)
  {
    assert Key(OrderFacts, 0);
    GrowsLater(g, g1, {tt, ft});
    ExtendsLater(p, g, g1);
  }

  // ------------------------------------------------------------------------------- simple statements

  lemma ValueRuns(p: Program, g: Gen, s: Stmt, e: Env, r: Gen, c: Config, rounds: nat) returns (n: nat, d: Config)
    requires (s.Assign? || s.ExprStat?) && Typed(s) && Executes(g, s, e.exit, e.cont, r) && StmtIn(p, g, e, r) && c.pc == |g.code|
    ensures Leads(p, c, n, d) && Lands(p, r, e, Run(s, c.m, rounds), c.stack, d, n, rounds)
  {
    var g1 := ExecValue(g, s, e.exit, e.cont, r);
    ValueParts(p, g, s, e, g1);
    var n1, d1 := LoadRuns(p, NewLabels(g, 1), s.x, g1, c);
    d := Finished(p, g1, LastOf(s), d1, c.stack, Eval(s.x, c.m));
    LeadsThen(p, c, n1, d1, 1, d);
    n := n1 + 1;
  }

  lemma ValueParts(p: Program, g: Gen, s: Stmt, e: Env, g1: Gen)
    requires (s.Assign? || s.ExprStat?) && Loads(NewLabels(g, 1), s.x, g1) && StmtIn(p, g, e, Bind(Emit(g1, LastOf(s), -1), g.next))
    ensures LoadIn(p, NewLabels(g, 1), g1) && |g1.code| < |p.code| && p.code[|g1.code|] == LastOf(s)
    ensures |Emit(g1, LastOf(s), -1).code| == |g1.code| + 1
  {
    StmtInEnter(p, g, e, Bind(Emit(g1, LastOf(s), -1), g.next));
    ValueEnter(g, e);
    LoadKeeps(NewLabels(g, 1), s.x, g1);
    ValueEnds(g, g1, LastOf(s), e);
    ValueContains(p, g, g1, LastOf(s), e);
  }

  lemma ValueContains(p: Program, g: Gen, g1: Gen, i: Instr, e: Env)
    requires StmtIn(p, g, e, Bind(Emit(g1, i, -1), g.next)) && LoadDone(NewLabels(g, 1), g1) && Prepared(NewLabels(g, 1))
    requires g.next !in Emit(g1, i, -1).bound
    ensures LoadIn(p, NewLabels(g, 1), g1) && |g1.code| < |p.code| && p.code[|g1.code|] == i
    ensures |Emit(g1, i, -1).code| == |g1.code| + 1
  {
    assert Key(OrderFacts, 0);
    BindLater(p, Emit(g1, i, -1), g.next);
    CodeAt(p, g1, i, -1);
  }

  /** A value on the stack is stored or dropped. */
  lemma Finished(p: Program, g: Gen, i: Instr, c: Config, s: seq<Val>, v: Val) returns (d: Config)
    requires |g.code| < |p.code| && p.code[|g.code|] == i && (i.StoreV? || i.PopV?) && Reached(g, c, s + [v], c.m)
    ensures Leads(p, c, 1, d) && IsAt(|g.code| + 1, d, s, if i.StoreV? then Put(c.m, i.n, v) else c.m)
  {
    assert c.stack[..|c.stack| - 1] == s;
    d := Step(p, c).c;
    LeadsOne(p, c, d);
  }

  lemma PlainRuns(p: Program, g: Gen, s: Stmt, e: Env, r: Gen, c: Config, rounds: nat) returns (n: nat, d: Config)
    requires (s.Empty? || s.Break? || s.Continue? || s.Return?) && JumpsIn(s, e.inLoop)
    requires Executes(g, s, e.exit, e.cont, r) && StmtIn(p, g, e, r) && c.pc == |g.code|
    ensures Leads(p, c, n, d) && Lands(p, r, e, Run(s, c.m, rounds), c.stack, d, n, rounds)
  {
    ExecPlain(g, s, e.exit, e.cont, r);
    assert Key(OrderFacts, 0);
    n, d := 0, c;
    LeadsNowhere(p, c);
    if s.Break? {
      d := JumpRuns(p, g, e.exit, c);
      n := 1;
    } else if s.Continue? {
      d := JumpRuns(p, g, e.cont, c);
      n := 1;
    } else if s.Return? {
      CodeAt(p, g, Ret, 0);
    }
  }

  // ------------------------------------------------------------------- what the program contains, part by part

  lemma StmtInContains(p: Program, g: Gen, e: Env, r: Gen)
    requires StmtIn(p, g, e, r)
    ensures Contains(p, r)
  {
    assert Key(OrderFacts, 0);
  }

  lemma MakeTestIn(p: Program, g: Gen, tt: Label, ft: Label, t: Gen, mid: Label)
    requires Opens(g, tt, ft) && !g.dead && mid !in t.bound && Contains(p, Bind(t, mid))
    ensures TestIn(p, g, tt, ft, t, mid)
  {
    assert Key(OrderFacts, 0);
  }

  lemma SeqParts(p: Program, g: Gen, s: Stmt, e: Env, r: Gen, g1: Gen)
    requires s.Seq? && StmtIn(p, g, e, r) && JumpsIn(s, e.inLoop) && Nests(s)
    requires Executes(g, s.first, e.exit, e.cont, g1) && Executes(g1, s.second, e.exit, e.cont, r)
    ensures StmtIn(p, g, e, g1) && (!g1.dead ==> StmtIn(p, g1, e, r))
  {
    StmtInEnter(p, g, e, r);
    StmtInContains(p, g, e, r);
    StmtKeeps(g, s.first, e, g1);
    DoneEnter(g, g1, e);
    StmtKeeps(g1, s.second, e, r);
    DoneLater(p, g1, e, r);
    MakeStmtIn(p, g, e, g1);
    if !g1.dead { MakeStmtIn(p, g1, e, r); }
  }

  /** A statement between a bound label and another: its code is there, and so is what is before it. */
  lemma PartIn(p: Program, g: Gen, b: Gen, e: Env, own: set<Label>, open: set<Label>, inner: Env, s: Stmt, k: Gen, l: Label)
    requires CanEnter(g, e) && l !in b.bound && Building(g, Bind(b, l), e, own, open) && CanEnter(Bind(b, l), inner)
    requires JumpsIn(s, inner.inLoop) && Nests(s) && Executes(Bind(b, l), s, inner.exit, inner.cont, k) && Contains(p, k)
    ensures StmtIn(p, Bind(b, l), inner, k) && Contains(p, b) && p.place(l) == |b.code| && Done(Bind(b, l), k, inner)
  {
    StmtKeeps(Bind(b, l), s, inner, k);
    DoneLater(p, Bind(b, l), inner, k);
    MakeStmtIn(p, Bind(b, l), inner, k);
    BindContains(p, b, l);
  }

  lemma IfRestParts(p: Program, g: Gen, s: Stmt, e: Env, k: Gen, k3: Gen)
    requires s.If? && CanEnter(g, e) && JumpsIn(s, e.inLoop) && Nests(s) && Building(g, k, e, IfOwn(g.next), {g.next, g.next + 2})
    requires Executes(Bind(Branch(k, Always, g.next), g.next + 2), s.no, e.exit, e.cont, k3) && Contains(p, Bind(k3, g.next))
    ensures StmtIn(p, Bind(Branch(k, Always, g.next), g.next + 2), e, k3)
    ensures Contains(p, Branch(k, Always, g.next)) && Contains(p, k)
    ensures p.place(g.next) == |k3.code| && p.place(g.next + 2) == |Branch(k, Always, g.next).code|
  {
    var k2 := Branch(k, Always, g.next);
    ElseKeeps(g, k, e);
    BuildEnter(g, Bind(k2, g.next + 2), e, IfOwn(g.next), {g.next});
    ElseLast(g, s, e, Bind(k2, g.next + 2), k3);
    BindContains(p, k3, g.next);
    PartIn(p, g, k2, e, IfOwn(g.next), {g.next}, e, s.no, k3, g.next + 2);
    BranchContains(p, k, Always, g.next);
  }

  lemma IfBodyParts(p: Program, g: Gen, s: Stmt, e: Env, t: Gen, k: Gen)
    requires s.If? && CanEnter(g, e) && !g.dead && JumpsIn(s, e.inLoop) && Nests(s)
    requires Tests(NewLabels(g, 3), s.x, g.next + 1, g.next + 2, IfFalse, g.next + 2, t)
    requires Executes(Bind(t, g.next + 1), s.yes, e.exit, e.cont, k) && Contains(p, k)
    ensures TestIn(p, NewLabels(g, 3), g.next + 1, g.next + 2, t, g.next + 1) && StmtIn(p, Bind(t, g.next + 1), e, k)
  {
    BothTestKeeps(g, s, e, t);
    BuildEnter(g, Bind(t, g.next + 1), e, IfOwn(g.next), {g.next, g.next + 2});
    PartIn(p, g, t, e, IfOwn(g.next), {g.next, g.next + 2}, e, s.yes, k, g.next + 1);
    StmtInLater(p, Bind(t, g.next + 1), e, k);
    BothTestIn(p, g, e, t);
  }

  lemma BothTestIn(p: Program, g: Gen, e: Env, t: Gen)
    requires CanEnter(g, e) && !g.dead && g.next + 1 !in t.bound && Contains(p, Bind(t, g.next + 1))
    ensures TestIn(p, NewLabels(g, 3), g.next + 1, g.next + 2, t, g.next + 1)
  {
    BuildStarts(g, 3, e, IfOwn(g.next));
    BuildOpens(g, NewLabels(g, 3), e, IfOwn(g.next), IfOwn(g.next), g.next + 1, g.next + 2);
    MakeTestIn(p, NewLabels(g, 3), g.next + 1, g.next + 2, t, g.next + 1);
  }

  lemma StmtInLater(p: Program, g: Gen, e: Env, r: Gen)
    requires StmtIn(p, g, e, r) && Done(g, r, e)
    ensures Contains(p, g)
  {
    StmtInEnter(p, g, e, r);
    StmtInContains(p, g, e, r);
    DoneLater(p, g, e, r);
  }

  lemma IfOneParts(p: Program, g: Gen, s: Stmt, e: Env, t: Gen, k: Gen)
    requires OnePart(s) && CanEnter(g, e) && !g.dead && JumpsIn(s, e.inLoop) && Nests(s)
    requires Tests(NewLabels(g, 2), s.x, PartTrue(s, g.next), PartFalse(s, g.next), PartOp(s), g.next, t)
    requires Executes(Bind(t, g.next + 1), PartOf(s), e.exit, e.cont, k) && Contains(p, Bind(k, g.next))
    ensures TestIn(p, NewLabels(g, 2), PartTrue(s, g.next), PartFalse(s, g.next), t, g.next + 1)
    ensures StmtIn(p, Bind(t, g.next + 1), e, k) && p.place(g.next) == |k.code|
  {
    var own := {g.next, g.next + 1};
    OneTestKeeps(g, s, e, t);
    BuildEnter(g, Bind(t, g.next + 1), e, own, {g.next});
    StmtKeeps(Bind(t, g.next + 1), PartOf(s), e, k);
    BuildStmt(g, Bind(t, g.next + 1), e, own, {g.next}, k);
    BuildLast(g, k, e, own, g.next);
    BindContains(p, k, g.next);
    PartIn(p, g, t, e, own, {g.next}, e, PartOf(s), k, g.next + 1);
    StmtInLater(p, Bind(t, g.next + 1), e, k);
    OneTestIn(p, g, s, e, t);
  }

  lemma OneTestIn(p: Program, g: Gen, s: Stmt, e: Env, t: Gen)
    requires OnePart(s) && CanEnter(g, e) && !g.dead && g.next + 1 !in t.bound && Contains(p, Bind(t, g.next + 1))
    ensures TestIn(p, NewLabels(g, 2), PartTrue(s, g.next), PartFalse(s, g.next), t, g.next + 1)
  {
    var own := {g.next, g.next + 1};
    BuildStarts(g, 2, e, own);
    BuildOpens(g, NewLabels(g, 2), e, own, own, PartTrue(s, g.next), PartFalse(s, g.next));
    MakeTestIn(p, NewLabels(g, 2), PartTrue(s, g.next), PartFalse(s, g.next), t, g.next + 1);
  }

  lemma IfNoneParts(p: Program, g: Gen, s: Stmt, e: Env, g1: Gen)
    requires s.If? && CanEnter(g, e) && !g.dead && Conds(NewLabels(g, 1), s.x, g.next, g.next, g1) && Contains(p, Bind(Pop(g1), g.next))
    ensures CondIn(p, NewLabels(g, 1), g.next, g.next, g1) && Contains(p, Pop(g1)) && p.place(g.next) == |Pop(g1).code| && !g1.dead
  {
    BuildStarts(g, 1, e, {g.next});
    BuildOpens(g, NewLabels(g, 1), e, {g.next}, {g.next}, g.next, g.next);
    CondKeeps(NewLabels(g, 1), s.x, g.next, g.next, g1);
    PopKeeps(g, NewLabels(g, 1), e, g1, g.next);
    BuildLast(g, Pop(g1), e, {g.next}, g.next);
    BindContains(p, Pop(g1), g.next);
    NoneContains(p, NewLabels(g, 1), g.next, g1);
  }

  lemma NoneContains(p: Program, g: Gen, done: Label, g1: Gen)
    requires Opens(g, done, done) && !g.dead && CondDone(g, g1, done, done) && Contains(p, Pop(g1))
    ensures CondIn(p, g, done, done, g1) && !g1.dead
  {
    assert Key(OrderFacts, 0);
    assert Later(g1, Pop(g1));
    ExtendsLater(p, g1, Pop(g1));
  }

  lemma PopAt(p: Program, g: Gen)
    requires Contains(p, Pop(g)) && !g.dead && !g.cc
    ensures |g.code| < |p.code| && p.code[|g.code|] == PopV && |Pop(g).code| == |g.code| + 1
  {
    assert Key(OrderFacts, 0);
    CodeAt(p, g, PopV, -1);
  }

  // ------------------------------------------------------------------------------------- the parts run

  lemma IfNoneRuns(p: Program, g: Gen, s: Stmt, e: Env, r: Gen, c: Config, rounds: nat) returns (n: nat, d: Config)
    requires s.If? && s.yes == Empty && s.no == Empty && Typed(s) && Executes(g, s, e.exit, e.cont, r)
    requires StmtIn(p, g, e, r) && c.pc == |g.code|
    ensures Leads(p, c, n, d) && Lands(p, r, e, Run(s, c.m, rounds), c.stack, d, n, rounds)
  {
    var g1 := ExecIfNone(g, s, e.exit, e.cont, r);
    StmtInEnter(p, g, e, r);
    StmtInContains(p, g, e, r);
    IfNoneParts(p, g, s, e, g1);
    var n1, d1 := CondRuns(p, NewLabels(g, 1), s.x, g.next, g.next, g1, c);
    n, d := n1, d1;
    if !g1.cc && Holding(g1, d1, c.stack, Eval(s.x, c.m), c.m) {
      PopAt(p, g1);
      d := Finished(p, g1, PopV, d1, c.stack, Eval(s.x, c.m));
      LeadsThen(p, c, n1, d1, 1, d);
      n := n1 + 1;
    }
    assert Run(s, c.m, rounds) == Normal(c.m);
  }

  /** The first part of an `if` has ended; if normally, the machine goes past the second part. */
  lemma PastElse(p: Program, k: Gen, k3: Gen, done: Label, e: Env, o: Outcome, s: seq<Val>, c: Config, n: nat, rounds: nat) returns (n': nat, d: Config)
    requires Lands(p, k, e, o, s, c, n, rounds) && Contains(p, Branch(k, Always, done)) && p.place(done) == |k3.code|
    ensures Leads(p, c, n', d) && Lands(p, Bind(k3, done), e, o, s, d, n + n', rounds)
  {
    n', d := 0, c;
    LeadsNowhere(p, c);
    if o.Normal? {
      assert Key(OrderFacts, 0);
      d := JumpRuns(p, k, done, c);
      n' := 1;
    }
  }

  lemma SimpleNormal(s: Stmt, m: Store, rounds: nat)
    requires Simple(s) && Typed(s)
    ensures Run(s, m, rounds).Normal?
  {
  }

  /** The states of the generator at the places of a loop: before it, at its top, after its body, and so on. */
  datatype LoopFrame = LoopFrame(g1: Gen, top: Gen, k: Gen, k1: Gen, t: Gen, own: LoopLabels)

  /** Such is the code of a loop. */
  ghost predicate IsLoop(s: Stmt, e: Env, f: LoopFrame) {
    && s.Loop? && f.top == LoopTop(f.g1, s.kind, f.own)
    && Executes(f.top, s.body, f.own.exit, f.own.cont, f.k)
    && Executes(Bind(f.k, f.own.cont), s.after, e.exit, e.cont, f.k1)
    && LoopTests(Bind(f.k1, f.own.entry), s, f.own, f.t)
  }

  /** The program contains all its parts, with the labels at their places. */
  ghost predicate LoopIn(p: Program, s: Stmt, e: Env, f: LoopFrame) {
    && s.Loop? && IsLoop(s, e, f)
    && StmtIn(p, f.top, Env(true, f.own.exit, f.own.cont), f.k) && StmtIn(p, Bind(f.k, f.own.cont), e, f.k1)
    && (s.kind != Do ==> Contains(p, Branch(f.g1, Always, f.own.entry)))
    && (if Endless(s) then Contains(p, f.t) else TestIn(p, Bind(f.k1, f.own.entry), f.own.loop, f.own.exit, f.t, f.own.exit))
    && p.place(f.own.loop) == |f.top.code| && p.place(f.own.cont) == |f.k.code|
    && p.place(f.own.entry) == |f.k1.code| && p.place(f.own.exit) == |f.t.code|
    && f.own.loop != f.own.exit
  }

  lemma LoopParts(p: Program, g: Gen, s: Stmt, e: Env, f: LoopFrame)
    requires s.Loop? && IsLoop(s, e, f) && f.own == OwnLabels(g.next) && CanEnter(g, e) && JumpsIn(s, e.inLoop) && Nests(s)
    requires Executes(NewLabels(g, 4), s.before, e.exit, e.cont, f.g1) && Contains(p, Bind(f.t, f.own.exit))
    ensures LoopIn(p, s, e, f) && Contains(p, f.g1)
  {
    LoopStartKeeps(g, s, e, f.g1);
    LoopTopKeeps(g, f.g1, s.kind, e);
    LoopInnerIn(p, g, s, e, f);
    TopIn(p, s, f);
  }

  lemma LoopInnerIn(p: Program, g: Gen, s: Stmt, e: Env, f: LoopFrame)
    requires s.Loop? && IsLoop(s, e, f) && f.own == OwnLabels(g.next) && CanEnter(g, e) && JumpsIn(s, e.inLoop) && Nests(s)
    requires Building(g, f.top, e, LoopOwn(g.next), {g.next, g.next + 2, g.next + 3}) && Contains(p, Bind(f.t, f.own.exit))
    ensures Contains(p, f.t) && p.place(f.own.exit) == |f.t.code| && p.place(f.own.entry) == |f.k1.code|
    ensures !Endless(s) ==> TestIn(p, Bind(f.k1, f.own.entry), f.own.loop, f.own.exit, f.t, f.own.exit)
    ensures StmtIn(p, f.top, Env(true, f.own.exit, f.own.cont), f.k) && StmtIn(p, Bind(f.k, f.own.cont), e, f.k1)
    ensures Contains(p, f.top) && p.place(f.own.cont) == |f.k.code|
  {
    InnerKeeps(g, s, e, f.top, f.k);
    LoopEndIn(p, g, s, e, f);
    LoopBodyIn(p, g, s, e, f);
  }

  lemma LoopEndIn(p: Program, g: Gen, s: Stmt, e: Env, f: LoopFrame)
    requires s.Loop? && IsLoop(s, e, f) && f.own == OwnLabels(g.next) && CanEnter(g, e) && Nests(s)
    requires Building(g, Bind(f.k, g.next + 2), e, LoopOwn(g.next), {g.next, g.next + 3}) && Contains(p, Bind(f.t, f.own.exit))
    ensures Contains(p, f.t) && p.place(f.own.exit) == |f.t.code| && Contains(p, f.k1) && p.place(f.own.entry) == |f.k1.code|
    ensures !Endless(s) ==> TestIn(p, Bind(f.k1, f.own.entry), f.own.loop, f.own.exit, f.t, f.own.exit)
    ensures Done(Bind(f.k, g.next + 2), f.k1, e)
  {
    AfterKeeps(g, s, e, Bind(f.k, g.next + 2), f.k1);
    LoopTestKeeps(g, Bind(f.k1, g.next), s, e, f.t);
    BuildLast(g, f.t, e, LoopOwn(g.next), g.next + 3);
    BindContains(p, f.t, g.next + 3);
    LoopTestIn(p, g, s, e, f);
    BindContains(p, f.k1, g.next);
  }

  lemma LoopTestIn(p: Program, g: Gen, s: Stmt, e: Env, f: LoopFrame)
    requires s.Loop? && IsLoop(s, e, f) && f.own == OwnLabels(g.next) && CanEnter(g, e) && Contains(p, f.t) && f.own.exit !in f.t.bound
    requires Building(g, Bind(f.k1, g.next), e, LoopOwn(g.next), {g.next + 3}) && Contains(p, Bind(f.t, f.own.exit))
    ensures Contains(p, Bind(f.k1, g.next))
    ensures !Endless(s) ==> TestIn(p, Bind(f.k1, f.own.entry), f.own.loop, f.own.exit, f.t, f.own.exit)
  {
    var low := Bind(f.k1, g.next);
    LoopTestSplits(low, s, f.own, f.t);
    if Endless(s) {
      BranchContains(p, low, Always, f.own.loop);
    } else {
      BuildOpens(g, low, e, LoopOwn(g.next), {g.next + 3}, g.next + 1, g.next + 3);
      TestBefore(p, low, s.cond.x, g.next + 1, g.next + 3, IfTrue, g.next + 1, f.t);
      MakeTestIn(p, low, g.next + 1, g.next + 3, f.t, g.next + 3);
    }
  }

  lemma LoopBodyIn(p: Program, g: Gen, s: Stmt, e: Env, f: LoopFrame)
    requires s.Loop? && f.own == OwnLabels(g.next) && Contains(p, f.k1) && !f.top.dead && g.next + 2 !in f.k.bound
    requires CanEnter(f.top, Env(true, g.next + 3, g.next + 2)) && Done(f.top, f.k, Env(true, g.next + 3, g.next + 2))
    requires Building(g, Bind(f.k, g.next + 2), e, LoopOwn(g.next), {g.next, g.next + 3}) && Done(Bind(f.k, g.next + 2), f.k1, e)
    ensures StmtIn(p, f.top, Env(true, f.own.exit, f.own.cont), f.k) && StmtIn(p, Bind(f.k, f.own.cont), e, f.k1)
    ensures Contains(p, f.top) && p.place(f.own.cont) == |f.k.code|
  {
    BuildEnter(g, Bind(f.k, g.next + 2), e, LoopOwn(g.next), {g.next, g.next + 3});
    DoneLater(p, Bind(f.k, g.next + 2), e, f.k1);
    MakeStmtIn(p, Bind(f.k, g.next + 2), e, f.k1);
    BindContains(p, f.k, g.next + 2);
    DoneLater(p, f.top, Env(true, g.next + 3, g.next + 2), f.k);
    MakeStmtIn(p, f.top, Env(true, g.next + 3, g.next + 2), f.k);
  }

  lemma TopIn(p: Program, s: Stmt, f: LoopFrame)
    requires s.Loop? && f.top == LoopTop(f.g1, s.kind, f.own) && Contains(p, f.top)
    requires f.own.loop !in (if s.kind != Do then Branch(f.g1, Always, f.own.entry) else f.g1).bound
    ensures (s.kind != Do ==> Contains(p, Branch(f.g1, Always, f.own.entry))) && Contains(p, f.g1) && p.place(f.own.loop) == |f.top.code|
  {
    var b := if s.kind != Do then Branch(f.g1, Always, f.own.entry) else f.g1;
    BindContains(p, b, f.own.loop);
    if s.kind != Do { BranchContains(p, f.g1, Always, f.own.entry); }
  }

  // ----------------------------------------------------------------------------- statements run

  /** Every statement: its code ends where and as the statement does, or runs on at least as long. */
  lemma {:induction false} StmtRuns(p: Program, g: Gen, s: Stmt, e: Env, r: Gen, c: Config, rounds: nat) returns (n: nat, d: Config)
    requires Typed(s) && Nests(s) && JumpsIn(s, e.inLoop) && Executes(g, s, e.exit, e.cont, r) && StmtIn(p, g, e, r) && c.pc == |g.code|
    ensures Leads(p, c, n, d) && Lands(p, r, e, Run(s, c.m, rounds), c.stack, d, n, rounds)
    decreases rounds, s, 2
  {
    match s
    case Assign(_, _) => n, d := ValueRuns(p, g, s, e, r, c, rounds);
    case ExprStat(_) => n, d := ValueRuns(p, g, s, e, r, c, rounds);
    case Seq(_, _) => n, d := SeqRuns(p, g, s, e, r, c, rounds);
    case If(_, yes, no) =>
      if yes != Empty && no != Empty {
        n, d := IfBothRuns(p, g, s, e, r, c, rounds);
      } else if OnePart(s) {
        n, d := IfOneRuns(p, g, s, e, r, c, rounds);
      } else {
        n, d := IfNoneRuns(p, g, s, e, r, c, rounds);
      }
    case Loop(_, _, _, _, _) => n, d := LoopRuns(p, g, s, e, r, c, rounds);
    case _ => n, d := PlainRuns(p, g, s, e, r, c, rounds);
  }

  lemma {:induction false} SeqRuns(p: Program, g: Gen, s: Stmt, e: Env, r: Gen, c: Config, rounds: nat) returns (n: nat, d: Config)
    requires s.Seq? && Typed(s) && Nests(s) && JumpsIn(s, e.inLoop) && Executes(g, s, e.exit, e.cont, r) && StmtIn(p, g, e, r) && c.pc == |g.code|
    ensures Leads(p, c, n, d) && Lands(p, r, e, Run(s, c.m, rounds), c.stack, d, n, rounds)
    decreases rounds, s, 1
  {
    var g1 := ExecSeq(g, s, e.exit, e.cont, r);
    SeqParts(p, g, s, e, r, g1);
    n, d := StmtRuns(p, g, s.first, e, g1, c, rounds);
    if Run(s.first, c.m, rounds).Normal? {
      var n1, d1 := StmtRuns(p, g1, s.second, e, r, d, rounds);
      LeadsThen(p, c, n, d, n1, d1);
      n, d := n + n1, d1;
    }
  }

  lemma OnePartRuns(s: Stmt, m: Store, rounds: nat)
    requires OnePart(s) && Typed(s)
    ensures Typed(PartOf(s)) && Run(s, m, rounds) == if Taken(PartOp(s), Eval(s.x, m).b) then Normal(m) else Run(PartOf(s), m, rounds)
  {
  }

  lemma {:induction false} IfOneRuns(p: Program, g: Gen, s: Stmt, e: Env, r: Gen, c: Config, rounds: nat) returns (n: nat, d: Config)
    requires OnePart(s) && Typed(s) && Nests(s) && JumpsIn(s, e.inLoop) && Executes(g, s, e.exit, e.cont, r) && StmtIn(p, g, e, r) && c.pc == |g.code|
    ensures Leads(p, c, n, d) && Lands(p, r, e, Run(s, c.m, rounds), c.stack, d, n, rounds)
    decreases rounds, s, 1
  {
    var t := ExecIfOne(g, s, e.exit, e.cont, r);
    var k := IfPartSplits(t, s, PartOf(s), g.next + 1, g.next, e.exit, e.cont, r);
    StmtInEnter(p, g, e, r);
    StmtInContains(p, g, e, r);
    IfOneParts(p, g, s, e, t, k);
    OnePartRuns(s, c.m, rounds);
    n, d := TestRuns(p, NewLabels(g, 2), s.x, PartTrue(s, g.next), PartFalse(s, g.next), PartOp(s), g.next, g.next + 1, t, c);
    if !Taken(PartOp(s), Eval(s.x, c.m).b) {
      var n1, d1 := StmtRuns(p, Bind(t, g.next + 1), PartOf(s), e, k, d, rounds);
      LeadsThen(p, c, n, d, n1, d1);
      n, d := n + n1, d1;
    }
  }

  lemma {:induction false} IfBothRuns(p: Program, g: Gen, s: Stmt, e: Env, r: Gen, c: Config, rounds: nat) returns (n: nat, d: Config)
    requires s.If? && s.yes != Empty && s.no != Empty && Typed(s) && Nests(s) && JumpsIn(s, e.inLoop)
    requires Executes(g, s, e.exit, e.cont, r) && StmtIn(p, g, e, r) && c.pc == |g.code|
    ensures Leads(p, c, n, d) && Lands(p, r, e, Run(s, c.m, rounds), c.stack, d, n, rounds)
    decreases rounds, s, 1
  {
    var t := ExecIfBoth(g, s, e.exit, e.cont, r);
    var k := IfBodySplits(t, s, g.next + 1, g.next, g.next + 2, e.exit, e.cont, r);
    var k3 := IfRestSplits(k, s, g.next, g.next + 2, e.exit, e.cont, r);
    IfBothParts(p, g, s, e, r, t, k, k3);
    n, d := TestRuns(p, NewLabels(g, 3), s.x, g.next + 1, g.next + 2, IfFalse, g.next + 2, g.next + 1, t, c);
    if Eval(s.x, c.m).b {
      var n1, d1 := StmtRuns(p, Bind(t, g.next + 1), s.yes, e, k, d, rounds);
      var n2, d2 := PastElse(p, k, k3, g.next, e, Run(s.yes, c.m, rounds), c.stack, d1, n1, rounds);
      LeadsThen(p, c, n, d, n1, d1);
      LeadsThen(p, c, n + n1, d1, n2, d2);
      n, d := n + n1 + n2, d2;
    } else {
      var n1, d1 := StmtRuns(p, Bind(Branch(k, Always, g.next), g.next + 2), s.no, e, k3, d, rounds);
      LeadsThen(p, c, n, d, n1, d1);
      n, d := n + n1, d1;
    }
  }

  lemma IfBothParts(p: Program, g: Gen, s: Stmt, e: Env, r: Gen, t: Gen, k: Gen, k3: Gen)
    requires s.If? && StmtIn(p, g, e, r) && JumpsIn(s, e.inLoop) && Nests(s) && r == Bind(k3, g.next)
    requires Tests(NewLabels(g, 3), s.x, g.next + 1, g.next + 2, IfFalse, g.next + 2, t)
    requires Executes(Bind(t, g.next + 1), s.yes, e.exit, e.cont, k)
    requires Executes(Bind(Branch(k, Always, g.next), g.next + 2), s.no, e.exit, e.cont, k3)
    ensures TestIn(p, NewLabels(g, 3), g.next + 1, g.next + 2, t, g.next + 1) && StmtIn(p, Bind(t, g.next + 1), e, k)
    ensures StmtIn(p, Bind(Branch(k, Always, g.next), g.next + 2), e, k3) && Contains(p, Branch(k, Always, g.next))
    ensures p.place(g.next) == |k3.code| && p.place(g.next + 2) == |Branch(k, Always, g.next).code|
  {
    StmtInEnter(p, g, e, r);
    StmtInContains(p, g, e, r);
    ThenKeeps(g, s, e, t, k);
    IfRestParts(p, g, s, e, k, k3);
    IfBodyParts(p, g, s, e, t, k);
  }

  lemma {:induction false} LoopRuns(p: Program, g: Gen, s: Stmt, e: Env, r: Gen, c: Config, rounds: nat) returns (n: nat, d: Config)
    requires s.Loop? && Typed(s) && Nests(s) && JumpsIn(s, e.inLoop) && Executes(g, s, e.exit, e.cont, r) && StmtIn(p, g, e, r) && c.pc == |g.code|
    ensures Leads(p, c, n, d) && Lands(p, r, e, Run(s, c.m, rounds), c.stack, d, n, rounds)
    decreases rounds, s, 1
  {
    var f := LoopCode(p, g, s, e, r);
    var n1, d1 := StmtRuns(p, NewLabels(g, 4), s.before, e, f.g1, c, rounds);
    SimpleNormal(s.before, c.m, rounds);
    var n2, d2 := IntoLoop(p, s, e, f, d1);
    LeadsThen(p, c, n1, d1, n2, d2);
    if s.kind == Do {
      n, d := BodyRuns(p, s, e, f, d2, rounds);
    } else {
      n, d := RoundRuns(p, s, e, f, d2, rounds);
    }
    LeadsThen(p, c, n1 + n2, d2, n, d);
    n := n1 + n2 + n;
  }

  lemma LoopCode(p: Program, g: Gen, s: Stmt, e: Env, r: Gen) returns (f: LoopFrame)
    requires s.Loop? && Nests(s) && JumpsIn(s, e.inLoop) && Executes(g, s, e.exit, e.cont, r) && StmtIn(p, g, e, r)
    ensures LoopIn(p, s, e, f) && StmtIn(p, NewLabels(g, 4), e, f.g1) && Executes(NewLabels(g, 4), s.before, e.exit, e.cont, f.g1)
    ensures r == Bind(f.t, f.own.exit)
  {
    f := LoopStates(g, s, e, r);
    StmtInEnter(p, g, e, r);
    StmtInContains(p, g, e, r);
    LoopParts(p, g, s, e, f);
    LoopStartKeeps(g, s, e, f.g1);
    MakeStmtIn(p, NewLabels(g, 4), e, f.g1);
  }

  lemma LoopStates(g: Gen, s: Stmt, e: Env, r: Gen) returns (f: LoopFrame)
    requires s.Loop? && Executes(g, s, e.exit, e.cont, r)
    ensures IsLoop(s, e, f) && f.own == OwnLabels(g.next) && Executes(NewLabels(g, 4), s.before, e.exit, e.cont, f.g1)
    ensures r == Bind(f.t, f.own.exit)
  {
    var own := OwnLabels(g.next);
    var g1 := ExecLoop(g, s, e.exit, e.cont, r);
    var top := LoopTop(g1, s.kind, own);
    var k := LoopBodySplits(top, s, own, e.exit, e.cont, r);
    var k1, t := LoopRestSplits(Bind(k, own.cont), s, own, e.exit, e.cont, r);
    f := LoopFrame(g1, top, k, k1, t, own);
  }

  /** From what is before a loop to where it begins: at its condition, or for a `do` at its body. */
  lemma IntoLoop(p: Program, s: Stmt, e: Env, f: LoopFrame, c: Config) returns (n: nat, d: Config)
    requires LoopIn(p, s, e, f) && c.pc == |f.g1.code| && !f.g1.dead
    ensures Leads(p, c, n, d) && IsAt(if s.kind == Do then |f.top.code| else |f.k1.code|, d, c.stack, c.m)
  {
    n, d := 0, c;
    LeadsNowhere(p, c);
    if s.kind != Do {
      assert Key(OrderFacts, 0);
      d := JumpRuns(p, f.g1, f.own.entry, c);
      n := 1;
    }
  }

  /** A loop from its body on. */
  lemma {:induction false} BodyRuns(p: Program, s: Stmt, e: Env, f: LoopFrame, c: Config, rounds: nat) returns (n: nat, d: Config)
    requires LoopIn(p, s, e, f) && Typed(s) && Nests(s) && JumpsIn(s, e.inLoop) && c.pc == |f.top.code|
    ensures Leads(p, c, n, d) && Lands(p, Bind(f.t, f.own.exit), e, RunBody(s, c.m, rounds), c.stack, d, n, rounds)
    decreases rounds, s, 0, 1
  {
    n, d := StmtRuns(p, f.top, s.body, Env(true, f.own.exit, f.own.cont), f.k, c, rounds);
    var o := Run(s.body, c.m, rounds);
    if o.Normal? || o.Continued? {
      SimpleNormal(s.after, o.m, rounds);
      var n1, d1 := StmtRuns(p, Bind(f.k, f.own.cont), s.after, e, f.k1, d, rounds);
      LeadsThen(p, c, n, d, n1, d1);
      var n2, d2 := RoundRuns(p, s, e, f, d1, rounds);
      LeadsThen(p, c, n + n1, d1, n2, d2);
      n, d := n + n1 + n2, d2;
    }
  }

  /** A loop from its condition on. */
  lemma {:induction false} RoundRuns(p: Program, s: Stmt, e: Env, f: LoopFrame, c: Config, rounds: nat) returns (n: nat, d: Config)
    requires LoopIn(p, s, e, f) && Typed(s) && Nests(s) && JumpsIn(s, e.inLoop) && c.pc == |f.k1.code|
    ensures Leads(p, c, n, d) && Lands(p, Bind(f.t, f.own.exit), e, RunCond(s, c.m, rounds), c.stack, d, n, rounds)
    decreases rounds, s, 0, 0
  {
    n, d := LoopTestRuns(p, s, e, f, c);
    if (s.cond.Cond? ==> Eval(s.cond.x, c.m).b) && rounds > 0 {
      var n1, d1 := BodyRuns(p, s, e, f, d, rounds - 1);
      LeadsThen(p, c, n, d, n1, d1);
      n, d := n + n1, d1;
    }
  }

  /** The end of a loop: back to its top if the condition holds, or on. */
  lemma LoopTestRuns(p: Program, s: Stmt, e: Env, f: LoopFrame, c: Config) returns (n: nat, d: Config)
    requires LoopIn(p, s, e, f) && Typed(s) && c.pc == |f.k1.code|
    ensures Leads(p, c, n, d) && n >= 1
    ensures if s.cond.Cond? && !Eval(s.cond.x, c.m).b then Reached(Bind(f.t, f.own.exit), d, c.stack, c.m) else IsAt(|f.top.code|, d, c.stack, c.m)
  {
    var low := Bind(f.k1, f.own.entry);
    LoopTestSplits(low, s, f.own, f.t);
    if Endless(s) {
      assert Key(OrderFacts, 0);
      d := JumpRuns(p, low, f.own.loop, c);
      n := 1;
    } else {
      n, d := TestRuns(p, low, s.cond.x, f.own.loop, f.own.exit, IfTrue, f.own.loop, f.own.exit, f.t, c);
    }
  }

  // ---------------------------------------------------------------------------------- whole functions

  /** The finished program: the code, and every label where it was bound. */
  function Assembled(body: Stmt): (p: Program) {
    var r := Generate(body);
    Program(r.code, (l: Label) => if l in r.bound then r.bound[l] else 0)
  }

  function Started(m: Store): (c: Config) {
    Config(0, [], false, m)
  }

  /** How a function body ends: by itself or by a return. */
  function Final(o: Outcome): (m: Store)
    requires o.Normal? || o.Returned?
  {
    o.m
  }

  lemma {:induction false} NoLooseJumps(s: Stmt, m: Store, rounds: nat)
    requires Typed(s) && JumpsIn(s, false)
    ensures var o := Run(s, m, rounds); o.Normal? || o.Returned? || o.Running?
    decreases rounds, s
  {
    match s
    case Seq(a, b) =>
      NoLooseJumps(a, m, rounds);
      if Run(a, m, rounds).Normal? { NoLooseJumps(b, Run(a, m, rounds).m, rounds); }
    case If(x, yes, no) => if Eval(x, m).b { NoLooseJumps(yes, m, rounds); } else { NoLooseJumps(no, m, rounds); }
    case Loop(kind, before, _, _, _) =>
      SimpleNormal(before, m, rounds);
      LoopEnds(s, Run(before, m, rounds).m, rounds);
    case _ =>
  }

  lemma {:induction false} LoopEnds(s: Stmt, m: Store, rounds: nat)
    requires s.Loop? && Typed(s)
    ensures var o := RunBody(s, m, rounds); o.Normal? || o.Returned? || o.Running?
    ensures var o := RunCond(s, m, rounds); o.Normal? || o.Returned? || o.Running?
    decreases rounds
  {
    if rounds > 0 { LoopEnds(s, m, rounds - 1); }
    var o := Run(s.body, m, rounds);
    if o.Normal? || o.Continued? {
      SimpleNormal(s.after, o.m, rounds);
      var m' := Run(s.after, o.m, rounds).m;
      if rounds > 0 { LoopEnds(s, m', rounds - 1); }
    }
  }

  lemma AssembledIn(body: Stmt)
    requires Typed(body) && JumpsIn(body, false)
    ensures Executes(START, body, 0, 0, Execute(START, body, 0, 0)) && StmtIn(Assembled(body), START, Env(false, 0, 0), Execute(START, body, 0, 0))
    ensures var r := Execute(START, body, 0, 0); !r.dead ==> |r.code| < |Generate(body).code| && Generate(body).code[|r.code|] == Ret
    ensures Nests(body)
  {
    var r := Execute(START, body, 0, 0);
    TypedNests(body);
    assert Extends(Assembled(body), r);
  }

  /**
   * A function body that ends is compiled to code that halts with the same variables. One that is still
   * running after some number of rounds is compiled to code that runs for at least as many steps.
   */
  lemma Compiled(body: Stmt, m: Store, rounds: nat) returns (n: nat, d: Config)
    requires Typed(body) && JumpsIn(body, false)
    ensures Steps(Assembled(body), Started(m), n, d)
    ensures var o := Run(body, m, rounds);
      if o.Running? then n >= rounds else (o.Normal? || o.Returned?) && Step(Assembled(body), d) == Halt(Final(o))
  {
    var p, r := Assembled(body), Execute(START, body, 0, 0);
    AssembledIn(body);
    NoLooseJumps(body, m, rounds);
    n, d := StmtRuns(p, START, body, Env(false, 0, 0), r, Started(m), rounds);
    assert Key(MachineFacts, 0);
  }

  ghost predicate EndsWithin(body: Stmt, m: Store, rounds: nat, m': Store)
    requires Typed(body)
  {
    var o := Run(body, m, rounds);
    (o.Normal? || o.Returned?) && Final(o) == m'
  }

  /** The body ends with variables `m'`. */
  ghost predicate Ends(body: Stmt, m: Store, m': Store)
    requires Typed(body)
  {
    exists rounds :: EndsWithin(body, m, rounds, m')
  }

  ghost predicate HaltsAfter(p: Program, c: Config, n: nat, d: Config, m': Store) {
    Steps(p, c, n, d) && Step(p, d) == Halt(m')
  }

  /** The code halts with variables `m'`. */
  ghost predicate Halts(p: Program, c: Config, m': Store) {
    exists n, d :: HaltsAfter(p, c, n, d, m')
  }

  lemma HaltsThenEnds(body: Stmt, m: Store, m': Store, n: nat, d: Config)
    requires Typed(body) && JumpsIn(body, false) && HaltsAfter(Assembled(body), Started(m), n, d, m')
    ensures EndsWithin(body, m, n + 1, m')
  {
    var n1, d1 := Compiled(body, m, n + 1);
    HaltsOnce(Assembled(body), Started(m), n, d, n1, d1);
  }

  lemma EndsThenHalts(body: Stmt, m: Store, m': Store, rounds: nat)
    requires Typed(body) && JumpsIn(body, false) && EndsWithin(body, m, rounds, m')
    ensures Halts(Assembled(body), Started(m), m')
  {
    var n, d := Compiled(body, m, rounds);
    assert HaltsAfter(Assembled(body), Started(m), n, d, m');
  }

  /** The code halts with variables `m'` if and only if the body ends with them. */
  lemma SameMeaning(body: Stmt, m: Store, m': Store)
    requires Typed(body) && JumpsIn(body, false)
    ensures Halts(Assembled(body), Started(m), m') <==> Ends(body, m, m')
  {
    if Halts(Assembled(body), Started(m), m') {
      var n: nat, d :| HaltsAfter(Assembled(body), Started(m), n, d, m');
      HaltsThenEnds(body, m, m', n, d);
    }
    if Ends(body, m, m') {
      var rounds: nat :| EndsWithin(body, m, rounds, m');
      EndsThenHalts(body, m, m', rounds);
    }
  }
}
