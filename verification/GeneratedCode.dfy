/**
 * What generated code does: the machine follows the meaning of every expression and statement, through
 * all the branches, and code that was left out is never missed.
 */
module GeneratedCode {
  import opened Sealing
  import opened Bytecode
  import opened Generator
  import opened GeneratorParts
  import opened GeneratorOrder

  /** The finished program contains what has been generated so far. */
  ghost predicate Extends(p: Program, g: Gen) {
    g.code <= p.code && forall l :: l in g.bound ==> p.place(l) == g.bound[l]
  }

  ghost predicate Later(g: Gen, h: Gen) {
    g.code <= h.code && forall l :: l in g.bound ==> l in h.bound && h.bound[l] == g.bound[l]
  }

  lemma GrowsLater(g: Gen, h: Gen, touch: set<Label>)
    requires Inv(g) && Grows(g, h, touch)
    ensures Later(g, h)
  {
  }

  lemma ExtendsLater(p: Program, g: Gen, h: Gen)
    requires Later(g, h) && Extends(p, h)
    ensures Extends(p, g)
  {
  }

  lemma BindLater(p: Program, g: Gen, l: Label)
    requires l !in g.bound && Extends(p, Bind(g, l))
    ensures Extends(p, g) && p.place(l) == |g.code|
  {
    assert Later(g, Bind(g, l));
    assert l in Bind(g, l).bound;
  }

  lemma BranchLater(p: Program, g: Gen, op: BranchOp, l: Label)
    requires Extends(p, Branch(g, op, l))
    ensures Extends(p, g)
  {
    assert Later(g, Branch(g, op, l));
    ExtendsLater(p, g, Branch(g, op, l));
  }

  // --------------------------------------------------------------------------------- the machine

  /** The machine gets from `c` to `d` in `n` steps; kept behind a trigger. */
  ghost predicate Leads(p: Program, c: Config, n: nat, d: Config) {
    forall k {:trigger Key(MachineFacts, k)} :: Key(MachineFacts, k) ==> Steps(p, c, n, d)
  }

  lemma LeadsThen(p: Program, c: Config, n: nat, d: Config, m: nat, e: Config)
    requires Leads(p, c, n, d) && Leads(p, d, m, e)
    ensures Leads(p, c, n + m, e)
  {
    assert Key(MachineFacts, 0);
    StepsThen(p, c, n, d, m, e);
  }

  lemma LeadsOne(p: Program, c: Config, d: Config)
    requires Step(p, c) == Next(d)
    ensures Leads(p, c, 1, d)
  {
    OneStep(p, c, d);
  }

  lemma LeadsNowhere(p: Program, c: Config)
    ensures Leads(p, c, 0, c)
  {
    assert Steps(p, c, 0, c);
  }

  // -------------------------------------------------------------------------------- expressions

  /** The machine has got to the end of the code, with stack `s` and variables `m`. */
  ghost predicate Reached(g: Gen, d: Config, s: seq<Val>, m: Store) {
    d.pc == |g.code| && d.stack == s && d.m == m
  }

  ghost predicate IsAt(pc: nat, d: Config, s: seq<Val>, m: Store) {
    d.pc == pc && d.stack == s && d.m == m
  }

  /** At the end of the code, the value is on the stack or in the condition code. */
  ghost predicate Holding(g: Gen, d: Config, s: seq<Val>, v: Val, m: Store) {
    if g.cc then Reached(g, d, s, m) && v == B(d.cc) else Reached(g, d, s + [v], m)
  }

  ghost predicate Known(g: Gen, l: Label) {
    l in g.linked || l in g.bound
  }

  /** What jumping code does with a value: it is there, or the machine has gone to the target that it says. */
  ghost predicate Arrives(p: Program, g: Gen, tt: Label, ft: Label, d: Config, s: seq<Val>, v: Val, m: Store) {
    || Holding(g, d, s, v, m)
    || (v == B(true) && IsAt(p.place(tt), d, s, m) && Known(g, tt))
    || (v == B(false) && IsAt(p.place(ft), d, s, m) && Known(g, ft))
  }

  ghost predicate IsTyped(x: Expr) {
    HasType(x, IntTy) || HasType(x, BoolTy)
  }

  /** The finished program contains code that was generated in good order, where control can get. */
  ghost predicate CondIn(p: Program, g: Gen, tt: Label, ft: Label, r: Gen) {
    forall k {:trigger Key(OrderFacts, k)} :: Key(OrderFacts, k) ==>
      Ready(g) && tt < g.next && ft < g.next && At(g, tt, g.height) && At(g, ft, g.height) && !g.dead && Extends(p, r)
  }

  ghost predicate LoadIn(p: Program, g: Gen, r: Gen) {
    forall k {:trigger Key(OrderFacts, k)} :: Key(OrderFacts, k) ==> Ready(g) && !g.dead && Extends(p, r)
  }

  ghost predicate ShortCutIn(p: Program, g: Gen, op: BranchOp, mid: Label, out: Label) {
    forall k {:trigger Key(OrderFacts, k)} :: Key(OrderFacts, k) ==>
      !g.dead && op != Always && mid !in g.bound && mid != out && Extends(p, Bind(Branch(g, op, out), mid))
  }

  ghost predicate ClearIn(p: Program, g: Gen) {
    forall k {:trigger Key(OrderFacts, k)} :: Key(OrderFacts, k) ==> !g.dead && Extends(p, Clear(g))
  }

  ghost predicate ReloadIn(p: Program, g: Gen, r: Gen, tt: Label, ft: Label) {
    forall k {:trigger Key(OrderFacts, k)} :: Key(OrderFacts, k) ==>
      && Ready(g) && tt == g.next && ft == g.next + 1 && CondLoaded(NewLabels(g, 2), r, tt, ft) && !r.cc && !r.dead
      && Extends(p, Reload(r, g.height, tt, ft))
  }

  lemma CodeAt(p: Program, g: Gen, i: Instr, delta: int)
    requires Extends(p, Emit(g, i, delta)) && !g.dead
    ensures |g.code| < |p.code| && p.code[|g.code|] == i && Extends(p, g)
    ensures |Emit(g, i, delta).code| == |g.code| + 1
  {
    var h := Emit(g, i, delta);
    assert h.code[|g.code|] == i && p.code[|g.code|] == h.code[|g.code|];
  }

  /** A branch on a value that is there. */
  lemma JumpTaken(p: Program, op: BranchOp, l: Label, d: Config) returns (e: Config)
    requires d.pc < |p.code| && p.code[d.pc] == Jump(op, l)
    ensures e == d.(pc := if Taken(op, d.cc) then p.place(l) else d.pc + 1) && Leads(p, d, 1, e)
  {
    e := d.(pc := if Taken(op, d.cc) then p.place(l) else d.pc + 1);
    LeadsOne(p, d, e);
  }

  lemma BranchRuns(p: Program, g: Gen, op: BranchOp, l: Label, d: Config, s: seq<Val>, b: bool, m: Store) returns (n: nat, e: Config)
    requires Extends(p, Branch(g, op, l)) && !g.dead && op != Always && Holding(g, d, s, B(b), m)
    ensures Leads(p, d, n, e) && n >= 1
    ensures if Taken(op, b) then IsAt(p.place(l), e, s, m) else Reached(Branch(g, op, l), e, s, m)
  {
    var r := Branch(g, op, l);
    var at := |r.code| - 1;
    assert r.code[at] == Jump(op, l) && p.code[at] == r.code[at];
    var d1 := d.(pc := at, stack := s, cc := b);
    e := JumpTaken(p, op, l, d1);
    if g.cc {
      n := 1;
    } else {
      assert r.code[at - 1] == SetCC && p.code[at - 1] == r.code[at - 1];
      assert (s + [B(b)])[..|s|] == s;
      LeadsOne(p, d, d1);
      LeadsThen(p, d, 1, d1, 1, e);
      n := 2;
    }
  }

  lemma JumpRuns(p: Program, g: Gen, l: Label, d: Config) returns (e: Config)
    requires Extends(p, Branch(g, Always, l)) && !g.dead && d.pc == |g.code|
    ensures e == d.(pc := p.place(l)) && Leads(p, d, 1, e)
  {
    var r := Branch(g, Always, l);
    assert r.code[|g.code|] == Jump(Always, l) && p.code[|g.code|] == r.code[|g.code|];
    e := d.(pc := p.place(l));
    LeadsOne(p, d, e);
  }

  lemma PushRuns(p: Program, g: Gen, i: Instr, d: Config, v: Val) returns (e: Config)
    requires Extends(p, Emit(g, i, 1)) && !g.dead && d.pc == |g.code|
    requires i == PushV(v) || (i.LoadV? && v == Fetch(d.m, i.n, i.ty)) || (i == GetCC && v == B(d.cc))
    ensures Leads(p, d, 1, e) && Reached(Emit(g, i, 1), e, d.stack + [v], d.m)
  {
    CodeAt(p, g, i, 1);
    e := d.(pc := d.pc + 1, stack := d.stack + [v]);
    LeadsOne(p, d, e);
  }

  lemma SimpleRuns(p: Program, g: Gen, x: Expr, tt: Label, ft: Label, r: Gen, c: Config) returns (d: Config)
    requires (x.Literal? || x.Variable?) && IsTyped(x) && Conds(g, x, tt, ft, r) && CondIn(p, g, tt, ft, r) && c.pc == |g.code|
    ensures Leads(p, c, 1, d) && Holding(r, d, c.stack, Eval(x, c.m), c.m)
  {
    CondSimple(g, x, tt, ft, r);
    assert Key(OrderFacts, 0);
    d := PushRuns(p, g, if x.Literal? then PushV(x.v) else LoadV(x.n, x.ty), c, Eval(x, c.m));
  }

  /** Jumping code leaves the value of the expression, or goes where the value says. */
  lemma {:induction false} CondRuns(p: Program, g: Gen, x: Expr, tt: Label, ft: Label, r: Gen, c: Config) returns (n: nat, d: Config)
    requires IsTyped(x) && Conds(g, x, tt, ft, r) && CondIn(p, g, tt, ft, r) && c.pc == |g.code|
    ensures Leads(p, c, n, d) && n >= 1 && Arrives(p, r, tt, ft, d, c.stack, Eval(x, c.m), c.m)
    decreases x, 0, 1
  {
    if x.Literal? || x.Variable? {
      d := SimpleRuns(p, g, x, tt, ft, r, c);
      n := 1;
    } else if x.Arith? || x.Compare? {
      n, d := BinaryRuns(p, g, x, tt, ft, r, c);
    } else {
      n, d := ShortRuns(p, g, x, tt, ft, r, c);
    }
  }

  lemma {:induction false} BinaryRuns(p: Program, g: Gen, x: Expr, tt: Label, ft: Label, r: Gen, c: Config) returns (n: nat, d: Config)
    requires IsTyped(x) && Conds(g, x, tt, ft, r) && CondIn(p, g, tt, ft, r) && c.pc == |g.code| && (x.Arith? || x.Compare?)
    ensures Leads(p, c, n, d) && n >= 1 && Arrives(p, r, tt, ft, d, c.stack, Eval(x, c.m), c.m)
    decreases x, 0, 0
  {
    var g1, g2 := CondBinary(g, x, tt, ft, r);
    BinaryParts(p, g, x, tt, ft, r, g1, g2);
    var n1, d1 := LoadRuns(p, g, x.left, g1, c);
    var n2, d2 := LoadRuns(p, g1, x.right, g2, d1);
    LeadsThen(p, c, n1, d1, n2, d2);
    d := Operated(p, OperatorOf(x), d2, c.stack, Eval(x.left, c.m), Eval(x.right, c.m));
    LeadsThen(p, c, n1 + n2, d2, 1, d);
    n := n1 + n2 + 1;
  }

  lemma {:induction false} ShortRuns(p: Program, g: Gen, x: Expr, tt: Label, ft: Label, r: Gen, c: Config) returns (n: nat, d: Config)
    requires IsTyped(x) && Conds(g, x, tt, ft, r) && CondIn(p, g, tt, ft, r) && c.pc == |g.code| && (x.And? || x.Or?)
    ensures Leads(p, c, n, d) && n >= 1 && Arrives(p, r, tt, ft, d, c.stack, Eval(x, c.m), c.m)
    decreases x, 0, 0
  {
    var g1, g3 := CondShort(g, x, tt, ft, r);
    ShortCutParts(p, g, x, tt, ft, r, g1, g3);
    var n1, d1 := CondRuns(p, NewLabels(g, 1), x.left, LeftTrue(g, x, tt), LeftFalse(g, x, ft), g1, c);
    var b := Eval(x.left, c.m).b;
    var n2, d2 := ShortCutRuns(p, g1, Exit(x), g.next, Out(x, tt, ft), d1, c.stack, b, c.m);
    LeadsThen(p, c, n1, d1, n2, d2);
    n, d := n1 + n2, d2;
    if !Taken(Exit(x), b) {
      var n3, d3 := CondRuns(p, g3, x.right, tt, ft, r, d2);
      LeadsThen(p, c, n1 + n2, d2, n3, d3);
      n, d := n1 + n2 + n3, d3;
    }
  }

  /** The left operand has been dealt with: go on with the right one, or out. */
  lemma ShortCutRuns(p: Program, g1: Gen, op: BranchOp, mid: Label, out: Label, d: Config, s: seq<Val>, b: bool, m: Store)
    returns (n: nat, e: Config)
    requires ShortCutIn(p, g1, op, mid, out)
    requires Holding(g1, d, s, B(b), m) || (if Taken(op, b) then IsAt(p.place(out), d, s, m) && Known(g1, out) else IsAt(p.place(mid), d, s, m))
    ensures Leads(p, d, n, e)
    ensures var g3 := Bind(Branch(g1, op, out), mid);
      if Taken(op, b) then IsAt(p.place(out), e, s, m) && Known(g3, out) else Reached(g3, e, s, m)
  {
    assert Key(OrderFacts, 0);
    BindLater(p, Branch(g1, op, out), mid);
    if Holding(g1, d, s, B(b), m) {
      n, e := BranchRuns(p, g1, op, out, d, s, b, m);
    } else {
      n, e := 0, d;
      LeadsNowhere(p, d);
    }
  }

  lemma ShortCutParts(p: Program, g: Gen, x: Expr, tt: Label, ft: Label, r: Gen, g1: Gen, g3: Gen)
    requires (x.And? || x.Or?) && CondIn(p, g, tt, ft, r)
    requires Conds(NewLabels(g, 1), x.left, LeftTrue(g, x, tt), LeftFalse(g, x, ft), g1)
    requires g3 == Bind(Branch(g1, Exit(x), Out(x, tt, ft)), g.next) && Conds(g3, x.right, tt, ft, r)
    ensures CondIn(p, NewLabels(g, 1), LeftTrue(g, x, tt), LeftFalse(g, x, ft), g1)
    ensures ShortCutIn(p, g1, Exit(x), g.next, Out(x, tt, ft)) && CondIn(p, g3, tt, ft, r)
    ensures Known(g3, Out(x, tt, ft)) ==> Known(r, Out(x, tt, ft))
  {
    CondInOpens(p, g, tt, ft, r);
    LeftOpens(g, x, tt, ft);
    CondKeeps(NewLabels(g, 1), x.left, LeftTrue(g, x, tt), LeftFalse(g, x, ft), g1);
    ShortCutKeeps(g, g1, x, tt, ft);
    CondKeeps(g3, x.right, tt, ft, r);
    ShortCutContains(p, g, x, tt, ft, r, g1, g3);
  }

  lemma CondInOpens(p: Program, g: Gen, tt: Label, ft: Label, r: Gen)
    requires CondIn(p, g, tt, ft, r)
    ensures Opens(g, tt, ft) && Prepared(g)
  {
    assert Key(OrderFacts, 0);
  }

  lemma ShortCutContains(p: Program, g: Gen, x: Expr, tt: Label, ft: Label, r: Gen, g1: Gen, g3: Gen)
    requires (x.And? || x.Or?) && CondIn(p, g, tt, ft, r) && Opens(NewLabels(g, 1), LeftTrue(g, x, tt), LeftFalse(g, x, ft))
    requires CondDone(NewLabels(g, 1), g1, LeftTrue(g, x, tt), LeftFalse(g, x, ft)) && g.next !in g1.bound
    requires g3 == Bind(Branch(g1, Exit(x), Out(x, tt, ft)), g.next) && Opens(g3, tt, ft) && CondDone(g3, r, tt, ft)
    ensures CondIn(p, NewLabels(g, 1), LeftTrue(g, x, tt), LeftFalse(g, x, ft), g1)
    ensures ShortCutIn(p, g1, Exit(x), g.next, Out(x, tt, ft)) && CondIn(p, g3, tt, ft, r)
    ensures Known(g3, Out(x, tt, ft)) ==> Known(r, Out(x, tt, ft))
  {
    assert Key(OrderFacts, 0);
    GrowsLater(g3, r, {tt, ft});
    ExtendsLater(p, g3, r);
    BindLater(p, Branch(g1, Exit(x), Out(x, tt, ft)), g.next);
    BranchLater(p, g1, Exit(x), Out(x, tt, ft));
  }

  lemma BinaryParts(p: Program, g: Gen, x: Expr, tt: Label, ft: Label, r: Gen, g1: Gen, g2: Gen)
    requires (x.Arith? || x.Compare?) && CondIn(p, g, tt, ft, r)
    requires Loads(g, x.left, g1) && Loads(g1, x.right, g2) && (!g2.cc ==> r == Operate(g2, OperatorOf(x)))
    ensures LoadIn(p, g, g1) && LoadIn(p, g1, g2)
    ensures |g2.code| < |p.code| && p.code[|g2.code|] == OperatorOf(x) && |r.code| == |g2.code| + 1 && r.cc == x.Compare?
  {
    CondInOpens(p, g, tt, ft, r);
    LoadKeeps(g, x.left, g1);
    LoadPrepares(g, g1);
    LoadKeeps(g1, x.right, g2);
    LoadPrepares(g1, g2);
    BinaryContains(p, g, g1, g2, OperatorOf(x), tt, ft);
  }

  lemma BinaryContains(p: Program, g: Gen, g1: Gen, g2: Gen, i: Instr, tt: Label, ft: Label)
    requires CondIn(p, g, tt, ft, Operate(g2, i)) && LoadDone(g, g1) && LoadDone(g1, g2)
    ensures LoadIn(p, g, g1) && LoadIn(p, g1, g2)
    ensures |g2.code| < |p.code| && p.code[|g2.code|] == i && |Operate(g2, i).code| == |g2.code| + 1
  {
    assert Key(OrderFacts, 0);
    var delta := if i.Cmp? then -2 else -1;
    assert Extends(p, Emit(g2, i, delta));
    CodeAt(p, g2, i, delta);
    GrowsLater(g1, g2, {});
    ExtendsLater(p, g1, g2);
  }

  /** Operands that an instruction can take. */
  predicate Fitting(i: Instr, v: Val, w: Val) {
    TypeOf(v) == TypeOf(w) && if i.Calc? then TypeOf(v) == OperandOf(i.aop) else i.Cmp? && Comparable(i.cop, TypeOf(v))
  }

  lemma Operated(p: Program, i: Instr, c: Config, s: seq<Val>, v: Val, w: Val) returns (d: Config)
    requires c.pc < |p.code| && p.code[c.pc] == i && c.stack == s + [v] + [w] && Fitting(i, v, w)
    ensures Leads(p, c, 1, d) && d.pc == c.pc + 1 && d.m == c.m
    ensures if i.Calc? then d.stack == s + [Calculate(i.aop, v, w)] else d.stack == s && d.cc == Judge(i.cop, v, w)
  {
    assert c.stack[..|c.stack| - 2] == s;
    d := Step(p, c).c;
    LeadsOne(p, c, d);
  }

  /** Loading an expression leaves exactly its value on the stack. */
  lemma {:induction false} LoadRuns(p: Program, g: Gen, x: Expr, r: Gen, c: Config) returns (n: nat, d: Config)
    requires IsTyped(x) && Loads(g, x, r) && LoadIn(p, g, r) && c.pc == |g.code|
    ensures Leads(p, c, n, d) && n >= 1 && Reached(r, d, c.stack + [Eval(x, c.m)], c.m)
    decreases x, 1
  {
    var tt, ft, g0 := g.next, g.next + 1, NewLabels(g, 2);
    var g1 := LoadSplits(g, x, r);
    LoadParts(p, g, x, r, g1);
    var n1, d1 := CondRuns(p, g0, x, tt, ft, g1, c);
    var n2, d2 := ClearRuns(p, g1, tt, ft, d1, c.stack, Eval(x, c.m), c.m);
    LeadsThen(p, c, n1, d1, n2, d2);
    var n3, d3 := ReloadRuns(p, g, Clear(g1), tt, ft, d2, c.stack, Eval(x, c.m), c.m);
    LeadsThen(p, c, n1 + n2, d2, n3, d3);
    n, d := n1 + n2 + n3, d3;
  }

  lemma LoadParts(p: Program, g: Gen, x: Expr, r: Gen, g1: Gen)
    requires LoadIn(p, g, r) && Conds(NewLabels(g, 2), x, g.next, g.next + 1, g1) && r == Reload(Clear(g1), g.height, g.next, g.next + 1)
    ensures CondIn(p, NewLabels(g, 2), g.next, g.next + 1, g1) && ClearIn(p, g1) && ReloadIn(p, g, Clear(g1), g.next, g.next + 1)
  {
    LoadInPrepared(p, g, r);
    LoadOpens(g);
    CondKeeps(NewLabels(g, 2), x, g.next, g.next + 1, g1);
    ClearKeeps(NewLabels(g, 2), g1, g.next, g.next + 1);
    LoadContains(p, g, g1);
  }

  lemma LoadInPrepared(p: Program, g: Gen, r: Gen)
    requires LoadIn(p, g, r)
    ensures Prepared(g)
  {
    assert Key(OrderFacts, 0);
  }

  lemma LoadContains(p: Program, g: Gen, g1: Gen)
    requires LoadIn(p, g, Reload(Clear(g1), g.height, g.next, g.next + 1)) && Opens(NewLabels(g, 2), g.next, g.next + 1)
    requires CondDone(NewLabels(g, 2), g1, g.next, g.next + 1) && CondDone(NewLabels(g, 2), Clear(g1), g.next, g.next + 1) && !Clear(g1).cc
    ensures CondIn(p, NewLabels(g, 2), g.next, g.next + 1, g1) && ClearIn(p, g1) && ReloadIn(p, g, Clear(g1), g.next, g.next + 1)
  {
    assert Key(OrderFacts, 0);
    ReloadContains(p, g, Clear(g1), g.next, g.next + 1);
    assert Later(g1, Clear(g1));
    ExtendsLater(p, g1, Clear(g1));
  }

  lemma ClearRuns(p: Program, g: Gen, tt: Label, ft: Label, c: Config, s: seq<Val>, v: Val, m: Store) returns (n: nat, d: Config)
    requires Arrives(p, g, tt, ft, c, s, v, m) && ClearIn(p, g)
    ensures Leads(p, c, n, d) && Arrives(p, Clear(g), tt, ft, d, s, v, m)
  {
    assert Key(OrderFacts, 0);
    n, d := 0, c;
    LeadsNowhere(p, c);
    if g.cc && Holding(g, c, s, v, m) {
      d := PushRuns(p, g, GetCC, c, v);
      n := 1;
    }
  }

  /** Making a value again: where the label is, there is a push. */
  lemma ReviveRuns(p: Program, g: Gen, h: int, l: Label, b: bool, c: Config) returns (d: Config)
    requires Extends(p, Revive(g, h, l, b)) && l !in g.bound && c.pc == p.place(l)
    ensures Extends(p, g) && Leads(p, c, 1, d) && Reached(Revive(g, h, l, b), d, c.stack + [B(b)], c.m)
  {
    var g1 := Bind(g.(height := h), l);
    CodeAt(p, g1, PushV(B(b)), 1);
    BindLater(p, g.(height := h), l);
    d := PushRuns(p, g1, PushV(B(b)), c, B(b));
  }

  lemma ReviveLater(p: Program, g: Gen, h: int, l: Label, b: bool)
    requires Extends(p, Revive(g, h, l, b)) && l !in g.bound
    ensures Extends(p, g)
  {
    var g1 := Bind(g.(height := h), l);
    CodeAt(p, g1, PushV(B(b)), 1);
    BindLater(p, g.(height := h), l);
  }

  /** The program contains every stage of the reloading, and the end is where the last stage ends. */
  lemma ReloadParts(p: Program, g: Gen, k: Gen, tt: Label, ft: Label)
    requires Ready(g) && tt == g.next && ft == g.next + 1 && CondLoaded(NewLabels(g, 2), k, tt, ft) && !k.cc
    requires (IsLinked(k, tt) || IsLinked(k, ft)) && Extends(p, Reload(k, g.height, tt, ft))
    ensures var both, g1 := IsLinked(k, tt) && IsLinked(k, ft), Branch(NewLabels(k, 1), Always, k.next);
      var g3 := ReloadTrue(g1, g.height, tt, both, k.next);
      && Reloading(g, g1, {tt, ft, k.next}, tt, ft, k.next) && (tt in g1.linked <==> tt in k.linked) && (ft in g1.linked <==> ft in k.linked)
      && Reloading(g, g3, {ft, k.next}, tt, ft, k.next) && (ft in g3.linked <==> ft in k.linked)
      && Extends(p, if IsLinked(g3, ft) then Revive(g3, g.height, ft, false) else g3) && Extends(p, g3)
      && p.place(k.next) == |(if IsLinked(g3, ft) then Revive(g3, g.height, ft, false) else g3).code|
  {
    ReloadStarts(g, k, tt, ft);
    var both, g1 := IsLinked(k, tt) && IsLinked(k, ft), Branch(NewLabels(k, 1), Always, k.next);
    SkipKeeps(g, NewLabels(k, 1), {tt, ft, k.next}, tt, ft, k.next);
    ReloadTrueKeeps(g, g1, tt, ft, both, k.next);
    var g3 := ReloadTrue(g1, g.height, tt, both, k.next);
    ReloadEnds(g, g3, tt, ft, k.next);
    BindLater(p, if IsLinked(g3, ft) then Revive(g3, g.height, ft, false) else g3, k.next);
    if IsLinked(g3, ft) { ReviveLater(p, g3, g.height, ft, false); }
  }

  lemma ReloadTrueParts(p: Program, g: Gen, g1: Gen, tt: Label, ft: Label, both: bool, loaded: Label)
    requires Reloading(g, g1, {tt, ft, loaded}, tt, ft, loaded) && Extends(p, ReloadTrue(g1, g.height, tt, both, loaded))
    ensures Extends(p, if IsLinked(g1, tt) then Revive(g1, g.height, tt, true) else g1) && Extends(p, g1)
  {
    var g2 := if IsLinked(g1, tt) then Revive(g1, g.height, tt, true) else g1;
    if both { BranchLater(p, g2, Always, loaded); }
    if IsLinked(g1, tt) { ReviveLater(p, g1, g.height, tt, true); }
  }

  lemma ReloadContains(p: Program, g: Gen, k: Gen, tt: Label, ft: Label)
    requires Ready(g) && tt == g.next && ft == g.next + 1 && CondLoaded(NewLabels(g, 2), k, tt, ft) && !k.cc
    requires Extends(p, Reload(k, g.height, tt, ft))
    ensures Extends(p, k)
  {
    if IsLinked(k, tt) || IsLinked(k, ft) {
      var both, g1 := IsLinked(k, tt) && IsLinked(k, ft), Branch(NewLabels(k, 1), Always, k.next);
      ReloadParts(p, g, k, tt, ft);
      ReloadTrueParts(p, g, g1, tt, ft, both, k.next);
      BranchLater(p, NewLabels(k, 1), Always, k.next);
    }
  }

  lemma ReloadRuns(p: Program, g: Gen, k: Gen, tt: Label, ft: Label, c: Config, s: seq<Val>, v: Val, m: Store) returns (n: nat, d: Config)
    requires ReloadIn(p, g, k, tt, ft) && Arrives(p, k, tt, ft, c, s, v, m)
    ensures Leads(p, c, n, d) && Reached(Reload(k, g.height, tt, ft), d, s + [v], m)
  {
    assert Key(OrderFacts, 0);
    n, d := 0, c;
    LeadsNowhere(p, c);
    assert tt !in k.bound && ft !in k.bound;
    if IsLinked(k, tt) || IsLinked(k, ft) {
      ReloadParts(p, g, k, tt, ft);
      var both, g1 := IsLinked(k, tt) && IsLinked(k, ft), Branch(NewLabels(k, 1), Always, k.next);
      ReloadTrueParts(p, g, g1, tt, ft, both, k.next);
      if Holding(k, c, s, v, m) {
        d := JumpRuns(p, NewLabels(k, 1), k.next, c);
        n := 1;
      } else if v == B(true) {
        n, d := TrueRuns(p, g, g1, tt, ft, both, k.next, c, s, m);
      } else {
        d := ReviveRuns(p, ReloadTrue(g1, g.height, tt, both, k.next), g.height, ft, false, c);
        n := 1;
      }
    }
  }

  lemma TrueRuns(p: Program, g: Gen, g1: Gen, tt: Label, ft: Label, both: bool, loaded: Label, c: Config, s: seq<Val>, m: Store)
    returns (n: nat, d: Config)
    requires Ready(g) && Reloading(g, g1, {tt, ft, loaded}, tt, ft, loaded) && tt in g1.linked && (both <==> ft in g1.linked)
    requires var g3 := ReloadTrue(g1, g.height, tt, both, loaded);
      Extends(p, g3) && (ft in g3.linked <==> both) && Extends(p, Revive(g1, g.height, tt, true))
      && p.place(loaded) == |(if IsLinked(g3, ft) then Revive(g3, g.height, ft, false) else g3).code|
    requires c.pc == p.place(tt) && c.stack == s && c.m == m
    ensures Leads(p, c, n, d) && Reached(ReloadFalse(ReloadTrue(g1, g.height, tt, both, loaded), g.height, ft, loaded), d, s + [B(true)], m)
  {
    var g2 := Revive(g1, g.height, tt, true);
    d := ReviveRuns(p, g1, g.height, tt, true, c);
    n := 1;
    if both {
      var e := JumpRuns(p, g2, loaded, d);
      LeadsThen(p, c, 1, d, 1, e);
      n, d := 2, e;
    }
  }
}
