/**
 * The generator stays in good order: every branch is to a label that gets bound, stack heights agree at
 * every label, and none of its assertions fails, for every nesting of statements and expressions.
 */
module GeneratorOrder {
  import opened Sealing
  import opened Bytecode
  import opened Generator
  import opened GeneratorParts

  // -------------------------------------------------------------------- what each step keeps

  /** Every branch goes to a label that is bound, or will be. */
  ghost predicate Inv(g: Gen) {
    && (forall l :: l in g.linked ==> l < g.next && l !in g.bound)
    && (forall l :: l in g.bound ==> l < g.next && g.bound[l] <= |g.code|)
    && (forall i :: 0 <= i < |g.code| && g.code[i].Jump? ==> g.code[i].to in g.linked || g.code[i].to in g.bound)
  }

  /** From `g` to `h` only labels in `touch`, and new ones, have been used, and all new ones are bound. */
  ghost predicate Grows(g: Gen, h: Gen, touch: set<Label>) {
    && g.code <= h.code && g.next <= h.next
    && g.linked <= h.linked <= g.linked + touch
    && (forall l :: l < g.next ==> (l in h.bound <==> l in g.bound) && (l in g.bound ==> h.bound[l] == g.bound[l]))
    && (forall l :: l < g.next && l !in touch && l in g.heights ==> l in h.heights && h.heights[l] == g.heights[l])
  }

  /** The height recorded for a label that is in use. */
  ghost predicate At(g: Gen, l: Label, h: int) {
    l in g.linked || l in g.bound ==> HeightIs(g, l, h)
  }

  lemma GrowsSelf(g: Gen)
    ensures Grows(g, g, {})
  {
  }

  lemma GrowsThen(g: Gen, h: Gen, k: Gen, touch: set<Label>, touch': set<Label>)
    requires Grows(g, h, touch) && Grows(h, k, touch') && touch' <= touch
    ensures Grows(g, k, touch)
  {
    forall l | l < g.next ensures (l in k.bound <==> l in g.bound) && (l in g.bound ==> k.bound[l] == g.bound[l]) {
      assert l < h.next;
    }
  }

  lemma EmitKeeps(g: Gen, i: Instr, delta: int)
    requires Inv(g) && !i.Jump?
    ensures Inv(Emit(g, i, delta)) && Grows(g, Emit(g, i, delta), {})
  {
  }

  lemma JumpingKeeps(g: Gen, op: BranchOp, l: Label)
    requires Inv(g) && l < g.next
    ensures Inv(Jumping(g, op, l)) && Grows(g, Jumping(g, op, l), {l})
  {
  }

  lemma BranchKeeps(g: Gen, op: BranchOp, l: Label, h: int)
    requires Inv(g) && l < g.next && g.ok && At(g, l, h) && h >= 0
    requires if op == Always then !g.cc && g.height == h else g.height == h + if g.cc then 0 else 1
    ensures var r := Branch(g, op, l);
      Inv(r) && Grows(g, r, {l}) && r.ok && At(r, l, h) && r.height == h && !r.cc && (r.dead <==> g.dead || op == Always)
    ensures !g.dead ==> l in Branch(g, op, l).linked || l in Branch(g, op, l).bound
  {
    var g1 := if op != Always && !g.cc then Emit(g, SetCC, -1) else g;
    if op != Always && !g.cc { EmitKeeps(g, SetCC, -1); } else { GrowsSelf(g); }
    JumpingKeeps(g1, op, l);
    var g2 := Jumping(g1, op, l);
    assert Grows(g, g1, {l}) && Grows(g1, g2, {l});
    GrowsThen(g, g1, g2, {l}, {l});
  }

  /** Binding a label that was not there in `g0`. */
  lemma BindKeeps(g0: Gen, g: Gen, l: Label, touch: set<Label>)
    requires Inv(g0) && Inv(g) && g0.next <= l < g.next && l !in g.bound && At(g, l, g.height) && g.ok
    requires Grows(g0, g, touch + {l})
    ensures var r := Bind(g, l); Inv(r) && Grows(g0, r, touch) && r.ok && HeightIs(r, l, g.height) && !r.dead
  {
  }

  // ---------------------------------------------------------- expressions keep the generator in order

  ghost predicate Ready(g: Gen) {
    Inv(g) && g.ok && !g.cc && g.height >= 0
  }

  /** After jumping code: only the targets have been used, at the height from before. */
  ghost predicate CondLoaded(g: Gen, r: Gen, tt: Label, ft: Label) {
    && Inv(r) && r.ok && Grows(g, r, {tt, ft}) && r.height == g.height + (if r.cc then 0 else 1)
    && At(r, tt, g.height) && At(r, ft, g.height) && (!g.dead ==> !r.dead)
  }

  /** After a value has been loaded: no label of others has been used, and the stack is higher by one. */
  ghost predicate Loaded(g: Gen, r: Gen) {
    Ready(r) && Grows(g, r, {}) && r.height == g.height + 1 && (!g.dead ==> !r.dead)
  }

  lemma AtFrame(g: Gen, h: Gen, touch: set<Label>, l: Label, height: int)
    requires Grows(g, h, touch) && l < g.next && l !in touch && At(g, l, height)
    ensures At(h, l, height)
  {
  }

  lemma Fresh(g: Gen, n: nat)
    requires Inv(g)
    ensures Inv(NewLabels(g, n)) && Grows(g, NewLabels(g, n), {})
    ensures forall l, h :: g.next <= l ==> At(NewLabels(g, n), l, h)
  {
  }

  ghost predicate Prepared(g: Gen) {
    forall k {:trigger Key(OrderFacts, k)} :: Key(OrderFacts, k) ==> Ready(g)
  }

  /** Code with these targets can begin. */
  ghost predicate Opens(g: Gen, tt: Label, ft: Label) {
    forall k {:trigger Key(OrderFacts, k)} :: Key(OrderFacts, k) ==> Ready(g) && tt < g.next && ft < g.next && At(g, tt, g.height) && At(g, ft, g.height)
  }

  ghost predicate CondDone(g: Gen, r: Gen, tt: Label, ft: Label) {
    forall k {:trigger Key(OrderFacts, k)} :: Key(OrderFacts, k) ==> CondLoaded(g, r, tt, ft)
  }

  ghost predicate LoadDone(g: Gen, r: Gen) {
    forall k {:trigger Key(OrderFacts, k)} :: Key(OrderFacts, k) ==> Loaded(g, r)
  }

  /** Up to the right operand of `&&` or `||`. */
  ghost predicate Between(g: Gen, r: Gen, out: Label) {
    forall k {:trigger Key(OrderFacts, k)} :: Key(OrderFacts, k) ==> Grows(g, r, {out}) && r.height == g.height && !r.dead
  }

  lemma {:induction false} CondKeeps(g: Gen, x: Expr, tt: Label, ft: Label, r: Gen)
    requires Opens(g, tt, ft) && Conds(g, x, tt, ft, r)
    ensures CondDone(g, r, tt, ft)
    decreases x, 0
  {
    if x.Literal? || x.Variable? {
      CondSimple(g, x, tt, ft, r);
      SimpleKeeps(g, if x.Literal? then PushV(x.v) else LoadV(x.n, x.ty), tt, ft);
    } else if x.Arith? || x.Compare? {
      var g1, g2 := CondBinary(g, x, tt, ft, r);
      OpensPrepares(g, tt, ft);
      LoadKeeps(g, x.left, g1);
      LoadPrepares(g, g1);
      LoadKeeps(g1, x.right, g2);
      LoadPrepares(g1, g2);
      BinaryKeeps(g, g1, g2, OperatorOf(x), tt, ft);
    } else {
      var g1, g3 := CondShort(g, x, tt, ft, r);
      LeftOpens(g, x, tt, ft);
      CondKeeps(NewLabels(g, 1), x.left, LeftTrue(g, x, tt), LeftFalse(g, x, ft), g1);
      ShortCutKeeps(g, g1, x, tt, ft);
      CondKeeps(g3, x.right, tt, ft, r);
      ShortCutJoins(g, g3, r, Out(x, tt, ft), tt, ft);
    }
  }

  lemma OpensPrepares(g: Gen, tt: Label, ft: Label)
    requires Opens(g, tt, ft)
    ensures Prepared(g)
  {
    assert Key(OrderFacts, 0);
  }

  lemma LoadPrepares(g: Gen, r: Gen)
    requires LoadDone(g, r)
    ensures Prepared(r) && !r.cc
  {
    assert Key(OrderFacts, 0);
  }

  lemma LeftOpens(g: Gen, x: Expr, tt: Label, ft: Label)
    requires Opens(g, tt, ft)
    ensures Opens(NewLabels(g, 1), LeftTrue(g, x, tt), LeftFalse(g, x, ft))
  {
    assert Key(OrderFacts, 0);
    Fresh(g, 1);
  }

  lemma SimpleKeeps(g: Gen, i: Instr, tt: Label, ft: Label)
    requires Opens(g, tt, ft) && !i.Jump?
    ensures CondDone(g, Emit(g, i, 1), tt, ft)
  {
    assert Key(OrderFacts, 0);
    EmitKeeps(g, i, 1);
  }

  lemma BinaryKeeps(g: Gen, g1: Gen, g2: Gen, i: Instr, tt: Label, ft: Label)
    requires Opens(g, tt, ft) && LoadDone(g, g1) && LoadDone(g1, g2) && (i.Calc? || i.Cmp?)
    ensures CondDone(g, Operate(g2, i), tt, ft)
  {
    assert Key(OrderFacts, 0);
    var delta := if i.Cmp? then -2 else -1;
    var g3 := Emit(g2, i, delta);
    EmitKeeps(g2, i, delta);
    GrowsThen(g, g1, g2, {}, {});
    GrowsThen(g, g2, g3, {}, {});
    AtFrame(g, g3, {}, tt, g.height);
    AtFrame(g, g3, {}, ft, g.height);
  }

  /** Between the operands of `&&` and `||`: a branch to the label that decides, and the other one bound. */
  lemma ShortCutKeeps(g: Gen, g1: Gen, x: Expr, tt: Label, ft: Label)
    requires Opens(g, tt, ft) && CondDone(NewLabels(g, 1), g1, LeftTrue(g, x, tt), LeftFalse(g, x, ft))
    ensures var g3 := Bind(Branch(g1, Exit(x), Out(x, tt, ft)), g.next);
      Opens(g3, tt, ft) && Between(g, g3, Out(x, tt, ft)) && g.next !in g1.bound
  {
    assert Key(OrderFacts, 0);
    MiddleKeeps(g, g1, Exit(x), g.next, Out(x, tt, ft), if x.And? then tt else ft, {LeftTrue(g, x, tt), LeftFalse(g, x, ft)});
  }

  lemma MiddleKeeps(g: Gen, g1: Gen, op: BranchOp, mid: Label, out: Label, other: Label, touch: set<Label>)
    requires Ready(g) && mid == g.next && out < g.next && other < g.next && op != Always && touch == {mid, out}
    requires At(g, other, g.height) && At(g, out, g.height)
    requires Inv(g1) && g1.ok && Grows(NewLabels(g, 1), g1, touch) && g1.height == g.height + (if g1.cc then 0 else 1)
    requires At(g1, mid, g.height) && At(g1, out, g.height)
    ensures var g3 := Bind(Branch(g1, op, out), mid);
      && Ready(g3) && Grows(g, g3, {out}) && g3.height == g.height && !g3.dead && At(g3, out, g.height) && At(g3, other, g.height)
      && mid !in g1.bound
  {
    Fresh(g, 1);
    var g2 := Branch(g1, op, out);
    BranchKeeps(g1, op, out, g.height);
    AtFrame(g1, g2, {out}, mid, g.height);
    GrowsThen(NewLabels(g, 1), g1, g2, touch, {out});
    GrowsAfterFresh(g, 1, g2, touch);
    assert touch == {out} + {mid};
    BindKeeps(g, g2, mid, {out});
    if other != out { AtFrame(g, Bind(g2, mid), {out}, other, g.height); }
  }

  lemma GrowsAfterFresh(g: Gen, n: nat, h: Gen, touch: set<Label>)
    requires Grows(NewLabels(g, n), h, touch)
    ensures Grows(g, h, touch)
  {
  }

  lemma ShortCutJoins(g: Gen, g3: Gen, r: Gen, out: Label, tt: Label, ft: Label)
    requires Between(g, g3, out) && CondDone(g3, r, tt, ft) && (out == tt || out == ft)
    ensures CondDone(g, r, tt, ft)
  {
    assert Key(OrderFacts, 0);
    assert Grows(g, g3, {tt, ft});
    GrowsThen(g, g3, r, {tt, ft}, {tt, ft});
  }

  lemma {:induction false} LoadKeeps(g: Gen, x: Expr, r: Gen)
    requires Prepared(g) && Loads(g, x, r)
    ensures LoadDone(g, r)
    decreases x, 1
  {
    var g1 := LoadSplits(g, x, r);
    LoadOpens(g);
    CondKeeps(NewLabels(g, 2), x, g.next, g.next + 1, g1);
    ClearKeeps(NewLabels(g, 2), g1, g.next, g.next + 1);
    ReloadKeeps(g, Clear(g1), g.next, g.next + 1);
  }

  lemma LoadOpens(g: Gen)
    requires Prepared(g)
    ensures Opens(NewLabels(g, 2), g.next, g.next + 1)
  {
    assert Key(OrderFacts, 0);
    Fresh(g, 2);
  }

  lemma ClearKeeps(g: Gen, g1: Gen, tt: Label, ft: Label)
    requires Opens(g, tt, ft) && CondDone(g, g1, tt, ft)
    ensures CondDone(g, Clear(g1), tt, ft) && !Clear(g1).cc
  {
    assert Key(OrderFacts, 0);
    if g1.cc {
      EmitKeeps(g1, GetCC, 1);
      GrowsThen(g, g1, Clear(g1), {tt, ft}, {});
      AtFrame(g1, Clear(g1), {}, tt, g.height);
      AtFrame(g1, Clear(g1), {}, ft, g.height);
    }
  }

  /** While values are made again: labels in `open` are still to be bound, at their heights. */
  ghost predicate Reloading(g: Gen, k: Gen, open: set<Label>, tt: Label, ft: Label, loaded: Label) {
    && Inv(k) && k.ok && !k.cc && Grows(g, k, open) && k.height == g.height + 1
    && g.next <= tt < ft < loaded < k.next && open <= {tt, ft, loaded} && (forall l :: l in open ==> l !in k.bound)
    && At(k, tt, g.height) && At(k, ft, g.height) && At(k, loaded, g.height + 1)
  }

  lemma GrowsDrop(g: Gen, k: Gen, open: set<Label>, l: Label)
    requires Grows(g, k, open) && l >= g.next && l !in k.linked
    ensures Grows(g, k, open - {l})
  {
  }

  lemma ReviveKeeps(g: Gen, k: Gen, open: set<Label>, tt: Label, ft: Label, loaded: Label, l: Label, b: bool)
    requires Inv(g) && g.height >= 0 && Reloading(g, k, open, tt, ft, loaded) && l in open && (l == tt || l == ft)
    ensures Reloading(g, Revive(k, g.height, l, b), open - {l}, tt, ft, loaded)
    ensures forall m :: m != l ==> (m in Revive(k, g.height, l, b).linked <==> m in k.linked)
  {
    var k0 := k.(height := g.height);
    var k1 := Bind(k0, l);
    assert open == (open - {l}) + {l};
    BindKeeps(g, k0, l, open - {l});
    EmitKeeps(k1, PushV(B(b)), 1);
    GrowsThen(g, k1, Revive(k, g.height, l, b), open - {l}, {});
  }

  lemma SkipKeeps(g: Gen, k: Gen, open: set<Label>, tt: Label, ft: Label, loaded: Label)
    requires Inv(g) && g.height >= 0 && Reloading(g, k, open, tt, ft, loaded) && loaded in open
    ensures Reloading(g, Branch(k, Always, loaded), open, tt, ft, loaded)
    ensures forall m :: m != loaded ==> (m in Branch(k, Always, loaded).linked <==> m in k.linked)
  {
    var k1 := Branch(k, Always, loaded);
    BranchKeeps(k, Always, loaded, g.height + 1);
    GrowsThen(g, k, k1, open, {loaded});
    AtFrame(k, k1, {loaded}, tt, g.height);
    AtFrame(k, k1, {loaded}, ft, g.height);
  }

  lemma ReloadStarts(g: Gen, k: Gen, tt: Label, ft: Label)
    requires Ready(g) && tt == g.next && ft == g.next + 1 && CondLoaded(NewLabels(g, 2), k, tt, ft) && !k.cc
    ensures Grows(g, k, {tt, ft})
    ensures Reloading(g, NewLabels(k, 1), {tt, ft, k.next}, tt, ft, k.next)
  {
    GrowsAfterFresh(g, 2, k, {tt, ft});
    Fresh(k, 1);
    assert tt !in k.bound && ft !in k.bound;
  }

  lemma ReloadKeeps(g: Gen, k: Gen, tt: Label, ft: Label)
    requires Prepared(g) && tt == g.next && ft == g.next + 1 && CondDone(NewLabels(g, 2), k, tt, ft) && !k.cc
    ensures LoadDone(g, Reload(k, g.height, tt, ft))
  {
    assert Key(OrderFacts, 0);
    ReloadStarts(g, k, tt, ft);
    if !IsLinked(k, tt) && !IsLinked(k, ft) {
      GrowsDrop(g, k, {tt, ft}, tt);
      GrowsDrop(g, k, {tt, ft} - {tt}, ft);
      assert {tt, ft} - {tt} - {ft} == {};
    } else {
      var loaded := k.next;
      var both := IsLinked(k, tt) && IsLinked(k, ft);
      var g1 := Branch(NewLabels(k, 1), Always, loaded);
      SkipKeeps(g, NewLabels(k, 1), {tt, ft, loaded}, tt, ft, loaded);
      ReloadTrueKeeps(g, g1, tt, ft, both, loaded);
      ReloadEnds(g, ReloadTrue(g1, g.height, tt, both, loaded), tt, ft, loaded);
    }
  }

  lemma ReloadTrueKeeps(g: Gen, g1: Gen, tt: Label, ft: Label, both: bool, loaded: Label)
    requires Ready(g) && Reloading(g, g1, {tt, ft, loaded}, tt, ft, loaded)
    ensures Reloading(g, ReloadTrue(g1, g.height, tt, both, loaded), {ft, loaded}, tt, ft, loaded)
    ensures ft in ReloadTrue(g1, g.height, tt, both, loaded).linked <==> ft in g1.linked
  {
    var g2 := if IsLinked(g1, tt) then Revive(g1, g.height, tt, true) else g1;
    assert {tt, ft, loaded} - {tt} == {ft, loaded};
    if IsLinked(g1, tt) { ReviveKeeps(g, g1, {tt, ft, loaded}, tt, ft, loaded, tt, true); } else { GrowsDrop(g, g1, {tt, ft, loaded}, tt); }
    if both { SkipKeeps(g, g2, {ft, loaded}, tt, ft, loaded); }
  }

  lemma ReloadEnds(g: Gen, g3: Gen, tt: Label, ft: Label, loaded: Label)
    requires Ready(g) && Reloading(g, g3, {ft, loaded}, tt, ft, loaded)
    ensures Loaded(g, ReloadFalse(g3, g.height, ft, loaded))
    ensures loaded !in (if IsLinked(g3, ft) then Revive(g3, g.height, ft, false) else g3).bound
  {
    var g4 := if IsLinked(g3, ft) then Revive(g3, g.height, ft, false) else g3;
    assert {ft, loaded} - {ft} == {loaded} && {loaded} == {} + {loaded};
    if IsLinked(g3, ft) { ReviveKeeps(g, g3, {ft, loaded}, tt, ft, loaded, ft, false); } else { GrowsDrop(g, g3, {ft, loaded}, ft); }
    BindKeeps(g, g4, loaded, {});
  }

  // ------------------------------------------------------------ statements keep the generator in order

  /** The labels of the enclosing loop. */
  datatype Env = Env(inLoop: bool, exit: Label, cont: Label)

  function Touch(e: Env): (r: set<Label>) {
    if e.inLoop then {e.exit, e.cont} else {}
  }

  ghost predicate EnvAt(g: Gen, e: Env, next: nat, h: int) {
    e.inLoop ==> e.exit < next && e.cont < next && At(g, e.exit, h) && At(g, e.cont, h)
  }

  /** A statement can begin. */
  ghost predicate CanEnter(g: Gen, e: Env) {
    forall k {:trigger Key(OrderFacts, k)} :: Key(OrderFacts, k) ==> Ready(g) && EnvAt(g, e, g.next, g.height)
  }

  /** After a statement: the stack is as before, and only the labels of the enclosing loop have been used. */
  ghost predicate Done(g: Gen, r: Gen, e: Env) {
    forall k {:trigger Key(OrderFacts, k)} :: Key(OrderFacts, k) ==> Ready(r) && Grows(g, r, Touch(e)) && r.height == g.height && EnvAt(r, e, g.next, g.height)
  }

  /** In the course of a statement that began at `g`, with labels of its own; those in `open` are still to be bound. */
  ghost predicate Building(g: Gen, r: Gen, e: Env, own: set<Label>, open: set<Label>) {
    forall k {:trigger Key(BuildFacts, k)} :: Key(BuildFacts, k) ==>
      && Ready(r) && r.height == g.height && Grows(g, r, Touch(e) + own) && EnvAt(r, e, g.next, g.height)
      && (forall l :: l in own ==> g.next <= l < r.next && At(r, l, g.height) && (l in open <==> l !in r.bound))
      && open <= own
  }

  lemma BuildStarts(g: Gen, n: nat, e: Env, own: set<Label>)
    requires CanEnter(g, e) && forall l :: l in own ==> g.next <= l < g.next + n
    ensures Building(g, NewLabels(g, n), e, own, own)
  {
    assert Key(OrderFacts, 0) && Key(BuildFacts, 0);
    Fresh(g, n);
  }

  lemma BuildBind(g: Gen, r: Gen, e: Env, own: set<Label>, open: set<Label>, l: Label, left: set<Label>)
    requires CanEnter(g, e) && Building(g, r, e, own, open) && l in open && left == open - {l}
    ensures Building(g, Bind(r, l), e, own, left)
    ensures l !in r.bound
  {
    assert Key(OrderFacts, 0) && Key(BuildFacts, 0);
    assert (Touch(e) + own) + {l} == Touch(e) + own;
    BindKeeps(g, r, l, Touch(e) + own);
  }

  lemma BuildEnds(g: Gen, r: Gen, e: Env, own: set<Label>)
    requires Building(g, r, e, own, {})
    ensures Done(g, r, e)
  {
    assert Key(OrderFacts, 0) && Key(BuildFacts, 0);
    forall l | l in r.linked ensures l in g.linked + Touch(e) {
      assert l in own ==> l in r.bound;
    }
  }

  lemma BuildJump(g: Gen, r: Gen, e: Env, own: set<Label>, open: set<Label>, l: Label)
    requires CanEnter(g, e) && Building(g, r, e, own, open) && l in own
    ensures Building(g, Branch(r, Always, l), e, own, open)
  {
    assert Key(OrderFacts, 0) && Key(BuildFacts, 0);
    BranchKeeps(r, Always, l, g.height);
    BuildGrows(g, r, e, own, open, Branch(r, Always, l), {l});
  }

  /** One more step, which uses labels of the statement. */
  lemma BuildGrows(g: Gen, r: Gen, e: Env, own: set<Label>, open: set<Label>, t: Gen, used: set<Label>)
    requires CanEnter(g, e) && Building(g, r, e, own, open) && used <= own
    requires Ready(t) && Grows(r, t, used) && t.height == g.height && forall l :: l in used ==> At(t, l, g.height)
    ensures Building(g, t, e, own, open)
  {
    assert Key(OrderFacts, 0) && Key(BuildFacts, 0);
    GrowsThen(g, r, t, Touch(e) + own, used);
    forall l | l in own ensures At(t, l, g.height) {
      if l !in used { AtFrame(r, t, used, l, g.height); }
    }
    if e.inLoop {
      AtFrame(r, t, used, e.exit, g.height);
      AtFrame(r, t, used, e.cont, g.height);
    }
  }

  lemma BuildTest(g: Gen, r: Gen, e: Env, own: set<Label>, open: set<Label>, x: Expr, tt: Label, ft: Label, op: BranchOp, l: Label, t: Gen)
    requires CanEnter(g, e) && Building(g, r, e, own, open) && tt in own && ft in own && (l == tt || l == ft) && op != Always
    requires Tests(r, x, tt, ft, op, l, t)
    ensures Building(g, t, e, own, open)
  {
    var r1 := TestSplits(r, x, tt, ft, op, l, t);
    BuildOpens(g, r, e, own, open, tt, ft);
    CondKeeps(r, x, tt, ft, r1);
    BuildBranch(g, r, e, own, open, tt, ft, r1, op, l);
  }

  lemma BuildOpens(g: Gen, r: Gen, e: Env, own: set<Label>, open: set<Label>, tt: Label, ft: Label)
    requires Building(g, r, e, own, open) && tt in own && ft in own
    ensures Opens(r, tt, ft)
  {
    assert Key(OrderFacts, 0) && Key(BuildFacts, 0);
  }

  lemma BuildBranch(g: Gen, r: Gen, e: Env, own: set<Label>, open: set<Label>, tt: Label, ft: Label, r1: Gen, op: BranchOp, l: Label)
    requires CanEnter(g, e) && Building(g, r, e, own, open) && tt in own && ft in own && (l == tt || l == ft) && op != Always
    requires CondDone(r, r1, tt, ft)
    ensures Building(g, Branch(r1, op, l), e, own, open)
  {
    assert Key(OrderFacts, 0) && Key(BuildFacts, 0);
    BranchKeeps(r1, op, l, g.height);
    var t := Branch(r1, op, l);
    GrowsThen(r, r1, t, {tt, ft}, {l});
    if tt != l { AtFrame(r1, t, {l}, tt, g.height); }
    if ft != l { AtFrame(r1, t, {l}, ft, g.height); }
    BuildGrows(g, r, e, own, open, t, {tt, ft});
  }

  /** A statement within, in the same loop. */
  lemma BuildStmt(g: Gen, r: Gen, e: Env, own: set<Label>, open: set<Label>, t: Gen)
    requires CanEnter(g, e) && Building(g, r, e, own, open) && Done(r, t, e)
    ensures Building(g, t, e, own, open)
  {
    assert Key(OrderFacts, 0) && Key(BuildFacts, 0);
    GrowsThen(g, r, t, Touch(e) + own, Touch(e));
    forall l | l in own ensures At(t, l, g.height) { AtFrame(r, t, Touch(e), l, g.height); }
  }

  /** A statement within the loop that is being built. */
  lemma BuildBody(g: Gen, r: Gen, e: Env, own: set<Label>, open: set<Label>, exit: Label, cont: Label, t: Gen)
    requires CanEnter(g, e) && Building(g, r, e, own, open) && Done(r, t, Env(true, exit, cont)) && exit in own && cont in own
    ensures Building(g, t, e, own, open)
  {
    assert Key(OrderFacts, 0) && Key(BuildFacts, 0);
    BuildGrows(g, r, e, own, open, t, {exit, cont});
  }

  lemma BuildEnter(g: Gen, r: Gen, e: Env, own: set<Label>, open: set<Label>)
    requires Building(g, r, e, own, open)
    ensures CanEnter(r, e)
    ensures forall exit, cont :: exit in own && cont in own ==> CanEnter(r, Env(true, exit, cont))
  {
    assert Key(OrderFacts, 0) && Key(BuildFacts, 0);
  }

  lemma {:induction false} StmtKeeps(g: Gen, s: Stmt, e: Env, r: Gen)
    requires CanEnter(g, e) && JumpsIn(s, e.inLoop) && Nests(s) && Executes(g, s, e.exit, e.cont, r)
    ensures Done(g, r, e)
    decreases s, 1
  {
    match s
    case Assign(_, _) => ValueKeeps(g, s, e, r);
    case ExprStat(_) => ValueKeeps(g, s, e, r);
    case Seq(a, b) =>
      var g1 := ExecSeq(g, s, e.exit, e.cont, r);
      StmtKeeps(g, a, e, g1);
      DoneEnter(g, g1, e);
      StmtKeeps(g1, b, e, r);
      SeqKeeps(g, g1, r, e);
    case If(_, yes, no) =>
      if yes != Empty && no != Empty { IfBothKeeps(g, s, e, r); } else if OnePart(s) { IfOneKeeps(g, s, e, r); } else { IfNoneKeeps(g, s, e, r); }
    case Loop(_, _, _, _, _) => LoopKeeps(g, s, e, r);
    case _ => PlainKeeps(g, s, e, r);
  }

  lemma PlainKeeps(g: Gen, s: Stmt, e: Env, r: Gen)
    requires CanEnter(g, e) && JumpsIn(s, e.inLoop) && Executes(g, s, e.exit, e.cont, r) && (s.Empty? || s.Break? || s.Continue? || s.Return?)
    ensures Done(g, r, e)
  {
    ExecPlain(g, s, e.exit, e.cont, r);
    if s.Return? { ReturnKeeps(g, e); } else if s.Break? { LeaveKeeps(g, e, e.exit); } else if s.Continue? { LeaveKeeps(g, e, e.cont); }
    else { NothingKeeps(g, e); }
  }

  lemma NothingKeeps(g: Gen, e: Env)
    requires CanEnter(g, e)
    ensures Done(g, g, e)
  {
    assert Key(OrderFacts, 0);
  }

  /** The statements before and after the condition of every loop are simple. */
  predicate Nests(s: Stmt) {
    match s
    case Seq(a, b) => Nests(a) && Nests(b)
    case If(_, yes, no) => Nests(yes) && Nests(no)
    case Loop(_, before, _, after, body) => Simple(before) && Simple(after) && Nests(body)
    case _ => true
  }

  lemma {:induction false} TypedNests(s: Stmt)
    requires Typed(s)
    ensures Nests(s)
  {
    match s
    case Seq(a, b) => TypedNests(a); TypedNests(b);
    case If(_, yes, no) => TypedNests(yes); TypedNests(no);
    case Loop(_, _, _, _, body) => TypedNests(body);
    case _ =>
  }

  lemma ReturnKeeps(g: Gen, e: Env)
    requires CanEnter(g, e)
    ensures Done(g, Emit(g, Ret, 0).(dead := true), e)
  {
    assert Key(OrderFacts, 0);
    EmitKeeps(g, Ret, 0);
  }

  lemma DoneEnter(g: Gen, g1: Gen, e: Env)
    requires CanEnter(g, e) && Done(g, g1, e)
    ensures CanEnter(g1, e)
  {
    assert Key(OrderFacts, 0);
  }

  lemma SeqKeeps(g: Gen, g1: Gen, g2: Gen, e: Env)
    requires CanEnter(g, e) && Done(g, g1, e) && Done(g1, g2, e)
    ensures Done(g, g2, e)
  {
    assert Key(OrderFacts, 0);
    GrowsThen(g, g1, g2, Touch(e), Touch(e));
  }

  lemma LeaveKeeps(g: Gen, e: Env, l: Label)
    requires CanEnter(g, e) && e.inLoop && (l == e.exit || l == e.cont)
    ensures Done(g, Branch(g, Always, l), e)
  {
    assert Key(OrderFacts, 0);
    var r := Branch(g, Always, l);
    BranchKeeps(g, Always, l, g.height);
    if e.exit != l { AtFrame(g, r, {l}, e.exit, g.height); }
    if e.cont != l { AtFrame(g, r, {l}, e.cont, g.height); }
  }

  lemma ValueKeeps(g: Gen, s: Stmt, e: Env, r: Gen)
    requires CanEnter(g, e) && Executes(g, s, e.exit, e.cont, r) && (s.Assign? || s.ExprStat?)
    ensures Done(g, r, e)
  {
    var g1 := ExecValue(g, s, e.exit, e.cont, r);
    ValueEnter(g, e);
    LoadKeeps(NewLabels(g, 1), s.x, g1);
    ValueEnds(g, g1, LastOf(s), e);
  }

  lemma ValueEnter(g: Gen, e: Env)
    requires CanEnter(g, e)
    ensures Prepared(NewLabels(g, 1))
  {
    assert Key(OrderFacts, 0);
    Fresh(g, 1);
  }

  lemma ValueEnds(g: Gen, g1: Gen, i: Instr, e: Env)
    requires CanEnter(g, e) && LoadDone(NewLabels(g, 1), g1) && !i.Jump?
    ensures Done(g, Bind(Emit(g1, i, -1), g.next), e) && g.next !in Emit(g1, i, -1).bound
  {
    assert Key(OrderFacts, 0);
    var k := NewLabels(g, 1);
    BuildStarts(g, 1, e, {g.next});
    EmitKeeps(g1, i, -1);
    GrowsThen(k, g1, Emit(g1, i, -1), {}, {});
    BuildGrows(g, k, e, {g.next}, {g.next}, Emit(g1, i, -1), {});
    BuildLast(g, Emit(g1, i, -1), e, {g.next}, g.next);
  }

  /** The last label is bound. */
  lemma BuildLast(g: Gen, r: Gen, e: Env, own: set<Label>, l: Label)
    requires CanEnter(g, e) && Building(g, r, e, own, {l})
    ensures Done(g, Bind(r, l), e) && l !in r.bound
  {
    BuildBind(g, r, e, own, {l}, l, {});
    BuildEnds(g, Bind(r, l), e, own);
  }

  function IfOwn(next: Label): (own: set<Label>) {
    {next, next + 1, next + 2}
  }

  lemma {:induction false} IfOneKeeps(g: Gen, s: Stmt, e: Env, r: Gen)
    requires OnePart(s) && CanEnter(g, e) && JumpsIn(s, e.inLoop) && Nests(s) && Executes(g, s, e.exit, e.cont, r)
    ensures Done(g, r, e)
    decreases s, 0
  {
    var t := ExecIfOne(g, s, e.exit, e.cont, r);
    var k := IfPartSplits(t, s, PartOf(s), g.next + 1, g.next, e.exit, e.cont, r);
    OneTestKeeps(g, s, e, t);
    BuildEnter(g, Bind(t, g.next + 1), e, {g.next, g.next + 1}, {g.next});
    StmtKeeps(Bind(t, g.next + 1), PartOf(s), e, k);
    BuildStmt(g, Bind(t, g.next + 1), e, {g.next, g.next + 1}, {g.next}, k);
    BuildLast(g, k, e, {g.next, g.next + 1}, g.next);
  }

  lemma OneTestKeeps(g: Gen, s: Stmt, e: Env, t: Gen)
    requires OnePart(s) && CanEnter(g, e)
    requires Tests(NewLabels(g, 2), s.x, PartTrue(s, g.next), PartFalse(s, g.next), PartOp(s), g.next, t)
    ensures Building(g, Bind(t, g.next + 1), e, {g.next, g.next + 1}, {g.next}) && g.next + 1 !in t.bound
  {
    var own := {g.next, g.next + 1};
    BuildStarts(g, 2, e, own);
    BuildTest(g, NewLabels(g, 2), e, own, own, s.x, PartTrue(s, g.next), PartFalse(s, g.next), PartOp(s), g.next, t);
    BuildBind(g, t, e, own, own, g.next + 1, {g.next});
  }

  lemma {:induction false} IfBothKeeps(g: Gen, s: Stmt, e: Env, r: Gen)
    requires s.If? && s.yes != Empty && s.no != Empty && CanEnter(g, e) && JumpsIn(s, e.inLoop) && Nests(s) && Executes(g, s, e.exit, e.cont, r)
    ensures Done(g, r, e)
    decreases s, 0, 1
  {
    var t := ExecIfBoth(g, s, e.exit, e.cont, r);
    var k := IfBodySplits(t, s, g.next + 1, g.next, g.next + 2, e.exit, e.cont, r);
    BothTestKeeps(g, s, e, t);
    BuildEnter(g, Bind(t, g.next + 1), e, IfOwn(g.next), {g.next, g.next + 2});
    StmtKeeps(Bind(t, g.next + 1), s.yes, e, k);
    BuildStmt(g, Bind(t, g.next + 1), e, IfOwn(g.next), {g.next, g.next + 2}, k);
    IfRestKeeps(g, s, e, k, r);
  }

  lemma BothTestKeeps(g: Gen, s: Stmt, e: Env, t: Gen)
    requires s.If? && CanEnter(g, e) && Tests(NewLabels(g, 3), s.x, g.next + 1, g.next + 2, IfFalse, g.next + 2, t)
    ensures Building(g, Bind(t, g.next + 1), e, IfOwn(g.next), {g.next, g.next + 2}) && g.next + 1 !in t.bound
  {
    var own := IfOwn(g.next);
    BuildStarts(g, 3, e, own);
    BuildTest(g, NewLabels(g, 3), e, own, own, s.x, g.next + 1, g.next + 2, IfFalse, g.next + 2, t);
    BuildBind(g, t, e, own, own, g.next + 1, {g.next, g.next + 2});
  }

  lemma {:induction false} IfRestKeeps(g: Gen, s: Stmt, e: Env, k: Gen, r: Gen)
    requires s.If? && CanEnter(g, e) && JumpsIn(s, e.inLoop) && Nests(s) && Building(g, k, e, IfOwn(g.next), {g.next, g.next + 2})
    requires IfRests(k, s, g.next, g.next + 2, e.exit, e.cont, r)
    ensures Done(g, r, e)
    decreases s, 0, 0
  {
    var k3 := IfRestSplits(k, s, g.next, g.next + 2, e.exit, e.cont, r);
    var k2 := Bind(Branch(k, Always, g.next), g.next + 2);
    ElseKeeps(g, k, e);
    BuildEnter(g, k2, e, IfOwn(g.next), {g.next});
    StmtKeeps(k2, s.no, e, k3);
    BuildStmt(g, k2, e, IfOwn(g.next), {g.next}, k3);
    BuildLast(g, k3, e, IfOwn(g.next), g.next);
  }

  lemma ElseKeeps(g: Gen, k: Gen, e: Env)
    requires CanEnter(g, e) && Building(g, k, e, IfOwn(g.next), {g.next, g.next + 2})
    ensures Building(g, Bind(Branch(k, Always, g.next), g.next + 2), e, IfOwn(g.next), {g.next})
    ensures g.next + 2 !in Branch(k, Always, g.next).bound
  {
    var own, open := IfOwn(g.next), {g.next, g.next + 2};
    BuildJump(g, k, e, own, open, g.next);
    BuildBind(g, Branch(k, Always, g.next), e, own, open, g.next + 2, {g.next});
  }

  lemma IfNoneKeeps(g: Gen, s: Stmt, e: Env, r: Gen)
    requires s.If? && s.yes == Empty && s.no == Empty && CanEnter(g, e) && Executes(g, s, e.exit, e.cont, r)
    ensures Done(g, r, e)
  {
    var g1 := ExecIfNone(g, s, e.exit, e.cont, r);
    BuildStarts(g, 1, e, {g.next});
    BuildOpens(g, NewLabels(g, 1), e, {g.next}, {g.next}, g.next, g.next);
    CondKeeps(NewLabels(g, 1), s.x, g.next, g.next, g1);
    PopKeeps(g, NewLabels(g, 1), e, g1, g.next);
    BuildLast(g, Pop(g1), e, {g.next}, g.next);
  }

  lemma PopKeeps(g: Gen, k: Gen, e: Env, k1: Gen, done: Label)
    requires CanEnter(g, e) && Building(g, k, e, {done}, {done}) && CondDone(k, k1, done, done)
    ensures Building(g, Pop(k1), e, {done}, {done})
  {
    assert Key(OrderFacts, 0) && Key(BuildFacts, 0);
    var k2 := Pop(k1);
    if !k1.cc { EmitKeeps(k1, PopV, -1); }
    assert Grows(k1, k2, {done});
    GrowsThen(k, k1, k2, {done, done}, {done});
    BuildGrows(g, k, e, {done}, {done}, k2, {done});
  }

  function LoopOwn(next: Label): (own: set<Label>) {
    {next, next + 1, next + 2, next + 3}
  }

  lemma {:induction false} LoopKeeps(g: Gen, s: Stmt, e: Env, r: Gen)
    requires s.Loop? && CanEnter(g, e) && JumpsIn(s, e.inLoop) && Nests(s) && Executes(g, s, e.exit, e.cont, r)
    ensures Done(g, r, e)
    decreases s, 0, 3
  {
    var g1 := ExecLoop(g, s, e.exit, e.cont, r);
    BuildStarts(g, 4, e, LoopOwn(g.next));
    BuildEnter(g, NewLabels(g, 4), e, LoopOwn(g.next), LoopOwn(g.next));
    StmtKeeps(NewLabels(g, 4), s.before, e, g1);
    BuildStmt(g, NewLabels(g, 4), e, LoopOwn(g.next), LoopOwn(g.next), g1);
    LoopTopKeeps(g, g1, s.kind, e);
    LoopBodyKeeps(g, s, e, LoopTop(g1, s.kind, OwnLabels(g.next)), r);
  }

  lemma LoopTopKeeps(g: Gen, g1: Gen, kind: LoopKind, e: Env)
    requires CanEnter(g, e) && Building(g, g1, e, LoopOwn(g.next), LoopOwn(g.next))
    ensures Building(g, LoopTop(g1, kind, OwnLabels(g.next)), e, LoopOwn(g.next), {g.next, g.next + 2, g.next + 3})
    ensures g.next + 1 !in (if kind != Do then Branch(g1, Always, g.next) else g1).bound
  {
    var own := LoopOwn(g.next);
    if kind != Do { BuildJump(g, g1, e, own, own, g.next); }
    BuildBind(g, if kind != Do then Branch(g1, Always, g.next) else g1, e, own, own, g.next + 1, {g.next, g.next + 2, g.next + 3});
  }

  lemma {:induction false} LoopBodyKeeps(g: Gen, s: Stmt, e: Env, top: Gen, r: Gen)
    requires s.Loop? && CanEnter(g, e) && JumpsIn(s, e.inLoop) && Nests(s)
    requires Building(g, top, e, LoopOwn(g.next), {g.next, g.next + 2, g.next + 3})
    requires LoopBodies(top, s, OwnLabels(g.next), e.exit, e.cont, r)
    ensures Done(g, r, e)
    decreases s, 0, 2
  {
    var own, open := LoopOwn(g.next), {g.next, g.next + 2, g.next + 3};
    var k := LoopBodySplits(top, s, OwnLabels(g.next), e.exit, e.cont, r);
    BuildEnter(g, top, e, own, open);
    StmtKeeps(top, s.body, Env(true, g.next + 3, g.next + 2), k);
    LoopContKeeps(g, top, e, k);
    LoopRestKeeps(g, s, e, Bind(k, g.next + 2), r);
  }

  lemma LoopContKeeps(g: Gen, top: Gen, e: Env, k: Gen)
    requires CanEnter(g, e) && Building(g, top, e, LoopOwn(g.next), {g.next, g.next + 2, g.next + 3})
    requires Done(top, k, Env(true, g.next + 3, g.next + 2))
    ensures Building(g, Bind(k, g.next + 2), e, LoopOwn(g.next), {g.next, g.next + 3}) && g.next + 2 !in k.bound
  {
    var own, open := LoopOwn(g.next), {g.next, g.next + 2, g.next + 3};
    BuildBody(g, top, e, own, open, g.next + 3, g.next + 2, k);
    BuildBind(g, k, e, own, open, g.next + 2, {g.next, g.next + 3});
  }

  lemma LoopEntryKeeps(g: Gen, mid: Gen, e: Env, k: Gen)
    requires CanEnter(g, e) && Building(g, mid, e, LoopOwn(g.next), {g.next, g.next + 3}) && Done(mid, k, e)
    ensures Building(g, Bind(k, g.next), e, LoopOwn(g.next), {g.next + 3}) && g.next !in k.bound
  {
    var own, open := LoopOwn(g.next), {g.next, g.next + 3};
    BuildStmt(g, mid, e, own, open, k);
    BuildBind(g, k, e, own, open, g.next, {g.next + 3});
  }

  lemma {:induction false} LoopRestKeeps(g: Gen, s: Stmt, e: Env, mid: Gen, r: Gen)
    requires s.Loop? && CanEnter(g, e) && Nests(s)
    requires Building(g, mid, e, LoopOwn(g.next), {g.next, g.next + 3}) && LoopRests(mid, s, OwnLabels(g.next), e.exit, e.cont, r)
    ensures Done(g, r, e)
    decreases s, 0, 1
  {
    var k, t := LoopRestSplits(mid, s, OwnLabels(g.next), e.exit, e.cont, r);
    AfterKeeps(g, s, e, mid, k);
    LoopTestKeeps(g, Bind(k, g.next), s, e, t);
    BuildLast(g, t, e, LoopOwn(g.next), g.next + 3);
  }

  lemma {:induction false} AfterKeeps(g: Gen, s: Stmt, e: Env, mid: Gen, k: Gen)
    requires s.Loop? && CanEnter(g, e) && Nests(s)
    requires Building(g, mid, e, LoopOwn(g.next), {g.next, g.next + 3}) && Executes(mid, s.after, e.exit, e.cont, k)
    ensures Building(g, Bind(k, g.next), e, LoopOwn(g.next), {g.next + 3}) && g.next !in k.bound && Done(mid, k, e)
    decreases s, 0, 0
  {
    BuildEnter(g, mid, e, LoopOwn(g.next), {g.next, g.next + 3});
    StmtKeeps(mid, s.after, e, k);
    LoopEntryKeeps(g, mid, e, k);
  }

  lemma LoopTestKeeps(g: Gen, low: Gen, s: Stmt, e: Env, t: Gen)
    requires s.Loop? && CanEnter(g, e) && Building(g, low, e, LoopOwn(g.next), {g.next + 3}) && LoopTests(low, s, OwnLabels(g.next), t)
    ensures Building(g, t, e, LoopOwn(g.next), {g.next + 3})
  {
    var own, open, loop, exitL := LoopOwn(g.next), {g.next + 3}, g.next + 1, g.next + 3;
    LoopTestSplits(low, s, OwnLabels(g.next), t);
    if Endless(s) { BuildJump(g, low, e, own, open, loop); } else { BuildTest(g, low, e, own, open, s.cond.x, loop, exitL, IfTrue, loop, t); }
  }

  /** After the first part of an `if` with two parts, the second is still to come. */
  lemma ThenKeeps(g: Gen, s: Stmt, e: Env, t: Gen, k: Gen)
    requires s.If? && CanEnter(g, e) && JumpsIn(s, e.inLoop) && Nests(s)
    requires Tests(NewLabels(g, 3), s.x, g.next + 1, g.next + 2, IfFalse, g.next + 2, t)
    requires Executes(Bind(t, g.next + 1), s.yes, e.exit, e.cont, k)
    ensures Building(g, k, e, IfOwn(g.next), {g.next, g.next + 2})
  {
    BothTestKeeps(g, s, e, t);
    BuildEnter(g, Bind(t, g.next + 1), e, IfOwn(g.next), {g.next, g.next + 2});
    StmtKeeps(Bind(t, g.next + 1), s.yes, e, k);
    BuildStmt(g, Bind(t, g.next + 1), e, IfOwn(g.next), {g.next, g.next + 2}, k);
  }

  lemma LoopStartKeeps(g: Gen, s: Stmt, e: Env, g1: Gen)
    requires s.Loop? && CanEnter(g, e) && Nests(s) && Executes(NewLabels(g, 4), s.before, e.exit, e.cont, g1)
    ensures Building(g, g1, e, LoopOwn(g.next), LoopOwn(g.next)) && CanEnter(NewLabels(g, 4), e)
  {
    BuildStarts(g, 4, e, LoopOwn(g.next));
    BuildEnter(g, NewLabels(g, 4), e, LoopOwn(g.next), LoopOwn(g.next));
    StmtKeeps(NewLabels(g, 4), s.before, e, g1);
    BuildStmt(g, NewLabels(g, 4), e, LoopOwn(g.next), LoopOwn(g.next), g1);
  }

  lemma InnerKeeps(g: Gen, s: Stmt, e: Env, top: Gen, k: Gen)
    requires s.Loop? && CanEnter(g, e) && JumpsIn(s, e.inLoop) && Nests(s)
    requires Building(g, top, e, LoopOwn(g.next), {g.next, g.next + 2, g.next + 3}) && Executes(top, s.body, g.next + 3, g.next + 2, k)
    ensures Building(g, Bind(k, g.next + 2), e, LoopOwn(g.next), {g.next, g.next + 3}) && g.next + 2 !in k.bound
    ensures CanEnter(top, Env(true, g.next + 3, g.next + 2)) && Done(top, k, Env(true, g.next + 3, g.next + 2))
  {
    BuildEnter(g, top, e, LoopOwn(g.next), {g.next, g.next + 2, g.next + 3});
    StmtKeeps(top, s.body, Env(true, g.next + 3, g.next + 2), k);
    LoopContKeeps(g, top, e, k);
  }

  lemma ElseLast(g: Gen, s: Stmt, e: Env, k2: Gen, k3: Gen)
    requires s.If? && CanEnter(g, e) && JumpsIn(s, e.inLoop) && Nests(s) && Building(g, k2, e, IfOwn(g.next), {g.next})
    requires CanEnter(k2, e) && Executes(k2, s.no, e.exit, e.cont, k3)
    ensures g.next !in k3.bound
  {
    StmtKeeps(k2, s.no, e, k3);
    BuildStmt(g, k2, e, IfOwn(g.next), {g.next}, k3);
    BuildLast(g, k3, e, IfOwn(g.next), g.next);
  }

  /** However a function body is nested: no assertion of the generator fails, and every branch goes to a place in the code. */
  lemma GeneratesInOrder(body: Stmt)
    requires Typed(body) && JumpsIn(body, false)
    ensures var r := Generate(body);
      && r.ok && r.linked == {} && r.height == 0
      && (forall i :: 0 <= i < |r.code| && r.code[i].Jump? ==> r.code[i].to in r.bound && r.bound[r.code[i].to] <= |r.code|)
  {
    var e := Env(false, 0, 0);
    var r := Execute(START, body, 0, 0);
    TypedNests(body);
    StmtKeeps(START, body, e, r);
    assert Key(OrderFacts, 0);
    EmitKeeps(r, Ret, 0);
  }
}
