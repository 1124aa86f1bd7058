/**
 * The code generator as an object: it emits bytes into a growing buffer, fills in branches when their
 * labels are bound, and does for every expression and statement what the generator functions say.
 */
module CodeGen {
  import opened Sealing
  import opened ByteStrings
  import opened Bytecode
  import opened Generator
  import opened GeneratorParts
  import opened GeneratorOrder
  import opened CodeBuffer
  import opened CodeLabels

  /** The bytes are the code, with offsets that agree with the labels; kept behind a trigger. */
  ghost predicate Tied(enc: Encoding, bytes: Bytes, g: Gen, stored: seq<int>, labels: Labels, refs: Waiting) {
    forall k {:trigger Key(EmissionFacts, k)} :: Key(EmissionFacts, k) ==>
      && Proper(enc) && Linked(enc, g, stored, labels, refs) && bytes == Flat(enc, g.code, stored)
  }

  lemma TieStart(enc: Encoding)
    requires Proper(enc)
    ensures Tied(enc, [], START, [], map[], map[])
  {
    StartLinks(enc);
  }

  lemma TieLabel(enc: Encoding, bytes: Bytes, g: Gen, stored: seq<int>, labels: Labels, refs: Waiting)
    requires Tied(enc, bytes, g, stored, labels, refs)
    ensures Tied(enc, bytes, NewLabels(g, 1), stored, labels[g.next := BLabel([], -1, 0)], refs[g.next := []])
  {
    assert Key(EmissionFacts, 0);
    NewLabelLinks(enc, g, stored, labels, refs);
  }

  lemma TieEmit(enc: Encoding, bytes: Bytes, g: Gen, stored: seq<int>, labels: Labels, refs: Waiting, i: Instr, delta: int)
    requires Tied(enc, bytes, g, stored, labels, refs) && !i.Jump? && !g.dead
    ensures Tied(enc, bytes + enc(i), Emit(g, i, delta), stored + [0], labels, refs) && |enc(i)| <= 16
  {
    assert Key(EmissionFacts, 0);
    EmitLinks(enc, g, stored, labels, refs, i, delta);
    FlatAppend(enc, g.code, stored, i, 0);
    assert One(enc, i, 0) == enc(i);
  }

  /** Parts of the state that say nothing about code. */
  lemma TieSame(enc: Encoding, bytes: Bytes, g: Gen, h: Gen, stored: seq<int>, labels: Labels, refs: Waiting)
    requires Tied(enc, bytes, g, stored, labels, refs)
    requires h.code == g.code && h.bound == g.bound && h.linked == g.linked && h.heights == g.heights && h.next == g.next
    ensures Tied(enc, bytes, h, stored, labels, refs)
  {
    assert Key(EmissionFacts, 0);
    forall l ensures LabelOk(enc, h, labels, refs, l) { assert LabelOk(enc, g, labels, refs, l); }
    forall k: nat ensures JumpOk(enc, h, stored, refs, k) { assert JumpOk(enc, g, stored, refs, k); }
  }

  lemma TieKnows(enc: Encoding, bytes: Bytes, g: Gen, stored: seq<int>, labels: Labels, refs: Waiting, l: Label)
    requires Tied(enc, bytes, g, stored, labels, refs) && l < g.next
    ensures l in labels && l in refs && (labels[l].target >= 0 <==> l in g.bound) && (labels[l].forward != [] <==> l in g.linked)
    ensures |enc(Jump(Always, l))| <= 16 && |enc(Jump(IfTrue, l))| <= 16 && |enc(Jump(IfFalse, l))| <= 16
  {
    assert Key(EmissionFacts, 0);
    assert LabelOk(enc, g, labels, refs, l);
  }

  lemma TieBack(enc: Encoding, bytes: Bytes, g: Gen, stored: seq<int>, labels: Labels, refs: Waiting, op: BranchOp, l: Label)
    requires Tied(enc, bytes, g, stored, labels, refs) && !g.dead && l in g.bound && l in labels
    ensures var v := labels[l].target - (|bytes| + |enc(Jump(op, l))|) - OFFSET_SIZE;
      Tied(enc, bytes + enc(Jump(op, l)) + Int32(v), Jumping(g, op, l), stored + [v], labels, refs)
  {
    assert Key(EmissionFacts, 0);
    FlatLength(enc, g.code, stored);
    var v := labels[l].target - (|bytes| + |enc(Jump(op, l))|) - OFFSET_SIZE;
    BackLinks(enc, g, stored, labels, refs, op, l, v);
    FlatAppend(enc, g.code, stored, Jump(op, l), v);
  }

  lemma TieForward(enc: Encoding, bytes: Bytes, g: Gen, stored: seq<int>, labels: Labels, refs: Waiting, op: BranchOp, l: Label)
    requires Tied(enc, bytes, g, stored, labels, refs) && !g.dead && l !in g.bound && l in labels && l in refs
    ensures var f := |bytes| + |enc(Jump(op, l))|;
      Tied(enc, bytes + enc(Jump(op, l)) + Int32(0), Jumping(g, op, l), stored + [0],
           labels[l := BLabel(labels[l].forward + [f], -1, g.height)], refs[l := refs[l] + [|g.code|]])
  {
    assert Key(EmissionFacts, 0);
    FlatLength(enc, g.code, stored);
    ForwardLinks(enc, g, stored, labels, refs, op, l, |bytes| + |enc(Jump(op, l))|);
    FlatAppend(enc, g.code, stored, Jump(op, l), 0);
  }

  // -------------------------------------------------------------------------------- filling in branches

  /** Of the branches that wait for `l`, those from the `i`th on have been filled in. */
  ghost predicate Filling(enc: Encoding, bytes: Bytes, g: Gen, stored0: seq<int>, stored: seq<int>, labels: Labels, refs: Waiting, l: Label, i: nat) {
    forall k {:trigger Key(EmissionFacts, k)} :: Key(EmissionFacts, k) ==>
      && Proper(enc) && l in labels && l in refs && |refs[l]| == |labels[l].forward| && i <= |refs[l]|
      && Resolved(enc, g.code, refs[l], l, i, stored0, stored) && bytes == Flat(enc, g.code, stored)
      && (forall j :: 0 <= j < |refs[l]| ==> Waits(g.code, refs[l][j], l) && labels[l].forward[j] == OperandAt(enc, g.code, refs[l][j]))
  }

  lemma FillStarts(enc: Encoding, bytes: Bytes, g: Gen, stored: seq<int>, labels: Labels, refs: Waiting, l: Label)
    requires Tied(enc, bytes, g, stored, labels, refs) && l in labels
    ensures Filling(enc, bytes, g, stored, stored, labels, refs, l, |labels[l].forward|)
  {
    assert Key(EmissionFacts, 0);
    ResolvesNone(enc, g, stored, labels, refs, l);
  }

  lemma FillOne(enc: Encoding, bytes: Bytes, g: Gen, stored0: seq<int>, stored: seq<int>, labels: Labels, refs: Waiting, l: Label, i: nat)
    returns (after: seq<int>)
    requires l in labels && i < |labels[l].forward| && Filling(enc, bytes, g, stored0, stored, labels, refs, l, i + 1)
    ensures labels[l].forward[i] + OFFSET_SIZE <= |bytes|
    ensures var f := labels[l].forward[i];
      Filling(enc, Replace(bytes, f, Int32(|bytes| - f - OFFSET_SIZE)), g, stored0, after, labels, refs, l, i)
  {
    assert Key(EmissionFacts, 0);
    var k, f := refs[l][i], labels[l].forward[i];
    assert Waits(g.code, k, l);
    FlatLength(enc, g.code, stored);
    FlatPatch(enc, g.code, stored, k, |bytes| - f - OFFSET_SIZE);
    ResolveOne(enc, g.code, refs[l], l, i, stored0, stored);
    after := stored[k := |bytes| - f - OFFSET_SIZE];
  }

  lemma FillEnds(enc: Encoding, bytes0: Bytes, bytes: Bytes, g: Gen, stored0: seq<int>, stored: seq<int>, labels: Labels, refs: Waiting, l: Label)
    requires Tied(enc, bytes0, g, stored0, labels, refs) && l !in g.bound && Filling(enc, bytes, g, stored0, stored, labels, refs, l, 0)
    ensures Tied(enc, bytes, Bind(g, l), stored, labels[l := BLabel([], |bytes|, g.height)], refs[l := []])
  {
    assert Key(EmissionFacts, 0);
    FlatLength(enc, g.code, stored);
    BindLinks(enc, g, stored0, stored, labels, refs, l);
  }

  // ----------------------------------------------------------------------------------- the generator

  class Generating {
    const enc: Encoding
    const buf: Buffer
    var labels: Labels
    var next: nat
    var height: int
    var dead: bool
    var cc: bool
    /** What the generator functions have made so far, the offsets in it, and the branches that wait. */
    ghost var g: Gen
    ghost var stored: seq<int>
    ghost var refs: Waiting

    ghost predicate Valid() reads this, buf, buf.bytes {
      && buf.Valid() && Tied(enc, buf.contents, g, stored, labels, refs)
      && next == g.next && height == g.height && dead == g.dead && cc == g.cc
    }

    constructor (enc: Encoding)
      requires Proper(enc)
      ensures Valid() && g == START && fresh(buf) && fresh(buf.bytes) && this.enc == enc
    {
      this.enc := enc;
      buf := new Buffer();
      labels, next, height, dead, cc := map[], 0, 0, false, false;
      g, stored, refs := START, [], map[];
      new;
      TieStart(enc);
    }

    method NewLabel() returns (l: Label)
      requires Valid()
      modifies this
      ensures Valid() && l == old(g).next && g == NewLabels(old(g), 1)
    {
      TieLabel(enc, buf.contents, g, stored, labels, refs);
      l, next := next, next + 1;
      labels, refs := labels[l := BLabel([], -1, 0)], refs[l := []];
      g := NewLabels(g, 1);
    }

    /** The stack height is adjusted always, code emitted only where control can get. */
    method EmitOp(i: Instr, delta: int)
      requires Valid() && !i.Jump?
      modifies this, buf, buf.bytes
      ensures Valid() && g == Emit(old(g), i, delta) && (buf.bytes == old(buf.bytes) || fresh(buf.bytes))
    {
      height := height + delta;
      if dead {
        TieSame(enc, buf.contents, g, Emit(g, i, delta), stored, labels, refs);
      } else {
        TieEmit(enc, buf.contents, g, stored, labels, refs, i, delta);
        buf.Put(enc(i));
        stored := stored + [0];
      }
      g := Emit(g, i, delta);
    }

    /** A branch to a label that is bound. */
    method JumpBack(op: BranchOp, l: Label)
      requires Valid() && !dead && l in g.bound && l in labels && labels[l].target >= 0 && |enc(Jump(op, l))| <= 16
      modifies this, buf, buf.bytes
      ensures Valid() && g == Jumping(old(g), op, l) && (buf.bytes == old(buf.bytes) || fresh(buf.bytes))
    {
      TieBack(enc, buf.contents, g, stored, labels, refs, op, l);
      var f, offs := buf.PutBranch(enc(Jump(op, l)), labels[l].target);
      stored := stored + [offs];
      g := Jumping(g, op, l);
    }

    /** A branch to a label that is not bound yet, to be filled in when it is. */
    method JumpForward(op: BranchOp, l: Label)
      requires Valid() && !dead && l !in g.bound && l in labels && l in refs && |enc(Jump(op, l))| <= 16
      modifies this, buf, buf.bytes
      ensures Valid() && g == Jumping(old(g), op, l) && (buf.bytes == old(buf.bytes) || fresh(buf.bytes))
    {
      TieForward(enc, buf.contents, g, stored, labels, refs, op, l);
      var f, offs := buf.PutBranch(enc(Jump(op, l)), -1);
      labels := labels[l := BLabel(labels[l].forward + [f], -1, height)];
      refs := refs[l := refs[l] + [|g.code|]];
      stored := stored + [offs];
      g := Jumping(g, op, l);
    }

    method PutJump(op: BranchOp, l: Label)
      requires Valid() && l < g.next
      modifies this, buf, buf.bytes
      ensures Valid() && g == Jumping(old(g), op, l) && (buf.bytes == old(buf.bytes) || fresh(buf.bytes))
    {
      if dead {
        return;
      }
      TieKnows(enc, buf.contents, g, stored, labels, refs, l);
      if labels[l].target >= 0 {
        JumpBack(op, l);
      } else {
        JumpForward(op, l);
      }
    }

    /** Fill in every branch that waits for the label. */
    method FillIn(l: Label)
      requires Valid() && l in labels
      modifies buf, buf.bytes, this`stored
      ensures buf.Valid() && Filling(enc, buf.contents, g, old(stored), stored, labels, refs, l, 0)
      ensures |buf.contents| == |old(buf.contents)| && buf.bytes == old(buf.bytes)
    {
      FillStarts(enc, buf.contents, g, stored, labels, refs, l);
      var forward, i := labels[l].forward, |labels[l].forward|;
      while i > 0
        invariant 0 <= i <= |forward| && buf.Valid() && buf.bytes == old(buf.bytes)
        invariant Filling(enc, buf.contents, g, old(stored), stored, labels, refs, l, i)
        invariant |buf.contents| == |old(buf.contents)| && buf.pos == |buf.contents|
      {
        i := i - 1;
        var f := forward[i];
        stored := FillOne(enc, buf.contents, g, old(stored), stored, labels, refs, l, i);
        buf.Patch(f, Int32(buf.pos - f - OFFSET_SIZE));
      }
    }

    /** What follows a label is alive. */
    method BindTo(l: Label)
      requires Valid() && l < g.next && l !in g.bound
      modifies this, buf, buf.bytes
      ensures Valid() && g == Bind(old(g), l) && buf.bytes == old(buf.bytes)
    {
      TieKnows(enc, buf.contents, g, stored, labels, refs, l);
      FillIn(l);
      FillEnds(enc, old(buf.contents), buf.contents, g, old(stored), stored, labels, refs, l);
      labels, refs := labels[l := BLabel([], buf.pos, height)], refs[l := []];
      dead := false;
      g := Bind(g, l);
    }

    /** A branch on the condition code, which is set first if need be; what follows an unconditional one is dead. */
    method BranchTo(op: BranchOp, l: Label)
      requires Valid() && l < g.next
      modifies this, buf, buf.bytes
      ensures Valid() && g == Branch(old(g), op, l) && (buf.bytes == old(buf.bytes) || fresh(buf.bytes))
    {
      if op != Always && !cc {
        EmitOp(SetCC, -1);
      }
      PutJump(op, l);
      TieSame(enc, buf.contents, g, Branch(old(g), op, l), stored, labels, refs);
      cc := false;
      dead := dead || op == Always;
      g := Branch(old(g), op, l);
    }

    method SetState(height': int, dead': bool, cc': bool)
      requires Valid()
      modifies this
      ensures Valid() && g == old(g).(height := height', dead := dead', cc := cc')
      ensures labels == old(labels) && stored == old(stored) && refs == old(refs)
    {
      TieSame(enc, buf.contents, g, g.(height := height', dead := dead', cc := cc'), stored, labels, refs);
      height, dead, cc := height', dead', cc';
      g := g.(height := height', dead := dead', cc := cc');
    }

    // ------------------------------------------------------------------------------ expressions

    method LoadConditional(x: Expr, tt: Label, ft: Label)
      requires Valid() && Opens(g, tt, ft)
      modifies this, buf, buf.bytes
      ensures Valid() && Conds(old(g), x, tt, ft, g) && (buf.bytes == old(buf.bytes) || fresh(buf.bytes))
      decreases x, 2
    {
      if x.Literal? {
        JoinSimple(g, x, tt, ft);
        EmitOp(PushV(x.v), 1);
      } else if x.Variable? {
        JoinSimple(g, x, tt, ft);
        EmitOp(LoadV(x.n, x.ty), 1);
      } else if x.Arith? || x.Compare? {
        DoOperator(x, tt, ft);
      } else {
        DoShortCut(x, tt, ft);
      }
    }

    method DoOperator(x: Expr, ghost tt: Label, ghost ft: Label)
      requires Valid() && (x.Arith? || x.Compare?) && Opens(g, tt, ft)
      modifies this, buf, buf.bytes
      ensures Valid() && Conds(old(g), x, tt, ft, g) && (buf.bytes == old(buf.bytes) || fresh(buf.bytes))
      decreases x, 1
    {
      OpensPrepares(g, tt, ft);
      Load(x.left);
      ghost var g1 := g;
      LoadKeeps(old(g), x.left, g1);
      LoadPrepares(old(g), g1);
      Load(x.right);
      LoadKeeps(g1, x.right, g);
      LoadPrepares(g1, g);
      JoinBinary(old(g), x, tt, ft, g1, g);
      EmitOp(OperatorOf(x), if x.Compare? then -2 else -1);
      if x.Compare? { SetState(height, dead, true); }
    }

    /** `&&` and `||`: the left operand decides, or the right one does. */
    method DoShortCut(x: Expr, tt: Label, ft: Label)
      requires Valid() && (x.And? || x.Or?) && Opens(g, tt, ft)
      modifies this, buf, buf.bytes
      ensures Valid() && Conds(old(g), x, tt, ft, g) && (buf.bytes == old(buf.bytes) || fresh(buf.bytes))
      decreases x, 1
    {
      var mid := NewLabel();
      ghost var g0 := old(g);
      LeftOpens(g0, x, tt, ft);
      if x.And? {
        LoadConditional(x.left, mid, ft);
        DoRight(x, tt, ft, mid, IfFalse, ft, g0);
      } else {
        LoadConditional(x.left, tt, mid);
        DoRight(x, tt, ft, mid, IfTrue, tt, g0);
      }
    }

    /** The left operand decides by a branch out, or the right one does. */
    method DoRight(x: Expr, tt: Label, ft: Label, mid: Label, op: BranchOp, out: Label, ghost g0: Gen)
      requires Valid() && (x.And? || x.Or?) && Opens(g0, tt, ft) && mid == g0.next && op == Exit(x) && out == Out(x, tt, ft)
      requires Conds(NewLabels(g0, 1), x.left, LeftTrue(g0, x, tt), LeftFalse(g0, x, ft), g)
      modifies this, buf, buf.bytes
      ensures Valid() && Conds(g0, x, tt, ft, g) && (buf.bytes == old(buf.bytes) || fresh(buf.bytes))
      decreases x, 0
    {
      ghost var g1 := g;
      ShortCutFacts(g0, x, tt, ft, g1);
      BranchTo(op, out);
      BindTo(mid);
      LoadConditional(x.right, tt, ft);
      JoinShort(g0, x, tt, ft, g1, g);
    }

    method Load(x: Expr)
      requires Valid() && Prepared(g)
      modifies this, buf, buf.bytes
      ensures Valid() && Loads(old(g), x, g) && (buf.bytes == old(buf.bytes) || fresh(buf.bytes))
      decreases x, 3
    {
      ghost var g0 := g;
      var tt := NewLabel();
      var ft := NewLabel();
      assert g == NewLabels(g0, 2);
      LoadOpens(g0);
      var height0 := height;
      LoadConditional(x, tt, ft);
      LoadFacts(g0, x, g);
      JoinLoad(g0, x, g);
      ClearCC();
      ReloadValue(height0, tt, ft, g0);
    }

    method ClearCC()
      requires Valid()
      modifies this, buf, buf.bytes
      ensures Valid() && g == Clear(old(g)) && (buf.bytes == old(buf.bytes) || fresh(buf.bytes))
    {
      if cc {
        EmitOp(GetCC, 1);
        SetState(height, dead, false);
      }
    }

    method Revive(height0: int, l: Label, b: bool)
      requires Valid() && l < g.next && l !in g.bound
      modifies this, buf, buf.bytes
      ensures Valid() && g == Generator.Revive(old(g), height0, l, b) && (buf.bytes == old(buf.bytes) || fresh(buf.bytes))
    {
      SetState(height0, dead, cc);
      BindTo(l);
      EmitOp(PushV(B(b)), 1);
    }

    /** What has been translated into branches is made a value again. */
    method ReloadValue(height0: int, tt: Label, ft: Label, ghost g0: Gen)
      requires Valid() && Prepared(g0) && tt == g0.next && ft == g0.next + 1 && CondDone(NewLabels(g0, 2), g, tt, ft) && !g.cc && height0 == g0.height
      modifies this, buf, buf.bytes
      ensures Valid() && g == Reload(old(g), height0, tt, ft) && (buf.bytes == old(buf.bytes) || fresh(buf.bytes))
    {
      ReloadKnows(g0, g, tt, ft);
      var t := IsWaiting(tt);
      var f := IsWaiting(ft);
      if t || f {
        ReloadFacts(g0, g, tt, ft);
        var loaded := NewLabel();
        BranchTo(Always, loaded);
        ReloadFirst(height0, tt, t && f, loaded);
        ReloadSecond(height0, ft, loaded);
      }
    }

    method IsWaiting(l: Label) returns (b: bool)
      requires Valid() && l < g.next
      ensures b <==> IsLinked(g, l)
    {
      TieKnows(enc, buf.contents, g, stored, labels, refs, l);
      b := labels[l].forward != [];
    }

    method ReloadFirst(height0: int, tt: Label, both: bool, loaded: Label)
      requires Valid() && tt < g.next && loaded < g.next && tt !in g.bound
      modifies this, buf, buf.bytes
      ensures Valid() && g == ReloadTrue(old(g), height0, tt, both, loaded) && (buf.bytes == old(buf.bytes) || fresh(buf.bytes))
    {
      var t := IsWaiting(tt);
      if t { Revive(height0, tt, true); }
      if both { BranchTo(Always, loaded); }
    }

    method ReloadSecond(height0: int, ft: Label, loaded: Label)
      requires Valid() && ft < g.next && loaded < g.next && ft !in g.bound && ft != loaded && loaded !in g.bound
      modifies this, buf, buf.bytes
      ensures Valid() && g == ReloadFalse(old(g), height0, ft, loaded) && (buf.bytes == old(buf.bytes) || fresh(buf.bytes))
    {
      var f := IsWaiting(ft);
      if f { Revive(height0, ft, false); }
      BindTo(loaded);
    }

    // ------------------------------------------------------------------------------- statements

    method Execute(s: Stmt, exit: Label, cont: Label, ghost e: Env)
      requires Valid() && CanEnter(g, e) && JumpsIn(s, e.inLoop) && Nests(s) && e.exit == exit && e.cont == cont
      modifies this, buf, buf.bytes
      ensures Valid() && Executes(old(g), s, exit, cont, g) && (buf.bytes == old(buf.bytes) || fresh(buf.bytes))
      decreases s, 4
    {
      match s
      case Empty => JoinPlain(g, exit, cont);
      case Assign(_, _) => DoValue(s, exit, cont, e);
      case ExprStat(_) => DoValue(s, exit, cont, e);
      case Seq(a, b) =>
        Execute(a, exit, cont, e);
        ghost var g1 := g;
        SeqFacts(old(g), s, e, g1);
        Execute(b, exit, cont, e);
        JoinSeq(old(g), s, exit, cont, g1, g);
      case If(_, yes, no) =>
        if yes != Empty && no != Empty {
          DoIfBoth(s, exit, cont, e);
        } else if OnePart(s) {
          DoIfOne(s, exit, cont, e);
        } else {
          DoIfNone(s, exit, cont, e);
        }
      case Loop(_, _, _, _, _) => DoLoop(s, exit, cont, e);
      case Break => EnvKnows(g, e); JoinPlain(g, exit, cont); BranchTo(Always, exit);
      case Continue => EnvKnows(g, e); JoinPlain(g, exit, cont); BranchTo(Always, cont);
      case Return => JoinPlain(g, exit, cont); EmitOp(Ret, 0); SetState(height, true, cc);
    }

    method DoValue(s: Stmt, ghost exit: Label, ghost cont: Label, ghost e: Env)
      requires Valid() && CanEnter(g, e) && (s.Assign? || s.ExprStat?)
      modifies this, buf, buf.bytes
      ensures Valid() && Executes(old(g), s, exit, cont, g) && (buf.bytes == old(buf.bytes) || fresh(buf.bytes))
    {
      ghost var g0 := g;
      var done := NewLabel();
      ValueEnter(g0, e);
      Load(s.x);
      ValueFacts(g0, s, e, g);
      JoinValue(g0, s, exit, cont, g);
      EmitOp(LastOf(s), -1);
      BindTo(done);
    }

    method DoTest(x: Expr, tt: Label, ft: Label, op: BranchOp, l: Label)
      requires Valid() && Opens(g, tt, ft) && (l == tt || l == ft)
      modifies this, buf, buf.bytes
      ensures Valid() && Tests(old(g), x, tt, ft, op, l, g) && (buf.bytes == old(buf.bytes) || fresh(buf.bytes))
    {
      ghost var g0 := g;
      LoadConditional(x, tt, ft);
      TestFacts(g0, x, tt, ft, g);
      JoinTest(g0, x, tt, ft, op, l, g);
      BranchTo(op, l);
    }

    method DoIfBoth(s: Stmt, exit: Label, cont: Label, ghost e: Env)
      requires Valid() && CanEnter(g, e) && JumpsIn(s, e.inLoop) && Nests(s) && e.exit == exit && e.cont == cont
      requires s.If? && s.yes != Empty && s.no != Empty
      modifies this, buf, buf.bytes
      ensures Valid() && Executes(old(g), s, exit, cont, g) && (buf.bytes == old(buf.bytes) || fresh(buf.bytes))
      decreases s, 3
    {
      ghost var g0 := g;
      var done, t := DoBothTest(s, e);
      DoBothParts(s, done, exit, cont, e, g0, t);
      JoinIfBoth(g0, s, exit, cont, t, g);
    }

    method DoBothParts(s: Stmt, done: Label, exit: Label, cont: Label, ghost e: Env, ghost g0: Gen, ghost t: Gen)
      requires Valid() && s.If? && CanEnter(g0, e) && JumpsIn(s, e.inLoop) && Nests(s) && e.exit == exit && e.cont == cont && done == g0.next
      requires Tests(NewLabels(g0, 3), s.x, g0.next + 1, g0.next + 2, IfFalse, g0.next + 2, t) && g == Bind(t, done + 1) && CanEnter(g, e)
      modifies this, buf, buf.bytes
      ensures Valid() && IfBodies(t, s, done + 1, done, done + 2, exit, cont, g) && (buf.bytes == old(buf.bytes) || fresh(buf.bytes))
      decreases s, 2
    {
      Execute(s.yes, exit, cont, e);
      ghost var k := g;
      DoElse(s, done, exit, cont, e, g0, t);
      JoinIfBody(t, s, done + 1, done, done + 2, exit, cont, k, g);
    }

    method DoBothTest(s: Stmt, ghost e: Env) returns (done: Label, ghost t: Gen)
      requires Valid() && CanEnter(g, e) && s.If?
      modifies this, buf, buf.bytes
      ensures Valid() && done == old(g).next && Tests(NewLabels(old(g), 3), s.x, done + 1, done + 2, IfFalse, done + 2, t)
      ensures g == Bind(t, done + 1) && CanEnter(g, e) && (buf.bytes == old(buf.bytes) || fresh(buf.bytes))
    {
      ghost var g0 := g;
      done := NewLabels3();
      BothOpens(g0, e);
      DoTest(s.x, done + 1, done + 2, IfFalse, done + 2);
      t := g;
      BothFacts(g0, s, e, t);
      BindTo(done + 1);
    }

    method NewLabels3() returns (l: Label)
      requires Valid()
      modifies this
      ensures Valid() && l == old(g).next && g == NewLabels(old(g), 3)
    {
      l := NewLabel();
      var m := NewLabel();
      m := NewLabel();
    }

    /** The second part of an `if`. */
    method DoElse(s: Stmt, done: Label, exit: Label, cont: Label, ghost e: Env, ghost g0: Gen, ghost t: Gen)
      requires Valid() && s.If? && CanEnter(g0, e) && JumpsIn(s, e.inLoop) && Nests(s) && e.exit == exit && e.cont == cont && done == g0.next
      requires Tests(NewLabels(g0, 3), s.x, g0.next + 1, g0.next + 2, IfFalse, g0.next + 2, t)
      requires Executes(Bind(t, g0.next + 1), s.yes, exit, cont, g)
      modifies this, buf, buf.bytes
      ensures Valid() && IfRests(old(g), s, done, done + 2, exit, cont, g) && (buf.bytes == old(buf.bytes) || fresh(buf.bytes))
      decreases s, 1
    {
      ghost var k := g;
      ElseFacts(g0, s, e, t, k);
      BranchTo(Always, done);
      BindTo(done + 2);
      ghost var k2 := g;
      Execute(s.no, exit, cont, e);
      ElseEnds(g0, s, e, k2, g);
      JoinIfRest(k, s, done, done + 2, exit, cont, g);
      BindTo(done);
    }

    method DoIfOne(s: Stmt, exit: Label, cont: Label, ghost e: Env)
      requires Valid() && CanEnter(g, e) && JumpsIn(s, e.inLoop) && Nests(s) && e.exit == exit && e.cont == cont && OnePart(s)
      modifies this, buf, buf.bytes
      ensures Valid() && Executes(old(g), s, exit, cont, g) && (buf.bytes == old(buf.bytes) || fresh(buf.bytes))
      decreases s, 2
    {
      ghost var g0 := g;
      var done, t := DoOneTest(s, e);
      Execute(PartOf(s), exit, cont, e);
      OneEnds(g0, s, e, t, g, done);
      BindTo(done);
    }

    method DoOneTest(s: Stmt, ghost e: Env) returns (done: Label, ghost t: Gen)
      requires Valid() && CanEnter(g, e) && OnePart(s)
      modifies this, buf, buf.bytes
      ensures Valid() && done == old(g).next
      ensures Tests(NewLabels(old(g), 2), s.x, PartTrue(s, done), PartFalse(s, done), PartOp(s), done, t)
      ensures g == Bind(t, done + 1) && CanEnter(g, e) && (buf.bytes == old(buf.bytes) || fresh(buf.bytes))
    {
      ghost var g0 := g;
      done := NewLabel();
      var part := NewLabel();
      assert g == NewLabels(g0, 2);
      OneOpens(g0, s, e);
      DoTest(s.x, PartTrue(s, done), PartFalse(s, done), PartOp(s), done);
      t := g;
      OneFacts(g0, s, e, t);
      BindTo(part);
    }

    method DoIfNone(s: Stmt, ghost exit: Label, ghost cont: Label, ghost e: Env)
      requires Valid() && CanEnter(g, e) && s.If? && s.yes == Empty && s.no == Empty
      modifies this, buf, buf.bytes
      ensures Valid() && Executes(old(g), s, exit, cont, g) && (buf.bytes == old(buf.bytes) || fresh(buf.bytes))
    {
      ghost var g0 := g;
      var done := NewLabel();
      NoneOpens(g0, e);
      LoadConditional(s.x, done, done);
      NoneFacts(g0, s, e, g);
      JoinIfNone(g0, s, exit, cont, g);
      PopBool();
      BindTo(done);
    }

    method PopBool()
      requires Valid()
      modifies this, buf, buf.bytes
      ensures Valid() && g == Pop(old(g)) && (buf.bytes == old(buf.bytes) || fresh(buf.bytes))
    {
      if cc {
        SetState(height, dead, false);
      } else {
        EmitOp(PopV, -1);
      }
    }

    method DoLoop(s: Stmt, exit: Label, cont: Label, ghost e: Env)
      requires Valid() && CanEnter(g, e) && JumpsIn(s, e.inLoop) && Nests(s) && e.exit == exit && e.cont == cont && s.Loop?
      modifies this, buf, buf.bytes
      ensures Valid() && Executes(old(g), s, exit, cont, g) && (buf.bytes == old(buf.bytes) || fresh(buf.bytes))
      decreases s, 2
    {
      ghost var g0 := g;
      var entry := NewLabels3();
      var last := NewLabel();
      assert g == NewLabels(g0, 4);
      LoopOpens(g0, e);
      Execute(s.before, exit, cont, e);
      ghost var g1 := g;
      DoLoopTop(s, OwnLabels(entry), e, g0);
      DoLoopBody(s, OwnLabels(entry), exit, cont, e, g0, g1);
      JoinLoop(g0, s, exit, cont, g1, g);
    }

    method DoLoopTop(s: Stmt, own: LoopLabels, ghost e: Env, ghost g0: Gen)
      requires Valid() && CanEnter(g0, e) && Nests(s) && s.Loop? && own == OwnLabels(g0.next)
      requires Executes(NewLabels(g0, 4), s.before, e.exit, e.cont, g)
      modifies this, buf, buf.bytes
      ensures Valid() && g == LoopTop(old(g), s.kind, own) && (buf.bytes == old(buf.bytes) || fresh(buf.bytes))
    {
      LoopTopFacts(g0, s, e, g);
      if s.kind != Do {
        BranchTo(Always, own.entry);
      }
      BindTo(own.loop);
    }

    method DoLoopBody(s: Stmt, own: LoopLabels, exit: Label, cont: Label, ghost e: Env, ghost g0: Gen, ghost g1: Gen)
      requires Valid() && CanEnter(g0, e) && JumpsIn(s, e.inLoop) && Nests(s) && e.exit == exit && e.cont == cont && s.Loop?
      requires own == OwnLabels(g0.next) && Executes(NewLabels(g0, 4), s.before, exit, cont, g1) && g == LoopTop(g1, s.kind, own)
      modifies this, buf, buf.bytes
      ensures Valid() && LoopBodies(old(g), s, own, exit, cont, g) && (buf.bytes == old(buf.bytes) || fresh(buf.bytes))
      decreases s, 1
    {
      ghost var top := g;
      LoopBodyFacts(g0, s, e, g1);
      Execute(s.body, own.exit, own.cont, Env(true, own.exit, own.cont));
      ghost var k := g;
      LoopContFacts(g0, s, e, top, k);
      BindTo(own.cont);
      DoLoopRest(s, own, exit, cont, e, g0);
      JoinLoopBody(top, s, own, exit, cont, k, g);
    }

    method DoLoopRest(s: Stmt, own: LoopLabels, exit: Label, cont: Label, ghost e: Env, ghost g0: Gen)
      requires Valid() && CanEnter(g0, e) && Nests(s) && e.exit == exit && e.cont == cont && s.Loop? && own == OwnLabels(g0.next)
      requires Building(g0, g, e, LoopOwn(g0.next), {g0.next, g0.next + 3})
      modifies this, buf, buf.bytes
      ensures Valid() && LoopRests(old(g), s, own, exit, cont, g) && (buf.bytes == old(buf.bytes) || fresh(buf.bytes))
      decreases s, 0
    {
      ghost var mid := g;
      BuildEnter(g0, mid, e, LoopOwn(g0.next), {g0.next, g0.next + 3});
      Execute(s.after, exit, cont, e);
      ghost var k := g;
      LoopEntryFacts(g0, s, e, mid, k);
      BindTo(own.entry);
      ghost var t := DoLoopEnd(s, own, e, g0);
      JoinLoopRest(mid, s, own, exit, cont, k, t);
    }

    method DoLoopEnd(s: Stmt, own: LoopLabels, ghost e: Env, ghost g0: Gen) returns (ghost t: Gen)
      requires Valid() && CanEnter(g0, e) && s.Loop? && own == OwnLabels(g0.next) && Building(g0, g, e, LoopOwn(g0.next), {g0.next + 3})
      modifies this, buf, buf.bytes
      ensures Valid() && LoopTests(old(g), s, own, t) && g == Bind(t, own.exit) && (buf.bytes == old(buf.bytes) || fresh(buf.bytes))
    {
      ghost var low := g;
      DoLoopTest(s, own, e, g0);
      t := g;
      LoopExitFacts(g0, s, e, low, t);
      BindTo(own.exit);
    }

    method DoLoopTest(s: Stmt, own: LoopLabels, ghost e: Env, ghost g0: Gen)
      requires Valid() && CanEnter(g0, e) && s.Loop? && own == OwnLabels(g0.next) && Building(g0, g, e, LoopOwn(g0.next), {g0.next + 3})
      modifies this, buf, buf.bytes
      ensures Valid() && LoopTests(old(g), s, own, g) && (buf.bytes == old(buf.bytes) || fresh(buf.bytes))
    {
      ghost var low := g;
      BuildOpens(g0, low, e, LoopOwn(g0.next), {g0.next + 3}, own.loop, own.exit);
      OpensKnow(low, own.loop, own.exit);
      if Endless(s) {
        BranchTo(Always, own.loop);
      } else {
        DoTest(s.cond.x, own.loop, own.exit, IfTrue, own.loop);
      }
      JoinLoopTest(low, s, own, g);
    }

    /** Code for a function body, with a return at its end. */
    method GenerateFunction(body: Stmt)
      requires Valid() && g == START && Bytecode.Typed(body) && JumpsIn(body, false)
      modifies this, buf, buf.bytes
      ensures Valid() && g == Generate(body) && (buf.bytes == old(buf.bytes) || fresh(buf.bytes))
    {
      StartFacts();
      TypedNests(body);
      Execute(body, 0, 0, Env(false, 0, 0));
      Executed(START, body, 0, 0, g);
      EmitOp(Ret, 0);
    }
  }

  lemma StartFacts()
    ensures CanEnter(START, Env(false, 0, 0))
  {
  }

  lemma Executed(g: Gen, s: Stmt, exit: Label, cont: Label, r: Gen)
    requires Executes(g, s, exit, cont, r)
    ensures r == Generator.Execute(g, s, exit, cont)
  {
    assert Key(PartFacts, 0);
  }

  lemma EnvKnows(g: Gen, e: Env)
    requires CanEnter(g, e)
    ensures e.inLoop ==> e.exit < g.next && e.cont < g.next
  {
    assert Key(OrderFacts, 0);
  }

  lemma BuildKnows(g: Gen, r: Gen, e: Env, own: set<Label>, open: set<Label>, l: Label)
    requires Building(g, r, e, own, open) && l in own
    ensures l < r.next
  {
    assert Key(BuildFacts, 0);
  }

  lemma SeqFacts(g: Gen, s: Stmt, e: Env, g1: Gen)
    requires s.Seq? && CanEnter(g, e) && JumpsIn(s, e.inLoop) && Nests(s) && Executes(g, s.first, e.exit, e.cont, g1)
    ensures CanEnter(g1, e)
  {
    StmtKeeps(g, s.first, e, g1);
    DoneEnter(g, g1, e);
  }

  lemma ValueFacts(g: Gen, s: Stmt, e: Env, g1: Gen)
    requires (s.Assign? || s.ExprStat?) && CanEnter(g, e) && Loads(NewLabels(g, 1), s.x, g1)
    ensures g.next < g1.next && g.next !in Emit(g1, LastOf(s), -1).bound
  {
    ValueEnter(g, e);
    LoadKeeps(NewLabels(g, 1), s.x, g1);
    ValueEnds(g, g1, LastOf(s), e);
    LoadNext(NewLabels(g, 1), g1);
  }

  lemma LoadNext(g: Gen, r: Gen)
    requires LoadDone(g, r)
    ensures g.next <= r.next
  {
    assert Key(OrderFacts, 0);
  }

  lemma TestFacts(g: Gen, x: Expr, tt: Label, ft: Label, g1: Gen)
    requires Opens(g, tt, ft) && Conds(g, x, tt, ft, g1)
    ensures tt < g1.next && ft < g1.next
  {
    CondKeeps(g, x, tt, ft, g1);
    CondNext(g, g1, tt, ft);
    OpensKnow(g, tt, ft);
  }

  lemma BothOpens(g: Gen, e: Env)
    requires CanEnter(g, e)
    ensures Opens(NewLabels(g, 3), g.next + 1, g.next + 2)
  {
    BuildStarts(g, 3, e, IfOwn(g.next));
    BuildOpens(g, NewLabels(g, 3), e, IfOwn(g.next), IfOwn(g.next), g.next + 1, g.next + 2);
  }

  lemma BothFacts(g: Gen, s: Stmt, e: Env, t: Gen)
    requires s.If? && CanEnter(g, e) && Tests(NewLabels(g, 3), s.x, g.next + 1, g.next + 2, IfFalse, g.next + 2, t)
    ensures g.next + 1 < t.next && g.next + 1 !in t.bound && CanEnter(Bind(t, g.next + 1), e)
  {
    BothTestKeeps(g, s, e, t);
    BuildEnter(g, Bind(t, g.next + 1), e, IfOwn(g.next), {g.next, g.next + 2});
    BuildKnows(g, Bind(t, g.next + 1), e, IfOwn(g.next), {g.next, g.next + 2}, g.next + 1);
  }

  lemma ElseFacts(g: Gen, s: Stmt, e: Env, t: Gen, k: Gen)
    requires s.If? && CanEnter(g, e) && JumpsIn(s, e.inLoop) && Nests(s)
    requires Tests(NewLabels(g, 3), s.x, g.next + 1, g.next + 2, IfFalse, g.next + 2, t) && Executes(Bind(t, g.next + 1), s.yes, e.exit, e.cont, k)
    ensures var b := Branch(k, Always, g.next);
      && g.next < k.next && g.next + 2 < b.next && g.next + 2 !in b.bound
      && CanEnter(Bind(b, g.next + 2), e) && Building(g, Bind(b, g.next + 2), e, IfOwn(g.next), {g.next})
  {
    ThenKeeps(g, s, e, t, k);
    BuildKnows(g, k, e, IfOwn(g.next), {g.next, g.next + 2}, g.next);
    ElseKeeps(g, k, e);
    var b := Bind(Branch(k, Always, g.next), g.next + 2);
    BuildEnter(g, b, e, IfOwn(g.next), {g.next});
    BuildKnows(g, b, e, IfOwn(g.next), {g.next}, g.next + 2);
  }

  lemma ElseEnds(g: Gen, s: Stmt, e: Env, k2: Gen, k3: Gen)
    requires s.If? && CanEnter(g, e) && JumpsIn(s, e.inLoop) && Nests(s) && Building(g, k2, e, IfOwn(g.next), {g.next})
    requires CanEnter(k2, e) && Executes(k2, s.no, e.exit, e.cont, k3)
    ensures g.next !in k3.bound && g.next < k3.next
  {
    ElseLast(g, s, e, k2, k3);
    StmtKeeps(k2, s.no, e, k3);
    BuildStmt(g, k2, e, IfOwn(g.next), {g.next}, k3);
    BuildKnows(g, k3, e, IfOwn(g.next), {g.next}, g.next);
  }

  lemma OneOpens(g: Gen, s: Stmt, e: Env)
    requires CanEnter(g, e) && OnePart(s)
    ensures Opens(NewLabels(g, 2), PartTrue(s, g.next), PartFalse(s, g.next))
  {
    var own := {g.next, g.next + 1};
    BuildStarts(g, 2, e, own);
    BuildOpens(g, NewLabels(g, 2), e, own, own, PartTrue(s, g.next), PartFalse(s, g.next));
  }

  lemma OneFacts(g: Gen, s: Stmt, e: Env, t: Gen)
    requires OnePart(s) && CanEnter(g, e)
    requires Tests(NewLabels(g, 2), s.x, PartTrue(s, g.next), PartFalse(s, g.next), PartOp(s), g.next, t)
    ensures g.next + 1 < t.next && g.next + 1 !in t.bound && CanEnter(Bind(t, g.next + 1), e)
  {
    var own := {g.next, g.next + 1};
    OneTestKeeps(g, s, e, t);
    BuildEnter(g, Bind(t, g.next + 1), e, own, {g.next});
    BuildKnows(g, Bind(t, g.next + 1), e, own, {g.next}, g.next + 1);
  }

  lemma OneEnds(g: Gen, s: Stmt, e: Env, t: Gen, k: Gen, done: Label)
    requires OnePart(s) && CanEnter(g, e) && JumpsIn(s, e.inLoop) && Nests(s)
    requires Tests(NewLabels(g, 2), s.x, PartTrue(s, g.next), PartFalse(s, g.next), PartOp(s), g.next, t)
    requires Executes(Bind(t, g.next + 1), PartOf(s), e.exit, e.cont, k) && done == g.next
    ensures done !in k.bound && done < k.next && Executes(g, s, e.exit, e.cont, Bind(k, done))
  {
    JoinIfPart(t, s, PartOf(s), g.next + 1, g.next, e.exit, e.cont, k);
    JoinIfOne(g, s, e.exit, e.cont, t, Bind(k, done));
    OneBindable(g, s, e, t, k);
  }

  lemma OneBindable(g: Gen, s: Stmt, e: Env, t: Gen, k: Gen)
    requires OnePart(s) && CanEnter(g, e) && JumpsIn(s, e.inLoop) && Nests(s)
    requires Tests(NewLabels(g, 2), s.x, PartTrue(s, g.next), PartFalse(s, g.next), PartOp(s), g.next, t)
    requires Executes(Bind(t, g.next + 1), PartOf(s), e.exit, e.cont, k)
    ensures g.next !in k.bound && g.next < k.next
  {
    var own := {g.next, g.next + 1};
    OneTestKeeps(g, s, e, t);
    BuildEnter(g, Bind(t, g.next + 1), e, own, {g.next});
    StmtKeeps(Bind(t, g.next + 1), PartOf(s), e, k);
    BuildStmt(g, Bind(t, g.next + 1), e, own, {g.next}, k);
    BuildKnows(g, k, e, own, {g.next}, g.next);
    BuildLast(g, k, e, own, g.next);
  }

  lemma NoneOpens(g: Gen, e: Env)
    requires CanEnter(g, e)
    ensures Opens(NewLabels(g, 1), g.next, g.next)
  {
    BuildStarts(g, 1, e, {g.next});
    BuildOpens(g, NewLabels(g, 1), e, {g.next}, {g.next}, g.next, g.next);
  }

  lemma NoneFacts(g: Gen, s: Stmt, e: Env, g1: Gen)
    requires s.If? && CanEnter(g, e) && Conds(NewLabels(g, 1), s.x, g.next, g.next, g1)
    ensures g.next < Pop(g1).next && g.next !in Pop(g1).bound
  {
    NoneOpens(g, e);
    BuildStarts(g, 1, e, {g.next});
    CondKeeps(NewLabels(g, 1), s.x, g.next, g.next, g1);
    PopKeeps(g, NewLabels(g, 1), e, g1, g.next);
    BuildKnows(g, Pop(g1), e, {g.next}, {g.next}, g.next);
    BuildLast(g, Pop(g1), e, {g.next}, g.next);
  }

  lemma LoopOpens(g: Gen, e: Env)
    requires CanEnter(g, e)
    ensures CanEnter(NewLabels(g, 4), e)
  {
    BuildStarts(g, 4, e, LoopOwn(g.next));
    BuildEnter(g, NewLabels(g, 4), e, LoopOwn(g.next), LoopOwn(g.next));
  }

  lemma LoopTopFacts(g: Gen, s: Stmt, e: Env, g1: Gen)
    requires s.Loop? && CanEnter(g, e) && Nests(s) && Executes(NewLabels(g, 4), s.before, e.exit, e.cont, g1)
    ensures g.next < g1.next && g.next + 1 < g1.next
    ensures g.next + 1 !in (if s.kind != Do then Branch(g1, Always, g.next) else g1).bound
  {
    LoopStartKeeps(g, s, e, g1);
    LoopTopKeeps(g, g1, s.kind, e);
    BuildKnows(g, g1, e, LoopOwn(g.next), LoopOwn(g.next), g.next);
    BuildKnows(g, g1, e, LoopOwn(g.next), LoopOwn(g.next), g.next + 1);
  }

  lemma LoopBodyFacts(g: Gen, s: Stmt, e: Env, g1: Gen)
    requires s.Loop? && CanEnter(g, e) && Nests(s) && Executes(NewLabels(g, 4), s.before, e.exit, e.cont, g1)
    ensures var top := LoopTop(g1, s.kind, OwnLabels(g.next));
      && Building(g, top, e, LoopOwn(g.next), {g.next, g.next + 2, g.next + 3})
      && CanEnter(top, Env(true, g.next + 3, g.next + 2))
  {
    LoopStartKeeps(g, s, e, g1);
    LoopTopKeeps(g, g1, s.kind, e);
    BuildEnter(g, LoopTop(g1, s.kind, OwnLabels(g.next)), e, LoopOwn(g.next), {g.next, g.next + 2, g.next + 3});
  }

  lemma LoopContFacts(g: Gen, s: Stmt, e: Env, top: Gen, k: Gen)
    requires s.Loop? && CanEnter(g, e) && JumpsIn(s, e.inLoop) && Nests(s)
    requires Building(g, top, e, LoopOwn(g.next), {g.next, g.next + 2, g.next + 3}) && Executes(top, s.body, g.next + 3, g.next + 2, k)
    ensures g.next + 2 < k.next && g.next + 2 !in k.bound && Building(g, Bind(k, g.next + 2), e, LoopOwn(g.next), {g.next, g.next + 3})
  {
    InnerKeeps(g, s, e, top, k);
    BuildKnows(g, Bind(k, g.next + 2), e, LoopOwn(g.next), {g.next, g.next + 3}, g.next + 2);
  }

  lemma LoopEntryFacts(g: Gen, s: Stmt, e: Env, mid: Gen, k: Gen)
    requires s.Loop? && CanEnter(g, e) && Nests(s)
    requires Building(g, mid, e, LoopOwn(g.next), {g.next, g.next + 3}) && Executes(mid, s.after, e.exit, e.cont, k)
    ensures g.next < k.next && g.next !in k.bound && Building(g, Bind(k, g.next), e, LoopOwn(g.next), {g.next + 3})
  {
    AfterKeeps(g, s, e, mid, k);
    BuildKnows(g, Bind(k, g.next), e, LoopOwn(g.next), {g.next + 3}, g.next);
  }

  lemma LoopExitFacts(g: Gen, s: Stmt, e: Env, low: Gen, t: Gen)
    requires s.Loop? && CanEnter(g, e) && Building(g, low, e, LoopOwn(g.next), {g.next + 3}) && LoopTests(low, s, OwnLabels(g.next), t)
    ensures g.next + 3 < t.next && g.next + 3 !in t.bound
  {
    LoopTestKeeps(g, low, s, e, t);
    BuildKnows(g, t, e, LoopOwn(g.next), {g.next + 3}, g.next + 3);
    BuildLast(g, t, e, LoopOwn(g.next), g.next + 3);
  }

  lemma ShortCutFacts(g: Gen, x: Expr, tt: Label, ft: Label, g1: Gen)
    requires (x.And? || x.Or?) && Opens(g, tt, ft) && Conds(NewLabels(g, 1), x.left, LeftTrue(g, x, tt), LeftFalse(g, x, ft), g1)
    ensures Opens(Bind(Branch(g1, Exit(x), Out(x, tt, ft)), g.next), tt, ft)
    ensures g.next !in Branch(g1, Exit(x), Out(x, tt, ft)).bound && tt < g1.next && ft < g1.next && g.next < g1.next
  {
    LeftOpens(g, x, tt, ft);
    CondKeeps(NewLabels(g, 1), x.left, LeftTrue(g, x, tt), LeftFalse(g, x, ft), g1);
    ShortCutKeeps(g, g1, x, tt, ft);
    CondNext(NewLabels(g, 1), g1, LeftTrue(g, x, tt), LeftFalse(g, x, ft));
    OpensKnow(g, tt, ft);
  }

  lemma OpensKnow(g: Gen, tt: Label, ft: Label)
    requires Opens(g, tt, ft)
    ensures tt < g.next && ft < g.next
  {
    assert Key(OrderFacts, 0);
  }

  lemma CondNext(g: Gen, r: Gen, tt: Label, ft: Label)
    requires CondDone(g, r, tt, ft)
    ensures g.next <= r.next
  {
    assert Key(OrderFacts, 0);
  }

  lemma LoadFacts(g: Gen, x: Expr, g1: Gen)
    requires Prepared(g) && Conds(NewLabels(g, 2), x, g.next, g.next + 1, g1)
    ensures CondDone(NewLabels(g, 2), Clear(g1), g.next, g.next + 1) && !Clear(g1).cc
  {
    LoadOpens(g);
    CondKeeps(NewLabels(g, 2), x, g.next, g.next + 1, g1);
    ClearKeeps(NewLabels(g, 2), g1, g.next, g.next + 1);
  }

  lemma ReloadKnows(g: Gen, k: Gen, tt: Label, ft: Label)
    requires CondDone(NewLabels(g, 2), k, tt, ft) && tt == g.next && ft == g.next + 1
    ensures tt < k.next && ft < k.next
  {
    assert Key(OrderFacts, 0);
  }

  lemma ReloadFacts(g: Gen, k: Gen, tt: Label, ft: Label)
    requires Prepared(g) && tt == g.next && ft == g.next + 1 && CondDone(NewLabels(g, 2), k, tt, ft) && !k.cc
    ensures var g1 := Branch(NewLabels(k, 1), Always, k.next); tt !in g1.bound && tt < g1.next && k.next < g1.next
    ensures forall both :: var g3 := ReloadTrue(Branch(NewLabels(k, 1), Always, k.next), g.height, tt, both, k.next);
      ft < g3.next && k.next < g3.next && ft !in g3.bound && k.next !in g3.bound && ft != k.next
  {
    assert Key(OrderFacts, 0);
    ReloadStarts(g, k, tt, ft);
    var g1 := Branch(NewLabels(k, 1), Always, k.next);
    SkipKeeps(g, NewLabels(k, 1), {tt, ft, k.next}, tt, ft, k.next);
    forall both ensures var g3 := ReloadTrue(g1, g.height, tt, both, k.next);
      ft < g3.next && k.next < g3.next && ft !in g3.bound && k.next !in g3.bound && ft != k.next
    {
      ReloadTrueKeeps(g, g1, tt, ft, both, k.next);
    }
  }

  // ---------------------------------------------------------------------------------- whole functions

  /** What an interpreter reads at branch `k`: the end of its operand and the offset there lead to the label. */
  ghost predicate GoesHome(enc: Encoding, bytes: Bytes, r: Gen, k: nat)
    requires k < |r.code| && r.code[k].Jump?
  {
    var f, l := OperandAt(enc, r.code, k), r.code[k].to;
    && f + OFFSET_SIZE <= |bytes| && l in r.bound && r.bound[l] <= |r.code|
    && f + OFFSET_SIZE + AsInt32(bytes[f..f + OFFSET_SIZE]) == Offset(enc, r.code, r.bound[l])
  }

  lemma {:induction false} OperandBytes(enc: Encoding, code: seq<Instr>, stored: seq<int>, k: nat)
    requires |stored| == |code| && k < |code| && code[k].Jump?
    ensures var f, s := OperandAt(enc, code, k), Flat(enc, code, stored); f + OFFSET_SIZE <= |s| && s[f..f + OFFSET_SIZE] == Int32(stored[k])
  {
    FlatPatch(enc, code, stored, k, stored[k]);
    assert stored[k := stored[k]] == stored;
    var f, s := OperandAt(enc, code, k), Flat(enc, code, stored);
    assert s == Replace(s, f, Int32(stored[k]));
    assert Replace(s, f, Int32(stored[k]))[f..f + OFFSET_SIZE] == Int32(stored[k]);
  }

  ghost predicate HasBytes(bytes: Bytes, at: nat, s: Bytes) {
    at + |s| <= |bytes| && bytes[at..at + |s|] == s
  }

  lemma StillHas(bytes: Bytes, more: Bytes, at: nat, s: Bytes)
    requires HasBytes(bytes, at, s)
    ensures HasBytes(bytes + more, at, s)
  {
    assert (bytes + more)[at..at + |s|] == bytes[at..at + |s|];
  }

  lemma HasLast(bytes: Bytes, s: Bytes, more: Bytes)
    ensures HasBytes(bytes + (s + more), |bytes|, s)
  {
  }

  lemma {:induction false} InstructionBytes(enc: Encoding, code: seq<Instr>, stored: seq<int>, k: nat)
    requires |stored| == |code| && k < |code|
    ensures HasBytes(Flat(enc, code, stored), Offset(enc, code, k), enc(code[k]))
    decreases |code|
  {
    var n := |code| - 1;
    var init, s := code[..n], Flat(enc, code[..n], stored[..n]);
    OffsetPrefix(enc, init, [code[n]], k);
    assert init + [code[n]] == code;
    if k < n {
      InstructionBytes(enc, init, stored[..n], k);
      StillHas(s, One(enc, code[n], stored[n]), Offset(enc, code, k), enc(code[k]));
    } else {
      FlatLength(enc, init, stored[..n]);
      HasLast(s, enc(code[k]), if code[k].Jump? then Int32(stored[n]) else []);
    }
  }

  lemma BranchGoesHome(enc: Encoding, bytes: Bytes, r: Gen, stored: seq<int>, labels: Labels, refs: Waiting, k: nat)
    requires Tied(enc, bytes, r, stored, labels, refs) && |bytes| < 0x8000_0000
    requires k < |r.code| && r.code[k].Jump? && r.code[k].to in r.bound && r.bound[r.code[k].to] <= |r.code|
    ensures GoesHome(enc, bytes, r, k)
  {
    assert Key(EmissionFacts, 0);
    assert JumpOk(enc, r, stored, refs, k);
    OperandBytes(enc, r.code, stored, k);
    FlatLength(enc, r.code, stored);
    OffsetGrows(enc, r.code, r.bound[r.code[k].to], |r.code|);
    Int32RoundTrip(stored[k]);
  }

  /**
   * The bytes of a function: every instruction is where the layout puts it, and every branch, read back
   * from the bytes, leads exactly to the instruction that its label was bound at.
   */
  method Assemble(body: Stmt, enc: Encoding) returns (bytes: Bytes)
    requires Proper(enc) && Bytecode.Typed(body) && JumpsIn(body, false)
    ensures var r := Generate(body);
      && |bytes| == Offset(enc, r.code, |r.code|)
      && (forall k :: 0 <= k < |r.code| ==> HasBytes(bytes, Offset(enc, r.code, k), enc(r.code[k])))
      && (|bytes| < 0x8000_0000 ==> forall k :: 0 <= k < |r.code| && r.code[k].Jump? ==> GoesHome(enc, bytes, r, k))
  {
    var gen := new Generating(enc);
    gen.GenerateFunction(body);
    bytes := gen.buf.Emitted();
    AssembledWell(body, enc, bytes, gen.stored, gen.labels, gen.refs);
  }

  lemma AssembledWell(body: Stmt, enc: Encoding, bytes: Bytes, stored: seq<int>, labels: Labels, refs: Waiting)
    requires Bytecode.Typed(body) && JumpsIn(body, false) && Tied(enc, bytes, Generate(body), stored, labels, refs)
    ensures var r := Generate(body);
      && |bytes| == Offset(enc, r.code, |r.code|)
      && (forall k :: 0 <= k < |r.code| ==> HasBytes(bytes, Offset(enc, r.code, k), enc(r.code[k])))
      && (|bytes| < 0x8000_0000 ==> forall k :: 0 <= k < |r.code| && r.code[k].Jump? ==> GoesHome(enc, bytes, r, k))
  {
    var r := Generate(body);
    GeneratesInOrder(body);
    LaidOut(enc, bytes, r, stored, labels, refs);
    if |bytes| < 0x8000_0000 {
      forall k | 0 <= k < |r.code| && r.code[k].Jump? ensures GoesHome(enc, bytes, r, k) {
        BranchGoesHome(enc, bytes, r, stored, labels, refs, k);
      }
    }
  }

  lemma LaidOut(enc: Encoding, bytes: Bytes, r: Gen, stored: seq<int>, labels: Labels, refs: Waiting)
    requires Tied(enc, bytes, r, stored, labels, refs)
    ensures |bytes| == Offset(enc, r.code, |r.code|)
    ensures forall k :: 0 <= k < |r.code| ==> HasBytes(bytes, Offset(enc, r.code, k), enc(r.code[k]))
  {
    assert Key(EmissionFacts, 0);
    FlatLength(enc, r.code, stored);
    forall k | 0 <= k < |r.code| ensures HasBytes(bytes, Offset(enc, r.code, k), enc(r.code[k])) {
      InstructionBytes(enc, r.code, stored, k);
    }
  }
}
