/** Labels while code is generated: where they are, or where the branches are that wait for them. */
module CodeLabels {
  import opened ByteStrings
  import opened Bytecode
  import opened Generator
  import opened CodeBuffer

  /** Positions of branch operands to be filled in, the position of the label or -1, and the stack height. */
  datatype BLabel = BLabel(forward: seq<nat>, target: int, height: int)

  type Labels = map<Label, BLabel>

  /** The instructions that wait for each label. */
  type Waiting = map<Label, seq<nat>>

  ghost predicate Waits(code: seq<Instr>, k: nat, l: Label) {
    k < |code| && code[k].Jump? && code[k].to == l
  }

  /** One label: bound at its place in the code, or with the operands of the branches that wait for it. */
  ghost predicate LabelOk(enc: Encoding, g: Gen, labels: Labels, refs: Waiting, l: Label) {
    l in labels ==>
      && l in refs && |labels[l].forward| == |refs[l]|
      && (l in g.linked <==> labels[l].forward != [])
      && (l in g.heights ==> labels[l].height == g.heights[l])
      && (if l in g.bound then g.bound[l] <= |g.code| && labels[l].target == Offset(enc, g.code, g.bound[l]) && refs[l] == [] else labels[l].target == -1)
      && (forall j :: 0 <= j < |refs[l]| ==> Waits(g.code, refs[l][j], l) && labels[l].forward[j] == OperandAt(enc, g.code, refs[l][j]))
  }

  /** A branch goes where its label is bound. */
  ghost predicate Hits(enc: Encoding, g: Gen, stored: seq<int>, k: nat)
    requires k < |g.code| == |stored| && g.code[k].Jump? && g.code[k].to in g.bound && g.bound[g.code[k].to] <= |g.code|
  {
    OperandAt(enc, g.code, k) + OFFSET_SIZE + stored[k] == Offset(enc, g.code, g.bound[g.code[k].to])
  }

  /** One branch: it goes where its label is, or waits for it. */
  ghost predicate JumpOk(enc: Encoding, g: Gen, stored: seq<int>, refs: Waiting, k: nat) {
    k < |g.code| == |stored| && g.code[k].Jump? ==>
      var l := g.code[k].to;
      if l in g.bound then g.bound[l] <= |g.code| && Hits(enc, g, stored, k) else l in refs && k in refs[l]
  }

  /** The labels and offsets agree with the code. */
  ghost predicate Linked(enc: Encoding, g: Gen, stored: seq<int>, labels: Labels, refs: Waiting) {
    && |stored| == |g.code| && refs.Keys == labels.Keys && (forall l: Label :: l in labels <==> l < g.next)
    && (forall l :: l in g.linked || l in g.bound || l in g.heights ==> l < g.next)
    && (forall l {:trigger LabelOk(enc, g, labels, refs, l)} :: LabelOk(enc, g, labels, refs, l))
    && (forall k {:trigger JumpOk(enc, g, stored, refs, k)} :: JumpOk(enc, g, stored, refs, k))
  }

  lemma OperandPrefix(enc: Encoding, code: seq<Instr>, i: Instr, k: nat)
    requires k < |code|
    ensures OperandAt(enc, code + [i], k) == OperandAt(enc, code, k)
  {
    OffsetPrefix(enc, code, [i], k);
  }

  lemma LabelStays(enc: Encoding, g: Gen, labels: Labels, refs: Waiting, l: Label, h: Gen, i: Instr)
    requires LabelOk(enc, g, labels, refs, l) && h.code == g.code + [i] && h.bound == g.bound
    requires (l in h.linked <==> l in g.linked) && (l in h.heights ==> l in g.heights && h.heights[l] == g.heights[l])
    ensures LabelOk(enc, h, labels, refs, l)
  {
    if l in labels {
      if l in g.bound { OffsetPrefix(enc, g.code, [i], g.bound[l]); }
      forall j | 0 <= j < |refs[l]| ensures Waits(h.code, refs[l][j], l) && labels[l].forward[j] == OperandAt(enc, h.code, refs[l][j]) {
        assert Waits(g.code, refs[l][j], l);
        OperandPrefix(enc, g.code, i, refs[l][j]);
      }
    }
  }

  lemma JumpStays(enc: Encoding, g: Gen, stored: seq<int>, refs: Waiting, k: nat, h: Gen, i: Instr, v: int)
    requires |stored| == |g.code| && JumpOk(enc, g, stored, refs, k) && k < |g.code| && h.code == g.code + [i] && h.bound == g.bound
    ensures JumpOk(enc, h, stored + [v], refs, k)
  {
    if g.code[k].Jump? && g.code[k].to in g.bound {
      OperandPrefix(enc, g.code, i, k);
      OffsetPrefix(enc, g.code, [i], g.bound[g.code[k].to]);
    }
  }

  /** An instruction other than a branch. */
  lemma EmitLinks(enc: Encoding, g: Gen, stored: seq<int>, labels: Labels, refs: Waiting, i: Instr, delta: int)
    requires Linked(enc, g, stored, labels, refs) && !i.Jump? && !g.dead
    ensures Linked(enc, Emit(g, i, delta), stored + [0], labels, refs)
  {
    var h := Emit(g, i, delta);
    forall l ensures LabelOk(enc, h, labels, refs, l) {
      assert LabelOk(enc, g, labels, refs, l);
      LabelStays(enc, g, labels, refs, l, h, i);
    }
    forall k: nat ensures JumpOk(enc, h, stored + [0], refs, k) {
      assert JumpOk(enc, g, stored, refs, k);
      if k < |g.code| { JumpStays(enc, g, stored, refs, k, h, i, 0); }
    }
  }

  /** A branch back to a label that is bound. */
  lemma BackLinks(enc: Encoding, g: Gen, stored: seq<int>, labels: Labels, refs: Waiting, op: BranchOp, l: Label, v: int)
    requires Linked(enc, g, stored, labels, refs) && !g.dead && l in g.bound && l in labels
    requires v == labels[l].target - (Offset(enc, g.code, |g.code|) + |enc(Jump(op, l))|) - OFFSET_SIZE
    ensures Linked(enc, Jumping(g, op, l), stored + [v], labels, refs)
  {
    var h, i, n := Jumping(g, op, l), Jump(op, l), |g.code|;
    forall m ensures LabelOk(enc, h, labels, refs, m) {
      assert LabelOk(enc, g, labels, refs, m);
      LabelStays(enc, g, labels, refs, m, h, i);
    }
    forall k: nat ensures JumpOk(enc, h, stored + [v], refs, k) {
      assert JumpOk(enc, g, stored, refs, k);
      if k < n {
        JumpStays(enc, g, stored, refs, k, h, i, v);
      } else if k == n {
        assert LabelOk(enc, g, labels, refs, l);
        OffsetPrefix(enc, g.code, [i], n);
        OffsetPrefix(enc, g.code, [i], g.bound[l]);
      }
    }
  }

  /** A branch to a label that is not bound yet. */
  lemma ForwardLinks(enc: Encoding, g: Gen, stored: seq<int>, labels: Labels, refs: Waiting, op: BranchOp, l: Label, f: nat)
    requires Linked(enc, g, stored, labels, refs) && !g.dead && l !in g.bound && l in labels && l in refs
    requires f == Offset(enc, g.code, |g.code|) + |enc(Jump(op, l))|
    ensures Linked(enc, Jumping(g, op, l), stored + [0], labels[l := BLabel(labels[l].forward + [f], -1, g.height)], refs[l := refs[l] + [|g.code|]])
  {
    var h, i, n := Jumping(g, op, l), Jump(op, l), |g.code|;
    var labels', refs' := labels[l := BLabel(labels[l].forward + [f], -1, g.height)], refs[l := refs[l] + [n]];
    assert LabelOk(enc, g, labels, refs, l);
    forall m ensures LabelOk(enc, h, labels', refs', m) {
      assert LabelOk(enc, g, labels, refs, m);
      if m != l {
        LabelStays(enc, g, labels, refs, m, h, i);
      } else {
        ForwardLabel(enc, g, labels, refs, op, l, f);
      }
    }
    forall k: nat ensures JumpOk(enc, h, stored + [0], refs', k) {
      assert JumpOk(enc, g, stored, refs, k);
      if k < n { JumpStays(enc, g, stored, refs, k, h, i, 0); }
    }
  }

  lemma ForwardLabel(enc: Encoding, g: Gen, labels: Labels, refs: Waiting, op: BranchOp, l: Label, f: nat)
    requires LabelOk(enc, g, labels, refs, l) && !g.dead && l !in g.bound && l in labels
    requires f == Offset(enc, g.code, |g.code|) + |enc(Jump(op, l))|
    ensures LabelOk(enc, Jumping(g, op, l), labels[l := BLabel(labels[l].forward + [f], -1, g.height)], refs[l := refs[l] + [|g.code|]], l)
  {
    var h, i, n := Jumping(g, op, l), Jump(op, l), |g.code|;
    OffsetPrefix(enc, g.code, [i], n);
    forall j | 0 <= j < n && Waits(g.code, j, l) ensures Waits(h.code, j, l) && OperandAt(enc, h.code, j) == OperandAt(enc, g.code, j) {
      OperandPrefix(enc, g.code, i, j);
    }
  }

  /** The offset from branch `k` to the end of the code. */
  function ToEnd(enc: Encoding, code: seq<Instr>, k: nat): (v: int)
    requires k < |code|
  {
    Offset(enc, code, |code|) - OperandAt(enc, code, k) - OFFSET_SIZE
  }

  /** Of the branches that wait for `l`, those from the `i`th on have been filled in, and no other has changed. */
  ghost predicate Resolved(enc: Encoding, code: seq<Instr>, waiting: seq<nat>, l: Label, i: nat, stored0: seq<int>, stored: seq<int>) {
    && |stored| == |stored0| == |code| && i <= |waiting|
    && (forall j :: 0 <= j < |waiting| ==> waiting[j] < |code|)
    && (forall j :: i <= j < |waiting| ==> stored[waiting[j]] == ToEnd(enc, code, waiting[j]))
    && (forall k :: 0 <= k < |code| ==> stored[k] == stored0[k] || (Waits(code, k, l) && stored[k] == ToEnd(enc, code, k)))
  }

  lemma ResolveOne(enc: Encoding, code: seq<Instr>, waiting: seq<nat>, l: Label, i: nat, stored0: seq<int>, stored: seq<int>)
    requires Resolved(enc, code, waiting, l, i + 1, stored0, stored) && Waits(code, waiting[i], l)
    ensures Resolved(enc, code, waiting, l, i, stored0, stored[waiting[i] := ToEnd(enc, code, waiting[i])])
  {
  }

  lemma ResolvesNone(enc: Encoding, g: Gen, stored: seq<int>, labels: Labels, refs: Waiting, l: Label)
    requires Linked(enc, g, stored, labels, refs) && l in labels
    ensures l in refs && |refs[l]| == |labels[l].forward| && Resolved(enc, g.code, refs[l], l, |refs[l]|, stored, stored)
    ensures forall j :: 0 <= j < |refs[l]| ==> Waits(g.code, refs[l][j], l) && labels[l].forward[j] == OperandAt(enc, g.code, refs[l][j])
  {
    assert LabelOk(enc, g, labels, refs, l);
    forall j | 0 <= j < |refs[l]| ensures refs[l][j] < |g.code| { assert Waits(g.code, refs[l][j], l); }
  }

  /** Binding a label, once all branches that wait for it have been filled in. */
  lemma BindLinks(enc: Encoding, g: Gen, stored0: seq<int>, stored: seq<int>, labels: Labels, refs: Waiting, l: Label)
    requires Linked(enc, g, stored0, labels, refs) && l in labels && l in refs && l !in g.bound
    requires Resolved(enc, g.code, refs[l], l, 0, stored0, stored)
    ensures Linked(enc, Bind(g, l), stored, labels[l := BLabel([], Offset(enc, g.code, |g.code|), g.height)], refs[l := []])
  {
    var h := Bind(g, l);
    var labels', refs' := labels[l := BLabel([], Offset(enc, g.code, |g.code|), g.height)], refs[l := []];
    forall m ensures LabelOk(enc, h, labels', refs', m) {
      assert LabelOk(enc, g, labels, refs, m);
    }
    forall k: nat ensures JumpOk(enc, h, stored, refs', k) {
      assert JumpOk(enc, g, stored0, refs, k);
      if k < |g.code| && g.code[k].Jump? { BoundJump(enc, g, stored0, stored, refs, l, k); }
    }
  }

  lemma BoundJump(enc: Encoding, g: Gen, stored0: seq<int>, stored: seq<int>, refs: Waiting, l: Label, k: nat)
    requires JumpOk(enc, g, stored0, refs, k) && k < |g.code| && g.code[k].Jump? && l in refs && l !in g.bound
    requires Resolved(enc, g.code, refs[l], l, 0, stored0, stored)
    ensures JumpOk(enc, Bind(g, l), stored, refs[l := []], k)
  {
    if g.code[k].to == l {
      var j :| 0 <= j < |refs[l]| && refs[l][j] == k;
      assert stored[refs[l][j]] == ToEnd(enc, g.code, refs[l][j]);
    } else {
      assert !Waits(g.code, k, l);
    }
  }

  lemma StartLinks(enc: Encoding)
    ensures Linked(enc, START, [], map[], map[])
  {
  }

  lemma NewLabelLinks(enc: Encoding, g: Gen, stored: seq<int>, labels: Labels, refs: Waiting)
    requires Linked(enc, g, stored, labels, refs)
    ensures Linked(enc, NewLabels(g, 1), stored, labels[g.next := BLabel([], -1, 0)], refs[g.next := []])
  {
    var h, labels', refs' := NewLabels(g, 1), labels[g.next := BLabel([], -1, 0)], refs[g.next := []];
    forall m ensures LabelOk(enc, h, labels', refs', m) {
      assert LabelOk(enc, g, labels, refs, m);
    }
    forall k: nat ensures JumpOk(enc, h, stored, refs', k) {
      assert JumpOk(enc, g, stored, refs, k);
    }
  }
}
