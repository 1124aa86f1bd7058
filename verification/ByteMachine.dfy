/**
 * The interpreter on bytes. Its program counter is an offset into the code buffer, instructions are read
 * from there, and branches add the offset they hold. It does what the machine on instructions does.
 */
module ByteMachine {
  import opened Sealing
  import opened ByteStrings
  import opened Bytecode
  import opened Generator
  import opened GeneratorOrder
  import opened GeneratedStatements
  import opened CodeBuffer
  import opened CodeGen

  // ---------------------------------------------------------------------------------- the machine

  /** What is read at an offset: an instruction, without the target of a branch, and its size. */
  datatype Fetched = Fetched(i: Instr, size: nat) | NoInstr

  type Fetch = Bytes -> Fetched

  /** Where a branch goes is not part of its opcode. */
  function Opcode(i: Instr): (r: Instr) {
    if i.Jump? then Jump(i.op, 0) else i
  }

  /** An encoding from which the instructions of a program can be read back, whatever follows them. */
  ghost predicate Decodable(enc: Encoding, fetch: Fetch, code: seq<Instr>) {
    forall i, rest {:trigger ReadsBack(enc, fetch, i, rest)} :: i in code ==> ReadsBack(enc, fetch, i, rest)
  }

  ghost predicate ReadsBack(enc: Encoding, fetch: Fetch, i: Instr, rest: Bytes) {
    fetch(enc(i) + rest) == Fetched(Opcode(i), |enc(i)|)
  }

  function ByteStep(fetch: Fetch, bytes: Bytes, c: Config): (e: Effect) {
    if c.pc >= |bytes| then Stuck
    else
      var f := fetch(bytes[c.pc..]);
      if f.NoInstr? then Stuck
      else if f.i.Jump? then Branch(f.i.op, bytes, c, c.pc + f.size)
      else At(Step(Program([f.i], _ => 0), c.(pc := 0)), c.pc + f.size)
  }

  /** The operand is at `at`; the offset is counted from its end. */
  function Branch(op: BranchOp, bytes: Bytes, c: Config, at: nat): (e: Effect) {
    var next := at + OFFSET_SIZE;
    if next > |bytes| then Stuck
    else if !Taken(op, c.cc) then Next(c.(pc := next))
    else
      var target := next + AsInt32(bytes[at..next]);
      if target < 0 then Stuck else Next(c.(pc := target))
  }

  function At(e: Effect, pc: nat): (r: Effect) {
    if e.Next? then Next(e.c.(pc := pc)) else e
  }

  ghost predicate ByteSteps(fetch: Fetch, bytes: Bytes, c: Config, n: nat, d: Config)
    decreases n
  {
    if n == 0 then c == d else var e := ByteStep(fetch, bytes, c); e.Next? && ByteSteps(fetch, bytes, e.c, n - 1, d)
  }

  ghost predicate ByteHaltsAfter(fetch: Fetch, bytes: Bytes, c: Config, n: nat, d: Config, m': Store) {
    ByteSteps(fetch, bytes, c, n, d) && ByteStep(fetch, bytes, d) == Halt(m')
  }

  /** The bytes halt with variables `m'`. */
  ghost predicate BytesHalt(fetch: Fetch, bytes: Bytes, c: Config, m': Store) {
    exists n, d :: ByteHaltsAfter(fetch, bytes, c, n, d, m')
  }

  // -------------------------------------------------------------------------------- the same steps

  /** The program, with its bytes laid out and its branches leading home. */
  ghost predicate LaidOutIn(enc: Encoding, bytes: Bytes, r: Gen, p: Program) {
    forall u {:trigger Key(StorageFacts, u)} :: Key(StorageFacts, u) ==>
      && p.code == r.code && |bytes| == Offset(enc, r.code, |r.code|)
      && (forall k :: 0 <= k < |r.code| ==> HasBytes(bytes, Offset(enc, r.code, k), enc(r.code[k])))
      && (forall k :: 0 <= k < |r.code| && r.code[k].Jump? ==>
            GoesHome(enc, bytes, r, k) && p.place(r.code[k].to) == r.bound[r.code[k].to])
  }

  lemma InstrAt(enc: Encoding, bytes: Bytes, r: Gen, p: Program, k: nat)
    requires LaidOutIn(enc, bytes, r, p) && k <= |p.code|
    ensures |bytes| == Offset(enc, p.code, |p.code|)
    ensures k < |p.code| ==> HasBytes(bytes, Offset(enc, p.code, k), enc(p.code[k]))
  {
    assert Key(StorageFacts, 0);
  }

  /** The operand at `at` leads to `target`. */
  ghost predicate LeadsTo(bytes: Bytes, at: nat, target: nat) {
    forall u {:trigger Key(EmissionFacts, u)} :: Key(EmissionFacts, u) ==>
      at + OFFSET_SIZE <= |bytes| && at + OFFSET_SIZE + AsInt32(bytes[at..at + OFFSET_SIZE]) == target
  }

  lemma HomeLeads(enc: Encoding, bytes: Bytes, r: Gen, k: nat)
    requires k < |r.code| && r.code[k].Jump? && GoesHome(enc, bytes, r, k)
    ensures var l := r.code[k].to; r.bound[l] <= |r.code| && LeadsTo(bytes, OperandAt(enc, r.code, k), Offset(enc, r.code, r.bound[l]))
  {
  }

  lemma CodeOf(enc: Encoding, bytes: Bytes, r: Gen, p: Program, k: nat)
    requires LaidOutIn(enc, bytes, r, p) && k < |p.code| && p.code[k].Jump?
    ensures r.code == p.code && GoesHome(enc, bytes, r, k) && p.place(p.code[k].to) == r.bound[r.code[k].to]
  {
    assert Key(StorageFacts, 0);
  }

  lemma BranchAt(enc: Encoding, bytes: Bytes, r: Gen, p: Program, k: nat, i: Instr, at: nat)
    requires LaidOutIn(enc, bytes, r, p) && k < |p.code| && p.code[k] == i && i.Jump? && at == Offset(enc, p.code, k)
    ensures p.place(i.to) <= |p.code| && LeadsTo(bytes, at + |enc(i)|, Offset(enc, p.code, p.place(i.to)))
  {
    CodeOf(enc, bytes, r, p, k);
    HomeLeads(enc, bytes, r, k);
    assert OperandAt(enc, r.code, k) == at + |enc(i)|;
  }

  lemma TakesBranch(op: BranchOp, bytes: Bytes, b: Config, at: nat, target: nat)
    requires LeadsTo(bytes, at, target)
    ensures Branch(op, bytes, b, at) == Next(b.(pc := if Taken(op, b.cc) then target else at + OFFSET_SIZE))
  {
    assert Key(EmissionFacts, 0);
  }

  /** A state of the machine on instructions, with its place in the bytes. */
  function Placed(enc: Encoding, p: Program, c: Config): (b: Config)
    requires c.pc <= |p.code|
  {
    c.(pc := Offset(enc, p.code, c.pc))
  }

  ghost predicate SameEffect(enc: Encoding, p: Program, e: Effect, b: Effect) {
    match e
    case Next(c) => c.pc <= |p.code| && b == Next(Placed(enc, p, c))
    case _ => b == e
  }

  /** The next step is the same on both machines. */
  ghost predicate Alike(enc: Encoding, fetch: Fetch, bytes: Bytes, p: Program, c: Config) {
    forall k {:trigger Key(MachineFacts, k)} :: Key(MachineFacts, k) ==>
      c.pc <= |p.code| && SameEffect(enc, p, Step(p, c), ByteStep(fetch, bytes, Placed(enc, p, c)))
  }

  lemma BothStuck(enc: Encoding, fetch: Fetch, bytes: Bytes, p: Program, c: Config)
    requires c.pc == |p.code| && |bytes| == Offset(enc, p.code, |p.code|)
    ensures Alike(enc, fetch, bytes, p, c)
  {
  }

  /** An instruction that is no branch does the same wherever it stands. */
  lemma SameAlone(p: Program, c: Config, i: Instr)
    requires c.pc < |p.code| && p.code[c.pc] == i && !i.Jump?
    ensures At(Step(p, c), 0) == At(Step(Program([i], _ => 0), c.(pc := 0)), 0)
    ensures Step(p, c).Next? ==> Step(p, c).c.pc == c.pc + 1
  {
  }

  lemma ReadAt(enc: Encoding, fetch: Fetch, bytes: Bytes, code: seq<Instr>, at: nat, i: Instr)
    requires Decodable(enc, fetch, code) && i in code && HasBytes(bytes, at, enc(i))
    ensures fetch(bytes[at..]) == Fetched(Opcode(i), |enc(i)|)
  {
    assert bytes[at..] == enc(i) + bytes[at + |enc(i)|..];
    assert ReadsBack(enc, fetch, i, bytes[at + |enc(i)|..]);
  }

  lemma OffsetInside(enc: Encoding, code: seq<Instr>, k: nat)
    requires Proper(enc) && k < |code|
    ensures Offset(enc, code, k) < Offset(enc, code, |code|)
  {
    OffsetGrows(enc, code, k + 1, |code|);
    assert |enc(code[k])| >= 1;
  }

  lemma ReadsInstr(enc: Encoding, fetch: Fetch, bytes: Bytes, r: Gen, p: Program, k: nat, i: Instr, at: nat)
    requires Proper(enc) && Decodable(enc, fetch, p.code) && LaidOutIn(enc, bytes, r, p)
    requires k < |p.code| && i == p.code[k] && at == Offset(enc, p.code, k)
    ensures at < |bytes| && fetch(bytes[at..]) == Fetched(Opcode(i), |enc(i)|)
  {
    InstrAt(enc, bytes, r, p, k);
    OffsetInside(enc, p.code, k);
    ReadAt(enc, fetch, bytes, p.code, at, i);
  }

  lemma SameStep(enc: Encoding, fetch: Fetch, bytes: Bytes, r: Gen, p: Program, c: Config)
    requires Proper(enc) && Decodable(enc, fetch, p.code) && LaidOutIn(enc, bytes, r, p) && c.pc <= |p.code|
    ensures Alike(enc, fetch, bytes, p, c)
  {
    if c.pc < |p.code| {
      var i, at := p.code[c.pc], Offset(enc, p.code, c.pc);
      ReadsInstr(enc, fetch, bytes, r, p, c.pc, i, at);
      if i.Jump? {
        BranchAt(enc, bytes, r, p, c.pc, i, at);
        SameBranch(enc, fetch, bytes, p, c, i, at);
      } else {
        SameOther(enc, fetch, bytes, p, c, i, at);
      }
    } else {
      InstrAt(enc, bytes, r, p, c.pc);
      BothStuck(enc, fetch, bytes, p, c);
    }
  }

  lemma SameOther(enc: Encoding, fetch: Fetch, bytes: Bytes, p: Program, c: Config, i: Instr, at: nat)
    requires c.pc < |p.code| && p.code[c.pc] == i && !i.Jump? && at == Offset(enc, p.code, c.pc) < |bytes|
    requires fetch(bytes[at..]) == Fetched(i, |enc(i)|)
    ensures Alike(enc, fetch, bytes, p, c)
  {
    SameAlone(p, c, i);
    var b := Placed(enc, p, c);
    assert b.(pc := 0) == c.(pc := 0);
  }

  lemma SameBranch(enc: Encoding, fetch: Fetch, bytes: Bytes, p: Program, c: Config, i: Instr, at: nat)
    requires c.pc < |p.code| && i == p.code[c.pc] && i.Jump? && at == Offset(enc, p.code, c.pc) < |bytes|
    requires fetch(bytes[at..]) == Fetched(Opcode(i), |enc(i)|)
    requires p.place(i.to) <= |p.code| && LeadsTo(bytes, at + |enc(i)|, Offset(enc, p.code, p.place(i.to)))
    ensures Alike(enc, fetch, bytes, p, c)
  {
    TakesBranch(i.op, bytes, Placed(enc, p, c), at + |enc(i)|, Offset(enc, p.code, p.place(i.to)));
    assert Offset(enc, p.code, c.pc + 1) == at + |enc(i)| + OFFSET_SIZE;
  }

  // A step to a given state, kept behind a key.

  ghost predicate Goes(p: Program, c: Config, e: Config) {
    forall k {:trigger Key(MachineFacts, k)} :: Key(MachineFacts, k) ==> Step(p, c) == Next(e)
  }

  ghost predicate ByteGoes(fetch: Fetch, bytes: Bytes, c: Config, e: Config) {
    forall k {:trigger Key(MachineFacts, k)} :: Key(MachineFacts, k) ==> ByteStep(fetch, bytes, c) == Next(e)
  }

  lemma FirstStep(p: Program, c: Config, n: nat, d: Config) returns (e: Config)
    requires n > 0 && Steps(p, c, n, d)
    ensures Goes(p, c, e) && Steps(p, e, n - 1, d)
  {
    e := Step(p, c).c;
  }

  lemma StepFirst(p: Program, c: Config, e: Config, n: nat, d: Config)
    requires n > 0 && Goes(p, c, e) && Steps(p, e, n - 1, d)
    ensures Steps(p, c, n, d)
  {
    assert Key(MachineFacts, 0);
  }

  lemma FirstByteStep(fetch: Fetch, bytes: Bytes, c: Config, n: nat, d: Config) returns (e: Config)
    requires n > 0 && ByteSteps(fetch, bytes, c, n, d)
    ensures ByteGoes(fetch, bytes, c, e) && ByteSteps(fetch, bytes, e, n - 1, d)
  {
    e := ByteStep(fetch, bytes, c).c;
  }

  lemma ByteStepFirst(fetch: Fetch, bytes: Bytes, c: Config, e: Config, n: nat, d: Config)
    requires n > 0 && ByteGoes(fetch, bytes, c, e) && ByteSteps(fetch, bytes, e, n - 1, d)
    ensures ByteSteps(fetch, bytes, c, n, d)
  {
    assert Key(MachineFacts, 0);
  }

  lemma GoesAlike(enc: Encoding, fetch: Fetch, bytes: Bytes, r: Gen, p: Program, c: Config, e: Config)
    requires Proper(enc) && Decodable(enc, fetch, p.code) && LaidOutIn(enc, bytes, r, p) && c.pc <= |p.code| && Goes(p, c, e)
    ensures e.pc <= |p.code| && ByteGoes(fetch, bytes, Placed(enc, p, c), Placed(enc, p, e))
  {
    assert Key(MachineFacts, 0);
    SameStep(enc, fetch, bytes, r, p, c);
  }

  lemma GoesBehind(enc: Encoding, fetch: Fetch, bytes: Bytes, r: Gen, p: Program, c: Config, b: Config) returns (e: Config)
    requires Proper(enc) && Decodable(enc, fetch, p.code) && LaidOutIn(enc, bytes, r, p) && c.pc <= |p.code| && ByteGoes(fetch, bytes, Placed(enc, p, c), b)
    ensures e.pc <= |p.code| && Goes(p, c, e) && b == Placed(enc, p, e)
  {
    assert Key(MachineFacts, 0);
    SameStep(enc, fetch, bytes, r, p, c);
    e := Step(p, c).c;
  }

  /** As many steps lead to the same state, in its place. */
  lemma {:induction false} SameSteps(enc: Encoding, fetch: Fetch, bytes: Bytes, r: Gen, p: Program, c: Config, n: nat, d: Config)
    requires Proper(enc) && Decodable(enc, fetch, p.code) && LaidOutIn(enc, bytes, r, p) && c.pc <= |p.code| && Steps(p, c, n, d)
    ensures d.pc <= |p.code| && ByteSteps(fetch, bytes, Placed(enc, p, c), n, Placed(enc, p, d))
    decreases n
  {
    if n > 0 {
      var e := FirstStep(p, c, n, d);
      GoesAlike(enc, fetch, bytes, r, p, c, e);
      SameSteps(enc, fetch, bytes, r, p, e, n - 1, d);
      ByteStepFirst(fetch, bytes, Placed(enc, p, c), Placed(enc, p, e), n, Placed(enc, p, d));
    }
  }

  lemma NoStep(fetch: Fetch, bytes: Bytes, p: Program, c: Config, b: Config, d: Config)
    requires ByteSteps(fetch, bytes, b, 0, d)
    ensures d == b && Steps(p, c, 0, c)
  {
  }

  /** And every run on bytes is that of a run on instructions. */
  lemma {:induction false} StepsBehind(enc: Encoding, fetch: Fetch, bytes: Bytes, r: Gen, p: Program, c: Config, n: nat, b: Config) returns (d: Config)
    requires Proper(enc) && Decodable(enc, fetch, p.code) && LaidOutIn(enc, bytes, r, p) && c.pc <= |p.code|
    requires ByteSteps(fetch, bytes, Placed(enc, p, c), n, b)
    ensures d.pc <= |p.code| && Steps(p, c, n, d) && b == Placed(enc, p, d)
    decreases n
  {
    if n == 0 {
      d := c;
      NoStep(fetch, bytes, p, c, Placed(enc, p, c), b);
    } else {
      var b1 := FirstByteStep(fetch, bytes, Placed(enc, p, c), n, b);
      var e := GoesBehind(enc, fetch, bytes, r, p, c, b1);
      d := StepsBehind(enc, fetch, bytes, r, p, e, n - 1, b);
      StepFirst(p, c, e, n, d);
    }
  }

  lemma SameHalt(enc: Encoding, fetch: Fetch, bytes: Bytes, r: Gen, p: Program, c: Config, m': Store)
    requires Proper(enc) && Decodable(enc, fetch, p.code) && LaidOutIn(enc, bytes, r, p) && c.pc <= |p.code|
    ensures BytesHalt(fetch, bytes, Placed(enc, p, c), m') <==> Halts(p, c, m')
  {
    if Halts(p, c, m') {
      var n: nat, d :| HaltsAfter(p, c, n, d, m');
      SameSteps(enc, fetch, bytes, r, p, c, n, d);
      SameStep(enc, fetch, bytes, r, p, d);
      assert Key(MachineFacts, 0);
      assert ByteHaltsAfter(fetch, bytes, Placed(enc, p, c), n, Placed(enc, p, d), m');
    }
    if BytesHalt(fetch, bytes, Placed(enc, p, c), m') {
      var n: nat, b :| ByteHaltsAfter(fetch, bytes, Placed(enc, p, c), n, b, m');
      var d := StepsBehind(enc, fetch, bytes, r, p, c, n, b);
      SameStep(enc, fetch, bytes, r, p, d);
      assert Key(MachineFacts, 0);
      assert HaltsAfter(p, c, n, d, m');
    }
  }

  // ----------------------------------------------------------------------------- from source to bytes

  lemma BytesMean(body: Stmt, enc: Encoding, fetch: Fetch, bytes: Bytes, m: Store, m': Store)
    requires Typed(body) && JumpsIn(body, false) && Proper(enc) && Decodable(enc, fetch, Generate(body).code)
    requires LaidOutIn(enc, bytes, Generate(body), Assembled(body))
    ensures BytesHalt(fetch, bytes, Started(m), m') <==> Ends(body, m, m')
  {
    SameHalt(enc, fetch, bytes, Generate(body), Assembled(body), Started(m), m');
    SameMeaning(body, m, m');
  }

  /** The bytes of a function body, run on the byte machine, halt with given variables if and only if the body ends with them. */
  method Compile(body: Stmt, enc: Encoding, fetch: Fetch) returns (bytes: Bytes)
    requires Typed(body) && JumpsIn(body, false) && Proper(enc) && Decodable(enc, fetch, Generate(body).code)
    ensures |bytes| < 0x8000_0000 ==>
      forall m, m' :: BytesHalt(fetch, bytes, Started(m), m') <==> Ends(body, m, m')
  {
    bytes := Assemble(body, enc);
    if |bytes| < 0x8000_0000 {
      HomeInProgram(body, enc, bytes);
      forall m, m' ensures BytesHalt(fetch, bytes, Started(m), m') <==> Ends(body, m, m') {
        BytesMean(body, enc, fetch, bytes, m, m');
      }
    }
  }

  lemma HomeInProgram(body: Stmt, enc: Encoding, bytes: Bytes)
    requires var r := Generate(body);
      && |bytes| == Offset(enc, r.code, |r.code|)
      && (forall k :: 0 <= k < |r.code| ==> HasBytes(bytes, Offset(enc, r.code, k), enc(r.code[k])))
      && (forall k :: 0 <= k < |r.code| && r.code[k].Jump? ==> GoesHome(enc, bytes, r, k))
    ensures LaidOutIn(enc, bytes, Generate(body), Assembled(body))
  {
  }
}
