/**
 * The line number program in the debug information of a generated ELF file. The writer advances a
 * model of the reader's registers; the reader is the state machine of section 6.2.5 of the DWARF
 * Debugging Information Format, version 2.0, and the number formats are those of its section 7.6.
 */
module LineProgram {
  import opened ByteStrings

  // ---------------------------------------------------------------------- variable-length numbers

  datatype Parsed = Parsed(value: int, rest: Bytes) | Truncated

  function ReadUnsigned(s: Bytes): (r: Parsed)
    ensures r.Parsed? ==> |r.rest| < |s| && r.value >= 0
  {
    if s == [] then Truncated
    else if s[0] < 128 then Parsed(s[0], s[1..])
    else
      var more := ReadUnsigned(s[1..]);
      if more.Truncated? then Truncated else Parsed(s[0] - 128 + 128 * more.value, more.rest)
  }

  function ReadSigned(s: Bytes): (r: Parsed)
    ensures r.Parsed? ==> |r.rest| < |s|
  {
    if s == [] then Truncated
    else if s[0] < 128 then Parsed(var low: int := s[0]; if low < 64 then low else low - 128, s[1..])
    else
      var more := ReadSigned(s[1..]);
      if more.Truncated? then Truncated else Parsed(s[0] - 128 + 128 * more.value, more.rest)
  }

  function Unsigned(v: nat): (s: Bytes) {
    if v < 128 then [v] else [v % 128 + 128] + Unsigned(v / 128)
  }

  function Signed(v: int): (s: Bytes)
    decreases if v < 0 then -v else v
  {
    var low, high := v % 128, v / 128;
    if (high == 0 && low < 64) || (high == -1 && low >= 64) then [low]
    else
      assert v != 0 && v != -1;
      [low + 128] + Signed(high)
  }

  lemma {:induction false} UnsignedRoundTrip(v: nat, rest: Bytes)
    ensures ReadUnsigned(Unsigned(v) + rest) == Parsed(v, rest)
  {
    var s := Unsigned(v) + rest;
    if v < 128 {
      assert s[1..] == rest;
    } else {
      assert s[1..] == Unsigned(v / 128) + rest;
      UnsignedRoundTrip(v / 128, rest);
    }
  }

  lemma {:induction false} SignedRoundTrip(v: int, rest: Bytes)
    ensures ReadSigned(Signed(v) + rest) == Parsed(v, rest)
    decreases if v < 0 then -v else v
  {
    var s, low, high := Signed(v) + rest, v % 128, v / 128;
    if (high == 0 && low < 64) || (high == -1 && low >= 64) {
      assert s[1..] == rest;
    } else {
      assert s[1..] == Signed(high) + rest;
      SignedRoundTrip(high, rest);
    }
  }

  /** The loop of `WriteVarint`. */
  method WriteVarint(buf0: Bytes, value0: int) returns (buf: Bytes)
    ensures buf == buf0 + Signed(value0)
  {
    var value := value0;
    buf := buf0;
    while true
      invariant buf0 + Signed(value0) == buf + Signed(value)
      decreases if value < 0 then -value else value
    {
      var low: byte := value % 128;
      var before := value;
      value := value / 128;
      if (value == 0 && low < 64) || (value == -1 && low >= 64) {
        buf := buf + [low];
        break;
      }
      assert before != 0 && before != -1;
      assert buf + Signed(before) == buf + [low + 128] + Signed(value);
      buf := buf + [low + 128];
    }
  }

  // ------------------------------------------------------------------------------- the reader

  const MIN_INSTRUCTION_LENGTH := 1
  const LINE_BASE := 0
  const LINE_RANGE := 10
  const OPCODE_BASE := 10
  const CONST_PC_INC := (255 - OPCODE_BASE) / LINE_RANGE * MIN_INSTRUCTION_LENGTH

  const COPY: byte := 1
  const ADVANCE_PC: byte := 2
  const ADVANCE_LINE: byte := 3
  const SET_FILE: byte := 4
  const SET_COLUMN: byte := 5
  const NEGATE_STMT: byte := 6
  const SET_BASIC_BLOCK: byte := 7
  const CONST_ADD_PC: byte := 8
  const FIXED_ADVANCE_PC: byte := 9
  const END_SEQUENCE: byte := 1
  const SET_ADDRESS: byte := 2

  datatype Registers = Registers(address: int, file: int, line: int, column: int, stmt: bool, block: bool)

  const INITIAL := Registers(0, 1, 1, 0, true, false)

  datatype Row = Row(address: int, file: int, line: int, column: int, stmt: bool, block: bool, end: bool)

  function RowOf(r: Registers, end: bool): (row: Row) {
    Row(r.address, r.file, r.line, r.column, r.stmt, r.block, end)
  }

  function LittleEndian(s: Bytes): (v: nat) {
    if s == [] then 0 else s[0] + 256 * LittleEndian(s[1..])
  }

  /** What one instruction does: new registers, the rows it appends, and the bytes after it. */
  datatype Outcome = Next(regs: Registers, rows: seq<Row>, rest: Bytes) | Malformed

  function WithOperand(p: Parsed, f: int -> Registers): (r: Outcome) {
    if p.Truncated? then Malformed else Next(f(p.value), [], p.rest)
  }

  function Step(r: Registers, s: Bytes): (o: Outcome)
    requires s != []
    ensures o.Next? ==> |o.rest| < |s|
  {
    var op, s := s[0], s[1..];
    if op >= OPCODE_BASE then
      var adjusted := op - OPCODE_BASE;
      var r := r.(address := r.address + adjusted / LINE_RANGE * MIN_INSTRUCTION_LENGTH, line := r.line + LINE_BASE + adjusted % LINE_RANGE);
      Next(r.(block := false), [RowOf(r, false)], s)
    else if op == COPY then Next(r.(block := false), [RowOf(r, false)], s)
    else if op == ADVANCE_PC then WithOperand(ReadUnsigned(s), v => r.(address := r.address + v * MIN_INSTRUCTION_LENGTH))
    else if op == ADVANCE_LINE then WithOperand(ReadSigned(s), v => r.(line := r.line + v))
    else if op == SET_FILE then WithOperand(ReadUnsigned(s), v => r.(file := v))
    else if op == SET_COLUMN then WithOperand(ReadUnsigned(s), v => r.(column := v))
    else if op == NEGATE_STMT then Next(r.(stmt := !r.stmt), [], s)
    else if op == SET_BASIC_BLOCK then Next(r.(block := true), [], s)
    else if op == CONST_ADD_PC then Next(r.(address := r.address + CONST_PC_INC), [], s)
    else if op == FIXED_ADVANCE_PC then
      if |s| < 2 then Malformed else Next(r.(address := r.address + LittleEndian(s[..2])), [], s[2..])
    else Extended(r, ReadUnsigned(s))
  }

  /** An extended instruction: its length, its opcode, and operands that are skipped when not understood. */
  function Extended(r: Registers, length: Parsed): (o: Outcome)
    ensures o.Next? ==> length.Parsed? && |o.rest| < |length.rest|
  {
    if length.Truncated? || length.value < 1 || length.value > |length.rest| then Malformed
    else
      var op, operand, rest := length.rest[0], length.rest[1..length.value], length.rest[length.value..];
      if op == END_SEQUENCE then Next(INITIAL, [RowOf(r, true)], rest)
      else if op == SET_ADDRESS then Next(r.(address := LittleEndian(operand)), [], rest)
      else Next(r, [], rest)
  }

  /** The rows that a program appends, from given registers to the end of the program. */
  function Execute(r: Registers, s: Bytes): (rows: Table)
    decreases |s|
  {
    if s == [] then Rows([])
    else
      var o := Step(r, s);
      if o.Malformed? then Bad else After(o.rows, Execute(o.regs, o.rest))
  }

  datatype Table = Rows(rows: seq<Row>) | Bad

  function After(rows: seq<Row>, t: Table): (r: Table) {
    if t.Bad? then Bad else Rows(rows + t.rows)
  }

  /** Whatever follows, the code first appends `rows` and takes the registers from `a` to `b`. */
  ghost predicate Does(a: Registers, code: Bytes, rows: seq<Row>, b: Registers) {
    forall rest: Bytes {:trigger Execute(b, rest)} :: Execute(a, code + rest) == After(rows, Execute(b, rest))
  }

  lemma DoesNothing(a: Registers)
    ensures Does(a, [], [], a)
  {
    forall rest: Bytes ensures Execute(a, [] + rest) == After([], Execute(a, rest)) {
      assert [] + rest == rest;
      if Execute(a, rest).Rows? { assert [] + Execute(a, rest).rows == Execute(a, rest).rows; }
    }
  }

  lemma DoesThen(a: Registers, code1: Bytes, rows1: seq<Row>, b: Registers, code2: Bytes, rows2: seq<Row>, c: Registers)
    requires Does(a, code1, rows1, b) && Does(b, code2, rows2, c)
    ensures Does(a, code1 + code2, rows1 + rows2, c)
  {
    forall rest: Bytes ensures Execute(a, code1 + code2 + rest) == After(rows1 + rows2, Execute(c, rest)) {
      assert code1 + code2 + rest == code1 + (code2 + rest);
      assert Execute(b, code2 + rest) == After(rows2, Execute(c, rest));
      if Execute(c, rest).Rows? {
        assert rows1 + rows2 + Execute(c, rest).rows == rows1 + (rows2 + Execute(c, rest).rows);
      }
    }
  }

  lemma DoesAtEnd(a: Registers, code: Bytes, rows: seq<Row>, b: Registers)
    requires Does(a, code, rows, b)
    ensures Execute(a, code) == Rows(rows)
  {
    assert code + [] == code && rows + [] == rows;
    assert Execute(b, []) == Rows([]);
  }

  /** One instruction, if it is read as such whatever follows. */
  lemma DoesStep(a: Registers, code: Bytes, rows: seq<Row>, b: Registers)
    requires code != [] && forall rest: Bytes :: Step(a, code + rest) == Next(b, rows, rest)
    ensures Does(a, code, rows, b)
  {
    forall rest: Bytes ensures Execute(a, code + rest) == After(rows, Execute(b, rest)) {
      assert Step(a, code + rest) == Next(b, rows, rest);
    }
  }

  lemma DoesCopy(a: Registers)
    requires !a.block
    ensures Does(a, [COPY], [RowOf(a, false)], a)
  {
    DoesStep(a, [COPY], [RowOf(a, false)], a);
  }

  lemma DoesSpecial(a: Registers, op: byte, b: Registers)
    requires OPCODE_BASE <= op && !a.block
    requires b == a.(address := a.address + (op - OPCODE_BASE) / LINE_RANGE, line := a.line + (op - OPCODE_BASE) % LINE_RANGE)
    ensures Does(a, [op], [RowOf(b, false)], b)
  {
    DoesStep(a, [op], [RowOf(b, false)], b);
  }

  lemma DoesConstAddPc(a: Registers, code: Bytes, b: Registers)
    requires code == [CONST_ADD_PC] && b == a.(address := a.address + CONST_PC_INC)
    ensures Does(a, code, [], b)
  {
    DoesStep(a, code, [], b);
  }

  lemma Operand(op: byte, operand: Bytes, rest: Bytes)
    ensures ([op] + operand + rest)[0] == op && ([op] + operand + rest)[1..] == operand + rest
  {
  }

  lemma DoesAdvancePc(a: Registers, delta: nat, code: Bytes, b: Registers)
    requires code == [ADVANCE_PC] + Unsigned(delta) && b == a.(address := a.address + delta)
    ensures Does(a, code, [], b)
  {
    forall rest: Bytes ensures Step(a, code + rest) == Next(b, [], rest) {
      Operand(ADVANCE_PC, Unsigned(delta), rest);
      UnsignedRoundTrip(delta, rest);
    }
    DoesStep(a, code, [], b);
  }

  lemma DoesSetFile(a: Registers, file: nat, code: Bytes, b: Registers)
    requires code == [SET_FILE] + Unsigned(file) && b == a.(file := file)
    ensures Does(a, code, [], b)
  {
    forall rest: Bytes ensures Step(a, code + rest) == Next(b, [], rest) {
      Operand(SET_FILE, Unsigned(file), rest);
      UnsignedRoundTrip(file, rest);
    }
    DoesStep(a, code, [], b);
  }

  lemma DoesAdvanceLine(a: Registers, delta: int, code: Bytes, b: Registers)
    requires code == [ADVANCE_LINE] + Signed(delta) && b == a.(line := a.line + delta)
    ensures Does(a, code, [], b)
  {
    forall rest: Bytes ensures Step(a, code + rest) == Next(b, [], rest) {
      Operand(ADVANCE_LINE, Signed(delta), rest);
      SignedRoundTrip(delta, rest);
    }
    DoesStep(a, code, [], b);
  }

  lemma DoesEndSequence(a: Registers)
    ensures Does(a, [0, 1, END_SEQUENCE], [RowOf(a, true)], INITIAL)
  {
    forall rest: Bytes ensures Step(a, [0, 1, END_SEQUENCE] + rest) == Next(INITIAL, [RowOf(a, true)], rest) {
      var s := [0, 1, END_SEQUENCE] + rest;
      assert s[1..][0] == 1 && s[1..][1..] == [END_SEQUENCE] + rest;
      assert ReadUnsigned(s[1..]) == Parsed(1, [END_SEQUENCE] + rest);
      assert ([END_SEQUENCE] + rest)[1..] == rest;
    }
    DoesStep(a, [0, 1, END_SEQUENCE], [RowOf(a, true)], INITIAL);
  }
}
