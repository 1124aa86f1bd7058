/** The writer of line number programs: what it writes, read back, is exactly what it was told. */
module LineWriter {
  import opened ByteStrings
  import opened LineProgram

  /** A file name, which is a pointer and compared as such; the sentinel at index 0 is one too. */
  type File = nat
  const SENTINEL: File := 0

  const MAX_ADDRESS := 0x1_0000_0000_0000_0000
  const MAX_LINE := 0x8000_0000

  /** A line that is an `int`, and so is its distance from the current line. */
  predicate Reachable(curLine: int, line: int) {
    -MAX_LINE <= line < MAX_LINE && -MAX_LINE <= line - curLine < MAX_LINE
  }

  datatype Call = AddLine(file: File, line: int, pc: int) | EndSequence(pc: int)

  /** What the row says: this line of this file starts at this address, or the sequence ends there. */
  ghost predicate Says(names: seq<File>, row: Row, call: Call) {
    && row.address == call.pc && row.column == 0 && row.stmt && !row.block
    && row.end == call.EndSequence?
    && (call.AddLine? ==> 1 <= row.file < |names| && names[row.file] == call.file && row.line == call.line)
  }

  ghost predicate SaysAll(names: seq<File>, rows: seq<Row>, calls: seq<Call>) {
    |rows| == |calls| && forall i :: 0 <= i < |rows| ==> Says(names, rows[i], calls[i])
  }

  ghost predicate NoneTwice(names: seq<File>) {
    forall i, j :: 1 <= i < j < |names| ==> names[i] != names[j]
  }

  class LineInfo {
    var lineprog: Bytes
    var curAddr: int
    var curFile: nat
    var curLine: int
    var names: seq<File>
    /** What has been asked for, and the rows that the program appends. */
    ghost var calls: seq<Call>
    ghost var rows: seq<Row>

    /** The registers of the reader after the program so far. */
    ghost function Reader(): (r: Registers) reads this {
      Registers(curAddr, if curFile == 0 then 1 else curFile, curLine, 0, true, false)
    }

    ghost predicate Tracks() reads this {
      Does(INITIAL, lineprog, rows, Reader())
    }

    ghost predicate InRange() reads this {
      0 <= curAddr < MAX_ADDRESS && -MAX_LINE <= curLine < MAX_LINE
    }

    ghost predicate Filed() reads this {
      curFile < |names| && names[0] == SENTINEL && NoneTwice(names)
    }

    ghost predicate Valid() reads this {
      Tracks() && InRange() && Filed() && SaysAll(names, rows, calls)
    }

    constructor ()
      ensures Valid() && calls == [] && curAddr == 0 && curFile == 0 && curLine == 1
    {
      lineprog, curAddr, curFile, curLine, names := [], 0, 0, 1, [SENTINEL];
      calls, rows := [], [];
      new;
      DoesNothing(INITIAL);
    }

    /** Write code that takes the reader to registers `b`. */
    method Append(code: Bytes, ghost more: seq<Row>, ghost b: Registers)
      requires Tracks() && Does(Reader(), code, more, b)
      modifies this`lineprog, this`rows
      ensures lineprog == old(lineprog) + code && rows == old(rows) + more
      ensures Does(INITIAL, lineprog, rows, b)
    {
      DoesThen(INITIAL, lineprog, rows, Reader(), code, more, b);
      lineprog, rows := lineprog + code, rows + more;
    }

    /** Not exact: a short instruction may leave some of the way. */
    method AdvancePc(addr: int, exact: bool)
      requires Tracks() && InRange() && curAddr <= addr < MAX_ADDRESS
      modifies this`lineprog, this`rows, this`curAddr
      ensures Tracks() && InRange() && old(curAddr) <= curAddr <= addr && rows == old(rows)
      ensures exact || addr - old(curAddr) >= 2 * CONST_PC_INC ==> curAddr == addr
      ensures addr - old(curAddr) >= CONST_PC_INC ==> addr - curAddr < CONST_PC_INC
    {
      var delta := addr - curAddr;
      if CONST_PC_INC <= delta < 2 * CONST_PC_INC && (!exact || CONST_PC_INC == delta) {
        var code: Bytes := [CONST_ADD_PC];
        ghost var there := Reader().(address := curAddr + CONST_PC_INC);
        DoesConstAddPc(Reader(), code, there);
        Append(code, [], there);
        curAddr := curAddr + CONST_PC_INC;
        return;
      }
      var code: Bytes := [ADVANCE_PC] + Unsigned(delta);
      ghost var there := Reader().(address := addr);
      DoesAdvancePc(Reader(), delta, code, there);
      Append(code, [], there);
      curAddr := addr;
    }

    method AdvanceLine(line: int)
      requires Tracks() && InRange() && Reachable(curLine, line)
      modifies this`lineprog, this`rows, this`curLine
      ensures Tracks() && InRange() && curLine == line && rows == old(rows)
    {
      var delta := line - curLine;
      var code := WriteVarint([ADVANCE_LINE], delta);
      ghost var there := Reader().(line := line);
      DoesAdvanceLine(Reader(), delta, code, there);
      Append(code, [], there);
      curLine := line;
    }

    method SetFile(file: File)
      requires Tracks() && Filed() && (curFile == 0 ==> file != SENTINEL)
      modifies this`lineprog, this`rows, this`curFile, this`names
      ensures Tracks() && Filed() && curFile > 0 && names[curFile] == file && rows == old(rows)
      ensures names == old(names) || (names == old(names) + [file] && file !in old(names)[1..])
    {
      if file == names[curFile] {
        return;
      }
      var i := |names| - 1;
      while i > 0 && file != names[i]
        invariant 0 <= i < |names|
        invariant forall j :: i < j < |names| ==> names[j] != file
      {
        i := i - 1;
      }
      if i == 0 {
        names := names + [file];
        i := |names| - 1;
      }
      var code: Bytes := [SET_FILE] + Unsigned(i);
      ghost var there := Reader().(file := i);
      DoesSetFile(Reader(), i, code, there);
      Append(code, [], there);
      curFile := i;
    }

    /** Instructions to get to the line and the address, the last of which appends the row. */
    method AdvanceTo(line: int, addr: int)
      requires Tracks() && InRange() && Reachable(curLine, line) && curAddr <= addr < MAX_ADDRESS
      modifies this`lineprog, this`curAddr, this`curLine, this`rows
      ensures Tracks() && InRange() && curLine == line && curAddr == addr
      ensures rows == old(rows) + [RowOf(Reader(), false)]
    {
      while true
        invariant Tracks() && InRange() && Reachable(curLine, line) && curAddr <= addr && rows == old(rows)
        decreases if 0 <= line - curLine < LINE_RANGE then 0 else 1, addr - curAddr
      {
        if line == curLine && addr == curAddr {
          DoesCopy(Reader());
          Append([COPY], [RowOf(Reader(), false)], Reader());
          break;
        }
        var lineDelta := line - curLine - LINE_BASE;
        if 0 <= lineDelta < LINE_RANGE {
          var pcDelta := addr - curAddr;
          if pcDelta <= CONST_PC_INC {
            var opcode := lineDelta + LINE_RANGE * pcDelta + OPCODE_BASE;
            if opcode <= 255 {
              ghost var there := Reader().(address := addr, line := line);
              SpecialOpcode(lineDelta, pcDelta);
              DoesSpecial(Reader(), opcode, there);
              Append([opcode], [RowOf(there, false)], there);
              break;
            }
          }
          AdvancePc(addr, false);
          continue;
        }
        AdvanceLine(line);
      }
      curAddr, curLine := addr, line;
    }

    method AddLine(file: File, line: int, addr: int)
      requires Valid() && Reachable(curLine, line) && curAddr <= addr < MAX_ADDRESS && (curFile == 0 ==> file != SENTINEL)
      modifies this
      ensures Valid() && curAddr == addr && curFile > 0 && curLine == line && calls == old(calls) + [Call.AddLine(file, line, addr)]
    {
      SetFile(file);
      AdvanceTo(line, addr);
      SaysMore(old(names), names, old(rows), calls, rows[|rows| - 1], Call.AddLine(file, line, addr));
      calls := calls + [Call.AddLine(file, line, addr)];
    }

    method EndLineSequence(pc: int)
      requires Valid() && curAddr <= pc < MAX_ADDRESS
      modifies this
      ensures Valid() && curAddr == 0 && curFile == 0 && curLine == 1 && calls == old(calls) + [EndSequence(pc)]
    {
      AdvancePc(pc, true);
      DoesEndSequence(Reader());
      Append([0, 1, END_SEQUENCE], [RowOf(Reader(), true)], INITIAL);
      SaysMore(names, names, old(rows), calls, rows[|rows| - 1], EndSequence(pc));
      curAddr, curFile, curLine := 0, 0, 1;
      calls := calls + [EndSequence(pc)];
    }
  }

  lemma SpecialOpcode(line: int, pc: int)
    requires 0 <= line < LINE_RANGE && 0 <= pc
    ensures (line + LINE_RANGE * pc) / LINE_RANGE == pc && (line + LINE_RANGE * pc) % LINE_RANGE == line
  {
  }

  lemma SaysMore(names0: seq<File>, names: seq<File>, rows: seq<Row>, calls: seq<Call>, row: Row, call: Call)
    requires SaysAll(names0, rows, calls) && names0 <= names && Says(names, row, call)
    ensures SaysAll(names, rows + [row], calls + [call])
  {
    forall i | 0 <= i < |rows| ensures Says(names, rows[i], calls[i]) {
      assert Says(names0, rows[i], calls[i]);
    }
  }

  // ---------------------------------------------------------------------------------- whole programs

  /** Where the writer is: in a sequence that has got to `addr` and `line`, with or without lines in it yet. */
  datatype At = At(addr: int, line: int, started: bool)

  function Move(at: At, call: Call): (r: At) {
    if call.AddLine? then At(call.pc, call.line, true) else At(0, 1, false)
  }

  function Where(calls: seq<Call>): (at: At) {
    if calls == [] then At(0, 1, false) else Move(Where(calls[..|calls| - 1]), calls[|calls| - 1])
  }

  /** What callers promise: addresses never decrease within a sequence, and no line is an overflow away from the one before. */
  ghost predicate Proper(at: At, call: Call) {
    && at.addr <= call.pc < MAX_ADDRESS
    && (call.AddLine? ==> Reachable(at.line, call.line) && (!at.started ==> call.file != SENTINEL))
  }

  ghost predicate AllProper(calls: seq<Call>) {
    forall i :: 0 <= i < |calls| ==> Proper(Where(calls[..i]), calls[i])
  }

  /** Any proper calls give a program whose rows, read back, are exactly the calls; no file is listed twice. */
  method Write(calls: seq<Call>) returns (program: Bytes, names: seq<File>)
    requires AllProper(calls)
    ensures Execute(INITIAL, program).Rows? && SaysAll(names, Execute(INITIAL, program).rows, calls)
    ensures NoneTwice(names)
  {
    var w := new LineInfo();
    for i := 0 to |calls|
      invariant w.Valid() && w.calls == calls[..i]
      invariant Where(calls[..i]) == At(w.curAddr, w.curLine, w.curFile > 0)
    {
      assert Proper(Where(calls[..i]), calls[i]);
      assert calls[..i + 1] == calls[..i] + [calls[i]] && calls[..i + 1][..i] == calls[..i];
      match calls[i]
      case AddLine(file, line, pc) => w.AddLine(file, line, pc);
      case EndSequence(pc) => w.EndLineSequence(pc);
    }
    assert calls[..|calls|] == calls;
    DoesAtEnd(INITIAL, w.lineprog, w.rows, w.Reader());
    program, names := w.lineprog, w.names;
  }
}
