/** The assembler object (Assembler_t) and its routines: the label table with
    FindLabelAddress and AddLabel, the operand classifier ArgumentProcessing, the pass
    TranslateAsmToByteCode that writes the byte code into its buffer and cuts comments off
    the source lines in place, and the two-pass driver AsmCodeToByteCode. Each routine is
    proved to do what the functions of AsmSpec say. */
module Assembler {

  import opened Wrappers
  import opened Commands
  import opened CText
  import opened AsmSpec
  import opened AsmProps
  import opened PassProps

  /** ArgumentProcessing: skip blanks, then try a comment, `%d`, `:label`, `[reg]`, `reg`. */
  method ArgumentProcessing(s: string) returns (a: Argument)
    ensures a == Classify(s)
  {
    var b := 0;
    while b < |s| && IsSpace(s[b])
      invariant 0 <= b <= |s|
      invariant forall k :: 0 <= k < b ==> IsSpace(s[k])
    {
      b := b + 1;
    }
    SkipToEnd(s, 0, b);
    if b == |s| || s[b] == ';' {
      return Argument(Void, -1);
    }
    var number := ScanInt(s);
    if number.Some? {
      return Argument(Number, number.value);
    }
    var w := FirstWord(s);
    if w[0] == ':' {
      return Argument(LabelRef, 0);
    }
    if w[0] == '[' && w[|w| - 1] == ']' {
      var inner := BareRegister(w[1..|w| - 1]);
      if inner.Some? {
        return Argument(Register, inner.value);
      }
    }
    var bare := BareRegister(w);
    if bare.Some? {
      return Argument(Register, bare.value);
    }
    return Argument(Unknown, -1);
  }

  class Assembler {
    /** PUSHM_CMD and POPM_CMD, which the catalogue does not define. */
    const codes: MemCodes
    /** labels[LABELS_NUMBER] */
    const labels: array<LabelEntry>
    var labelsCount: nat
    /** byte_code: the buffer the pass writes, two words per source line. */
    var byteCode: array<int>
    var instructionCnt: nat

    ghost predicate Valid()
      reads this, labels
    {
      && ValidCodes(codes)
      && labels.Length == LABELS_NUMBER
      && labelsCount <= LABELS_NUMBER
      && AddressesValid(labels[..labelsCount])
    }

    /** The label table in use: labels[..labels_count]. */
    ghost function Table(): seq<LabelEntry>
      reads this, labels
      requires labelsCount <= labels.Length
    {
      labels[..labelsCount]
    }

    /** The code emitted so far: byte_code[..instruction_cnt]. */
    ghost function Words(): seq<int>
      reads this, byteCode
      requires instructionCnt <= byteCode.Length
    {
      byteCode[..instructionCnt]
    }

    /** AssemblerCtor: an empty label table whose slots hold empty names at address -1. */
    constructor(x: MemCodes)
      requires ValidCodes(x)
      ensures Valid() && codes == x && Table() == []
      ensures instructionCnt == 0 && byteCode.Length == 0
      ensures forall j :: 0 <= j < labels.Length ==> labels[j] == LabelEntry("", NOT_FOUND)
      ensures fresh(labels) && fresh(byteCode)
    {
      codes := x;
      labels := new LabelEntry[LABELS_NUMBER](_ => LabelEntry("", NOT_FOUND));
      labelsCount := 0;
      byteCode := new int[0];
      instructionCnt := 0;
    }

    /** FindLabelAddress: the address of the first entry named `name`, or NOT_FOUND. */
    method FindLabelAddress(name: string) returns (r: int)
      requires Valid()
      ensures r == Lookup(Table(), name)
      ensures r == NOT_FOUND <==> !Bound(Table(), name)
    {
      ghost var t := Table();
      var i := 0;
      while i < labelsCount
        invariant 0 <= i <= labelsCount
        invariant Lookup(t, name) == Lookup(t[i..], name)
        invariant !Bound(t[..i], name)
      {
        assert labels[i] == t[i];
        LookupStep(t, i, name);
        if labels[i].name == name {
          assert t[i].address >= 0;
          return labels[i].address;
        }
        i := i + 1;
      }
      assert t[..i] == t;
      LookupMiss(t, name);
      return NOT_FOUND;
    }

    /** AddLabel: refuse when the table is full or the name is already defined, otherwise
        store the name, cut to MAX_LABEL_LEN - 1 characters, with its address. */
    method AddLabel(name: string, address: int) returns (r: int)
      requires Valid() && address >= 0
      modifies labels, this`labelsCount
      ensures Valid()
      ensures match Define(old(Table()), name, address)
              case Some(t) => r == SUCCESS_RESULT && Table() == t
              case None => r == FAIL_RESULT && Table() == old(Table())
      ensures forall j :: labelsCount <= j < labels.Length ==> labels[j] == old(labels[j])
    {
      if labelsCount >= LABELS_NUMBER {
        return FAIL_RESULT;
      }
      var found := FindLabelAddress(name);
      if found != NOT_FOUND {
        return FAIL_RESULT;
      }
      labels[labelsCount] := LabelEntry(Truncate(name, MAX_LABEL_LEN - 1), address);
      labelsCount := labelsCount + 1;
      assert Table() == old(Table()) + [LabelEntry(Truncate(name, MAX_LABEL_LEN - 1), address)];
      return SUCCESS_RESULT;
    }

    /** `byte_code[instruction_cnt++] = w`. */
    method Emit(w: int)
      requires instructionCnt < byteCode.Length
      modifies byteCode, this`instructionCnt
      ensures instructionCnt == old(instructionCnt) + 1
      ensures Words() == old(Words()) + [w]
      ensures forall j :: instructionCnt <= j < byteCode.Length ==> byteCode[j] == old(byteCode[j])
    {
      byteCode[instructionCnt] := w;
      instructionCnt := instructionCnt + 1;
      assert Words() == old(Words()) + [w];
    }

    /** The switch of TranslateAsmToByteCode on one recognised code, with `tok` the first
        word and `rest` the cut text after it; answers whether the line was accepted. */
    method TranslateInstruction(cmd: int, tok: string, rest: string, ghost st: PassState)
      returns (ok: bool)
      requires Valid() && |tok| > 0 && !st.failed
      requires instructionCnt + 2 <= byteCode.Length
      requires st.words == Words() && st.table == Table()
      modifies byteCode, this`instructionCnt, labels, this`labelsCount
      ensures Valid() && instructionCnt <= byteCode.Length
      ensures var s2 := Dispatch(st, cmd, tok, rest, codes);
              Words() == s2.words && Table() == s2.table && ok == !s2.failed
    {
      if cmd == MARK_CMD {
        MarkDispatch(st, tok, rest, codes);
        var r := AddLabel(Truncate(tok[1..], MAX_LABEL_LEN - 1), instructionCnt);
        ok := r == SUCCESS_RESULT;
      } else if IsBranchCode(cmd) {
        ok := TranslateBranch(cmd, rest);
      } else {
        var arg := ArgumentProcessing(rest);
        ok := TranslateOperand(cmd, arg);
      }
    }

    /** The jump and CALL cases: the opcode, then the address of the label scanned with
        `:%s`; a label that is not in the table rejects the line. */
    method TranslateBranch(cmd: int, rest: string) returns (ok: bool)
      requires Valid() && instructionCnt + 2 <= byteCode.Length
      modifies byteCode, this`instructionCnt
      ensures Valid() && instructionCnt <= byteCode.Length
      ensures var address := Lookup(Table(), TargetName(rest));
              && ok == (address != NOT_FOUND)
              && Words() == old(Words()) + [cmd] + (if ok then [address] else [])
    {
      Emit(cmd);
      var target := FindLabelAddress(TargetName(rest));
      if target != NOT_FOUND {
        Emit(target);
        ok := true;
      } else {
        ok := false;
      }
    }

    /** The cases that check the classified operand (and RET, HLT and the default case,
        which do not): the opcode is written before the check. */
    method TranslateOperand(cmd: int, arg: Argument) returns (ok: bool)
      requires Valid() && instructionCnt + 2 <= byteCode.Length
      modifies byteCode, this`instructionCnt
      ensures Valid() && instructionCnt <= byteCode.Length
      ensures var e := Encode(cmd, arg, codes);
              Words() == old(Words()) + e.words && ok == e.ok
    {
      if cmd == PUSH_CMD {
        Emit(cmd);
        ok := arg.kind == Number;
        if ok { Emit(arg.value); }
      } else if cmd == PUSHR_CMD || cmd == POPR_CMD {
        Emit(cmd);
        ok := arg.kind == Register;
        if ok { Emit(arg.value); }
      } else if cmd == codes.pushm || cmd == codes.popm {
        Emit(cmd);
        if arg.kind == Register {
          Emit(arg.value);
          ok := true;
        } else if arg.kind == Number {
          Emit(arg.value + DIRECT_OFFSET);
          ok := true;
        } else {
          ok := false;
        }
      } else if IsVoidChecked(cmd) {
        Emit(cmd);
        ok := arg.kind == Void;
      } else if cmd == RET_CMD || cmd == HLT_CMD {
        Emit(cmd);
        ok := true;
      } else {
        ok := false;
      }
    }

    /** One iteration of the pass on line `i`: a blank or comment line is passed over;
        otherwise the comment is cut off in place and the line goes to the switch. */
    method TranslateLine(lines: array<string>, i: nat, ghost st: PassState)
      returns (ok: bool, halt: bool)
      requires Valid() && i < lines.Length && LineFits(lines[i]) && !st.failed
      requires instructionCnt + 2 <= byteCode.Length
      requires st.words == Words() && st.table == Table()
      modifies byteCode, this`instructionCnt, labels, this`labelsCount, lines
      ensures Valid() && instructionCnt <= byteCode.Length
      ensures var s2 := Step(st, old(lines[i]), codes);
              && Words() == s2.words && Table() == s2.table && ok == !s2.failed
              && s2.hlt == (if halt then st.hlt + 1 else st.hlt)
              && lines[..] == old(lines[..])[i := CutLine(old(lines[i]))]
    {
      var line := lines[i];
      if line == [] || line[0] == ';' {
        StepSkipped(st, line, codes);
        return true, false;
      }
      var (tok, n) := ScanWord(line);
      if tok[0] == ';' {
        StepSkipped(st, line, codes);
        return true, false;
      }
      var cmd := Recognise(tok, codes);
      var rest := CutComment(line[n..]);
      lines[i] := line[..n] + rest;
      ghost var st1 := st.(seen := st.seen + 1);
      StepHandled(st, line, codes);
      DispatchHlt(st1, cmd, tok, rest, codes);
      ok := TranslateInstruction(cmd, tok, rest, st1);
      halt := cmd == HLT_CMD;
    }

    /** TranslateAsmToByteCode: one pass over the lines from the current label table;
        the buffer receives the pass's words, the table its labels, every line handled
        has its comment cut off in place, and the result is SUCCESS_RESULT exactly when
        no line was rejected and an HLT was seen. */
    method TranslateAsmToByteCode(lines: array<string>) returns (r: int)
      requires Valid() && AllFit(lines[..])
      requires 2 * lines.Length <= byteCode.Length
      modifies byteCode, this`instructionCnt, labels, this`labelsCount, lines
      ensures Valid() && instructionCnt <= byteCode.Length
      ensures var st := Run(old(lines[..]), codes, old(Table()));
              && r == (if Succeeded(st) then SUCCESS_RESULT else FAIL_RESULT)
              && Words() == st.words && Table() == st.table
              && lines[..] == CutLines(old(lines[..])[..st.seen]) + old(lines[..])[st.seen..]
    {
      ghost var source := lines[..];
      ghost var t0 := Table();
      instructionCnt := 0;
      var hlt: nat := 0;
      var i := 0;
      while i < lines.Length
        invariant Valid() && 0 <= i <= lines.Length && instructionCnt <= byteCode.Length
        invariant Run(source[..i], codes, t0) == PassState(Words(), Table(), hlt, i, false)
        invariant lines[..] == CutLines(source[..i]) + source[i..]
      {
        ghost var st := Run(source[..i], codes, t0);
        RunNext(source, i, codes, t0);
        CutLinesNext(source, i);
        var ok, halt := TranslateLine(lines, i, st);
        if halt {
          hlt := hlt + 1;
        }
        if !ok {
          return FAIL_RESULT;
        }
        i := i + 1;
      }
      assert source[..i] == source;
      r := if hlt > 0 then SUCCESS_RESULT else FAIL_RESULT;
    }

    /** AsmCodeToByteCode: allocate two words per line, run the pass twice over the same
        lines and the same (never cleared) label table, and answer the second result, or
        FAIL_RESULT without a second pass when the first fails. */
    method AsmCodeToByteCode(lines: array<string>) returns (r: int)
      requires Valid() && AllFit(lines[..])
      modifies this`byteCode, this`instructionCnt, labels, this`labelsCount, lines
      ensures Valid() && instructionCnt <= byteCode.Length
      ensures var program := Assemble(old(lines[..]), codes, old(Table()));
              && r == (if program.Some? then SUCCESS_RESULT else FAIL_RESULT)
              && (program.Some? ==> Words() == program.value)
      ensures var p1 := Run(old(lines[..]), codes, old(Table()));
              if Succeeded(p1) then
                Table() == Run(old(lines[..]), codes, p1.table).table
                && lines[..] == CutLines(old(lines[..]))
              else
                Table() == p1.table
                && lines[..] == CutLines(old(lines[..])[..p1.seen]) + old(lines[..])[p1.seen..]
    {
      ghost var source := lines[..];
      ghost var t0 := Table();
      byteCode := new int[2 * lines.Length];
      r := TranslateAsmToByteCode(lines);
      ghost var p1 := Run(source, codes, t0);
      if r == FAIL_RESULT {
        return;
      }
      RunBounds(source, codes, t0);
      assert source[..p1.seen] == source;
      assert lines[..] == CutLines(source);
      CutLinesFit(source);
      r := TranslateAsmToByteCode(lines);
      RunCutSame(source, codes, p1.table);
      CutLinesResume(source, Run(CutLines(source), codes, p1.table).seen);
    }
  }
}
