/** Properties of one pass and of the two-pass driver: what a pass can emit, that the
    second pass reads the cut lines as the first read the originals, what the encoder
    accepts for each catalogue command, and the consequence of never resetting the label
    table between the passes. */
module PassProps {

  import opened Wrappers
  import opened Commands
  import opened CText
  import opened AsmSpec
  import opened AsmProps

  /** The code a handled line is recognised as. */
  function LineCode(line: string, x: MemCodes): int
    requires LineFits(line) && !IsSkipped(line)
  {
    Recognise(Mnemonic(line), x)
  }

  /** The label name a `:name` line defines, as it is stored in the table. */
  function MarkName(line: string): string
    requires LineFits(line) && !IsSkipped(line)
  {
    Truncate(Mnemonic(line)[1..], MAX_LABEL_LEN - 1)
  }

  // ---------------------------------------------------------------------------
  // One line
  // ---------------------------------------------------------------------------

  /** One line emits at most two words after the ones already there, adds at most one
      label at a valid address, and counts an HLT only by emitting HLT_CMD. */
  lemma StepFacts(st: PassState, line: string, x: MemCodes)
    requires ValidCodes(x) && LineFits(line)
    ensures var s2 := Step(st, line, x);
            && s2.seen == st.seen + 1
            && Grows(st, s2)
  {
    var st1 := st.(seen := st.seen + 1);
    if IsSkipped(line) {
      StepSkipped(st, line, x);
      assert st1.words[..|st.words|] == st.words;
      assert st1.table[..|st.table|] == st.table;
    } else {
      StepHandled(st, line, x);
      DispatchFacts(st1, LineCode(line, x), Mnemonic(line), Operand(line), x);
    }
  }

  /** A handled line goes to the switch on its recognised code. */
  lemma StepHandled(st: PassState, line: string, x: MemCodes)
    requires ValidCodes(x) && LineFits(line) && !IsSkipped(line)
    ensures Step(st, line, x)
            == Dispatch(st.(seen := st.seen + 1), LineCode(line, x), Mnemonic(line), Operand(line), x)
  {
  }

  /** A skipped line is only counted. */
  lemma StepSkipped(st: PassState, line: string, x: MemCodes)
    requires ValidCodes(x) && LineFits(line) && IsSkipped(line)
    ensures Step(st, line, x) == st.(seen := st.seen + 1)
  {
  }

  /** What a step may do to the words, the table and the HLT count. */
  predicate Grows(st: PassState, s2: PassState) {
    && st.words <= s2.words && |s2.words| <= |st.words| + 2
    && st.table <= s2.table && |s2.table| <= |st.table| + 1
    && (AddressesValid(st.table) ==> AddressesValid(s2.table))
    && st.hlt <= s2.hlt <= st.hlt + 1
    && (s2.hlt > st.hlt ==> HLT_CMD in s2.words)
  }

  lemma DispatchFacts(st: PassState, cmd: int, tok: string, rest: string, x: MemCodes)
    requires ValidCodes(x) && |tok| > 0
    ensures var s2 := Dispatch(st, cmd, tok, rest, x);
            s2.seen == st.seen && Grows(st, s2)
  {
    if cmd == MARK_CMD {
      MarkDispatch(st, tok, rest, x);
    } else if IsBranchCode(cmd) {
      var s2 := Dispatch(st, cmd, tok, rest, x);
      assert s2.words[..|st.words|] == st.words;
    } else {
      EncodeDispatchFacts(st, cmd, tok, rest, x);
    }
  }

  /** The switch counts an HLT exactly for HLT_CMD. */
  lemma DispatchHlt(st: PassState, cmd: int, tok: string, rest: string, x: MemCodes)
    requires ValidCodes(x) && |tok| > 0
    ensures Dispatch(st, cmd, tok, rest, x).hlt == if cmd == HLT_CMD then st.hlt + 1 else st.hlt
  {
  }

  lemma EncodeDispatchFacts(st: PassState, cmd: int, tok: string, rest: string, x: MemCodes)
    requires ValidCodes(x) && |tok| > 0 && cmd != MARK_CMD && !IsBranchCode(cmd)
    ensures var s2 := Dispatch(st, cmd, tok, rest, x);
            s2.seen == st.seen && Grows(st, s2)
  {
    var s2 := Dispatch(st, cmd, tok, rest, x);
    var e := Encode(cmd, Classify(rest), x);
    assert s2.words == st.words + e.words;
    assert s2.words[..|st.words|] == st.words;
    if s2.hlt > st.hlt {
      assert s2.words[|st.words|] == HLT_CMD;
    }
  }

  /** Cutting the comment off a line changes nothing the pass does with it. */
  lemma StepCutSame(st: PassState, line: string, x: MemCodes)
    requires ValidCodes(x) && LineFits(line)
    ensures LineFits(CutLine(line)) && Step(st, CutLine(line), x) == Step(st, line, x)
  {
    CutLineSame(line);
  }

  /** A `:name` line binds the truncated name to the number of words emitted so far and
      emits nothing, or, when the name is already bound or the table is full, fails. */
  lemma MarkLineBinds(st: PassState, line: string, x: MemCodes)
    requires ValidCodes(x) && LineFits(line) && !IsSkipped(line)
    requires LineCode(line, x) == MARK_CMD && AddressesValid(st.table) && !st.failed
    ensures var s2 := Step(st, line, x);
            && s2.words == st.words
            && (s2.failed <==> |st.table| >= LABELS_NUMBER || Bound(st.table, MarkName(line)))
            && (!s2.failed ==> Lookup(s2.table, MarkName(line)) == |st.words|
                               && forall other :: other != MarkName(line) ==>
                                    Lookup(s2.table, other) == Lookup(st.table, other))
  {
    var st1 := st.(seen := st.seen + 1);
    var nm := MarkName(line);
    StepHandled(st, line, x);
    MarkDispatch(st1, Mnemonic(line), Operand(line), x);
    DefineOutcome(st.table, nm, |st.words|);
    var s2 := Step(st, line, x);
    match Define(st.table, nm, |st.words|)
    case Some(t) =>
      assert s2 == st1.(table := t);
    case None =>
      assert s2 == st1.(failed := true);
  }

  /** The MARK case of the switch hands the truncated name and the current word count to
      AddLabel. */
  lemma MarkDispatch(st: PassState, tok: string, rest: string, x: MemCodes)
    requires ValidCodes(x) && |tok| > 0
    ensures Dispatch(st, MARK_CMD, tok, rest, x)
            == match Define(st.table, Truncate(tok[1..], MAX_LABEL_LEN - 1), |st.words|)
               case Some(t) => st.(table := t)
               case None => st.(failed := true)
  {
  }

  // ---------------------------------------------------------------------------
  // Operand checks against the catalogue
  // ---------------------------------------------------------------------------

  /** For every catalogue command the switch encodes, the operand is accepted exactly when
      its kind is the one the catalogue lists (RET and HLT do not look at it), the opcode
      word is written either way, and the operand word follows for PUSH, PUSHR and POPR. */
  lemma EncodeAgreesWithCatalogue(c: Command, arg: Argument, x: MemCodes)
    requires ValidCodes(x)
    requires c != Mark && c != Label && c != Call && !c.IsJump()
    ensures var e := Encode(Code(c), arg, x);
            && (e.ok <==> c == Ret || c == Hlt || arg.kind == Param(c))
            && e.words == [Code(c)] + (if e.ok && Param(c) != Void then [arg.value] else [])
  {
  }

  /** PUSHM and POPM take a register index as is and a number plus DIRECT_OFFSET, and reject
      every other operand after writing their opcode. */
  lemma EncodeMemoryOperand(cmd: int, arg: Argument, x: MemCodes)
    requires ValidCodes(x) && (cmd == x.pushm || cmd == x.popm)
    ensures var e := Encode(cmd, arg, x);
            && (e.ok <==> arg.kind == Register || arg.kind == Number)
            && e.words == [cmd] + (if arg.kind == Register then [arg.value]
                                   else if arg.kind == Number then [arg.value + DIRECT_OFFSET]
                                   else [])
  {
  }

  /** LABEL has a catalogue entry but no case in the switch: such a code is rejected and
      nothing is written. */
  lemma EncodeLabelRejected(arg: Argument, x: MemCodes)
    requires ValidCodes(x)
    ensures Encode(Code(Label), arg, x) == Encoded([], false)
  {
  }

  // ---------------------------------------------------------------------------
  // A whole pass
  // ---------------------------------------------------------------------------

  /** What a pass leaves: at most two words per handled line, every line handled unless
      one was rejected, the starting table kept as a prefix, and HLT_CMD emitted whenever
      an HLT was counted. */
  lemma {:induction false} RunBounds(lines: seq<string>, x: MemCodes, t0: seq<LabelEntry>)
    requires ValidCodes(x) && AllFit(lines)
    ensures var st := Run(lines, x, t0);
            && st.seen <= |lines| && (!st.failed ==> st.seen == |lines|)
            && |st.words| <= 2 * st.seen
            && st.hlt <= st.seen
            && t0 <= st.table
            && (AddressesValid(t0) ==> AddressesValid(st.table))
            && (st.hlt > 0 ==> HLT_CMD in st.words)
  {
    if lines != [] {
      var init := lines[..|lines| - 1];
      RunBounds(init, x, t0);
      var st := Run(init, x, t0);
      if !st.failed {
        StepFacts(st, lines[|lines| - 1], x);
        var s2 := Step(st, lines[|lines| - 1], x);
        assert s2.table[..|t0|] == st.table[..|t0|];
        if st.hlt > 0 {
          assert s2.words[..|st.words|] == st.words;
        }
      }
    }
  }

  /** A pass that succeeds has emitted HLT_CMD. */
  lemma SucceededEmitsHlt(lines: seq<string>, x: MemCodes, t0: seq<LabelEntry>)
    requires ValidCodes(x) && AllFit(lines)
    requires Succeeded(Run(lines, x, t0))
    ensures HLT_CMD in Run(lines, x, t0).words
  {
    RunBounds(lines, x, t0);
  }

  /** A rejected line ends the pass: the state after any longer run of lines is the same. */
  lemma {:induction false} RunSticky(lines: seq<string>, k: nat, x: MemCodes, t0: seq<LabelEntry>)
    requires ValidCodes(x) && AllFit(lines) && k <= |lines|
    requires Run(lines[..k], x, t0).failed
    ensures Run(lines, x, t0) == Run(lines[..k], x, t0)
    decreases |lines| - k
  {
    if k < |lines| {
      var init := lines[..|lines| - 1];
      assert init[..k] == lines[..k];
      RunSticky(init, k, x, t0);
    } else {
      assert lines[..k] == lines;
    }
  }

  /** Running more lines only extends the words and the table. */
  lemma {:induction false} RunExtends(lines: seq<string>, k: nat, x: MemCodes, t0: seq<LabelEntry>)
    requires ValidCodes(x) && AllFit(lines) && k <= |lines|
    ensures Run(lines[..k], x, t0).table <= Run(lines, x, t0).table
    ensures Run(lines[..k], x, t0).words <= Run(lines, x, t0).words
    decreases |lines| - k
  {
    if k < |lines| {
      var init := lines[..|lines| - 1];
      assert init[..k] == lines[..k];
      RunExtends(init, k, x, t0);
      var st := Run(init, x, t0);
      if !st.failed {
        StepFacts(st, lines[|lines| - 1], x);
        var a := Run(lines[..k], x, t0);
        var s2 := Step(st, lines[|lines| - 1], x);
        assert s2.table[..|a.table|] == st.table[..|a.table|];
        assert s2.words[..|a.words|] == st.words[..|a.words|];
      }
    } else {
      assert lines[..k] == lines;
    }
  }

  /** The first `k + 1` lines run as the first `k` followed by line `k`. */
  lemma RunSnoc(lines: seq<string>, k: nat, x: MemCodes, t0: seq<LabelEntry>)
    requires ValidCodes(x) && AllFit(lines) && k < |lines|
    ensures var st := Run(lines[..k], x, t0);
            Run(lines[..k + 1], x, t0) == if st.failed then st else Step(st, lines[k], x)
  {
    assert lines[..k + 1][..k] == lines[..k];
  }

  /** One more line: the state after it is the step from the state before it, it is
      handled as the `i`-th line, it fits in two more words, and if it is rejected the
      pass ends with it; the text of the lines has one more cut line. */
  lemma RunNext(lines: seq<string>, i: nat, x: MemCodes, t0: seq<LabelEntry>)
    requires ValidCodes(x) && AllFit(lines) && i < |lines|
    requires !Run(lines[..i], x, t0).failed
    ensures var st := Run(lines[..i], x, t0);
            var s2 := Step(st, lines[i], x);
            && Run(lines[..i + 1], x, t0) == s2
            && st.seen == i && s2.seen == i + 1
            && |st.words| <= 2 * i
            && (AddressesValid(t0) ==> AddressesValid(st.table))
            && (s2.failed ==> Run(lines, x, t0) == s2)
  {
    var st := Run(lines[..i], x, t0);
    RunSnoc(lines, i, x, t0);
    RunBounds(lines[..i], x, t0);
    StepFacts(st, lines[i], x);
    if Step(st, lines[i], x).failed {
      RunSticky(lines, i + 1, x, t0);
    }
  }

  /** Cutting one more line changes the text of the lines at that line only. */
  lemma CutLinesNext(lines: seq<string>, i: nat)
    requires AllFit(lines) && i < |lines|
    ensures CutLines(lines[..i + 1]) + lines[i + 1..]
            == (CutLines(lines[..i]) + lines[i..])[i := CutLine(lines[i])]
  {
    assert lines[..i + 1][..i] == lines[..i];
  }

  /** The second pass reads the lines the first pass cut, and does with them exactly what it
      would have done with the originals. */
  lemma {:induction false} RunCutSame(lines: seq<string>, x: MemCodes, t0: seq<LabelEntry>)
    requires ValidCodes(x) && AllFit(lines)
    ensures AllFit(CutLines(lines))
    ensures Run(CutLines(lines), x, t0) == Run(lines, x, t0)
  {
    CutLinesFit(lines);
    if lines != [] {
      var init := lines[..|lines| - 1];
      var cut := CutLines(lines);
      assert cut[..|cut| - 1] == CutLines(init);
      RunCutSame(init, x, t0);
      StepCutSame(Run(init, x, t0), lines[|lines| - 1], x);
    }
  }

  // ---------------------------------------------------------------------------
  // Two passes over a table that is never reset
  // ---------------------------------------------------------------------------

  /** After a pass that handled a `:name` line without failing, the name is in the table. */
  lemma MarkInTable(lines: seq<string>, k: nat, x: MemCodes, t0: seq<LabelEntry>)
    requires ValidCodes(x) && AllFit(lines) && k < |lines| && AddressesValid(t0)
    requires !IsSkipped(lines[k]) && LineCode(lines[k], x) == MARK_CMD
    requires !Run(lines, x, t0).failed
    ensures Bound(Run(lines, x, t0).table, MarkName(lines[k]))
  {
    var st := Run(lines[..k], x, t0);
    RunSnoc(lines, k, x, t0);
    if st.failed {
      RunSticky(lines, k, x, t0);
    }
    if Run(lines[..k + 1], x, t0).failed {
      RunSticky(lines, k + 1, x, t0);
    }
    RunBounds(lines[..k], x, t0);
    MarkLineBinds(st, lines[k], x);
    var s2 := Step(st, lines[k], x);
    assert s2.table == st.table + [LabelEntry(MarkName(lines[k]), |st.words|)];
    RunExtends(lines, k + 1, x, t0);
    var t := Run(lines, x, t0).table;
    assert t[|st.table|] == s2.table[|st.table|];
  }

  /** A pass that starts from a table in which a `:name` line's name is already bound
      fails (AddLabel reports the label as already defined). */
  lemma MarkAgainFails(lines: seq<string>, k: nat, x: MemCodes, t0: seq<LabelEntry>)
    requires ValidCodes(x) && AllFit(lines) && k < |lines| && AddressesValid(t0)
    requires !IsSkipped(lines[k]) && LineCode(lines[k], x) == MARK_CMD
    requires Bound(t0, MarkName(lines[k]))
    ensures Run(lines, x, t0).failed
  {
    var st := Run(lines[..k], x, t0);
    RunSnoc(lines, k, x, t0);
    if st.failed {
      RunSticky(lines, k, x, t0);
    } else {
      RunBounds(lines[..k], x, t0);
      var i :| 0 <= i < |t0| && t0[i].name == MarkName(lines[k]);
      assert st.table[i] == t0[i];
      MarkLineBinds(st, lines[k], x);
      RunSticky(lines, k + 1, x, t0);
    }
  }

  /** Without `:name` lines a pass leaves the table as it found it. */
  lemma {:induction false} NoMarksKeepTable(lines: seq<string>, x: MemCodes, t0: seq<LabelEntry>)
    requires ValidCodes(x) && AllFit(lines)
    requires forall i :: 0 <= i < |lines| && !IsSkipped(lines[i]) ==> LineCode(lines[i], x) != MARK_CMD
    ensures Run(lines, x, t0).table == t0
  {
    if lines != [] {
      NoMarksKeepTable(lines[..|lines| - 1], x, t0);
    }
  }

  /** A branch line (a jump or CALL) fails a pass that starts from an empty table and
      defines no label. */
  lemma BranchWithoutLabelsFails(lines: seq<string>, k: nat, x: MemCodes)
    requires ValidCodes(x) && AllFit(lines) && k < |lines|
    requires forall i :: 0 <= i < |lines| && !IsSkipped(lines[i]) ==> LineCode(lines[i], x) != MARK_CMD
    requires !IsSkipped(lines[k]) && IsBranchCode(LineCode(lines[k], x))
    ensures Run(lines, x, []).failed
  {
    var st := Run(lines[..k], x, []);
    RunSnoc(lines, k, x, []);
    if st.failed {
      RunSticky(lines, k, x, []);
    } else {
      NoMarksKeepTable(lines[..k], x, []);
      RunSticky(lines, k + 1, x, []);
    }
  }

  /** Because the label table is not reset between the passes, every label defined in the
      first pass is found already defined in the second: a source assembles only if it has
      neither a `:name` line nor a jump or CALL, whatever its labels and targets. */
  lemma AssembledProgramHasNoLabels(lines: seq<string>, x: MemCodes)
    requires ValidCodes(x) && AllFit(lines)
    requires Assemble(lines, x, []).Some?
    ensures forall i :: 0 <= i < |lines| && !IsSkipped(lines[i]) ==>
              LineCode(lines[i], x) != MARK_CMD && !IsBranchCode(LineCode(lines[i], x))
  {
    var p1 := Run(lines, x, []);
    RunBounds(lines, x, []);
    RunCutSame(lines, x, p1.table);
    assert !Run(lines, x, p1.table).failed;
    forall i | 0 <= i < |lines| && !IsSkipped(lines[i])
      ensures LineCode(lines[i], x) != MARK_CMD
    {
      if LineCode(lines[i], x) == MARK_CMD {
        MarkInTable(lines, i, x, []);
        MarkAgainFails(lines, i, x, p1.table);
      }
    }
    forall i | 0 <= i < |lines| && !IsSkipped(lines[i])
      ensures !IsBranchCode(LineCode(lines[i], x))
    {
      if IsBranchCode(LineCode(lines[i], x)) {
        BranchWithoutLabelsFails(lines, i, x);
      }
    }
  }

  /** Without labels the second pass repeats the first: a source that assembles yields
      the words of its first pass. */
  lemma AssembleIsFirstPass(lines: seq<string>, x: MemCodes)
    requires ValidCodes(x) && AllFit(lines)
    requires Assemble(lines, x, []).Some?
    ensures Assemble(lines, x, []) == Some(Run(lines, x, []).words)
  {
    var p1 := Run(lines, x, []);
    AssembledProgramHasNoLabels(lines, x);
    NoMarksKeepTable(lines, x, []);
    RunCutSame(lines, x, p1.table);
  }

  /** Conversely, a source whose first pass succeeds and defines no label assembles to
      the words of that pass. */
  lemma AssembleWithoutLabels(lines: seq<string>, x: MemCodes, t0: seq<LabelEntry>)
    requires ValidCodes(x) && AllFit(lines)
    requires Succeeded(Run(lines, x, t0)) && Run(lines, x, t0).table == t0
    ensures Assemble(lines, x, t0) == Some(Run(lines, x, t0).words)
  {
    RunCutSame(lines, x, t0);
  }
}
