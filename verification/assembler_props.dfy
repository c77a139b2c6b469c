/** Properties of the assembler's specification: the recogniser against the catalogue,
    the classifier's spellings, the label table's bindings, and what a pass and the
    two-pass driver can and cannot produce. */
module AsmProps {

  import opened Wrappers
  import opened Commands
  import opened CText
  import opened AsmSpec

  // ---------------------------------------------------------------------------
  // Recogniser
  // ---------------------------------------------------------------------------

  /** Every catalogue mnemonic except JBE, JAE, MARK and LABEL is recognised as its own
      command; JBE and JAE are recognised as JB and JA, whose mnemonics are their prefixes
      and are tested first; MARK and LABEL are not recognised at all. */
  lemma RecogniseCatalogueNames(c: Command, x: MemCodes)
    ensures c !in {Jbe, Jae, Mark, Label} ==> Recognise(Name(c), x) == Code(c)
    ensures c == Jbe ==> Recognise(Name(c), x) == Code(Jb)
    ensures c == Jae ==> Recognise(Name(c), x) == Code(Ja)
    ensures c in {Mark, Label} ==> Recognise(Name(c), x) == FAIL_RESULT
  {
    RecogniseStackNames(x);
    RecogniseArithmeticNames(x);
    RecognisePowerNames(x);
    RecogniseIoNames(x);
    RecogniseCallNames(x);
    RecogniseJumpNames(x);
    RecogniseCompoundJumpNames(x);
    RecogniseHaltName(x);
    RecogniseUnlistedNames(x);
  }

  lemma RecogniseStackNames(x: MemCodes)
    ensures Recognise("PUSH", x) == Code(Push) && Recognise("POP", x) == Code(Pop)
    ensures Recognise("PUSHR", x) == Code(PushR) && Recognise("POPR", x) == Code(PopR)
  {
  }

  lemma RecogniseArithmeticNames(x: MemCodes)
    ensures Recognise("ADD", x) == Code(Add) && Recognise("SUB", x) == Code(Sub)
    ensures Recognise("MUL", x) == Code(Mul)
  {
  }

  lemma RecognisePowerNames(x: MemCodes)
    ensures Recognise("DIV", x) == Code(Div) && Recognise("POW", x) == Code(Pow)
    ensures Recognise("SQRT", x) == Code(Sqrt)
  {
  }

  lemma RecogniseIoNames(x: MemCodes)
    ensures Recognise("IN", x) == Code(In) && Recognise("OUT", x) == Code(Out)
  {
  }

  lemma RecogniseCallNames(x: MemCodes)
    ensures Recognise("CALL", x) == Code(Call) && Recognise("RET", x) == Code(Ret)
  {
  }

  lemma RecogniseJumpNames(x: MemCodes)
    ensures Recognise("JMP", x) == Code(Jmp) && Recognise("JE", x) == Code(Je)
    ensures Recognise("JB", x) == Code(Jb) && Recognise("JA", x) == Code(Ja)
  {
  }

  lemma RecogniseCompoundJumpNames(x: MemCodes)
    ensures Recognise("JBE", x) == Code(Jb) && Recognise("JAE", x) == Code(Ja)
  {
  }

  lemma RecogniseHaltName(x: MemCodes)
    ensures Recognise("HLT", x) == Code(Hlt)
  {
  }

  lemma RecogniseUnlistedNames(x: MemCodes)
    ensures Recognise("MARK", x) == FAIL_RESULT && Recognise("LABEL", x) == FAIL_RESULT
  {
  }

  /** An unrecognised mnemonic yields FAIL_RESULT, which is PUSH's code, so the line is
      encoded as a PUSH. */
  lemma RecogniseUnknown(x: MemCodes)
    ensures Recognise("FOO", x) == FAIL_RESULT == Code(Push)
    ensures Recognise("LOOP", x) == FAIL_RESULT
  {
  }

  /** A mnemonic only needs to start the word; a leading `:` is a label definition. */
  lemma RecognisePrefixes(x: MemCodes)
    ensures Recognise("INC", x) == Code(In)
    ensures Recognise("POPX", x) == Code(Pop)
    ensures Recognise("PUSHMX", x) == x.pushm
    ensures Recognise(":loop", x) == Code(Mark)
  {
  }

  /** The fallback of the chain: a token that neither opens with `:` nor starts with any
      literal the chain tests (the longer PUSHM, PUSHR, POPM, POPR, JBE and JAE extend
      these) is recognised as FAIL_RESULT, which is PUSH's code. */
  lemma RecogniseFallback(tok: string, x: MemCodes)
    requires |tok| == 0 || tok[0] != ':'
    requires !StartsWith(tok, "PUSH") && !StartsWith(tok, "POP")
    requires !StartsWith(tok, "ADD") && !StartsWith(tok, "SUB") && !StartsWith(tok, "MUL")
    requires !StartsWith(tok, "DIV") && !StartsWith(tok, "POW") && !StartsWith(tok, "SQRT")
    requires !StartsWith(tok, "IN") && !StartsWith(tok, "OUT")
    requires !StartsWith(tok, "CALL") && !StartsWith(tok, "RET")
    requires !StartsWith(tok, "JMP") && !StartsWith(tok, "JE")
    requires !StartsWith(tok, "JB") && !StartsWith(tok, "JA") && !StartsWith(tok, "HLT")
    ensures Recognise(tok, x) == FAIL_RESULT
  {
    ExtendedMnemonics(tok);
  }

  /** A token that does not start with PUSH, POP, JB or JA does not start with the longer
      mnemonics extending them either. */
  lemma ExtendedMnemonics(tok: string)
    requires !StartsWith(tok, "PUSH") && !StartsWith(tok, "POP")
    requires !StartsWith(tok, "JB") && !StartsWith(tok, "JA")
    ensures !StartsWith(tok, "PUSHM") && !StartsWith(tok, "PUSHR")
    ensures !StartsWith(tok, "POPM") && !StartsWith(tok, "POPR")
    ensures !StartsWith(tok, "JBE") && !StartsWith(tok, "JAE")
  {
    LongerMnemonic(tok, "PUSHM", "PUSH");
    LongerMnemonic(tok, "PUSHR", "PUSH");
    LongerMnemonic(tok, "POPM", "POP");
    LongerMnemonic(tok, "POPR", "POP");
    LongerMnemonic(tok, "JBE", "JB");
    LongerMnemonic(tok, "JAE", "JA");
  }

  /** A token that does not start with a mnemonic does not start with a longer one
      extending it. */
  lemma LongerMnemonic(tok: string, long: string, short: string)
    requires StartsWith(long, short)
    ensures !StartsWith(tok, short) ==> !StartsWith(tok, long)
  {
    if StartsWith(tok, long) {
      StartsWithTrans(tok, long, short);
    }
  }

  /** Recognition is sound: a token recognised as a catalogue command other than PUSH (the
      fallback's code) and MARK starts with that command's mnemonic. */
  lemma RecognisedPrefix(tok: string, x: MemCodes, c: Command)
    requires ValidCodes(x) && c != Push && c != Mark
    requires Recognise(tok, x) == Code(c)
    ensures StartsWith(tok, Name(c))
  {
  }

  /** The memory codes are recognised only for tokens starting with `PUSHM` and `POPM`. */
  lemma RecognisedMemoryPrefix(tok: string, x: MemCodes)
    requires ValidCodes(x)
    ensures Recognise(tok, x) == x.pushm ==> StartsWith(tok, "PUSHM")
    ensures Recognise(tok, x) == x.popm ==> StartsWith(tok, "POPM")
  {
  }

  /** MARK is recognised exactly for a token opening with `:`. */
  lemma RecogniseMark(tok: string, x: MemCodes)
    requires ValidCodes(x)
    ensures Recognise(tok, x) == Code(Mark) <==> |tok| > 0 && tok[0] == ':'
  {
  }

  /** Whatever the token, the recogniser never yields JBE, JAE or LABEL: every word that starts
      with `JBE` or `JAE` also starts with `JB` or `JA`, which are tested first, and LABEL has
      no test. */
  lemma RecogniseNeverJbeJae(tok: string, x: MemCodes)
    requires ValidCodes(x)
    ensures var cmd := Recognise(tok, x);
            cmd != Code(Jbe) && cmd != Code(Jae) && cmd != Code(Label)
  {
    RecogniseNeverJbe(tok, x);
    RecogniseNeverJae(tok, x);
  }

  /** The recogniser yields one of the two memory codes or a catalogue code, and of the
      catalogue codes never JBE, JAE or LABEL. */
  lemma RecogniseRange(tok: string, x: MemCodes)
    requires ValidCodes(x)
    ensures var cmd := Recognise(tok, x);
            && (cmd == x.pushm || cmd == x.popm || FromCode(cmd).Some?)
            && cmd != Code(Jbe) && cmd != Code(Jae) && cmd != Code(Label)
  {
    RecogniseNeverJbeJae(tok, x);
  }

  lemma RecogniseNeverJbe(tok: string, x: MemCodes)
    requires ValidCodes(x)
    ensures Recognise(tok, x) != JBE_CMD
  {
    if StartsWith(tok, "JBE") {
      StartsWithTrans(tok, "JBE", "JB");
    }
  }

  lemma RecogniseNeverJae(tok: string, x: MemCodes)
    requires ValidCodes(x)
    ensures Recognise(tok, x) != JAE_CMD
  {
    if StartsWith(tok, "JAE") {
      StartsWithTrans(tok, "JAE", "JA");
    }
  }

  // ---------------------------------------------------------------------------
  // Classifier
  // ---------------------------------------------------------------------------

  lemma LetterIndexOfRegLetter(i: int)
    requires 1 <= i <= 26
    ensures LetterIndex(RegLetter(i)) == i && 'A' <= RegLetter(i) <= 'Z'
  {
  }

  /** A bare word names register `i` exactly when it is `RzX` or `zX` with z the i-th letter. */
  lemma BareRegisterSpelling(w: string, i: int)
    requires 1 <= i <= 26
    ensures BareRegister(w) == Some(i) <==> (w == ['R', RegLetter(i), 'X'] || w == [RegLetter(i), 'X'])
  {
    LetterIndexOfRegLetter(i);
    if BareRegister(w) == Some(i) {
      if |w| == 3 && w[0] == 'R' && w[2] == 'X' && 1 <= LetterIndex(w[1]) <= 26 {
        assert w[1] == RegLetter(i);
        assert w == ['R', RegLetter(i), 'X'];
      } else {
        assert w[0] == RegLetter(i);
        assert w == [RegLetter(i), 'X'];
      }
    }
  }

  /** A line is passed over exactly when it holds no word or its first word opens a comment. */
  lemma SkippedLines(line: string)
    requires LineFits(line)
    ensures IsSkipped(line) <==> !HasWord(line) || FirstWord(line)[0] == ';'
  {
    if line != [] && line[0] == ';' {
      assert !IsSpace(line[0]);
      assert HasWord(line);
      FirstWordStart(line);
    }
  }

  /** `sscanf(rest, ":%s")` never converts on a branch line: the operand text begins with the
      blank that ended the mnemonic (or is empty), never with `:`, so every jump and CALL
      looks up the empty name. */
  lemma TargetAlwaysEmpty(line: string)
    requires LineFits(line) && !IsSkipped(line)
    ensures TargetName(Operand(line)) == []
  {
    var (tok, n) := ScanWord(line);
    var rest := CutComment(line[n..]);
    if |rest| > 0 {
      StartsWithSlice(line[n..], rest);
      assert rest[0] == line[n];
    }
  }

  /** `%d` converts nothing when the first non-blank character is neither a sign nor a digit. */
  lemma ScanIntNone(s: string)
    requires HasWord(s)
    requires var c := s[SkipSpaces(s, 0)]; c != '-' && c != '+' && !IsDigit(c)
    ensures ScanInt(s) == None
  {
  }

  /** The first word of `s` starts at the first non-blank character. */
  lemma FirstWordStart(s: string)
    requires HasWord(s)
    ensures FirstWord(s)[0] == s[SkipSpaces(s, 0)]
  {
    var b := SkipSpaces(s, 0);
    var (w, e) := ScanWord(s);
    assert s[e - |w|..e] == w;
    assert s[e - |w|] == w[0];
    assert e - |w| >= b;
  }

  /** The classifier answers REGISTER `i` exactly for the four spellings of register `i`
      (RzX, zX, [RzX], [zX], with z the i-th capital letter) as the operand's first word. */
  lemma ClassifyRegister(s: string, i: int)
    requires 1 <= i <= 26
    ensures Classify(s) == Argument(Register, i) <==> HasWord(s) && FirstWord(s) in RegSpellings(i)
  {
    if HasWord(s) && FirstWord(s) in RegSpellings(i) {
      ClassifySpelledRegister(s, i);
    }
    if Classify(s) == Argument(Register, i) {
      ClassifiedRegisterSpelling(s, i);
    }
  }

  /** Each spelling of register `i` as the first word classifies as REGISTER `i`. */
  lemma ClassifySpelledRegister(s: string, i: int)
    requires 1 <= i <= 26 && HasWord(s) && FirstWord(s) in RegSpellings(i)
    ensures Classify(s) == Argument(Register, i)
  {
    var w := FirstWord(s);
    LetterIndexOfRegLetter(i);
    FirstWordStart(s);
    ScanIntNone(s);
    if w[0] == '[' {
      BareRegisterSpelling(w[1..|w| - 1], i);
    } else {
      BareRegisterSpelling(w, i);
    }
  }

  /** Only a spelling of register `i` as the first word classifies as REGISTER `i`. */
  lemma ClassifiedRegisterSpelling(s: string, i: int)
    requires 1 <= i <= 26 && Classify(s) == Argument(Register, i)
    ensures HasWord(s) && FirstWord(s) in RegSpellings(i)
  {
    var z := RegLetter(i);
    var w := FirstWord(s);
    var inner := if w[0] == '[' && w[|w| - 1] == ']' then BareRegister(w[1..|w| - 1]) else None;
    if inner.Some? {
      var m := w[1..|w| - 1];
      BareRegisterSpelling(m, i);
      if m == ['R', z, 'X'] {
        assert w == ['[', 'R', z, 'X', ']'];
      } else {
        assert w == ['[', z, 'X', ']'];
      }
    } else {
      BareRegisterSpelling(w, i);
    }
  }

  /** A decimal literal (after blanks, and followed by a blank or the end) is classified as
      NUMBER with its value. */
  lemma ClassifyNumber(n: int, s: string, b: nat)
    requires b + |Decimal(n)| <= |s| && s[b..b + |Decimal(n)|] == Decimal(n)
    requires forall k :: 0 <= k < b ==> IsSpace(s[k])
    requires b + |Decimal(n)| < |s| ==> IsSpace(s[b + |Decimal(n)|])
    ensures Classify(s) == Argument(Number, n)
  {
    ScanIntOfDecimal(n, s, b);
    var t := Decimal(n);
    assert s[b] == t[0];
    assert t[0] == '-' || IsDigit(t[0]);
    SkipToEnd(s, 0, b);
  }

  /** A word starting with `:` is a label reference, valued 0 until it is resolved. */
  lemma ClassifyLabel(s: string)
    requires HasWord(s) && s[SkipSpaces(s, 0)] == ':'
    ensures Classify(s) == Argument(LabelRef, 0)
  {
    ScanIntNone(s);
    FirstWordStart(s);
  }

  // ---------------------------------------------------------------------------
  // Label table
  // ---------------------------------------------------------------------------

  /** Appending an entry leaves every earlier binding as it was and binds a new name to the
      new entry's address. */
  lemma {:induction false} LookupAppend(t: seq<LabelEntry>, e: LabelEntry, name: string)
    ensures Lookup(t + [e], name)
            == if Lookup(t, name) != NOT_FOUND || (exists i :: 0 <= i < |t| && t[i].name == name)
               then Lookup(t, name)
               else if e.name == name then e.address else NOT_FOUND
  {
    if t == [] {
      assert t + [e] == [e];
    } else {
      assert (t + [e])[1..] == t[1..] + [e];
      LookupAppend(t[1..], e, name);
      if t[0].name != name {
        assert (exists i :: 0 <= i < |t| && t[i].name == name)
               <==> (exists i :: 0 <= i < |t[1..]| && t[1..][i].name == name) by {
          if exists i :: 0 <= i < |t| && t[i].name == name {
            var i :| 0 <= i < |t| && t[i].name == name;
            assert t[1..][i - 1].name == name;
          }
        }
      }
    }
  }

  /** A name already in a table of valid addresses is never defined again (AddLabel's
      duplicate check), and a full table accepts no definition. */
  lemma DefineRejects(t: seq<LabelEntry>, name: string, address: int)
    requires AddressesValid(t)
    requires |t| >= LABELS_NUMBER || exists i :: 0 <= i < |t| && t[i].name == name
    ensures Define(t, name, address) == None
  {
    if |t| < LABELS_NUMBER {
      FoundIsValid(t, name);
    }
  }

  /** In a table of valid addresses, a present name is found at a valid address. */
  lemma {:induction false} FoundIsValid(t: seq<LabelEntry>, name: string)
    requires AddressesValid(t)
    requires exists i :: 0 <= i < |t| && t[i].name == name
    ensures Lookup(t, name) >= 0
  {
    if t[0].name != name {
      var i :| 0 <= i < |t| && t[i].name == name;
      assert t[1..][i - 1].name == name;
      FoundIsValid(t[1..], name);
    }
  }

  /** `name` is bound somewhere in the table. */
  predicate Bound(table: seq<LabelEntry>, name: string) {
    exists i :: 0 <= i < |table| && table[i].name == name
  }

  /** One step of the search from slot i: the entry there answers if it carries the name,
      and otherwise the search goes on from slot i + 1. */
  lemma LookupStep(t: seq<LabelEntry>, i: nat, name: string)
    requires i < |t|
    ensures t[i].name == name ==> Lookup(t[i..], name) == t[i].address
    ensures t[i].name != name ==> Lookup(t[i..], name) == Lookup(t[i + 1..], name)
    ensures !Bound(t[..i], name) && t[i].name != name ==> !Bound(t[..i + 1], name)
  {
    assert t[i..][0] == t[i];
    assert t[i..][1..] == t[i + 1..];
    assert t[..i + 1] == t[..i] + [t[i]];
  }

  /** A name bound nowhere in the table is not found. */
  lemma {:induction false} LookupMiss(table: seq<LabelEntry>, name: string)
    requires !Bound(table, name)
    ensures Lookup(table, name) == NOT_FOUND
  {
    if table != [] {
      LookupMiss(table[1..], name);
    }
  }

  /** AddLabel on a table of valid addresses: it refuses exactly when the table is full or
      the name is bound; otherwise it appends the name with the address, after which the
      name is found at that address and every other name as before. */
  lemma DefineOutcome(t: seq<LabelEntry>, name: string, address: int)
    requires AddressesValid(t) && |name| < MAX_LABEL_LEN
    ensures Define(t, name, address).None? <==> |t| >= LABELS_NUMBER || Bound(t, name)
    ensures Define(t, name, address).Some? ==>
              && Define(t, name, address).value == t + [LabelEntry(name, address)]
              && Lookup(Define(t, name, address).value, name) == address
              && forall other :: other != name ==>
                   Lookup(Define(t, name, address).value, other) == Lookup(t, other)
  {
    if |t| >= LABELS_NUMBER || Bound(t, name) {
      DefineRejects(t, name, address);
    } else {
      LookupMiss(t, name);
      forall other | other != name
        ensures Lookup(Define(t, name, address).value, other) == Lookup(t, other)
      {
        DefineBinds(t, name, address, other);
      }
      DefineBinds(t, name, address, name + "?");
    }
  }

  /** After a successful definition of a name of at most 31 characters, the name is bound to
      the given address and every other name is bound as before. */
  lemma DefineBinds(t: seq<LabelEntry>, name: string, address: int, other: string)
    requires AddressesValid(t) && Define(t, name, address).Some?
    requires |name| < MAX_LABEL_LEN && other != name
    ensures Lookup(Define(t, name, address).value, name) == address
    ensures Lookup(Define(t, name, address).value, other) == Lookup(t, other)
  {
    var e := LabelEntry(name, address);
    assert Define(t, name, address).value == t + [e];
    if exists i :: 0 <= i < |t| && t[i].name == name {
      FoundIsValid(t, name);
    }
    LookupAppend(t, e, name);
    LookupAppend(t, e, other);
  }
}
