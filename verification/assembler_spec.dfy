/** What one pass of the assembler computes, as functions: the mnemonic recogniser,
    the operand classifier, the label table, the encoding of one line and the fold
    of that encoding over the source lines. The class in assembler.dfy performs the
    same pass in place and is proved to agree with these functions. */
module AsmSpec {

  import opened Wrappers
  import opened Commands
  import opened CText

  /** Size of the buffer the mnemonic is scanned into (MAX_INSTRUCT_LEN). */
  const MAX_INSTRUCT_LEN: nat := 10
  /** Capacity of the label table (LABELS_NUMBER). */
  const LABELS_NUMBER: nat := 100
  /** Size of a label-name buffer, terminator included (MAX_LABEL_LEN). */
  const MAX_LABEL_LEN: nat := 32
  const SUCCESS_RESULT: int := 1
  const FAIL_RESULT: int := 0
  /** What FindLabelAddress answers for a name that is not in the table. */
  const NOT_FOUND: int := -1
  /** Added to a numeric PUSHM/POPM operand to mark it as a direct address. */
  const DIRECT_OFFSET: int := 100

  /** A classified operand: its kind and its value (literal, register index or placeholder). */
  datatype Argument = Argument(kind: ArgType, value: int)

  /** PUSHM_CMD and POPM_CMD: the assembler emits them, the catalogue does not define them. */
  datatype MemCodes = MemCodes(pushm: int, popm: int)

  /** The two memory codes can stand as case labels beside the catalogue's: they are
      distinct from each other and from every catalogue code. */
  predicate ValidCodes(x: MemCodes) {
    x.pushm != x.popm && !(0 <= x.pushm < |Order|) && !(0 <= x.popm < |Order|)
  }

  // ---------------------------------------------------------------------------
  // Mnemonic recogniser (AsmCodeProcessing)
  // ---------------------------------------------------------------------------

  /** AsmCodeProcessing: a chain of prefix tests (StrCompare compares only as many
      characters as the literal has) in a fixed order. */
  function Recognise(tok: string, x: MemCodes): (cmd: int)
  {
    if |tok| > 0 && tok[0] == ':' then MARK_CMD
    else if StartsWith(tok, "PUSHM") then x.pushm
    else if StartsWith(tok, "PUSHR") then PUSHR_CMD
    else if StartsWith(tok, "PUSH") then PUSH_CMD
    else if StartsWith(tok, "POPM") then x.popm
    else if StartsWith(tok, "POPR") then POPR_CMD
    else if StartsWith(tok, "POP") then POP_CMD
    else if StartsWith(tok, "ADD") then ADD_CMD
    else if StartsWith(tok, "SUB") then SUB_CMD
    else if StartsWith(tok, "MUL") then MUL_CMD
    else if StartsWith(tok, "DIV") then DIV_CMD
    else if StartsWith(tok, "POW") then POW_CMD
    else if StartsWith(tok, "SQRT") then SQRT_CMD
    else if StartsWith(tok, "IN") then IN_CMD
    else if StartsWith(tok, "OUT") then OUT_CMD
    else if StartsWith(tok, "CALL") then CALL_CMD
    else if StartsWith(tok, "RET") then RET_CMD
    else if StartsWith(tok, "JMP") then JMP_CMD
    else if StartsWith(tok, "JE") then JE_CMD
    else if StartsWith(tok, "JB") then JB_CMD
    else if StartsWith(tok, "JA") then JA_CMD
    else if StartsWith(tok, "JBE") then JBE_CMD
    else if StartsWith(tok, "JAE") then JAE_CMD
    else if StartsWith(tok, "HLT") then HLT_CMD
    else FAIL_RESULT
  }

  // ---------------------------------------------------------------------------
  // Operand classifier (ArgumentProcessing)
  // ---------------------------------------------------------------------------

  /** `c - 'A' + 1`: the register index a letter stands for. */
  function LetterIndex(c: char): int {
    c as int - 'A' as int + 1
  }

  /** The register named by a bare `RzX` or `zX` spelling, if it names one of 1..26. */
  function BareRegister(w: string): (r: Option<int>)
    ensures r.Some? ==> 1 <= r.value <= 26
  {
    if |w| == 3 && w[0] == 'R' && w[2] == 'X' && 1 <= LetterIndex(w[1]) <= 26 then Some(LetterIndex(w[1]))
    else if |w| == 2 && w[1] == 'X' && IsAlpha(w[0]) && 1 <= LetterIndex(w[0]) <= 26 then Some(LetterIndex(w[0]))
    else None
  }

  /** ArgumentProcessing: classify the text after the mnemonic. */
  function Classify(s: string): (a: Argument)
    ensures a.kind == Void <==> !HasWord(s) || s[SkipSpaces(s, 0)] == ';'
    ensures a.kind == Void || a.kind == Unknown ==> a.value == -1
    ensures a.kind == Number ==> ScanInt(s) == Some(a.value)
    ensures a.kind != Void && ScanInt(s).Some? ==> a.kind == Number
    ensures a.kind == LabelRef ==> a.value == 0 && FirstWord(s)[0] == ':'
    ensures a.kind == Register ==> 1 <= a.value <= 26
  {
    var b := SkipSpaces(s, 0);
    if b == |s| || s[b] == ';' then Argument(Void, -1)
    else match ScanInt(s)
      case Some(v) => Argument(Number, v)
      case None =>
        var w := FirstWord(s);
        if w[0] == ':' then Argument(LabelRef, 0)
        else
          var inner := if w[0] == '[' && w[|w| - 1] == ']' then BareRegister(w[1..|w| - 1]) else None;
          if inner.Some? then Argument(Register, inner.value)
          else match BareRegister(w)
            case Some(r) => Argument(Register, r)
            case None => Argument(Unknown, -1)
  }

  /** The letter naming register `i`. */
  function RegLetter(i: int): char
    requires 1 <= i <= 26
  {
    ('A' as int + i - 1) as char
  }

  /** The four spellings the classifier accepts for register `i`: RzX, zX, [RzX] and [zX]. */
  function RegSpellings(i: int): set<string>
    requires 1 <= i <= 26
  {
    var z := RegLetter(i);
    {['R', z, 'X'], [z, 'X'], ['[', 'R', z, 'X', ']'], ['[', z, 'X', ']']}
  }

  // ---------------------------------------------------------------------------
  // Label table (FindLabelAddress, AddLabel)
  // ---------------------------------------------------------------------------

  datatype LabelEntry = LabelEntry(name: string, address: int)

  /** FindLabelAddress: the address of the first entry carrying `name`, or NOT_FOUND. */
  function Lookup(table: seq<LabelEntry>, name: string): (r: int)
    ensures (forall i :: 0 <= i < |table| ==> table[i].name != name) ==> r == NOT_FOUND
    ensures forall i :: (0 <= i < |table| && table[i].name == name
                         && forall j :: 0 <= j < i ==> table[j].name != name) ==> r == table[i].address
  {
    if table == [] then NOT_FOUND
    else if table[0].name == name then table[0].address
    else Lookup(table[1..], name)
  }

  /** `strncpy` into a buffer of `n + 1` characters: the first `n` characters. */
  function Truncate(s: string, n: nat): (r: string)
    ensures |r| <= n && StartsWith(s, r)
    ensures |s| <= n ==> r == s
    ensures |s| > n ==> r == s[..n]
  {
    StartsWithSlice(s, if |s| <= n then s else s[..n]);
    if |s| <= n then s else s[..n]
  }

  /** AddLabel: the table after defining `name` at `address`, or None when the table is
      full or `name` is already bound. */
  function Define(table: seq<LabelEntry>, name: string, address: int): (r: Option<seq<LabelEntry>>)
  {
    if |table| >= LABELS_NUMBER then None
    else if Lookup(table, name) != NOT_FOUND then None
    else Some(table + [LabelEntry(Truncate(name, MAX_LABEL_LEN - 1), address)])
  }

  /** Every address in the table is a real word offset (so a hit is never mistaken for NOT_FOUND). */
  predicate AddressesValid(table: seq<LabelEntry>) {
    forall i :: 0 <= i < |table| ==> table[i].address >= 0
  }

  // ---------------------------------------------------------------------------
  // One line, one pass
  // ---------------------------------------------------------------------------

  /** What `sscanf(rest, ":%s", buf)` leaves in an initially empty buffer: the word after a
      `:` that must be the very first character (a literal in a scanf format skips no space). */
  function TargetName(rest: string): string {
    if |rest| > 0 && rest[0] == ':' then FirstWord(rest[1..]) else []
  }

  /** The lines the pass passes over: empty, starting with `;`, or whose first word starts with `;`. */
  predicate IsSkipped(line: string)
    requires line == [] || line[0] == ';' || HasWord(line)
  {
    line == [] || line[0] == ';' || ScanWord(line).0[0] == ';'
  }

  /** The first word of a line: the mnemonic, or `:name` for a label definition. */
  function Mnemonic(line: string): (w: string)
    requires HasWord(line)
    ensures |w| > 0
  {
    ScanWord(line).0
  }

  /** The text after the first word, cut at the first `;`: what ArgumentProcessing and the
      `:%s` scan of a branch target see. */
  function Operand(line: string): string
    requires HasWord(line)
  {
    CutComment(line[ScanWord(line).1..])
  }

  /** The fixed-size buffers the source scans into are not overrun, the line holds no NUL,
      and a non-empty line that is not a comment holds a word (a line of blanks makes the
      source reuse the previous line's scan state). */
  predicate LineFits(line: string) {
    && '\0' !in line
    && (line == [] || line[0] == ';' || HasWord(line))
    && (line == [] || line[0] == ';' || WordsFit(line))
  }

  /** The mnemonic fits its buffer and, unless it opens a comment, so does the operand word
      that ArgumentProcessing scans with `%s` when `%d` converts nothing. (A branch target
      is always empty, see AsmProps.TargetAlwaysEmpty, so it needs no bound.) */
  predicate WordsFit(line: string)
    requires HasWord(line)
  {
    var (tok, n) := ScanWord(line);
    && |tok| < MAX_INSTRUCT_LEN
    && (tok[0] != ';' ==>
          var rest := CutComment(line[n..]);
          ScanInt(rest).None? ==> |FirstWord(rest)| < MAX_LABEL_LEN)
  }

  /** The line as it stands after the pass overwrote its first `;` past the mnemonic with NUL. */
  function CutLine(line: string): string
    requires LineFits(line)
  {
    if IsSkipped(line) then line
    else
      var (tok, n) := ScanWord(line);
      line[..n] + CutComment(line[n..])
  }

  /** Every line as CutLine leaves it: the text the second pass reads. */
  function CutLines(lines: seq<string>): (r: seq<string>)
    requires AllFit(lines)
    ensures |r| == |lines|
  {
    if lines == [] then [] else CutLines(lines[..|lines| - 1]) + [CutLine(lines[|lines| - 1])]
  }

  /** Cutting a line leaves a line that fits, is skipped exactly when the original is, and
      is scanned to the same mnemonic and the same operand text. */
  lemma CutLineSame(line: string)
    requires LineFits(line)
    ensures LineFits(CutLine(line))
    ensures IsSkipped(CutLine(line)) == IsSkipped(line)
    ensures !IsSkipped(line) ==>
              var (tok, n) := ScanWord(line);
              ScanWord(CutLine(line)) == (tok, n)
              && CutComment(CutLine(line)[n..]) == CutComment(line[n..])
  {
    if !IsSkipped(line) {
      var (tok, n) := ScanWord(line);
      var c := CutComment(line[n..]);
      var cut := CutLine(line);
      assert cut == line[..n] + c;
      CommentCutPrefix(line, n);
      NotInPrefix(line, n + |c|, '\0');
      ScanWordPrefix(line, cut, n + |c|);
      assert cut[n..] == c;
    }
  }

  /** Cutting is idempotent: a cut line has no comment left to cut. */
  lemma CutLineTwice(line: string)
    requires LineFits(line)
    ensures LineFits(CutLine(line)) && CutLine(CutLine(line)) == CutLine(line)
  {
    CutLineSame(line);
    if !IsSkipped(line) {
      var (tok, n) := ScanWord(line);
      var cut := CutLine(line);
      var c := CutComment(line[n..]);
      assert cut == line[..n] + c;
      assert cut[n..] == c && cut[..n] == line[..n];
      assert CutComment(c) == c;
      assert CutLine(cut) == cut[..n] + CutComment(cut[n..]);
    }
  }

  /** The second pass leaves the lines as the first pass left them. */
  lemma CutLinesTwice(lines: seq<string>)
    requires AllFit(lines)
    ensures AllFit(CutLines(lines)) && CutLines(CutLines(lines)) == CutLines(lines)
  {
    CutLinesFit(lines);
    forall i | 0 <= i < |lines|
      ensures CutLines(CutLines(lines))[i] == CutLines(lines)[i]
    {
      CutLinesIndex(CutLines(lines), i);
      CutLinesIndex(lines, i);
      CutLineTwice(lines[i]);
    }
  }

  /** A pass over lines already cut, stopping after any number of them, leaves them as
      they are. */
  lemma CutLinesRecut(lines: seq<string>, k: nat)
    requires AllFit(lines) && k <= |lines|
    ensures AllFit(CutLines(lines)) && AllFit(CutLines(lines)[..k])
    ensures CutLines(CutLines(lines)[..k]) == CutLines(lines)[..k]
  {
    CutLinesFit(lines);
    CutLinesPrefix(lines, k);
    CutLinesTwice(lines[..k]);
  }

  /** However many of the cut lines a pass cuts again, the lines stay as they are. */
  lemma CutLinesResume(lines: seq<string>, k: nat)
    requires AllFit(lines) && k <= |lines|
    ensures AllFit(CutLines(lines)) && AllFit(CutLines(lines)[..k])
    ensures CutLines(CutLines(lines)[..k]) + CutLines(lines)[k..] == CutLines(lines)
  {
    CutLinesRecut(lines, k);
    var cut := CutLines(lines);
    JoinAt(cut, CutLines(cut[..k]), k);
  }

  /** Putting back the first `k` lines of a sequence after its rest gives the sequence. */
  lemma JoinAt(lines: seq<string>, head: seq<string>, k: nat)
    requires k <= |lines| && head == lines[..k]
    ensures head + lines[k..] == lines
  {
    assert lines[..k] + lines[k..] == lines;
  }

  /** Cutting the first `k` lines gives the first `k` cut lines. */
  lemma {:induction false} CutLinesPrefix(lines: seq<string>, k: nat)
    requires AllFit(lines) && k <= |lines|
    ensures AllFit(lines[..k]) && CutLines(lines[..k]) == CutLines(lines)[..k]
  {
    assert forall i | 0 <= i < k :: lines[..k][i] == lines[i];
    if k < |lines| {
      var init := lines[..|lines| - 1];
      assert init[..k] == lines[..k];
      CutLinesPrefix(init, k);
      assert CutLines(lines)[..k] == CutLines(init)[..k];
    } else {
      assert lines[..k] == lines;
    }
  }

  /** The cut lines still fit. */
  lemma CutLinesFit(lines: seq<string>)
    requires AllFit(lines)
    ensures AllFit(CutLines(lines))
  {
    forall i | 0 <= i < |lines|
      ensures LineFits(CutLines(lines)[i])
    {
      CutLinesIndex(lines, i);
      CutLineSame(lines[i]);
    }
  }

  /** The `i`-th cut line is the cut of the `i`-th line. */
  lemma CutLinesIndex(lines: seq<string>, i: int)
    requires AllFit(lines) && 0 <= i < |lines|
    ensures CutLines(lines)[i] == CutLine(lines[i])
  {
    if i < |lines| - 1 {
      CutLinesIndex(lines[..|lines| - 1], i);
    }
  }

  /** The code words one instruction emits and whether its operand was accepted. */
  datatype Encoded = Encoded(words: seq<int>, ok: bool)

  /** The codes whose operand must be absent: POP and ADD through OUT. */
  predicate IsVoidChecked(cmd: int) {
    cmd == POP_CMD || (ADD_CMD <= cmd <= OUT_CMD)
  }

  /** The codes that take a label operand: the six jumps and CALL. */
  predicate IsBranchCode(cmd: int) {
    cmd == CALL_CMD || (JMP_CMD <= cmd <= JAE_CMD)
  }

  /** The switch of TranslateAsmToByteCode for every code except MARK and the branches:
      the opcode word is written first, then the operand word if the kind is right. */
  function Encode(cmd: int, arg: Argument, x: MemCodes): (e: Encoded)
    requires ValidCodes(x)
    ensures |e.words| <= 2
    ensures |e.words| > 0 ==> e.words[0] == cmd
    ensures e.ok ==> |e.words| > 0
  {
    if cmd == PUSH_CMD then
      if arg.kind == Number then Encoded([cmd, arg.value], true) else Encoded([cmd], false)
    else if cmd == PUSHR_CMD || cmd == POPR_CMD then
      if arg.kind == Register then Encoded([cmd, arg.value], true) else Encoded([cmd], false)
    else if cmd == x.pushm || cmd == x.popm then
      if arg.kind == Register then Encoded([cmd, arg.value], true)
      else if arg.kind == Number then Encoded([cmd, arg.value + DIRECT_OFFSET], true)
      else Encoded([cmd], false)
    else if IsVoidChecked(cmd) then
      Encoded([cmd], arg.kind == Void)
    else if cmd == RET_CMD || cmd == HLT_CMD then
      Encoded([cmd], true)
    else
      Encoded([], false)
  }

  /** The state a pass carries from line to line. */
  datatype PassState = PassState(
    words: seq<int>,          // byte_code[..instruction_cnt]
    table: seq<LabelEntry>,   // labels[..labels_count]
    hlt: nat,                 // HLT_flag
    seen: nat,                // lines handled, the rejected one included
    failed: bool)             // a line was rejected; nothing after it is handled

  /** The switch of TranslateAsmToByteCode on the recognised code `cmd`. */
  function Dispatch(st: PassState, cmd: int, tok: string, rest: string, x: MemCodes): PassState
    requires ValidCodes(x) && |tok| > 0
  {
    if cmd == MARK_CMD then
      match Define(st.table, Truncate(tok[1..], MAX_LABEL_LEN - 1), |st.words|)
      case Some(t) => st.(table := t)
      case None => st.(failed := true)
    else if IsBranchCode(cmd) then
      var address := Lookup(st.table, TargetName(rest));
      if address != NOT_FOUND then st.(words := st.words + [cmd, address])
      else st.(words := st.words + [cmd], failed := true)
    else
      var e := Encode(cmd, Classify(rest), x);
      st.(words := st.words + e.words, failed := !e.ok,
          hlt := if cmd == HLT_CMD then st.hlt + 1 else st.hlt)
  }

  /** One iteration of the pass over `line`. */
  function Step(st: PassState, line: string, x: MemCodes): PassState
    requires ValidCodes(x) && LineFits(line)
  {
    var st1 := st.(seen := st.seen + 1);
    if IsSkipped(line) then st1
    else
      Dispatch(st1, Recognise(Mnemonic(line), x), Mnemonic(line), Operand(line), x)
  }

  predicate AllFit(lines: seq<string>) {
    forall i :: 0 <= i < |lines| ==> LineFits(lines[i])
  }

  /** TranslateAsmToByteCode as a fold: the state after the lines, from a table `t0`
      (the table is not reset between passes). */
  function Run(lines: seq<string>, x: MemCodes, t0: seq<LabelEntry>): (st: PassState)
    requires ValidCodes(x) && AllFit(lines)
    ensures st.seen <= |lines|
    ensures !st.failed ==> st.seen == |lines|
  {
    if lines == [] then PassState([], t0, 0, 0, false)
    else
      var st := Run(lines[..|lines| - 1], x, t0);
      if st.failed then st else Step(st, lines[|lines| - 1], x)
  }

  /** The pass returns SUCCESS_RESULT: no line was rejected and some HLT was emitted. */
  predicate Succeeded(st: PassState) {
    !st.failed && st.hlt > 0
  }

  /** AsmCodeToByteCode: two passes over the same lines, the label table carried over
      from the first; the second pass's words are the program. */
  function Assemble(lines: seq<string>, x: MemCodes, t0: seq<LabelEntry>): Option<seq<int>>
    requires ValidCodes(x) && AllFit(lines)
  {
    var p1 := Run(lines, x, t0);
    if !Succeeded(p1) then None
    else
      CutLinesFit(lines);
      var p2 := Run(CutLines(lines), x, p1.table);
      if Succeeded(p2) then Some(p2.words) else None
  }
}
