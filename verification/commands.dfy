/** The opcode catalogue shared by the assembler and the virtual machine.

    The catalogue is one ordered table; the position of an entry is the numeric
    code of its command, so the assembler and the machine agree on every code
    as long as both read the same table. */
module Commands {

  import opened Wrappers

  /** The kind of operand an instruction carries (ArgumentType). */
  datatype ArgType = Unknown | Void | Number | Register | LabelRef

  /** One command per catalogue entry, in catalogue order. */
  datatype Command =
    | Push | Pop | Add | Sub | Mul | Div | Pow | Sqrt | In | Out
    | PushR | PopR | Call | Ret | Jmp | Je | Jb | Ja | Jbe | Jae
    | Hlt | Mark | Label
  {
    /** The six control transfers that read a label operand. */
    predicate IsJump() {
      this == Jmp || this == Je || this == Jb || this == Ja || this == Jbe || this == Jae
    }
  }

  /** The machine routine bound to a command in the dispatch table. */
  datatype Handler =
    | ProcPush | ProcPop | ProcAdd | ProcSub | ProcMul | ProcDiv | ProcPow | ProcSqrt
    | ProcIn | ProcOut | ProcPushR | ProcPopR | ProcCall | ProcRet | ProcJump
    | ProcHlt | ProcMark | ProcLabel

  /** The catalogue order: the position of a command is its numeric code. */
  const Order: seq<Command> := [
    Push, Pop, Add, Sub, Mul, Div, Pow, Sqrt, In, Out, PushR, PopR,
    Call, Ret, Jmp, Je, Jb, Ja, Jbe, Jae, Hlt, Mark, Label
  ]

  /** The `_CMD` enum constants: each command's position in the catalogue. */
  const PUSH_CMD: int := 0
  const POP_CMD: int := 1
  const ADD_CMD: int := 2
  const SUB_CMD: int := 3
  const MUL_CMD: int := 4
  const DIV_CMD: int := 5
  const POW_CMD: int := 6
  const SQRT_CMD: int := 7
  const IN_CMD: int := 8
  const OUT_CMD: int := 9
  const PUSHR_CMD: int := 10
  const POPR_CMD: int := 11
  const CALL_CMD: int := 12
  const RET_CMD: int := 13
  const JMP_CMD: int := 14
  const JE_CMD: int := 15
  const JB_CMD: int := 16
  const JA_CMD: int := 17
  const JBE_CMD: int := 18
  const JAE_CMD: int := 19
  const HLT_CMD: int := 20
  const MARK_CMD: int := 21
  const LABEL_CMD: int := 22

  /** The enum value of a command: its position in the catalogue. */
  function Code(c: Command): (n: nat)
    ensures n < |Order| && Order[n] == c
  {
    match c
    case Push => PUSH_CMD
    case Pop => POP_CMD
    case Add => ADD_CMD
    case Sub => SUB_CMD
    case Mul => MUL_CMD
    case Div => DIV_CMD
    case Pow => POW_CMD
    case Sqrt => SQRT_CMD
    case In => IN_CMD
    case Out => OUT_CMD
    case PushR => PUSHR_CMD
    case PopR => POPR_CMD
    case Call => CALL_CMD
    case Ret => RET_CMD
    case Jmp => JMP_CMD
    case Je => JE_CMD
    case Jb => JB_CMD
    case Ja => JA_CMD
    case Jbe => JBE_CMD
    case Jae => JAE_CMD
    case Hlt => HLT_CMD
    case Mark => MARK_CMD
    case Label => LABEL_CMD
  }

  /** Every catalogue position is the code of the command stored there. */
  lemma CatalogueCodes(i: int)
    requires 0 <= i < |Order|
    ensures Code(Order[i]) == i
  {
    if i < 12 {
      if i < 6 {
        if i < 3 { assert i == 0 || i == 1 || i == 2; }
        else { assert i == 3 || i == 4 || i == 5; }
      } else {
        if i < 9 { assert i == 6 || i == 7 || i == 8; }
        else { assert i == 9 || i == 10 || i == 11; }
      }
    } else {
      if i < 18 {
        if i < 15 { assert i == 12 || i == 13 || i == 14; }
        else { assert i == 15 || i == 16 || i == 17; }
      } else {
        if i < 21 { assert i == 18 || i == 19 || i == 20; }
        else { assert i == 21 || i == 22; }
      }
    }
  }

  /** The command a bytecode word stands for, if any. */
  function FromCode(n: int): (r: Option<Command>)
    ensures r.Some? <==> 0 <= n < |Order|
    ensures r.Some? ==> Code(r.value) == n
  {
    if 0 <= n < |Order| then CatalogueCodes(n); Some(Order[n]) else None
  }

  /** Decoding a command's code gives the command back. */
  lemma FromCodeOfCode(c: Command)
    ensures FromCode(Code(c)) == Some(c)
  {
  }

  /** Distinct commands have distinct codes. */
  lemma CodesDistinct(c: Command, d: Command)
    ensures Code(c) == Code(d) <==> c == d
  {
  }

  /** The operand kind the catalogue expects for a command (third column of the table). */
  function Param(c: Command): (k: ArgType)
    ensures k == Number <==> c == Push
    ensures k == Register <==> c == PushR || c == PopR
    ensures k == LabelRef <==> c == Call || c.IsJump() || c == Mark
    ensures k != Unknown
  {
    match c
    case Push => Number
    case PushR | PopR => Register
    case Call | Jmp | Je | Jb | Ja | Jbe | Jae | Mark => LabelRef
    case _ => Void
  }

  /** The handler the dispatch table binds to a command (second column of the table). */
  function HandlerOf(c: Command): (h: Handler)
    ensures h == ProcJump <==> c.IsJump()
  {
    match c
    case Push => ProcPush   case Pop => ProcPop     case Add => ProcAdd
    case Sub => ProcSub     case Mul => ProcMul     case Div => ProcDiv
    case Pow => ProcPow     case Sqrt => ProcSqrt   case In => ProcIn
    case Out => ProcOut     case PushR => ProcPushR case PopR => ProcPopR
    case Call => ProcCall   case Ret => ProcRet     case Hlt => ProcHlt
    case Mark => ProcMark   case Label => ProcLabel
    case Jmp | Je | Jb | Ja | Jbe | Jae => ProcJump
  }

  /** Apart from the six jumps, which share ProcJump, every command has a handler of its own. */
  lemma HandlersDistinct(c: Command, d: Command)
    requires !c.IsJump() && c != d
    ensures HandlerOf(c) != HandlerOf(d)
  {
  }

  /** The mnemonic under which the catalogue lists a command (first column of the table). */
  function Name(c: Command): string
  {
    match c
    case Push => "PUSH"   case Pop => "POP"     case Add => "ADD"   case Sub => "SUB"
    case Mul => "MUL"     case Div => "DIV"     case Pow => "POW"   case Sqrt => "SQRT"
    case In => "IN"       case Out => "OUT"     case PushR => "PUSHR"
    case PopR => "POPR"   case Call => "CALL"   case Ret => "RET"   case Jmp => "JMP"
    case Je => "JE"       case Jb => "JB"       case Ja => "JA"     case Jbe => "JBE"
    case Jae => "JAE"     case Hlt => "HLT"     case Mark => "MARK" case Label => "LABEL"
  }

}
