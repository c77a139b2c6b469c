/** The virtual machine's opcode handlers (src/Processor/commands.cpp).

    Every handler runs after the dispatch loop has fetched the opcode word, so
    `ip` already points at the operand word, if the command has one. The
    operand stack and the return-address stack are sequences whose last element
    is the top; the stack library's own checks are not part of this model, so a
    handler requires the depth it reads. C `int` overflow is undefined
    behaviour: the handlers require that every value they compute fits in 32
    bits. */
module Processor {

  import opened Commands

  const INT_MIN: int := -0x8000_0000
  const INT_MAX: int := 0x7fff_ffff

  /** 2^64: `size_t` arithmetic is modulo this. */
  const SIZE_MODULUS: int := 0x1_0000_0000_0000_0000

  /** A value a C `int` can hold. */
  predicate IsInt(v: int) {
    INT_MIN <= v <= INT_MAX
  }

  function Abs(v: int): nat {
    if v < 0 then -v else v
  }

  /** The `(size_t)` cast of an `int`: a negative value wraps around modulo 2^64. */
  function ToSize(v: int): (n: nat)
    requires IsInt(v)
    ensures n < SIZE_MODULUS
    ensures (n - v) % SIZE_MODULUS == 0
    ensures v >= 0 ==> n == v
    ensures v < 0 ==> n > INT_MAX
  {
    if v < 0 then v + SIZE_MODULUS else v
  }

  /** StackTop: the top of a stack. */
  function StackTop(s: seq<int>): int
    requires |s| > 0
  {
    s[|s| - 1]
  }

  /** StackPop: the stack without its top. */
  function StackPop(s: seq<int>): seq<int>
    requires |s| > 0
  {
    s[..|s| - 1]
  }

  // ---------------------------------------------------------------------------
  // Arithmetic as C computes it
  // ---------------------------------------------------------------------------

  /** C's `/` on `int`: the quotient truncated toward zero. */
  function CDiv(a: int, b: int): int
    requires b != 0
  {
    if (a < 0) == (b < 0) then Abs(a) / Abs(b) else -(Abs(a) / Abs(b))
  }

  /** `CDiv` is truncating division: the remainder it leaves is smaller than the
      divisor in magnitude and is zero or has the sign of the dividend, which
      fixes the quotient uniquely (Euclidean division differs for a negative
      dividend). */
  lemma CDivTruncates(a: int, b: int)
    requires b != 0
    ensures var r := a - CDiv(a, b) * b;
      Abs(r) < Abs(b) && (r == 0 || (r < 0 <==> a < 0))
    ensures Abs(CDiv(a, b)) * Abs(b) <= Abs(a)
  {
    var aa: int, bb: int := Abs(a), Abs(b);
    var q := aa / bb;
    TruncatedQuotient(aa, bb);
    var c := CDiv(a, b);
    assert Abs(c) == q;
    assert c * b == (if a < 0 then -(q * bb) else q * bb) by {
      NegatedProduct(q, bb);
    }
  }

  /** Division of magnitudes: the remainder is below the divisor. */
  lemma TruncatedQuotient(aa: int, bb: int)
    requires aa >= 0 && bb > 0
    ensures aa / bb >= 0 && 0 <= aa - (aa / bb) * bb < bb
  {
  }

  lemma NegatedProduct(q: int, n: int)
    ensures q * -n == -(q * n) && (-q) * n == -(q * n) && (-q) * -n == q * n
  {
  }

  /** `x` multiplied by itself `e` times, starting from 1; 1 when `e <= 0`. */
  function Power(x: int, e: int): int
    decreases if e < 0 then 0 else e
  {
    if e <= 0 then 1 else Power(x, e - 1) * x
  }

  /** Exponents add: the law that makes `Power` exponentiation. */
  lemma {:induction false} PowerAdd(x: int, m: nat, n: nat)
    ensures Power(x, m + n) == Power(x, m) * Power(x, n)
  {
    if n > 0 {
      PowerAdd(x, m, n - 1);
      calc {
        Power(x, m + n);
        Power(x, m + n - 1) * x;
        Power(x, m) * Power(x, n - 1) * x;
        { assert Power(x, n) == Power(x, n - 1) * x; }
        Power(x, m) * Power(x, n);
      }
    }
  }

  /** The magnitude of a power is the power of the magnitude. */
  lemma {:induction false} PowerAbs(x: int, k: nat)
    ensures Abs(Power(x, k)) == Power(Abs(x), k)
  {
    if k > 0 {
      PowerAbs(x, k - 1);
      AbsProduct(Power(x, k - 1), x);
    }
  }

  lemma AbsProduct(p: int, x: int)
    ensures Abs(p * x) == Abs(p) * Abs(x)
  {
    NegatedProduct(p, x);
    NegatedProduct(-p, x);
  }

  /** Powers of a base of at least 2 grow strictly with the exponent. */
  lemma {:induction false} PowerGrows(y: nat, k: nat, e: nat)
    requires y >= 2 && k < e
    ensures 1 <= Power(y, k) < Power(y, e)
  {
    if k + 1 < e {
      PowerGrows(y, k, e - 1);
    } else {
      PowerAtLeastOne(y, k);
    }
    ProductGrows(Power(y, e - 1), y);
  }

  lemma ProductGrows(p: int, y: int)
    requires p >= 1 && y >= 2
    ensures p * y > p
  {
    assert p * y == p * (y - 2) + 2 * p;
  }

  lemma {:induction false} PowerAtLeastOne(y: nat, k: nat)
    requires y >= 1
    ensures Power(y, k) >= 1
  {
    if k > 0 {
      PowerAtLeastOne(y, k - 1);
      assert Power(y, k) == Power(y, k - 1) * y;
      assert Power(y, k - 1) * y >= Power(y, k - 1) * 1;
    }
  }

  lemma {:induction false} PowerSmallBase(y: nat, k: nat)
    requires y <= 1
    ensures Power(y, k) <= 1
  {
    if k > 0 {
      PowerSmallBase(y, k - 1);
      assert Power(y, k) == Power(y, k - 1) * y;
    }
  }

  /** If the final power fits in an `int`, so does every partial product the
      POW loop computes on the way: the loop cannot overflow early. */
  lemma PowerPrefixFits(x: int, e: nat, k: nat)
    requires k <= e && IsInt(Power(x, e))
    ensures IsInt(Power(x, k))
  {
    PowerAbs(x, k);
    PowerAbs(x, e);
    if Abs(x) <= 1 {
      PowerSmallBase(Abs(x), k);
    } else if k < e {
      PowerGrows(Abs(x), k, e);
    }
  }

  /** The integer part of the square root of `n`. */
  function FloorSqrt(n: nat): (r: nat)
    ensures r * r <= n < (r + 1) * (r + 1)
  {
    if n == 0 then 0
    else
      var s := FloorSqrt(n - 1);
      if (s + 1) * (s + 1) <= n then
        assert (s + 2) * (s + 2) == (s + 1) * (s + 1) + 2 * s + 3;
        s + 1
      else s
  }

  /** Whether the conditional jump `command` is taken with `a` below the top
      and `b` on top. The source tests JB, JA, JBE, JAE, JE in that order; each
      test also compares the opcode, so each jump takes exactly its own
      comparison, and any other opcode never jumps. */
  function Taken(command: int, a: int, b: int): (jump: bool)
    ensures command == JE_CMD ==> (jump <==> a == b)
    ensures command == JB_CMD ==> (jump <==> a < b)
    ensures command == JA_CMD ==> (jump <==> a > b)
    ensures command == JBE_CMD ==> (jump <==> a <= b)
    ensures command == JAE_CMD ==> (jump <==> a >= b)
    ensures command !in {JE_CMD, JB_CMD, JA_CMD, JBE_CMD, JAE_CMD} ==> !jump
  {
    if command == JB_CMD && a < b then true
    else if command == JA_CMD && a > b then true
    else if command == JBE_CMD && a <= b then true
    else if command == JAE_CMD && a >= b then true
    else command == JE_CMD && a == b
  }

  // ---------------------------------------------------------------------------
  // The machine
  // ---------------------------------------------------------------------------

  /** Processor_t: the loaded bytecode, the instruction pointer, both stacks,
      the register file and the RAM; console input and output are sequences. */
  class Processor {
    const code: seq<int>
    var ip: nat
    var stk: seq<int>
    var refund: seq<int>
    const regs: array<int>
    const ram: array<int>
    var input: seq<int>
    var output: seq<int>

    /** The register file and the RAM are separate arrays. */
    ghost predicate Valid()
      reads this
    {
      regs != ram
    }

    /** A machine at its start: `ip` 0, empty stacks, zeroed registers and RAM. */
    constructor (program: seq<int>, regsNumber: nat, ramSize: nat, stdin: seq<int>)
      ensures Valid()
      ensures code == program && ip == 0 && stk == [] && refund == []
      ensures input == stdin && output == []
      ensures fresh(regs) && fresh(ram)
      ensures regs.Length == regsNumber && ram.Length == ramSize
      ensures forall i :: 0 <= i < regs.Length ==> regs[i] == 0
      ensures forall i :: 0 <= i < ram.Length ==> ram[i] == 0
    {
      code := program;
      ip := 0;
      stk := [];
      refund := [];
      regs := new int[regsNumber](_ => 0);
      ram := new int[ramSize](_ => 0);
      input := stdin;
      output := [];
    }

    /** The dispatch loop's fetch: the word at `ip`, with `ip` moved past it. */
    method Fetch() returns (opcode: int)
      requires ip < |code|
      modifies this`ip
      ensures opcode == code[old(ip)] && ip == old(ip) + 1
    {
      opcode := code[ip];
      ip := ip + 1;
    }

    /** ProcPush: pushes the operand word and moves `ip` past it. */
    method Push()
      requires ip < |code|
      modifies this`stk, this`ip
      ensures stk == old(stk) + [code[old(ip)]]
      ensures ip == old(ip) + 1
    {
      stk := stk + [code[ip]];
      ip := ip + 1;
    }

    /** ProcPop: drops the top. */
    method Pop()
      requires |stk| > 0
      modifies this`stk
      ensures stk == old(stk[..|stk| - 1])
    {
      stk := StackPop(stk);
    }

    /** ProcAdd: replaces the two top values with their sum. */
    method Add()
      requires |stk| >= 2 && IsInt(stk[|stk| - 2] + stk[|stk| - 1])
      modifies this`stk
      ensures var s := old(stk); var n := |s|;
        stk == s[..n - 2] + [s[n - 2] + s[n - 1]]
    {
      var a := StackTop(stk);
      stk := StackPop(stk);
      var b := StackTop(stk);
      stk := StackPop(stk);
      stk := stk + [a + b];
    }

    /** ProcSub: `b` is the top, `a` the value below it; pushes `a - b`. */
    method Sub()
      requires |stk| >= 2 && IsInt(stk[|stk| - 2] - stk[|stk| - 1])
      modifies this`stk
      ensures var s := old(stk); var n := |s|;
        stk == s[..n - 2] + [s[n - 2] - s[n - 1]]
    {
      var b := StackTop(stk);
      stk := StackPop(stk);
      var a := StackTop(stk);
      stk := StackPop(stk);
      stk := stk + [a - b];
    }

    /** ProcMul: replaces the two top values with their product. */
    method Mul()
      requires |stk| >= 2 && IsInt(stk[|stk| - 2] * stk[|stk| - 1])
      modifies this`stk
      ensures var s := old(stk); var n := |s|;
        stk == s[..n - 2] + [s[n - 2] * s[n - 1]]
    {
      var a := StackTop(stk);
      stk := StackPop(stk);
      var b := StackTop(stk);
      stk := StackPop(stk);
      stk := stk + [a * b];
    }

    /** ProcDiv: pops `b`, then `a`, then checks `b != 0`; on a zero divisor the
        machine aborts (`ok` false) with both operands already gone, otherwise
        it pushes `a / b` truncated toward zero. */
    method Div() returns (ok: bool)
      requires |stk| >= 2
      requires stk[|stk| - 1] != 0 ==> IsInt(CDiv(stk[|stk| - 2], stk[|stk| - 1]))
      modifies this`stk
      ensures var s := old(stk); var n := |s|;
        (ok <==> s[n - 1] != 0) &&
        stk == s[..n - 2] + (if ok then [CDiv(s[n - 2], s[n - 1])] else [])
    {
      var b := StackTop(stk);
      stk := StackPop(stk);
      var a := StackTop(stk);
      stk := StackPop(stk);
      if b == 0 {
        return false;
      }
      stk := stk + [CDiv(a, b)];
      ok := true;
    }

    /** ProcPow: pops the exponent, then the base, and multiplies 1 by the base
        once per loop turn while the counter is below the exponent. */
    method Pow()
      requires |stk| >= 2
      requires IsInt(Power(stk[|stk| - 2], stk[|stk| - 1]))
      modifies this`stk
      ensures var s := old(stk); var n := |s|;
        stk == s[..n - 2] + [Power(s[n - 2], s[n - 1])]
    {
      var indicator := StackTop(stk);
      stk := StackPop(stk);
      var base := StackTop(stk);
      stk := StackPop(stk);
      var result := 1;
      var i := 0;
      ghost var rest := stk;
      while i < indicator
        invariant stk == rest
        invariant 0 <= i <= (if indicator > 0 then indicator else 0)
        invariant result == Power(base, i)
        invariant IsInt(result)
      {
        PowerPrefixFits(base, indicator, i + 1);
        result := result * base;
        i := i + 1;
      }
      assert result == Power(base, indicator) by {
        if indicator <= 0 { assert i == 0; } else { assert i == indicator; }
      }
      stk := stk + [result];
    }

    /** ProcSqrt: replaces the top with the integer part of its square root. */
    method Sqrt()
      requires |stk| > 0 && stk[|stk| - 1] >= 0 && IsInt(stk[|stk| - 1])
      modifies this`stk
      ensures var s := old(stk); var n := |s|;
        stk == s[..n - 1] + [FloorSqrt(s[n - 1])]
    {
      var a := StackTop(stk);
      stk := StackPop(stk);
      stk := stk + [FloorSqrt(a)];
    }

    /** ProcIn: pushes the next input number, or 0 when none can be read. */
    method In()
      modifies this`stk, this`input
      ensures old(input) == [] ==> stk == old(stk) + [0] && input == []
      ensures old(input) != [] ==> stk == old(stk) + [old(input)[0]] && input == old(input)[1..]
    {
      var number := 0;
      if input != [] {
        number := input[0];
        input := input[1..];
      }
      stk := stk + [number];
    }

    /** ProcOut: pops the top and writes it out. */
    method Out()
      requires |stk| > 0
      modifies this`stk, this`output
      ensures stk == old(stk[..|stk| - 1])
      ensures output == old(output) + [old(stk[|stk| - 1])]
    {
      var n := StackTop(stk);
      stk := StackPop(stk);
      output := output + [n];
    }

    /** ProcPushR: pushes the register named by the operand word. */
    method PushR()
      requires ip < |code| && 0 <= code[ip] < regs.Length
      modifies this`stk, this`ip
      ensures stk == old(stk) + [regs[code[old(ip)]]]
      ensures ip == old(ip) + 1
    {
      stk := stk + [regs[code[ip]]];
      ip := ip + 1;
    }

    /** ProcPopR: moves the top into the register named by the operand word;
        no other register changes. */
    method PopR()
      requires ip < |code| && 0 <= code[ip] < regs.Length && |stk| > 0
      modifies this`stk, this`ip, regs
      ensures regs[..] == old(regs[..])[code[old(ip)] := old(stk[|stk| - 1])]
      ensures stk == old(stk[..|stk| - 1])
      ensures ip == old(ip) + 1
    {
      var index := code[ip];
      ip := ip + 1;
      regs[index] := StackTop(stk);
      stk := StackPop(stk);
    }

    /** The operand word of PUSHM/POPM names a register holding a RAM address,
        and both indices are in bounds. */
    predicate Addresses(word: int)
      reads regs
    {
      0 <= word < regs.Length && 0 <= regs[word] < ram.Length
    }

    /** ProcPushM: the operand word is a register index; the register holds the
        RAM address whose cell is pushed. An index out of bounds aborts the
        machine (`ok` false) with nothing pushed. */
    method PushM() returns (ok: bool)
      requires ip < |code|
      modifies this`stk, this`ip
      ensures ip == old(ip) + 1
      ensures ok <==> Addresses(code[old(ip)])
      ensures ok ==> stk == old(stk) + [ram[regs[code[old(ip)]]]]
      ensures !ok ==> stk == old(stk)
    {
      var regIndex := code[ip];
      ip := ip + 1;
      if !(0 <= regIndex < regs.Length) {
        return false;
      }
      var ramIndex := regs[regIndex];
      if ramIndex < 0 || ramIndex >= ram.Length {
        return false;
      }
      stk := stk + [ram[ramIndex]];
      ok := true;
    }

    /** ProcPopM: the operand word is a register index; the register holds the
        RAM address that receives the popped top. The bounds are checked before
        the stack is read, and only that one cell is written. */
    method PopM() returns (ok: bool)
      requires Valid()
      requires ip < |code|
      requires Addresses(code[ip]) ==> |stk| > 0
      modifies this`stk, this`ip, ram
      ensures ip == old(ip) + 1
      ensures ok <==> Addresses(code[old(ip)])
      ensures ok ==> (stk == old(stk[..|stk| - 1]) &&
        ram[..] == old(ram[..])[old(regs[code[ip]]) := old(stk[|stk| - 1])])
      ensures !ok ==> stk == old(stk) && ram[..] == old(ram[..])
    {
      var regIndex := code[ip];
      ip := ip + 1;
      if !(0 <= regIndex < regs.Length) {
        return false;
      }
      var ramIndex := regs[regIndex];
      if ramIndex < 0 || ramIndex >= ram.Length {
        return false;
      }
      var value := StackTop(stk);
      stk := StackPop(stk);
      ram[ramIndex] := value;
      ok := true;
    }

    /** ProcJump, shared by JMP, JE, JB, JA, JBE and JAE: the opcode is the word
        before `ip` and the target is the operand word cast to `size_t`. JMP
        always jumps and leaves the stack alone; the others pop `b` (the top),
        then `a`, and jump when `Taken` says so, else continue after the
        operand. */
    method Jump()
      requires 1 <= ip < |code| && IsInt(code[ip])
      requires code[ip - 1] != JMP_CMD ==> |stk| >= 2
      modifies this`stk, this`ip
      ensures var command, target := old(code[ip - 1]), ToSize(old(code[ip]));
        if command == JMP_CMD then
          ip == target && stk == old(stk)
        else
          var s := old(stk); var n := |s|;
          stk == s[..n - 2] &&
          ip == (if Taken(command, s[n - 2], s[n - 1]) then target else old(ip) + 1)
    {
      var command := code[ip - 1];
      var index := ToSize(code[ip]);
      ip := ip + 1;
      if command == JMP_CMD {
        ip := index;
        return;
      }
      var b := StackTop(stk);
      stk := StackPop(stk);
      var a := StackTop(stk);
      stk := StackPop(stk);
      if Taken(command, a, b) {
        ip := index;
      }
    }

    /** ProcCall: pushes the address after the operand word onto the
        return-address stack and jumps to the operand. */
    method Call()
      requires ip < |code| && IsInt(code[ip]) && IsInt(ip + 1)
      modifies this`refund, this`ip
      ensures refund == old(refund) + [old(ip) + 1]
      ensures ip == ToSize(code[old(ip)])
    {
      refund := refund + [ip + 1];
      ip := ToSize(code[ip]);
    }

    /** ProcRet: jumps to the top of the return-address stack and pops it. */
    method Ret()
      requires |refund| > 0 && IsInt(refund[|refund| - 1])
      modifies this`refund, this`ip
      ensures ip == ToSize(old(refund[|refund| - 1]))
      ensures refund == old(refund[..|refund| - 1])
    {
      ip := ToSize(StackTop(refund));
      refund := StackPop(refund);
    }

    /** PUSH then POP: the stack is as before and `ip` is past the operand. */
    method PushThenPop()
      requires ip < |code|
      modifies this`stk, this`ip
      ensures stk == old(stk) && ip == old(ip) + 1
    {
      Push();
      Pop();
    }

    /** POPM then PUSHM through the same register: the value comes back onto
        the stack and stays stored in the addressed cell. */
    method StoreThenLoad() returns (ok: bool)
      requires Valid()
      requires ip + 2 < |code| && code[ip + 2] == code[ip]
      requires Addresses(code[ip]) && |stk| > 0
      modifies this`stk, this`ip, ram
      ensures ok && stk == old(stk) && ip == old(ip) + 3
      ensures ram[regs[code[old(ip)]]] == old(stk[|stk| - 1])
    {
      ok := PopM();
      var op := Fetch();
      ok := PushM();
    }

    /** A CALL whose callee returns at once: control resumes right after the
        CALL's operand and the return-address stack is as before. */
    method CallThenRet()
      requires ip < |code| && IsInt(code[ip]) && IsInt(ip + 1)
      modifies this`refund, this`ip
      ensures ip == old(ip) + 1 && refund == old(refund)
    {
      Call();
      Ret();
    }
  }

  // ---------------------------------------------------------------------------
  // Short programs run handler by handler
  // ---------------------------------------------------------------------------

  /** `PUSH 5`, `POPR RAX`, `PUSHR RAX`, `OUT`, `HLT` as the assembler encodes
      it (RAX is register 1) writes 5 and stops at the HLT. */
  method RegisterRoundTrip() returns (written: seq<int>, last: int)
    ensures written == [5] && last == HLT_CMD
  {
    var p := new Processor([PUSH_CMD, 5, POPR_CMD, 1, PUSHR_CMD, 1, OUT_CMD, HLT_CMD], 27, 100, []);
    var op := p.Fetch();
    assert op == PUSH_CMD;
    p.Push();
    op := p.Fetch();
    assert op == POPR_CMD;
    p.PopR();
    op := p.Fetch();
    assert op == PUSHR_CMD;
    p.PushR();
    op := p.Fetch();
    assert op == OUT_CMD;
    p.Out();
    last := p.Fetch();
    written := p.output;
  }

  /** `CALL 3`, `HLT`, `RET`: the call enters the subroutine at word 3, the
      return comes back to the HLT at word 2 and the return-address stack ends
      empty. */
  method CallAndReturn() returns (last: int, depth: nat)
    ensures last == HLT_CMD && depth == 0
  {
    var p := new Processor([CALL_CMD, 3, HLT_CMD, RET_CMD], 27, 100, []);
    var op := p.Fetch();
    assert op == CALL_CMD;
    p.Call();
    op := p.Fetch();
    assert op == RET_CMD;
    p.Ret();
    last := p.Fetch();
    depth := |p.refund|;
  }

  /** `PUSHM [address]` with a numeric operand, which the assembler emits as
      the address plus 100 after the PUSHM opcode word `pushm`: the machine
      reads that word as a register index, so with 27 registers it aborts. */
  method DirectAddressAborts(pushm: int, address: nat) returns (ok: bool)
    ensures !ok
  {
    var p := new Processor([pushm, address + 100], 27, 100, []);
    var op := p.Fetch();
    ok := p.PushM();
  }
}
