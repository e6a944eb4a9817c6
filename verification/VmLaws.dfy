/** What the instructions compute, stated on the machine's stack, memory and results: laws of
    one-instruction codes and of small programs, told apart from the way they are computed. */
module VmLaws {
  import opened Arithmetic
  import opened Options
  import opened Words
  import opened Vm
  import opened VmRuns

  // ---------- Two operands, one result ----------

  /** What running a one-instruction code leaves of the operands a and b, b on top. */
  function Computed(env: Env, op: byte, a: int, b: int): Option<int> {
    var out := Run(env, [op], Initial(map[]).(stack := [a, b]), GasCost(op));
    if out.error == None && |out.core.stack| == 1 then Some(out.core.stack[0]) else None
  }

  lemma ComputedBinary(env: Env, op: byte, a: int, b: int)
    requires IsBinary(op)
    ensures Computed(env, op, a, b) == Binary(op, a, b)
  {
    var c := Initial(map[]).(stack := [a, b]);
    var v := Binary(op, a, b);
    assert Exec(env, [op], op, c, 0) == if v.None? then Fail(c, Unspecified) else Continue(Pushed(c, 0, v.value));
    if v.Some? {
      Turn(env, [op], c, GasCost(op), Pushed(c, 0, v.value));
    }
  }

  /** ADD counts up, SUB takes away what was added. */
  lemma AdditionLaw(env: Env, a: int, b: int)
    ensures Computed(env, ADD, a, 0) == Some(a)
    ensures Computed(env, ADD, a, b).Some? && Computed(env, ADD, a, b + 1) == Some(Computed(env, ADD, a, b).value + 1)
    ensures Computed(env, SUB, Computed(env, ADD, a, b).value, b) == Some(a)
  {
    ComputedBinary(env, ADD, a, 0);
    ComputedBinary(env, ADD, a, b);
    ComputedBinary(env, ADD, a, b + 1);
    ComputedBinary(env, SUB, a + b, b);
  }

  /** MUL adds up. */
  lemma ProductLaw(env: Env, a: int, b: int)
    ensures Computed(env, MUL, a, 0) == Some(0)
    ensures Computed(env, MUL, a, b).Some? && Computed(env, MUL, a, b + 1) == Some(Computed(env, MUL, a, b).value + a)
  {
    ComputedBinary(env, MUL, a, 0);
    ComputedBinary(env, MUL, a, b);
    ComputedBinary(env, MUL, a, b + 1);
  }

  /** DIV and MOD are quotient and remainder of one division, the remainder never negative;
      by zero both are zero. */
  lemma DivisionLaw(env: Env, a: int, b: int)
    ensures Computed(env, DIV, a, b).Some? && Computed(env, MOD, a, b).Some?
    ensures var q, r := Computed(env, DIV, a, b).value, Computed(env, MOD, a, b).value;
      if b == 0 then q == 0 && r == 0 else a == b * q + r && 0 <= r < Abs(b)
  {
    ComputedBinary(env, DIV, a, b);
    ComputedBinary(env, MOD, a, b);
  }

  /** LT, GT and EQ tell a number from any greater one, and from itself. */
  lemma OrderLaw(env: Env, a: int, d: nat)
    requires d > 0
    ensures Computed(env, LT, a, a + d) == Some(1) && Computed(env, LT, a + d, a) == Some(0)
    ensures Computed(env, GT, a, a + d) == Some(0) && Computed(env, GT, a + d, a) == Some(1)
    ensures Computed(env, EQ, a, a + d) == Some(0) && Computed(env, EQ, a + d, a) == Some(0)
    ensures Computed(env, LT, a, a) == Some(0) && Computed(env, GT, a, a) == Some(0)
    ensures Computed(env, EQ, a, a) == Some(1)
  {
    forall op | op in {LT, GT, EQ}
      ensures Computed(env, op, a, a + d) == Binary(op, a, a + d)
      ensures Computed(env, op, a + d, a) == Binary(op, a + d, a)
      ensures Computed(env, op, a, a) == Binary(op, a, a)
    {
      ComputedBinary(env, op, a, a + d);
      ComputedBinary(env, op, a + d, a);
      ComputedBinary(env, op, a, a);
    }
  }

  lemma Doubled(v: int, p: nat)
    ensures v * (2 * p) == 2 * (v * p)
  {
  }

  /** SHL doubles once for each unit of its lower operand, SHR undoes it and rounds down what it
      cannot divide. */
  lemma ShiftLaw(env: Env, shift: nat, v: int)
    requires shift + 1 < UINT64
    ensures Computed(env, SHL, 0, v) == Some(v)
    ensures Computed(env, SHL, shift, v).Some?
    ensures Computed(env, SHL, shift + 1, v) == Some(2 * Computed(env, SHL, shift, v).value)
    ensures Computed(env, SHR, shift, Computed(env, SHL, shift, v).value) == Some(v)
    ensures Computed(env, SHR, shift, v).Some?
    ensures var p, q := Computed(env, SHL, shift, 1).value, Computed(env, SHR, shift, v).value;
      p * q <= v < p * q + p
  {
    var p := Pow2(shift);
    ComputedBinary(env, SHL, 0, v);
    ComputedBinary(env, SHL, shift, v);
    ComputedBinary(env, SHL, shift + 1, v);
    ComputedBinary(env, SHL, shift, 1);
    ComputedBinary(env, SHR, shift, v * p);
    ComputedBinary(env, SHR, shift, v);
    assert v * p == p * v;
    Quotient(v * p, p, v, 0);
    Doubled(v, p);
  }

  /** AND, OR and XOR act bit by bit on integers of unbounded two's complement. */
  lemma BitLaw(env: Env, a: int, b: int, k: nat)
    ensures Computed(env, AND, a, b).Some? && Computed(env, OR, a, b).Some? && Computed(env, XOR, a, b).Some?
    ensures BitAt(Computed(env, AND, a, b).value, k) == 1 <==> BitAt(a, k) == 1 && BitAt(b, k) == 1
    ensures BitAt(Computed(env, OR, a, b).value, k) == 1 <==> BitAt(a, k) == 1 || BitAt(b, k) == 1
    ensures BitAt(Computed(env, XOR, a, b).value, k) == 1 <==> BitAt(a, k) != BitAt(b, k)
  {
    ComputedBinary(env, AND, a, b);
    ComputedBinary(env, OR, a, b);
    ComputedBinary(env, XOR, a, b);
    BitwiseBits(BitAnd, a, b, k);
    BitwiseBits(BitOr, a, b, k);
    BitwiseBits(BitXor, a, b, k);
  }

  lemma {:induction false} ComplementBits(v: int, k: nat)
    ensures 0 <= BitAt(v, k) <= 1 && BitAt(-v - 1, k) == 1 - BitAt(v, k)
    decreases k
  {
    if k == 0 {
    } else {
      assert (-v - 1) / 2 == -(v / 2) - 1;
      ComplementBits(v / 2, k - 1);
    }
  }

  // ---------- The stack ----------

  /** PUSH1 and PUSH32 put the bytes that follow them on the stack as a big-endian number and
      step over them; NOT turns every bit of the top slot round, DUP repeats it, POP drops it,
      SWAP exchanges the two top slots. */
  lemma StackLaw(env: Env, code: seq<byte>, c: Core, below: seq<int>, x: int, y: int, k: nat, g: nat)
    requires c.stack == below + [x, y]
    ensures c.pc + 1 < |code| ==>
      Exec(env, code, PUSH1, c, g) == Continue(c.(pc := c.pc + 2, stack := below + [x, y, code[c.pc + 1]]))
    ensures c.pc + 32 < |code| ==>
      Exec(env, code, PUSH32, c, g)
      == Continue(c.(pc := c.pc + 33, stack := below + [x, y, FromBytes(code[c.pc + 1..c.pc + 33])]))
    ensures var e := Exec(env, code, NOT, c, g);
      && e.Continue? && e.core == c.(pc := c.pc + 1, stack := below + [x, e.core.stack[|below| + 1]])
      && BitAt(e.core.stack[|below| + 1], k) == 1 - BitAt(y, k)
    ensures Exec(env, code, DUP, c, g) == Continue(c.(pc := c.pc + 1, stack := below + [x, y, y]))
    ensures Exec(env, code, POP, c, g) == Continue(c.(pc := c.pc + 1, stack := below + [x]))
    ensures Exec(env, code, SWAP, c, g) == Continue(c.(pc := c.pc + 1, stack := below + [y, x]))
  {
    var n := |c.stack|;
    assert c.stack[..n - 2] == below && c.stack[..n - 1] == below + [x];
    assert c.stack[n - 2] == x && c.stack[n - 1] == y;
    ComplementBits(y, k);
  }

  /** A PUSH whose bytes the code does not have is an invalid instruction. */
  lemma PushTruncated(env: Env, code: seq<byte>, c: Core, g: nat)
    ensures c.pc + 1 >= |code| ==> Exec(env, code, PUSH1, c, g) == Fail(c, InvalidOpcode)
    ensures c.pc + 32 >= |code| ==> Exec(env, code, PUSH32, c, g) == Fail(c, InvalidOpcode)
  {
  }

  /** The slots an instruction takes. */
  function Operands(op: byte): nat {
    if op in {ADD, SUB, MUL, DIV, MOD, LT, GT, EQ, AND, OR, XOR, SHL, SHR, SWAP, MSTORE, SSTORE, JUMPI,
              RETURN, REVERT, LOG0, SHA3} then 2
    else if op in {NOT, POP, DUP, MLOAD, SLOAD, JUMP, BALANCE} then 1
    else if op == LOG1 then 3
    else if op == CALL then 7
    else 0
  }

  /** The slots it leaves in their place. */
  function Results(op: byte): nat {
    if op in {DUP, SWAP} then 2
    else if op in {POP, MSTORE, SSTORE, JUMP, JUMPI, JUMPDEST, RETURN, REVERT, LOG0, LOG1, STOP} then 0
    else 1
  }

  const OPCODES: set<byte> := {
    STOP, ADD, SUB, MUL, DIV, MOD, LT, GT, EQ, AND, OR, NOT, XOR, SHL, SHR, PUSH1, PUSH32, POP, DUP, SWAP,
    MLOAD, MSTORE, SLOAD, SSTORE, JUMP, JUMPI, JUMPDEST, PC, GAS, CALL, RETURN, REVERT, LOG0, LOG1,
    ORIGIN, CALLER, CALLVALUE, ADDRESS, BALANCE, BLOCKNUMBER, TIMESTAMP, SHA3}

  /** An instruction underflows exactly when there are fewer slots than it takes. */
  lemma UnderflowLaw(env: Env, code: seq<byte>, op: byte, c: Core, g: nat)
    requires op in OPCODES
    ensures var e := Exec(env, code, op, c, g);
      e.Fail? && e.error == StackUnderflow <==> |c.stack| < Operands(op)
  {
  }

  /** An instruction that lets the loop go on replaces its operands by its results and touches no
      slot below them. */
  lemma StackEffect(env: Env, code: seq<byte>, op: byte, c: Core, g: nat)
    requires op in OPCODES && Exec(env, code, op, c, g).Continue? && |c.stack| >= Operands(op)
    ensures var e, kept := Exec(env, code, op, c, g), |c.stack| - Operands(op);
      |e.core.stack| == kept + Results(op) && e.core.stack[..kept] == c.stack[..kept]
  {
  }

  /** Every instruction but the jumps and pushes steps by one; memory, logs and return data are
      touched by the instructions that are for it and by no other. */
  lemma FrameLaw(env: Env, code: seq<byte>, op: byte, c: Core, g: nat)
    ensures var e := Exec(env, code, op, c, g);
      && (e.Continue? && op !in {JUMP, JUMPI, PUSH1, PUSH32} ==> e.core.pc == c.pc + 1)
      && (op !in {MLOAD, MSTORE, RETURN, REVERT, LOG0, LOG1, SHA3} ==> e.core.memory == c.memory)
      && (op !in {LOG0, LOG1} ==> e.core.logs == c.logs)
      && (op !in {RETURN, REVERT} ==> e.core.returnData == c.returnData)
  {
  }

  /** The outcome is left open. */
  predicate Open(e: Effect) {
    e.Fail? && e.error == Unspecified
  }

  /** It is for a shift or a jump whose lower operand is no 64-bit word. */
  lemma OpenWords(env: Env, code: seq<byte>, op: byte, c: Core, below: seq<int>, x: int, y: int, g: nat)
    requires c.stack == below + [x, y]
    ensures op == SHL || op == SHR ==> (Open(Exec(env, code, op, c, g)) <==> x < 0 || x >= 18_446_744_073_709_551_616)
    ensures op == JUMP ==> (Open(Exec(env, code, op, c, g)) <==> y < 0 || y >= 18_446_744_073_709_551_616)
  {
  }

  /** It is for a range that starts below or ends beyond the 64 KB of memory. */
  lemma OpenRanges(env: Env, code: seq<byte>, op: byte, c: Core, below: seq<int>, off: int, size: int, g: nat)
    requires c.stack == below + [off, size] && op in {RETURN, REVERT, LOG0, SHA3}
    ensures Open(Exec(env, code, op, c, g)) <==> off < 0 || size < 0 || off + size > 65536
  {
  }

  /** It is for a word that does, and for storing a number that is no word. */
  lemma OpenAccesses(env: Env, code: seq<byte>, c: Core, below: seq<int>, x: int, y: int, g: nat)
    requires c.stack == below + [x, y]
    ensures Open(Exec(env, code, MLOAD, c, g)) <==> y < 0 || y + 32 > 65536
    ensures Open(Exec(env, code, MSTORE, c, g)) <==> x < 0 || x + 32 > 65536 || Abs(y) >= Pow256(32)
  {
    BytesLength(Abs(y), WORD_SIZE);
  }

  /** Any other byte is an invalid instruction, and changes nothing. */
  lemma UnknownOpcode(env: Env, code: seq<byte>, op: byte, c: Core, g: nat)
    requires op !in OPCODES
    ensures op == 0x0f || 0x15 <= op <= 0x1f || 0x22 <= op <= 0x2f || 0x32 <= op <= 0x3f || 0x45 <= op <= 0x4f
         || 0x53 <= op <= 0x5f || 0x62 <= op <= 0x6f || 0x77 <= op <= 0x7f || 0x81 <= op
    ensures Exec(env, code, op, c, g) == Fail(c, InvalidOpcode)
  {
  }

  /** The gas table, price by price. */
  lemma Prices(op: byte)
    ensures GasCost(op) == 0 <==> op in {STOP, RETURN, REVERT}
    ensures GasCost(op) == 3 <==> op in {ADD, SUB, LT, GT, EQ, AND, OR, NOT, XOR, SHL, SHR, PUSH1, PUSH32, POP, DUP,
                                         SWAP, MLOAD, MSTORE}
    ensures GasCost(op) == 5 <==> op in {MUL, DIV, MOD}
    ensures GasCost(op) == 8 <==> op in {JUMP, JUMPI, JUMPDEST}
    ensures GasCost(op) == 30 <==> op == SHA3
    ensures GasCost(op) == 200 <==> op == SLOAD
    ensures GasCost(op) == 375 <==> op == LOG0
    ensures GasCost(op) == 700 <==> op == CALL
    ensures GasCost(op) == 750 <==> op == LOG1
    ensures GasCost(op) == 5000 <==> op == SSTORE
    ensures GasCost(op) in {0, 1, 3, 5, 8, 30, 200, 375, 700, 750, 5000}
  {
  }

  lemma {:induction false} NeverTooLarge(env: Env, code: seq<byte>, c: Core, g: nat)
    ensures Run(env, code, c, g).error != Some(CodeTooLarge)
    decreases g
  {
    if c.pc < |code| && GasCost(code[c.pc]) <= g {
      var e := Exec(env, code, code[c.pc], c, g - GasCost(code[c.pc]));
      if e.Continue? {
        NeverTooLarge(env, code, e.core, g - GasCost(code[c.pc]));
      }
    }
  }

  /** A call gets ten million units of gas at most, and a code of more than 24 KB is not run. */
  lemma CallLimits(env: Env, code: seq<byte>, storage: Storage, limit: nat)
    ensures limit >= 10_000_000 ==> Execute(env, code, storage, limit) == Execute(env, code, storage, 10_000_000)
    ensures |code| > 24576 ==>
      Execute(env, code, storage, limit) == Result(false, [], 0, [], Some(CodeTooLarge), storage)
    ensures |code| <= 24576 ==> Execute(env, code, storage, limit).error != Some(CodeTooLarge)
  {
    NeverTooLarge(env, code, Initial(storage), Clamp(limit));
  }

  // ---------- Control ----------

  /** JUMP goes to a JUMPDEST inside the code or fails as an invalid jump. */
  lemma JumpLaw(env: Env, code: seq<byte>, c: Core, below: seq<int>, dest: nat, g: nat)
    requires c.stack == below + [dest] && dest < UINT64
    ensures var e := Exec(env, code, JUMP, c, g);
      if dest < |code| && code[dest] == JUMPDEST
      then e == Continue(c.(pc := dest, stack := below))
      else e.Fail? && e.error == InvalidJump
  {
    assert c.stack[..|below|] == below;
  }

  /** JUMPI with a zero condition goes on behind itself, wherever it might have jumped; with any
      other it does what JUMP does. */
  lemma ConditionLaw(env: Env, code: seq<byte>, c: Core, below: seq<int>, dest: int, condition: int, g: nat)
    requires c.stack == below + [dest, condition]
    ensures condition == 0 ==> Exec(env, code, JUMPI, c, g) == Continue(c.(pc := c.pc + 1, stack := below))
    ensures condition != 0 && 0 <= dest < UINT64 ==>
      var e := Exec(env, code, JUMPI, c, g);
      if dest < |code| && code[dest] == JUMPDEST
      then e == Continue(c.(pc := dest, stack := below))
      else e.Fail? && e.error == InvalidJump
  {
    assert c.stack[..|below|] == below;
  }

  /** STOP and the end of the code end the call as a success. */
  lemma Stops(env: Env, code: seq<byte>, c: Core, g: nat)
    requires c.pc >= |code| || code[c.pc] == STOP
    ensures Run(env, code, c, g) == VmRuns.Outcome(c, g, None)
  {
  }

  /** Stores a or b under key 0, as the comparison of a with b decides. */
  function Choice(comparison: byte, a: byte, b: byte): seq<byte> {
    [PUSH1, 14, PUSH1, a, PUSH1, b, comparison, JUMPI,
     PUSH1, 0, PUSH1, b, SSTORE, STOP,
     JUMPDEST, PUSH1, 0, PUSH1, a, SSTORE]
  }

  lemma PushTurn(env: Env, code: seq<byte>, c: Core, g: nat)
    requires c.pc + 1 < |code| && code[c.pc] == PUSH1 && g >= 3
    ensures Run(env, code, c, g) == Run(env, code, c.(pc := c.pc + 2, stack := c.stack + [code[c.pc + 1]]), g - 3)
  {
    Turn(env, code, c, g, c.(pc := c.pc + 2, stack := c.stack + [code[c.pc + 1]]));
  }

  /** PUSH1 0; PUSH1 x; SSTORE. */
  lemma StoreTurns(env: Env, code: seq<byte>, c: Core, x: byte, g: nat)
    requires c.pc + 5 <= |code| && code[c.pc..c.pc + 5] == [PUSH1, 0, PUSH1, x, SSTORE] && c.stack == [] && g >= 5006
    ensures Run(env, code, c, g)
         == Run(env, code, c.(pc := c.pc + 5, storage := c.storage[EncodeWord(0) := EncodeWord(x)]), g - 5006)
  {
    var at := code[c.pc..c.pc + 5];
    assert code[c.pc] == at[0] && code[c.pc + 1] == at[1] && code[c.pc + 2] == at[2] && code[c.pc + 3] == at[3]
        && code[c.pc + 4] == at[4];
    PushTurn(env, code, c, g);
    var c1 := c.(pc := c.pc + 2, stack := [0]);
    PushTurn(env, code, c1, g - 3);
    var c2 := c.(pc := c.pc + 4, stack := [0, x]);
    Turn(env, code, c2, g - 6, c.(pc := c.pc + 5, storage := c.storage[EncodeWord(0) := EncodeWord(x)]));
  }

  lemma CompareTurn(env: Env, code: seq<byte>, c: Core, below: seq<int>, a: int, b: int, v: int, g: nat)
    requires c.pc < |code| && code[c.pc] in {LT, GT} && c.stack == below + [a, b] && g >= 3
    requires Binary(code[c.pc], a, b) == Some(v)
    ensures Run(env, code, c, g) == Run(env, code, c.(pc := c.pc + 1, stack := below + [v]), g - 3)
  {
    assert c.stack[..|below|] == below;
    Turn(env, code, c, g, c.(pc := c.pc + 1, stack := below + [v]));
  }

  lemma FallTurn(env: Env, code: seq<byte>, c: Core, below: seq<int>, dest: int, g: nat)
    requires c.pc < |code| && code[c.pc] == JUMPI && c.stack == below + [dest, 0] && g >= 8
    ensures Run(env, code, c, g) == Run(env, code, c.(pc := c.pc + 1, stack := below), g - 8)
  {
    ConditionLaw(env, code, c, below, dest, 0, g - 8);
    Turn(env, code, c, g, c.(pc := c.pc + 1, stack := below));
  }

  /** A jump that is taken, and the JUMPDEST it lands on. */
  lemma LeapTurns(env: Env, code: seq<byte>, c: Core, below: seq<int>, dest: nat, g: nat)
    requires c.pc < |code| && code[c.pc] == JUMPI && c.stack == below + [dest, 1] && g >= 16
    requires dest < |code| && dest < UINT64 && code[dest] == JUMPDEST
    ensures Run(env, code, c, g) == Run(env, code, c.(pc := dest + 1, stack := below), g - 16)
  {
    ConditionLaw(env, code, c, below, dest, 1, g - 8);
    Turn(env, code, c, g, c.(pc := dest, stack := below));
    Turn(env, code, c.(pc := dest, stack := below), g - 8, c.(pc := dest + 1, stack := below));
  }

  /** The instructions before the jump leave the destination and the outcome of the comparison. */
  lemma ChoiceCompares(env: Env, comparison: byte, a: byte, b: byte, v: int, g: nat)
    requires comparison in {LT, GT} && Binary(comparison, a, b) == Some(v) && g >= 12
    ensures Run(env, Choice(comparison, a, b), Initial(map[]), g)
         == Run(env, Choice(comparison, a, b), Initial(map[]).(pc := 7, stack := [14, v]), g - 12)
  {
    hide Run;
    hide Exec;
    var code, c := Choice(comparison, a, b), Initial(map[]);
    var c1, c2, c3 := c.(pc := 2, stack := [14]), c.(pc := 4, stack := [14, a]), c.(pc := 6, stack := [14, a, b]);
    assert c.stack + [14] == c1.stack && c1.stack + [a] == c2.stack && c2.stack + [b] == c3.stack;
    PushTurn(env, code, c, g);
    PushTurn(env, code, c1, g - 3);
    PushTurn(env, code, c2, g - 6);
    CompareTurn(env, code, c3, [14], a, b, v, g - 9);
    assert [14] + [v] == [14, v];
  }

  lemma ChoiceFalls(env: Env, comparison: byte, a: byte, b: byte, g: nat)
    requires comparison in {LT, GT} && Binary(comparison, a, b) == Some(0) && g >= 5026
    ensures Run(env, Choice(comparison, a, b), Initial(map[]), g)
         == VmRuns.Outcome(Initial(map[]).(pc := 13, storage := map[EncodeWord(0) := EncodeWord(b)]), g - 5026, None)
  {
    hide Run;
    hide Exec;
    var code, c := Choice(comparison, a, b), Initial(map[]);
    ChoiceCompares(env, comparison, a, b, 0, g);
    FallTurn(env, code, c.(pc := 7, stack := [14, 0]), [], 14, g - 12);
    StoreTurns(env, code, c.(pc := 8), b, g - 20);
    Stops(env, code, c.(pc := 13, storage := map[EncodeWord(0) := EncodeWord(b)]), g - 5026);
  }

  lemma ChoiceJumps(env: Env, comparison: byte, a: byte, b: byte, g: nat)
    requires comparison in {LT, GT} && Binary(comparison, a, b) == Some(1) && g >= 5034
    ensures Run(env, Choice(comparison, a, b), Initial(map[]), g)
         == VmRuns.Outcome(Initial(map[]).(pc := 20, storage := map[EncodeWord(0) := EncodeWord(a)]), g - 5034, None)
  {
    hide Run;
    hide Exec;
    var code, c := Choice(comparison, a, b), Initial(map[]);
    ChoiceCompares(env, comparison, a, b, 1, g);
    LeapTurns(env, code, c.(pc := 7, stack := [14, 1]), [], 14, g - 12);
    StoreTurns(env, code, c.(pc := 15), a, g - 28);
    Stops(env, code, c.(pc := 20, storage := map[EncodeWord(0) := EncodeWord(a)]), g - 5034);
  }

  /** With GT the program stores the greater of the two, with LT the smaller. */
  lemma ChoiceLaw(env: Env, a: byte, b: byte, limit: nat)
    requires limit >= 5034
    ensures var more := Execute(env, Choice(GT, a, b), map[], limit);
      more == Result(true, [], if a > b then 5034 else 5026, [], None,
                     map[EncodeWord(0) := EncodeWord(if a >= b then a else b)])
    ensures var less := Execute(env, Choice(LT, a, b), map[], limit);
      less == Result(true, [], if a < b then 5034 else 5026, [], None,
                     map[EncodeWord(0) := EncodeWord(if a <= b then a else b)])
  {
    if a > b {
      ChoiceJumps(env, GT, a, b, Clamp(limit));
      ChoiceFalls(env, LT, a, b, Clamp(limit));
    } else if a < b {
      ChoiceFalls(env, GT, a, b, Clamp(limit));
      ChoiceJumps(env, LT, a, b, Clamp(limit));
    } else {
      ChoiceFalls(env, GT, a, b, Clamp(limit));
      ChoiceFalls(env, LT, a, b, Clamp(limit));
    }
  }

  // ---------- Ranges of memory ----------

  /** The bytes of memory from off on; memory not yet grown reads as zero. */
  ghost predicate Reads(memory: seq<byte>, off: nat, data: seq<byte>) {
    forall k | 0 <= k < |data| :: data[k] == if off + k < |memory| then memory[off + k] else 0
  }

  /** RETURN and REVERT hand over the range below the top slot's size, one as success and one
      as failure; neither touches storage or logs. */
  lemma ReturnLaw(env: Env, code: seq<byte>, c: Core, below: seq<int>, off: nat, size: nat, g: nat)
    requires c.stack == below + [off, size] && off + size <= MAX_MEMORY
    ensures var e := Exec(env, code, RETURN, c, g);
      && e.Stop? && |e.core.returnData| == size && Reads(c.memory, off, e.core.returnData)
      && e.core.storage == c.storage && e.core.logs == c.logs
    ensures var e := Exec(env, code, REVERT, c, g);
      && e.Fail? && e.error == ExecutionReverted
      && |e.core.returnData| == size && Reads(c.memory, off, e.core.returnData)
      && e.core.storage == c.storage && e.core.logs == c.logs
  {
    assert c.stack[|c.stack| - 2] == off && c.stack[|c.stack| - 1] == size;
  }

  /** The log that an instruction appended, if it appended one and changed nothing else that
      outlives the call. */
  ghost predicate Logged(e: Effect, c: Core, address: seq<byte>, topics: seq<seq<byte>>, off: nat, size: nat) {
    && e.Continue? && |e.core.logs| == |c.logs| + 1 && e.core.logs[..|c.logs|] == c.logs
    && e.core.storage == c.storage && e.core.returnData == c.returnData && e.core.pc == c.pc + 1
    && var log := e.core.logs[|c.logs|];
       log.address == address && log.topics == topics && |log.data| == size && Reads(c.memory, off, log.data)
  }

  /** LOG0 appends a log of the range under the contract's address, LOG1 one with the topic that
      lies below the range. */
  lemma LogLaw(env: Env, code: seq<byte>, c: Core, below: seq<int>, topic: int, off: nat, size: nat, g: nat)
    requires c.stack == below + [topic, off, size] && off + size <= MAX_MEMORY
    ensures Logged(Exec(env, code, LOG0, c, g), c, env.address, [], off, size)
    ensures Exec(env, code, LOG0, c, g).core.stack == below + [topic]
    ensures Logged(Exec(env, code, LOG1, c, g), c, env.address, [EncodeWord(topic)], off, size)
    ensures Exec(env, code, LOG1, c, g).core.stack == below
  {
    var n := |c.stack|;
    assert c.stack[n - 3] == topic && c.stack[n - 2] == off && c.stack[n - 1] == size;
    assert c.stack[..n - 2] == below + [topic] && c.stack[..n - 3] == below;
  }

  /** SHA3 leaves the hash of the range, as a number. */
  lemma HashLaw(env: Env, code: seq<byte>, c: Core, below: seq<int>, off: nat, data: seq<byte>, g: nat)
    requires c.stack == below + [off, |data|] && off + |data| <= MAX_MEMORY && Reads(c.memory, off, data)
    ensures var e := Exec(env, code, SHA3, c, g);
      && e.Continue? && e.core.stack == below + [FromBytes(env.sha256(data))]
      && e.core.storage == c.storage && e.core.logs == c.logs && e.core.pc == c.pc + 1
  {
    var n := |c.stack|;
    assert c.stack[n - 2] == off && c.stack[n - 1] == |data| && c.stack[..n - 2] == below;
    assert Grow(c.memory, off + |data|)[off..off + |data|] == data;
  }

  // ---------- The host ----------

  /** An address instruction leaves the number whose word ends in the address: asked for its
      BALANCE, the host is asked about that address. */
  lemma AddressLaw(env: Env, code: seq<byte>, op: byte, address: seq<byte>, c: Core, g: nat)
    requires |address| == 20
    requires (op == ORIGIN && address == env.origin) || (op == CALLER && address == env.caller)
          || (op == ADDRESS && address == env.address)
    ensures var first := Exec(env, code, op, c, g);
      && first.Continue?
      && Exec(env, code, BALANCE, first.core, g)
         == Continue(c.(pc := c.pc + 2, stack := c.stack + [env.balanceOf(address)]))
  {
    var word := PadTo32(address);
    WordOfNumber(word);
    assert word[12..] == address;
    var first := Exec(env, code, op, c, g).core;
    assert first.stack == c.stack + [FromBytes(word)];
    assert first.stack[..|c.stack|] == c.stack;
  }

  /** The remaining host values and the CALL stub, which always reports failure. */
  lemma HostLaw(env: Env, code: seq<byte>, c: Core, below: seq<int>, args: seq<int>, g: nat)
    requires c.stack == below + args && |args| == 7
    ensures Exec(env, code, CALLVALUE, c, g) == Continue(c.(pc := c.pc + 1, stack := c.stack + [env.value]))
    ensures Exec(env, code, BLOCKNUMBER, c, g) == Continue(c.(pc := c.pc + 1, stack := c.stack + [env.blockNumber]))
    ensures Exec(env, code, TIMESTAMP, c, g) == Continue(c.(pc := c.pc + 1, stack := c.stack + [env.timestamp]))
    ensures Exec(env, code, PC, c, g) == Continue(c.(pc := c.pc + 1, stack := c.stack + [c.pc]))
    ensures Exec(env, code, GAS, c, g) == Continue(c.(pc := c.pc + 1, stack := c.stack + [g]))
    ensures Exec(env, code, CALL, c, g) == Continue(c.(pc := c.pc + 1, stack := below + [0]))
  {
    assert c.stack[..|below|] == below;
  }
}
