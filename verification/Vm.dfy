/** The GYDS contract virtual machine as a function on values: the gas table and the effect of
    one instruction. `VmRuns.dfy` has whole executions, `VmMachine.dfy` the machine in place. */
module Vm {
  import opened Arithmetic
  import opened Options
  import opened Words

  // ---------- Opcodes and gas ----------

  const STOP: byte := 0x00
  const ADD: byte := 0x01
  const SUB: byte := 0x02
  const MUL: byte := 0x03
  const DIV: byte := 0x04
  const MOD: byte := 0x05
  const LT: byte := 0x06
  const GT: byte := 0x07
  const EQ: byte := 0x08
  const AND: byte := 0x09
  const OR: byte := 0x0a
  const NOT: byte := 0x0b
  const XOR: byte := 0x0c
  const SHL: byte := 0x0d
  const SHR: byte := 0x0e
  const PUSH1: byte := 0x10
  const PUSH32: byte := 0x11
  const POP: byte := 0x12
  const DUP: byte := 0x13
  const SWAP: byte := 0x14
  const MLOAD: byte := 0x20
  const MSTORE: byte := 0x21
  const SLOAD: byte := 0x30
  const SSTORE: byte := 0x31
  const JUMP: byte := 0x40
  const JUMPI: byte := 0x41
  const JUMPDEST: byte := 0x42
  const PC: byte := 0x43
  const GAS: byte := 0x44
  const CALL: byte := 0x50
  const RETURN: byte := 0x51
  const REVERT: byte := 0x52
  const LOG0: byte := 0x60
  const LOG1: byte := 0x61
  const ORIGIN: byte := 0x70
  const CALLER: byte := 0x71
  const CALLVALUE: byte := 0x72
  const ADDRESS: byte := 0x73
  const BALANCE: byte := 0x74
  const BLOCKNUMBER: byte := 0x75
  const TIMESTAMP: byte := 0x76
  const SHA3: byte := 0x80

  const MAX_STACK_DEPTH: nat := 1024
  const MAX_MEMORY: nat := 64 * 1024
  const MAX_CODE_SIZE: nat := 24 * 1024
  const MAX_GAS: nat := 10_000_000

  function GasCost(op: byte): nat {
    if op == STOP || op == RETURN || op == REVERT then 0
    else if op in {ADD, SUB, LT, GT, EQ, AND, OR, NOT, XOR, SHL, SHR} then 3
    else if op == MUL || op == DIV || op == MOD then 5
    else if op in {PUSH1, PUSH32, POP, DUP, SWAP} then 3
    else if op == MLOAD || op == MSTORE then 3
    else if op == SLOAD then 200
    else if op == SSTORE then 5000
    else if op == JUMP || op == JUMPI || op == JUMPDEST then 8
    else if op == LOG0 then 375
    else if op == LOG1 then 750
    else if op == SHA3 then 30
    else if op == CALL then 700
    else 1
  }

  // ---------- Machine state ----------

  datatype Error =
    | OutOfGas | StackUnderflow | InvalidOpcode | InvalidJump | ExecutionReverted | CodeTooLarge
      // The Go result depends on the runtime: a memory range outside [0, MAX_MEMORY], a
      // stored word of more than 32 bytes, or a uint64 conversion that does not fit.
    | Unspecified

  datatype Log = Log(address: seq<byte>, topics: seq<seq<byte>>, data: seq<byte>)

  type Storage = map<seq<byte>, seq<byte>>

  /** Everything in a machine except its gas. */
  datatype Core = Core(
    pc: nat,
    stack: seq<int>,
    memory: seq<byte>,
    storage: Storage,
    logs: seq<Log>,
    returnData: seq<byte>)

  /** What the host shows to the contract; addresses are given as their decoded bytes. */
  datatype Env = Env(
    origin: seq<byte>,
    caller: seq<byte>,
    address: seq<byte>,
    value: int,
    blockNumber: nat,
    timestamp: int,
    balanceOf: seq<byte> -> int,
    sha256: seq<byte> -> seq<byte>)

  datatype Effect = Continue(core: Core) | Stop(core: Core) | Fail(core: Core, error: Error)

  // ---------- Integers ----------

  function Pow2(n: nat): (r: nat)
    ensures r >= 1
  {
    if n == 0 then 1 else 2 * Pow2(n - 1)
  }

  datatype BitOp = BitAnd | BitOr | BitXor

  function BitOf(op: BitOp, x: int, y: int): (r: int)
    ensures r == 0 || r == 1
  {
    match op
    case BitAnd => if x == 1 && y == 1 then 1 else 0
    case BitOr => if x == 1 || y == 1 then 1 else 0
    case BitXor => if x != y then 1 else 0
  }

  /** Bitwise operations on integers of unbounded two's complement. */
  function Bitwise(op: BitOp, a: int, b: int): int
    decreases (if a < 0 then -a - 1 else a) + (if b < 0 then -b - 1 else b)
  {
    if -1 <= a <= 0 && -1 <= b <= 0 then -BitOf(op, -a, -b)
    else 2 * Bitwise(op, a / 2, b / 2) + BitOf(op, a % 2, b % 2)
  }

  function BitAt(v: int, k: nat): int
    decreases k
  {
    if k == 0 then v % 2 else BitAt(v / 2, k - 1)
  }

  lemma {:induction false} BitwiseBits(op: BitOp, a: int, b: int, k: nat)
    ensures BitAt(Bitwise(op, a, b), k) == BitOf(op, BitAt(a, k), BitAt(b, k))
    decreases k
  {
    if k == 0 {
    } else {
      BitwiseBits(op, a / 2, b / 2, k - 1);
      assert Bitwise(op, a, b) / 2 == Bitwise(op, a / 2, b / 2);
    }
  }

  function Truth(b: bool): int {
    if b then 1 else 0
  }

  predicate IsBinary(op: byte) {
    op in {ADD, SUB, MUL, DIV, MOD, LT, GT, EQ, AND, OR, XOR, SHL, SHR}
  }

  /** Operand a lies below b on the stack. */
  function Binary(op: byte, a: int, b: int): Option<int>
    requires IsBinary(op)
  {
    if op == ADD then Some(a + b)
    else if op == SUB then Some(a - b)
    else if op == MUL then Some(a * b)
    else if op == DIV then Some(if b == 0 then 0 else a / b)
    else if op == MOD then Some(if b == 0 then 0 else a % b)
    else if op == LT then Some(Truth(a < b))
    else if op == GT then Some(Truth(a > b))
    else if op == EQ then Some(Truth(a == b))
    else if op == AND then Some(Bitwise(BitAnd, a, b))
    else if op == OR then Some(Bitwise(BitOr, a, b))
    else if op == XOR then Some(Bitwise(BitXor, a, b))
    else if !(0 <= a < UINT64) then None
    else if op == SHL then Some(b * Pow2(a))
    else Some(b / Pow2(a))
  }

  // ---------- One instruction ----------

  predicate InMemory(off: int, size: int) {
    0 <= off && 0 <= size && off + size <= MAX_MEMORY
  }

  function Grow(memory: seq<byte>, size: nat): (r: seq<byte>)
    ensures |r| == if |memory| < size then size else |memory|
  {
    if |memory| < size then memory + Zeros(size - |memory|) else memory
  }

  function StorageGet(storage: Storage, key: seq<byte>): (r: seq<byte>)
    ensures |r| == WORD_SIZE
  {
    if key in storage then PadTo32(storage[key]) else Zeros(WORD_SIZE)
  }

  function Pushed(c: Core, keep: nat, v: int): Core
    requires keep <= |c.stack|
  {
    c.(pc := c.pc + 1, stack := c.stack[..keep] + [v])
  }

  function ExecBinary(op: byte, c: Core): Effect
    requires IsBinary(op)
  {
    var n := |c.stack|;
    if n < 2 then Fail(c, StackUnderflow)
    else match Binary(op, c.stack[n - 2], c.stack[n - 1])
      case None => Fail(c, Unspecified)
      case Some(v) => Continue(Pushed(c, n - 2, v))
  }

  predicate IsStackOp(op: byte) {
    op in {NOT, PUSH1, PUSH32, POP, DUP, SWAP}
  }

  function ExecStack(code: seq<byte>, op: byte, c: Core): Effect
    requires IsStackOp(op)
  {
    var n := |c.stack|;
    if op == PUSH1 then
      if c.pc + 1 >= |code| then Fail(c, InvalidOpcode)
      else Continue(c.(pc := c.pc + 2, stack := c.stack + [code[c.pc + 1]]))
    else if op == PUSH32 then
      if c.pc + 32 >= |code| then Fail(c, InvalidOpcode)
      else Continue(c.(pc := c.pc + 33, stack := c.stack + [FromBytes(code[c.pc + 1..c.pc + 33])]))
    else if n == 0 then Fail(c, StackUnderflow)
    else if op == NOT then Continue(Pushed(c, n - 1, -c.stack[n - 1] - 1))
    else if op == POP then Continue(c.(pc := c.pc + 1, stack := c.stack[..n - 1]))
    else if op == DUP then Continue(Pushed(c, n, c.stack[n - 1]))
    else if n < 2 then Fail(c, StackUnderflow)
    else Continue(c.(pc := c.pc + 1, stack := c.stack[..n - 2] + [c.stack[n - 1], c.stack[n - 2]]))
  }

  predicate IsMemoryOp(op: byte) {
    op in {MLOAD, MSTORE, RETURN, REVERT, LOG0, LOG1, SHA3}
  }

  function ExecMemory(env: Env, op: byte, c: Core): Effect
    requires IsMemoryOp(op)
  {
    var n := |c.stack|;
    if op == MLOAD then
      if n < 1 then Fail(c, StackUnderflow)
      else
        var off := c.stack[n - 1];
        if !InMemory(off, WORD_SIZE) then Fail(c, Unspecified)
        else
          var memory := Grow(c.memory, off + WORD_SIZE);
          Continue(Pushed(c.(memory := memory), n - 1, FromBytes(memory[off..off + WORD_SIZE])))
    else if op == LOG1 && n < 3 then Fail(c, StackUnderflow)
    else if n < 2 then Fail(c, StackUnderflow)
    else if op == MSTORE then
      var off, b := c.stack[n - 2], BytesOf(Abs(c.stack[n - 1]));
      if !InMemory(off, WORD_SIZE) || |b| > WORD_SIZE then Fail(c, Unspecified)
      else
        var memory := Grow(c.memory, off + WORD_SIZE);
        Continue(c.(pc := c.pc + 1, stack := c.stack[..n - 2],
                    memory := memory[..off] + PadTo32(b) + memory[off + WORD_SIZE..]))
    else
      var off, size := c.stack[n - 2], c.stack[n - 1];
      if !InMemory(off, size) then Fail(c, Unspecified)
      else
        var memory := Grow(c.memory, off + size);
        var data := memory[off..off + size];
        var c' := c.(memory := memory);
        if op == RETURN then Stop(c'.(stack := c.stack[..n - 2], returnData := data))
        else if op == REVERT then Fail(c'.(stack := c.stack[..n - 2], returnData := data), ExecutionReverted)
        else if op == SHA3 then Continue(Pushed(c', n - 2, FromBytes(env.sha256(data))))
        else if op == LOG0 then
          Continue(c'.(pc := c.pc + 1, stack := c.stack[..n - 2],
                       logs := c.logs + [Log(env.address, [], data)]))
        else
          Continue(c'.(pc := c.pc + 1, stack := c.stack[..n - 3],
                       logs := c.logs + [Log(env.address, [EncodeWord(c.stack[n - 3])], data)]))
  }

  predicate IsStorageOp(op: byte) {
    op == SLOAD || op == SSTORE
  }

  function ExecStorage(op: byte, c: Core): Effect
    requires IsStorageOp(op)
  {
    var n := |c.stack|;
    if op == SLOAD then
      if n < 1 then Fail(c, StackUnderflow)
      else Continue(Pushed(c, n - 1, FromBytes(StorageGet(c.storage, EncodeWord(c.stack[n - 1])))))
    else if n < 2 then Fail(c, StackUnderflow)
    else Continue(c.(pc := c.pc + 1, stack := c.stack[..n - 2],
                     storage := c.storage[EncodeWord(c.stack[n - 2]) := EncodeWord(c.stack[n - 1])]))
  }

  predicate IsHostOp(op: byte) {
    op in {ORIGIN, CALLER, CALLVALUE, ADDRESS, BALANCE, BLOCKNUMBER, TIMESTAMP}
  }

  function ExecHost(env: Env, op: byte, c: Core): Effect
    requires IsHostOp(op)
  {
    var n := |c.stack|;
    if op == ORIGIN then Continue(Pushed(c, n, FromBytes(PadTo32(env.origin))))
    else if op == CALLER then Continue(Pushed(c, n, FromBytes(PadTo32(env.caller))))
    else if op == CALLVALUE then Continue(Pushed(c, n, env.value))
    else if op == ADDRESS then Continue(Pushed(c, n, FromBytes(PadTo32(env.address))))
    else if op == BLOCKNUMBER then Continue(Pushed(c, n, env.blockNumber))
    else if op == TIMESTAMP then Continue(Pushed(c, n, env.timestamp))
    else if n < 1 then Fail(c, StackUnderflow)
    else Continue(Pushed(c, n - 1, env.balanceOf(EncodeWord(c.stack[n - 1])[12..])))
  }

  /** JUMP and the taken JUMPI: a destination past int64 or past the code is no JUMPDEST. */
  function Jump(code: seq<byte>, c: Core, dest: int): Effect {
    if !(0 <= dest < UINT64) then Fail(c, Unspecified)
    else if dest < |code| && code[dest] == JUMPDEST then Continue(c.(pc := dest))
    else Fail(c, InvalidJump)
  }

  function ExecControl(code: seq<byte>, op: byte, c: Core, gasLeft: nat): Effect {
    var n := |c.stack|;
    if op == STOP then Stop(c)
    else if op == JUMPDEST then Continue(c.(pc := c.pc + 1))
    else if op == PC then Continue(Pushed(c, n, c.pc))
    else if op == GAS then Continue(Pushed(c, n, gasLeft))
    else if op == JUMP then
      if n < 1 then Fail(c, StackUnderflow)
      else Jump(code, c.(stack := c.stack[..n - 1]), c.stack[n - 1])
    else if op == JUMPI then
      if n < 2 then Fail(c, StackUnderflow)
      else
        var c' := c.(stack := c.stack[..n - 2]);
        if c.stack[n - 1] != 0 then Jump(code, c', c.stack[n - 2])
        else Continue(c'.(pc := c.pc + 1))
    else if op == CALL then
      if n < 7 then Fail(c, StackUnderflow) else Continue(Pushed(c, n - 7, 0))
    else Fail(c, InvalidOpcode)
  }

  /** The effect of an instruction whose gas has been charged, leaving gasLeft. */
  function Exec(env: Env, code: seq<byte>, op: byte, c: Core, gasLeft: nat): (e: Effect)
    ensures e.Continue? ==> GasCost(op) >= 1
  {
    if IsBinary(op) then ExecBinary(op, c)
    else if IsStackOp(op) then ExecStack(code, op, c)
    else if IsMemoryOp(op) then ExecMemory(env, op, c)
    else if IsStorageOp(op) then ExecStorage(op, c)
    else if IsHostOp(op) then ExecHost(env, op, c)
    else ExecControl(code, op, c, gasLeft)
  }

  // ---------- What every instruction keeps ----------

  /** Bound by construction: the program counter stays in or just past the code, and memory
      within its cap. */
  ghost predicate Sound(code: seq<byte>, c: Core) {
    c.pc <= |code| && |c.memory| <= MAX_MEMORY
  }

  /** The resources a machine has taken: stack slots, logs and storage keys at the gas
      they cost. */
  function Footprint(c: Core): nat {
    |c.stack| + 375 * |c.logs| + 5000 * |c.storage|
  }

  /** An instruction never removes a storage key, and only SSTORE with two operands writes one. */
  lemma ExecStorageKeys(env: Env, code: seq<byte>, op: byte, c: Core, gasLeft: nat)
    ensures var e := Exec(env, code, op, c, gasLeft);
      && c.storage.Keys <= e.core.storage.Keys
      && (op != SSTORE || |c.stack| < 2 ==> e.core.storage == c.storage)
  {
  }

  /** An instruction adds no more slots than it costs units of gas. */
  lemma ExecStackGrowth(env: Env, code: seq<byte>, op: byte, c: Core, gasLeft: nat)
    ensures var e := Exec(env, code, op, c, gasLeft); |e.core.stack| <= |c.stack| + GasCost(op)
  {
  }

  lemma ExecBounded(env: Env, code: seq<byte>, c: Core, gasLeft: nat)
    requires Sound(code, c) && c.pc < |code|
    ensures var e := Exec(env, code, code[c.pc], c, gasLeft);
      Sound(code, e.core) && Footprint(e.core) <= Footprint(c) + GasCost(code[c.pc])
  {
  }
}
