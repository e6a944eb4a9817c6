/** The machine that executes contract code in place, proved to compute what `VmRuns`
    says a call computes. */
module VmMachine {
  import opened Arithmetic
  import opened Options
  import opened Words
  import opened Vm
  import opened VmRuns

  /** A deployed contract; its storage outlives the call. */
  class ContractAccount {
    const address: seq<byte>
    const code: seq<byte>
    var storage: Storage

    constructor (address: seq<byte>, code: seq<byte>)
      ensures this.address == address && this.code == code && storage == map[]
    {
      this.address, this.code, storage := address, code, map[];
    }

    method Get(key: seq<byte>) returns (word: seq<byte>)
      ensures word == StorageGet(storage, key)
    {
      if key !in storage {
        return Zeros(WORD_SIZE);
      }
      var raw := storage[key];
      if |raw| < WORD_SIZE {
        return Zeros(WORD_SIZE - |raw|) + raw;
      }
      return raw[..WORD_SIZE];
    }

    method Set(key: seq<byte>, value: seq<byte>)
      modifies this
      ensures storage == old(storage)[key := value]
    {
      storage := storage[key := value];
    }
  }

  /** How an instruction hands control back to the loop. */
  datatype Signal = Next | Jumped | Done | Raised(error: Error)

  ghost predicate SameResult(a: Core, b: Core) {
    a.storage == b.storage && a.logs == b.logs && a.returnData == b.returnData
  }

  /** The effect and the signal describe the same thing. After an error only what outlives
      the machine is compared: storage, logs and return data. */
  ghost predicate Agrees(e: Effect, signal: Signal, now: Core) {
    match e
    case Continue(c) =>
      || (signal == Next && now.(pc := now.pc + 1) == c)
      || (signal == Jumped && now == c)
    case Stop(c) => signal == Done && SameResult(now, c)
    case Fail(c, error) => signal == Raised(error) && SameResult(now, c)
  }

  class Machine {
    const env: Env
    const contract: ContractAccount
    var stack: seq<int>
    var memory: seq<byte>
    var pc: nat
    var gasLeft: nat
    var gasUsed: nat
    var logs: seq<Log>
    var returnData: seq<byte>

    ghost function Core(): Core
      reads this, contract
    {
      Vm.Core(pc, stack, memory, contract.storage, logs, returnData)
    }

    ghost predicate Valid() {
      env.address == contract.address
    }

    constructor (env: Env, contract: ContractAccount, gasLimit: nat)
      requires env.address == contract.address
      ensures Valid() && this.env == env && this.contract == contract
      ensures Core() == Initial(contract.storage)
      ensures gasLeft == gasLimit && gasUsed == 0
    {
      this.env, this.contract := env, contract;
      stack, memory, pc, logs, returnData := [], [], 0, [], [];
      gasLeft, gasUsed := gasLimit, 0;
    }

    method Push(v: int)
      modifies this`stack
      ensures stack == old(stack) + [v]
    {
      stack := stack + [v];
    }

    method Pop() returns (v: Option<int>)
      modifies this`stack
      ensures v.None? <==> |old(stack)| == 0
      ensures v.Some? ==> v.value == old(stack)[|old(stack)| - 1]
      ensures stack == if v.None? then old(stack) else old(stack)[..|old(stack)| - 1]
    {
      if |stack| == 0 {
        return None;
      }
      v := Some(stack[|stack| - 1]);
      stack := stack[..|stack| - 1];
    }

    /** The top slot is the second of the pair. */
    method Pop2() returns (ab: Option<(int, int)>)
      modifies this`stack
      ensures ab.None? <==> |old(stack)| < 2
      ensures ab.Some? ==>
        && ab.value == (old(stack)[|old(stack)| - 2], old(stack)[|old(stack)| - 1])
        && stack == old(stack)[..|old(stack)| - 2]
    {
      var b := Pop();
      if b.None? {
        return None;
      }
      var a := Pop();
      if a.None? {
        return None;
      }
      return Some((a.value, b.value));
    }

    method GrowMemory(size: int)
      modifies this`memory
      ensures memory == Grow(old(memory), if size > MAX_MEMORY then MAX_MEMORY else if size < 0 then 0 else size)
    {
      var wanted := if size > MAX_MEMORY then MAX_MEMORY else size;
      while |memory| < wanted
        invariant |old(memory)| <= |memory|
        invariant |memory| <= if |old(memory)| < wanted then wanted else |old(memory)|
        invariant memory == Grow(old(memory), |memory|)
        decreases wanted - |memory|
      {
        memory := memory + [0];
      }
    }

    method ExecuteBinary(op: byte) returns (signal: Signal)
      requires IsBinary(op)
      modifies this`stack
      ensures Agrees(ExecBinary(op, old(Core())), signal, Core())
    {
      var ab := Pop2();
      if ab.None? {
        return Raised(StackUnderflow);
      }
      var (a, b) := ab.value;
      if op == ADD {
        Push(a + b);
      } else if op == SUB {
        Push(a - b);
      } else if op == MUL {
        Push(a * b);
      } else if op == DIV {
        if b == 0 { Push(0); } else { Push(a / b); }
      } else if op == MOD {
        if b == 0 { Push(0); } else { Push(a % b); }
      } else if op == LT {
        if a < b { Push(1); } else { Push(0); }
      } else if op == GT {
        if a > b { Push(1); } else { Push(0); }
      } else if op == EQ {
        if a == b { Push(1); } else { Push(0); }
      } else if op == AND {
        Push(Bitwise(BitAnd, a, b));
      } else if op == OR {
        Push(Bitwise(BitOr, a, b));
      } else if op == XOR {
        Push(Bitwise(BitXor, a, b));
      } else if !(0 <= a < UINT64) {
        return Raised(Unspecified);
      } else if op == SHL {
        Push(b * Pow2(a));
      } else {
        Push(b / Pow2(a));
      }
      return Next;
    }

    method ExecuteStack(op: byte) returns (signal: Signal)
      requires IsStackOp(op)
      modifies this`stack, this`pc
      ensures Agrees(ExecStack(contract.code, op, old(Core())), signal, Core())
    {
      if op == PUSH1 {
        if pc + 1 >= |contract.code| {
          return Raised(InvalidOpcode);
        }
        pc := pc + 1;
        Push(contract.code[pc]);
      } else if op == PUSH32 {
        if pc + 32 >= |contract.code| {
          return Raised(InvalidOpcode);
        }
        var word := contract.code[pc + 1..pc + 33];
        pc := pc + 32;
        Push(FromBytes(word));
      } else if op == NOT || op == POP {
        var a := Pop();
        if a.None? {
          return Raised(StackUnderflow);
        }
        if op == NOT {
          Push(-a.value - 1);
        }
      } else if op == DUP {
        if |stack| == 0 {
          return Raised(StackUnderflow);
        }
        Push(stack[|stack| - 1]);
      } else {
        if |stack| < 2 {
          return Raised(StackUnderflow);
        }
        var n := |stack|;
        stack := stack[n - 1 := stack[n - 2]][n - 2 := stack[n - 1]];
        assert stack == old(stack)[..n - 2] + [old(stack)[n - 1], old(stack)[n - 2]];
      }
      return Next;
    }

    method ExecuteWord(op: byte) returns (signal: Signal)
      requires op == MLOAD || op == MSTORE
      modifies this`stack, this`memory
      ensures Agrees(ExecMemory(env, op, old(Core())), signal, Core())
    {
      if op == MLOAD {
        var offset := Pop();
        if offset.None? {
          return Raised(StackUnderflow);
        }
        var off := offset.value;
        if !InMemory(off, WORD_SIZE) {
          return Raised(Unspecified);
        }
        GrowMemory(off + WORD_SIZE);
        Push(FromBytes(memory[off..off + WORD_SIZE]));
      } else {
        var ab := Pop2();
        if ab.None? {
          return Raised(StackUnderflow);
        }
        var (off, v) := ab.value;
        var b := BytesOf(Abs(v));
        if !InMemory(off, WORD_SIZE) || |b| > WORD_SIZE {
          return Raised(Unspecified);
        }
        GrowMemory(off + WORD_SIZE);
        assert PadTo32(b) == Zeros(WORD_SIZE - |b|) + b;
        memory := memory[..off] + Zeros(WORD_SIZE - |b|) + b + memory[off + WORD_SIZE..];
        ghost var grown := Grow(old(memory), off + WORD_SIZE);
        assert memory == grown[..off] + PadTo32(b) + grown[off + WORD_SIZE..];
      }
      return Next;
    }

    /** The bytes of a range, with memory grown to hold it. */
    method ReadRange(off: int, size: int) returns (data: Option<seq<byte>>)
      modifies this`memory
      ensures data.None? <==> !InMemory(off, size)
      ensures data.None? ==> memory == old(memory)
      ensures data.Some? ==> memory == Grow(old(memory), off + size) && data.value == memory[off..off + size]
    {
      if !InMemory(off, size) {
        return None;
      }
      GrowMemory(off + size);
      return Some(memory[off..off + size]);
    }

    method ExecuteHalt(op: byte) returns (signal: Signal)
      requires op == RETURN || op == REVERT
      modifies this`stack, this`memory, this`returnData
      ensures Agrees(ExecMemory(env, op, old(Core())), signal, Core())
    {
      var ab := Pop2();
      if ab.None? {
        return Raised(StackUnderflow);
      }
      var data := ReadRange(ab.value.0, ab.value.1);
      if data.None? {
        return Raised(Unspecified);
      }
      returnData := data.value;
      if op == RETURN {
        return Done;
      }
      return Raised(ExecutionReverted);
    }

    method ExecuteLog(op: byte) returns (signal: Signal)
      requires Valid() && (op == LOG0 || op == LOG1)
      modifies this`stack, this`memory, this`logs
      ensures Agrees(ExecMemory(env, op, old(Core())), signal, Core())
    {
      var ab := Pop2();
      if ab.None? {
        return Raised(StackUnderflow);
      }
      var topics := [];
      if op == LOG1 {
        var topic := Pop();
        if topic.None? {
          return Raised(StackUnderflow);
        }
        topics := [EncodeWord(topic.value)];
      }
      var data := ReadRange(ab.value.0, ab.value.1);
      if data.None? {
        return Raised(Unspecified);
      }
      logs := logs + [Log(contract.address, topics, data.value)];
      return Next;
    }

    method ExecuteHash() returns (signal: Signal)
      modifies this`stack, this`memory
      ensures Agrees(ExecMemory(env, SHA3, old(Core())), signal, Core())
    {
      var ab := Pop2();
      if ab.None? {
        return Raised(StackUnderflow);
      }
      var data := ReadRange(ab.value.0, ab.value.1);
      if data.None? {
        return Raised(Unspecified);
      }
      Push(FromBytes(env.sha256(data.value)));
      return Next;
    }

    method ExecuteStorage(op: byte) returns (signal: Signal)
      requires IsStorageOp(op)
      modifies this`stack, contract
      ensures Agrees(ExecStorage(op, old(Core())), signal, Core())
    {
      if op == SLOAD {
        var key := Pop();
        if key.None? {
          return Raised(StackUnderflow);
        }
        var word := contract.Get(EncodeWord(key.value));
        Push(FromBytes(word));
      } else {
        var ab := Pop2();
        if ab.None? {
          return Raised(StackUnderflow);
        }
        contract.Set(EncodeWord(ab.value.0), EncodeWord(ab.value.1));
      }
      return Next;
    }

    method ExecuteHost(op: byte) returns (signal: Signal)
      requires IsHostOp(op) && Valid()
      modifies this`stack
      ensures Agrees(ExecHost(env, op, old(Core())), signal, Core())
    {
      if op == ORIGIN {
        Push(FromBytes(PadTo32(env.origin)));
      } else if op == CALLER {
        Push(FromBytes(PadTo32(env.caller)));
      } else if op == CALLVALUE {
        Push(env.value);
      } else if op == ADDRESS {
        Push(FromBytes(PadTo32(contract.address)));
      } else if op == BALANCE {
        var word := Pop();
        if word.None? {
          return Raised(StackUnderflow);
        }
        Push(env.balanceOf(EncodeWord(word.value)[12..]));
      } else if op == BLOCKNUMBER {
        Push(env.blockNumber);
      } else {
        Push(env.timestamp);
      }
      return Next;
    }

    method JumpTo(dest: int) returns (signal: Signal)
      modifies this`pc
      ensures Agrees(Jump(contract.code, old(Core()), dest), signal, Core())
    {
      if !(0 <= dest < UINT64) {
        return Raised(Unspecified);
      }
      if dest >= |contract.code| || contract.code[dest] != JUMPDEST {
        return Raised(InvalidJump);
      }
      pc := dest;
      return Jumped;
    }

    method ExecuteControl(op: byte) returns (signal: Signal)
      requires !IsBinary(op) && !IsStackOp(op) && !IsMemoryOp(op) && !IsStorageOp(op) && !IsHostOp(op)
      modifies this`stack, this`pc
      ensures Agrees(ExecControl(contract.code, op, old(Core()), gasLeft), signal, Core())
    {
      if op == STOP {
        return Done;
      } else if op == JUMP {
        var dest := Pop();
        if dest.None? {
          return Raised(StackUnderflow);
        }
        signal := JumpTo(dest.value);
        return;
      } else if op == JUMPI {
        var ab := Pop2();
        if ab.None? {
          return Raised(StackUnderflow);
        }
        var (dest, cond) := ab.value;
        if cond != 0 {
          signal := JumpTo(dest);
          return;
        }
      } else if op == JUMPDEST {
      } else if op == PC {
        Push(pc);
      } else if op == GAS {
        Push(gasLeft);
      } else if op == CALL {
        for i := 0 to 7
          modifies this`stack
          invariant |old(stack)| >= i
          invariant stack == old(stack)[..|old(stack)| - i]
        {
          var arg := Pop();
          if arg.None? {
            return Raised(StackUnderflow);
          }
        }
        Push(0);
        assert stack == old(stack)[..|old(stack)| - 7] + [0];
      } else {
        return Raised(InvalidOpcode);
      }
      return Next;
    }

    method ExecuteOp(op: byte) returns (signal: Signal)
      requires Valid()
      modifies this`stack, this`memory, this`pc, this`logs, this`returnData, contract
      ensures Agrees(Exec(env, contract.code, op, old(Core()), gasLeft), signal, Core())
    {
      if IsBinary(op) {
        signal := ExecuteBinary(op);
      } else if IsStackOp(op) {
        signal := ExecuteStack(op);
      } else if op == MLOAD || op == MSTORE {
        signal := ExecuteWord(op);
      } else if op == RETURN || op == REVERT {
        signal := ExecuteHalt(op);
      } else if op == LOG0 || op == LOG1 {
        signal := ExecuteLog(op);
      } else if op == SHA3 {
        signal := ExecuteHash();
      } else if IsStorageOp(op) {
        signal := ExecuteStorage(op);
      } else if IsHostOp(op) {
        signal := ExecuteHost(op);
      } else {
        signal := ExecuteControl(op);
      }
    }

    /** The loop; gasUsed and gasLeft always add up to what the machine was given. */
    method Run() returns (error: Option<Error>)
      requires Valid()
      modifies this, contract
      ensures gasUsed + gasLeft == old(gasUsed + gasLeft)
      ensures var out := VmRuns.Run(env, contract.code, old(Core()), old(gasLeft));
        error == out.error && gasLeft == out.gasLeft && SameResult(Core(), out.core)
    {
      while pc < |contract.code|
        invariant gasUsed + gasLeft == old(gasUsed + gasLeft)
        invariant VmRuns.Run(env, contract.code, old(Core()), old(gasLeft))
               == VmRuns.Run(env, contract.code, Core(), gasLeft)
        decreases gasLeft
      {
        var op := contract.code[pc];
        var cost := GasCost(op);
        if gasLeft < cost {
          return Some(OutOfGas);
        }
        gasLeft := gasLeft - cost;
        gasUsed := gasUsed + cost;
        var signal := ExecuteOp(op);
        match signal
        case Done => return None;
        case Raised(e) => return Some(e);
        case Jumped =>
        case Next => pc := pc + 1;
      }
      return None;
    }
  }

  /** A call: the result and the storage left in the contract are those of `VmRuns.Execute`,
      so the bounds and the gas theorems proved there hold of it. */
  method Execute(env: Env, contract: ContractAccount, gasLimit: nat) returns (r: Result)
    requires env.address == contract.address
    modifies contract
    ensures r == VmRuns.Execute(env, contract.code, old(contract.storage), gasLimit)
    ensures contract.storage == r.storage
  {
    var limit := gasLimit;
    if limit > MAX_GAS {
      limit := MAX_GAS;
    }
    if |contract.code| > MAX_CODE_SIZE {
      return Result(false, [], 0, [], Some(CodeTooLarge), contract.storage);
    }
    var m := new Machine(env, contract, limit);
    var error := m.Run();
    r := Result(error.None?, m.returnData, limit - m.gasLeft, m.logs, error, contract.storage);
  }
}
