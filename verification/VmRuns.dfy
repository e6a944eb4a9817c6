/** Whole executions of the virtual machine: termination, resource bounds, and how the
    result depends on the gas limit. */
module VmRuns {
  import opened Options
  import opened Words
  import opened Vm

  datatype Outcome = Outcome(core: Core, gasLeft: nat, error: Option<Error>)

  /** The interpreter loop. The gas left is its termination measure: every instruction
      after which the loop goes on costs at least one unit. */
  function Run(env: Env, code: seq<byte>, c: Core, gasLeft: nat): (out: Outcome)
    ensures out.gasLeft <= gasLeft
    decreases gasLeft
  {
    if c.pc >= |code| then Outcome(c, gasLeft, None)
    else
      var op := code[c.pc];
      if gasLeft < GasCost(op) then Outcome(c, gasLeft, Some(OutOfGas))
      else
        var left := gasLeft - GasCost(op);
        match Exec(env, code, op, c, left)
        case Continue(c') => Run(env, code, c', left)
        case Stop(c') => Outcome(c', left, None)
        case Fail(c', e) => Outcome(c', left, Some(e))
  }

  datatype Result = Result(
    success: bool,
    returnData: seq<byte>,
    gasUsed: nat,
    logs: seq<Log>,
    error: Option<Error>,
    storage: Storage)

  function Clamp(gasLimit: nat): nat {
    if gasLimit > MAX_GAS then MAX_GAS else gasLimit
  }

  function Initial(storage: Storage): Core {
    Core(0, [], [], storage, [], [])
  }

  /** One call of a contract; the storage is the contract's storage afterwards. */
  function Execute(env: Env, code: seq<byte>, storage: Storage, gasLimit: nat): Result {
    if |code| > MAX_CODE_SIZE then Result(false, [], 0, [], Some(CodeTooLarge), storage)
    else
      var out := Run(env, code, Initial(storage), Clamp(gasLimit));
      Result(out.error.None?, out.core.returnData, Clamp(gasLimit) - out.gasLeft,
             out.core.logs, out.error, out.core.storage)
  }

  // ---------- Termination and resource bounds ----------

  datatype Head = Head(core: Core, gasLeft: nat)

  /** The states in which the loop tests its condition. */
  function Heads(env: Env, code: seq<byte>, c: Core, gasLeft: nat): seq<Head>
    decreases gasLeft
  {
    [Head(c, gasLeft)] +
    if c.pc < |code| && GasCost(code[c.pc]) <= gasLeft then
      var left := gasLeft - GasCost(code[c.pc]);
      var e := Exec(env, code, code[c.pc], c, left);
      if e.Continue? then Heads(env, code, e.core, left) else []
    else []
  }

  /** The loop halts on every code within gasLeft + 1 tests of its condition, and in every
      state it passes through (the last one included) the program counter and memory are in
      range, no storage key is gone, and the slots, logs and storage keys taken so far are
      covered by the gas spent. */
  lemma {:induction false} HeadsBounded(env: Env, code: seq<byte>, c: Core, gasLeft: nat)
    requires Sound(code, c)
    ensures |Heads(env, code, c, gasLeft)| <= gasLeft + 1
    ensures forall h | h in Heads(env, code, c, gasLeft) ::
      && Sound(code, h.core)
      && h.gasLeft <= gasLeft
      && c.storage.Keys <= h.core.storage.Keys
      && Footprint(h.core) + h.gasLeft <= Footprint(c) + gasLeft
    ensures var out := Run(env, code, c, gasLeft);
      && Sound(code, out.core) && c.storage.Keys <= out.core.storage.Keys
      && Footprint(out.core) + out.gasLeft <= Footprint(c) + gasLeft
    decreases gasLeft
  {
    hide Exec;
    if c.pc < |code| && GasCost(code[c.pc]) <= gasLeft {
      var left := gasLeft - GasCost(code[c.pc]);
      var e := Exec(env, code, code[c.pc], c, left);
      ExecBounded(env, code, c, left);
      ExecStorageKeys(env, code, code[c.pc], c, left);
      if e.Continue? {
        HeadsBounded(env, code, e.core, left);
      }
    }
  }

  /** The keys created since. */
  function NewKeys(before: Storage, now: Storage): set<seq<byte>> {
    now.Keys - before.Keys
  }

  lemma NewKeysCount(before: Storage, now: Storage)
    requires before.Keys <= now.Keys
    ensures |now| == |before| + |NewKeys(before, now)|
  {
    assert now.Keys == before.Keys + NewKeys(before, now);
  }

  /** The same for a call: at every loop head the stack, the logs and the storage keys
      created since the call began cost no more than the gas used, and no key is gone. */
  lemma ExecuteBounded(env: Env, code: seq<byte>, storage: Storage, gasLimit: nat)
    requires |code| <= MAX_CODE_SIZE
    ensures var heads := Heads(env, code, Initial(storage), Clamp(gasLimit));
      && |heads| <= Clamp(gasLimit) + 1
      && forall h | h in heads ::
        && |h.core.memory| <= MAX_MEMORY
        && h.gasLeft <= Clamp(gasLimit)
        && storage.Keys <= h.core.storage.Keys
        && |h.core.stack| + 375 * |h.core.logs| + 5000 * |NewKeys(storage, h.core.storage)|
           <= Clamp(gasLimit) - h.gasLeft
    ensures var r := Execute(env, code, storage, gasLimit);
      && r.gasUsed <= MAX_GAS && storage.Keys <= r.storage.Keys
      && 375 * |r.logs| + 5000 * |NewKeys(storage, r.storage)| <= r.gasUsed
  {
    HeadsBounded(env, code, Initial(storage), Clamp(gasLimit));
    forall h | h in Heads(env, code, Initial(storage), Clamp(gasLimit))
      ensures |h.core.storage| == |storage| + |NewKeys(storage, h.core.storage)|
    {
      NewKeysCount(storage, h.core.storage);
    }
    NewKeysCount(storage, Execute(env, code, storage, gasLimit).storage);
  }

  /** One turn of the loop. */
  lemma Turn(env: Env, code: seq<byte>, c: Core, gasLeft: nat, c': Core)
    requires c.pc < |code| && GasCost(code[c.pc]) <= gasLeft
    requires Exec(env, code, code[c.pc], c, gasLeft - GasCost(code[c.pc])) == Continue(c')
    ensures Run(env, code, c, gasLeft) == Run(env, code, c', gasLeft - GasCost(code[c.pc]))
  {
  }

  // ---------- Stack depth ----------

  /** Under the limit no call of any contract has more slots in use than MAX_STACK_DEPTH. */
  ghost predicate DepthKept(env: Env, limit: nat) {
    forall code, storage, h |
      && |code| <= MAX_CODE_SIZE
      && h in Heads(env, code, Initial(storage), Clamp(limit)) :: |h.core.stack| <= MAX_STACK_DEPTH
  }

  /** A code of n PC instructions. */
  function Counters(n: nat): seq<byte> {
    seq(n, _ => PC)
  }

  /** Such a code after its first k instructions. */
  function Counted(storage: Storage, k: nat): Core {
    Initial(storage).(pc := k, stack := seq(k, i => i))
  }

  lemma CounterStep(env: Env, storage: Storage, n: nat, k: nat, gasLeft: nat)
    requires k < n && gasLeft >= 1
    ensures var c := Counted(storage, k);
      && c.pc < |Counters(n)| && Counters(n)[c.pc] == PC && GasCost(PC) == 1
      && Exec(env, Counters(n), PC, c, gasLeft - 1) == Continue(Counted(storage, k + 1))
  {
    assert Counted(storage, k + 1).stack == Counted(storage, k).stack + [k];
  }

  /** With enough gas the loop comes to a state with all n slots in use. */
  lemma {:induction false} CountersFill(env: Env, storage: Storage, n: nat, k: nat, gasLeft: nat) returns (h: Head)
    requires k <= n && n - k <= gasLeft
    ensures h in Heads(env, Counters(n), Counted(storage, k), gasLeft) && |h.core.stack| == n
    decreases n - k
  {
    hide Exec;
    if k == n {
      h := Head(Counted(storage, k), gasLeft);
    } else {
      CounterStep(env, storage, n, k, gasLeft);
      h := CountersFill(env, storage, n, k + 1, gasLeft - 1);
    }
  }

  /** MAX_STACK_DEPTH is never enforced: what keeps the stack below it is a gas limit no
      greater than the depth itself, and nothing else. */
  lemma DepthKeptIff(env: Env, limit: nat)
    ensures DepthKept(env, limit) <==> limit <= MAX_STACK_DEPTH
  {
    if limit <= MAX_STACK_DEPTH {
      forall code, storage, h |
        |code| <= MAX_CODE_SIZE && h in Heads(env, code, Initial(storage), Clamp(limit))
        ensures |h.core.stack| <= MAX_STACK_DEPTH
      {
        ExecuteBounded(env, code, storage, limit);
      }
    } else {
      var n := MAX_STACK_DEPTH + 1;
      assert Counted(map[], 0) == Initial(map[]);
      var h := CountersFill(env, map[], n, 0, Clamp(limit));
      assert |Counters(n)| <= MAX_CODE_SIZE;
    }
  }

  // ---------- Storage and failure ----------

  /** A code without the byte of SSTORE writes nothing. */
  lemma {:induction false} NoStoreByte(env: Env, code: seq<byte>, c: Core, gasLeft: nat)
    requires SSTORE !in code
    ensures Run(env, code, c, gasLeft).core.storage == c.storage
    decreases gasLeft
  {
    hide Exec;
    if c.pc < |code| && GasCost(code[c.pc]) <= gasLeft {
      var left := gasLeft - GasCost(code[c.pc]);
      var e := Exec(env, code, code[c.pc], c, left);
      ExecStorageKeys(env, code, code[c.pc], c, left);
      if e.Continue? {
        NoStoreByte(env, code, e.core, left);
      }
    }
  }

  /** Two operands and a write: the least gas with which anything is stored. */
  const LEAST_WRITE: nat := 2 + 5000

  /** A machine that cannot pay for operands and a write writes nothing. */
  lemma {:induction false} TooPoorToWrite(env: Env, code: seq<byte>, c: Core, gasLeft: nat)
    requires |c.stack| + gasLeft < LEAST_WRITE
    ensures Run(env, code, c, gasLeft).core.storage == c.storage
    decreases gasLeft
  {
    hide Exec;
    if c.pc < |code| && GasCost(code[c.pc]) <= gasLeft {
      var left := gasLeft - GasCost(code[c.pc]);
      var e := Exec(env, code, code[c.pc], c, left);
      ExecStorageKeys(env, code, code[c.pc], c, left);
      ExecStackGrowth(env, code, code[c.pc], c, left);
      if e.Continue? {
        TooPoorToWrite(env, code, e.core, left);
      }
    }
  }

  /** Under the limit every failing call of every contract leaves its storage as it was. */
  ghost predicate FailureRollsBack(env: Env, limit: nat) {
    forall code, storage :: !Execute(env, code, storage, limit).success
                            ==> Execute(env, code, storage, limit).storage == storage
  }

  /** PC; PC; SSTORE; POP writes, and then fails for want of gas or of an operand. */
  lemma WritesAndFails(env: Env, limit: nat)
    requires limit >= LEAST_WRITE
    ensures var r := Execute(env, [PC, PC, SSTORE, POP], map[], limit);
      !r.success && r.storage == map[EncodeWord(0) := EncodeWord(1)]
  {
    var code, g := [PC, PC, SSTORE, POP], Clamp(limit);
    var c0 := Initial(map[]);
    var c1 := c0.(pc := 1, stack := [0]);
    var c2 := c0.(pc := 2, stack := [0, 1]);
    var c3 := c0.(pc := 3, storage := map[EncodeWord(0) := EncodeWord(1)]);
    Turn(env, code, c0, g, c1);
    Turn(env, code, c1, g - 1, c2);
    Turn(env, code, c2, g - 2, c3);
  }

  /** Nothing rolls the storage back: a failing call keeps what it wrote, and the only calls
      that surely write nothing are those too poor to write at all. */
  lemma FailureRollsBackIff(env: Env, limit: nat)
    ensures FailureRollsBack(env, limit) <==> limit < LEAST_WRITE
  {
    if limit < LEAST_WRITE {
      forall code, storage
        ensures Execute(env, code, storage, limit).storage == storage
      {
        TooPoorToWrite(env, code, Initial(storage), Clamp(limit));
      }
    } else {
      WritesAndFails(env, limit);
      assert EncodeWord(0) in map[EncodeWord(0) := EncodeWord(1)];
    }
  }

  // ---------- Gas monotonicity ----------

  /** No GAS instruction is executed. */
  ghost predicate GasFree(env: Env, code: seq<byte>, c: Core, gasLeft: nat)
    decreases gasLeft
  {
    c.pc < |code| && GasCost(code[c.pc]) <= gasLeft ==>
      && code[c.pc] != GAS
      && var left := gasLeft - GasCost(code[c.pc]);
         var e := Exec(env, code, code[c.pc], c, left);
         e.Continue? ==> GasFree(env, code, e.core, left)
  }

  /** A code without the byte of GAS never executes it. */
  lemma {:induction false} NoGasByte(env: Env, code: seq<byte>, c: Core, gasLeft: nat)
    requires GAS !in code
    ensures GasFree(env, code, c, gasLeft)
    decreases gasLeft
  {
    hide Exec;
    if c.pc < |code| && GasCost(code[c.pc]) <= gasLeft {
      var left := gasLeft - GasCost(code[c.pc]);
      var e := Exec(env, code, code[c.pc], c, left);
      if e.Continue? {
        NoGasByte(env, code, e.core, left);
      }
    }
  }

  lemma ExecIgnoresGas(env: Env, code: seq<byte>, op: byte, c: Core, g: nat, g': nat)
    requires op != GAS
    ensures Exec(env, code, op, c, g) == Exec(env, code, op, c, g')
  {
  }

  /** One turn with two amounts of gas: both runs go on from the same state, or both end. */
  lemma TwoTurns(env: Env, code: seq<byte>, c: Core, g: nat, g': nat) returns (next: Option<Core>)
    requires c.pc < |code| && GasCost(code[c.pc]) <= g && GasCost(code[c.pc]) <= g' && GasFree(env, code, c, g)
    ensures var cost, out := GasCost(code[c.pc]), Run(env, code, c, g);
      match next
      case Some(c') =>
        && cost >= 1 && GasFree(env, code, c', g - cost)
        && out == Run(env, code, c', g - cost) && Run(env, code, c, g') == Run(env, code, c', g' - cost)
      case None =>
        var out' := Run(env, code, c, g');
        out.gasLeft == g - cost && out'.gasLeft == g' - cost && out'.core == out.core && out'.error == out.error
  {
    hide Exec;
    var cost := GasCost(code[c.pc]);
    var e := Exec(env, code, code[c.pc], c, g - cost);
    ExecIgnoresGas(env, code, code[c.pc], c, g - cost, g' - cost);
    next := if e.Continue? then Some(e.core) else None;
  }

  /** A run that never executes GAS and does not run out needs a fixed amount: with at least
      that much it ends the same way with the surplus untouched, with less it runs out. */
  lemma {:induction false} GasThreshold(env: Env, code: seq<byte>, c: Core, g: nat, g': nat)
    requires GasFree(env, code, c, g)
    requires Run(env, code, c, g).error != Some(OutOfGas)
    ensures var out, out' := Run(env, code, c, g), Run(env, code, c, g');
      if g' >= g - out.gasLeft
      then out'.core == out.core && out'.error == out.error && out'.gasLeft == g' - (g - out.gasLeft)
      else out'.error == Some(OutOfGas)
    decreases g
  {
    hide Exec;
    if c.pc < |code| && GasCost(code[c.pc]) <= g' {
      var cost := GasCost(code[c.pc]);
      var next := TwoTurns(env, code, c, g, g');
      if next.Some? {
        GasThreshold(env, code, next.value, g - cost, g' - cost);
      }
    }
  }

  /** Raising the limit of a call that neither runs out nor executes GAS changes nothing. */
  lemma GasMonotone(env: Env, code: seq<byte>, storage: Storage, limit: nat, limit': nat)
    requires GasFree(env, code, Initial(storage), Clamp(limit))
    requires Execute(env, code, storage, limit).error != Some(OutOfGas)
    requires limit <= limit'
    ensures Execute(env, code, storage, limit') == Execute(env, code, storage, limit)
  {
    if |code| <= MAX_CODE_SIZE {
      GasThreshold(env, code, Initial(storage), Clamp(limit), Clamp(limit'));
    }
  }

  /** The gas a call reports is exactly the least limit with which it does not run out. */
  lemma GasUsedIsLeast(env: Env, code: seq<byte>, storage: Storage, limit: nat, limit': nat)
    requires |code| <= MAX_CODE_SIZE
    requires GasFree(env, code, Initial(storage), Clamp(limit))
    requires Execute(env, code, storage, limit).error != Some(OutOfGas)
    ensures Execute(env, code, storage, limit').error != Some(OutOfGas)
            <==> limit' >= Execute(env, code, storage, limit).gasUsed
  {
    GasThreshold(env, code, Initial(storage), Clamp(limit), Clamp(limit'));
  }

  // ---------- Where the hypotheses matter ----------

  /** GAS; DUP; SSTORE stores the gas it read under itself. */
  lemma GasStoreRun(env: Env, limit: nat)
    requires 5004 <= limit <= MAX_GAS
    ensures var w := EncodeWord(limit - 1);
      Execute(env, [GAS, DUP, SSTORE], map[], limit) == Result(true, [], 5004, [], None, map[w := w])
  {
    var code, w := [GAS, DUP, SSTORE], EncodeWord(limit - 1);
    var c0 := Initial(map[]);
    var c1 := c0.(pc := 1, stack := [limit - 1]);
    var c2 := c0.(pc := 2, stack := [limit - 1, limit - 1]);
    var c3 := c0.(pc := 3, storage := map[w := w]);
    Turn(env, code, c0, limit, c1);
    Turn(env, code, c1, limit - 1, c2);
    Turn(env, code, c2, limit - 4, c3);
  }

  lemma {:induction false} PowersGrow(j: nat, k: nat)
    requires j <= k
    ensures Pow256(j) <= Pow256(k)
  {
    if j < k {
      PowersGrow(j, k - 1);
    }
  }

  /** A call that executes GAS can depend on the limit. */
  lemma GasReadBreaksMonotonicity(env: Env)
    ensures var code := [GAS, DUP, SSTORE];
      && Execute(env, code, map[], 10000).success
      && Execute(env, code, map[], 20000) != Execute(env, code, map[], 10000)
  {
    GasStoreRun(env, 10000);
    GasStoreRun(env, 20000);
    BytesLength(9999, 2);
    BytesLength(19999, 2);
    assert Pow256(32) >= Pow256(2) by {
      PowersGrow(2, 32);
    }
    WordsDistinct(9999, 19999);
    var w, w' := EncodeWord(9999), EncodeWord(19999);
    assert w in map[w := w] && w !in map[w' := w'];
  }

  /** A revert keeps what the call wrote: nothing rolls the storage back. */
  lemma RevertKeepsWrites(env: Env)
    ensures var code := [PUSH1, 1, PUSH1, 7, SSTORE, PUSH1, 0, DUP, REVERT];
      var r := Execute(env, code, map[], MAX_GAS);
      r.error == Some(ExecutionReverted) && r.storage == map[EncodeWord(1) := EncodeWord(7)]
  {
    var code := [PUSH1, 1, PUSH1, 7, SSTORE, PUSH1, 0, DUP, REVERT];
    var c0 := Initial(map[]);
    var c1 := c0.(pc := 2, stack := [1]);
    var c2 := c0.(pc := 4, stack := [1, 7]);
    var c3 := c0.(pc := 5, storage := map[EncodeWord(1) := EncodeWord(7)]);
    var c4 := c3.(pc := 7, stack := [0]);
    var c5 := c3.(pc := 8, stack := [0, 0]);
    Turn(env, code, c0, MAX_GAS, c1);
    Turn(env, code, c1, MAX_GAS - 3, c2);
    Turn(env, code, c2, MAX_GAS - 6, c3);
    Turn(env, code, c3, MAX_GAS - 5006, c4);
    Turn(env, code, c4, MAX_GAS - 5009, c5);
  }

  // ---------- Word round trips ----------

  /** MSTORE then MLOAD at one offset gives the magnitude back, and MSTORE changes no byte
      outside its 32 except by growing memory with zeros. */
  lemma MemoryRoundTrip(env: Env, code: seq<byte>, c: Core, g: nat, off: nat, v: int)
    requires |c.stack| >= 2 && c.stack[|c.stack| - 2..] == [off, v]
    requires off + WORD_SIZE <= MAX_MEMORY && Abs(v) < Pow256(WORD_SIZE)
    ensures var stored := Exec(env, code, MSTORE, c, g);
      && stored.Continue?
      && var m := stored.core.memory;
      && |m| == (if |c.memory| < off + WORD_SIZE then off + WORD_SIZE else |c.memory|)
      && m[off..off + WORD_SIZE] == EncodeWord(v)
      && (forall k | 0 <= k < |m| && !(off <= k < off + WORD_SIZE) ::
            m[k] == if k < |c.memory| then c.memory[k] else 0)
      && var again := stored.core.(stack := stored.core.stack + [off]);
         var loaded := Exec(env, code, MLOAD, again, g);
         loaded.Continue? && loaded.core.stack == stored.core.stack + [Abs(v)] && loaded.core.memory == m
  {
    BytesLength(Abs(v), WORD_SIZE);
    WordRoundTrip(v);
    var grown := Grow(c.memory, off + WORD_SIZE);
    var m := grown[..off] + EncodeWord(v) + grown[off + WORD_SIZE..];
    assert c.stack[|c.stack| - 2] == off && c.stack[|c.stack| - 1] == v;
    assert Exec(env, code, MSTORE, c, g).core.memory == m;
    assert m[off..off + WORD_SIZE] == EncodeWord(v);
    var again := Exec(env, code, MSTORE, c, g).core;
    assert (again.stack + [off])[..|again.stack|] == again.stack;
  }

  /** The stack left by SLOAD when the key is the only slot. */
  function Loaded(env: Env, code: seq<byte>, c: Core, key: int, g: nat): seq<int> {
    Exec(env, code, SLOAD, c.(stack := [key]), g).core.stack
  }

  lemma LoadedWord(env: Env, code: seq<byte>, c: Core, key: int, g: nat)
    ensures Loaded(env, code, c, key, g) == [FromBytes(StorageGet(c.storage, EncodeWord(key)))]
  {
  }

  /** SSTORE then SLOAD of one key gives the magnitude back if and only if it is below
      2^256; every other key below 2^256 loads as before. */
  lemma StorageRoundTrip(env: Env, code: seq<byte>, c: Core, g: nat, key: int, v: int, other: int)
    requires |c.stack| >= 2 && c.stack[|c.stack| - 2..] == [key, v]
    requires Abs(key) < Pow256(WORD_SIZE) && Abs(other) < Pow256(WORD_SIZE)
    ensures var stored := Exec(env, code, SSTORE, c, g);
      && stored.Continue?
      && (Loaded(env, code, stored.core, key, g) == [Abs(v)] <==> Abs(v) < Pow256(WORD_SIZE))
      && (Abs(other) != Abs(key) ==>
            Loaded(env, code, stored.core, other, g) == Loaded(env, code, c, other, g))
  {
    assert c.stack[|c.stack| - 2] == key && c.stack[|c.stack| - 1] == v;
    var after := Exec(env, code, SSTORE, c, g).core;
    assert after.storage == c.storage[EncodeWord(key) := EncodeWord(v)];
    LoadedWord(env, code, after, key, g);
    LoadedWord(env, code, after, other, g);
    LoadedWord(env, code, c, other, g);
    WordRoundTrip(v);
    WordsDistinct(key, other);
    assert StorageGet(after.storage, EncodeWord(key)) == EncodeWord(v);
  }
}
