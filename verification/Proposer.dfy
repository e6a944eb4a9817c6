/** The proposer schedule and the block producers. A producer reads the head in one step and
    inserts its block in a later one; other producers may act in between. */
module Proposer {
  import opened Options
  import opened Arithmetic
  import opened BlockChain

  const DEFAULT_PROPOSER: string := "0x0000000000000000000000000000000000000001"
  const INITIAL_STAKE: int := 1_000_000
  const GAS_PRICE: int := 1_000_000_000
  const GAS_USED: nat := 21_000

  /** Go's remainder takes the sign of the dividend. */
  function Remainder(x: int, n: nat): int
    requires n > 0
  {
    if x >= 0 then x % n else -((-x) % n)
  }

  /** None is an index out of range. */
  function Selected(validators: seq<string>, blockNum: nat): Option<string> {
    if validators == [] then Some(DEFAULT_PROPOSER)
    else
      var index := Remainder(AsInt64(blockNum), |validators|);
      if index < 0 then None else Some(validators[index])
  }

  /** The selection is in turn below 2^63. Past it only the multiples of the list's length,
      counted back from 2^64, are defined, and give the first validator. Without validators
      it is always the default. */
  lemma SelectedInTurn(validators: seq<string>, blockNum: nat)
    requires blockNum < UINT64
    ensures validators == [] ==> Selected(validators, blockNum) == Some("0x0000000000000000000000000000000000000001")
    ensures validators != [] && blockNum < INT64 ==>
      Selected(validators, blockNum) == Some(validators[blockNum % |validators|])
    ensures validators != [] && blockNum >= INT64 ==>
      Selected(validators, blockNum) == if (UINT64 - blockNum) % |validators| == 0 then Some(validators[0]) else None
  {
    assert blockNum % UINT64 == blockNum;
  }

  /** The producer's transactions carry no value. */
  function ProducedTxs(validators: seq<string>, proposer: string, next: nat, hashes: seq<string>): Option<seq<Tx>> {
    if hashes == [] then Some([])
    else
      var init := ProducedTxs(validators, proposer, next, hashes[..|hashes| - 1]);
      var to := Selected(validators, (next + |hashes|) % UINT64);
      if init.None? || to.None? then None
      else Some(init.value + [Tx(hashes[|hashes| - 1], proposer, to.value, None, Some(GAS_PRICE), GAS_USED)])
  }

  /** The block a producer makes on the head it read. */
  function Produced(validators: seq<string>, head: Header, hash: string, txHashes: seq<string>): Option<Block> {
    var next := (head.number + 1) % UINT64;
    var proposer := Selected(validators, next);
    if proposer.None? then None
    else
      var txs := ProducedTxs(validators, proposer.value, next, txHashes);
      if txs.None? then None
      else Some(Block(Header(next, hash, head.hash, proposer.value), txs.value, hash))
  }

  lemma InTurn(validators: seq<string>, blockNum: nat)
    requires validators != [] && blockNum < INT64
    ensures Selected(validators, blockNum % UINT64) == Some(validators[blockNum % |validators|])
  {
    assert blockNum % UINT64 == blockNum;
    SelectedInTurn(validators, blockNum);
  }

  /** Below 2^63 transaction i of the block after height h goes from the proposer to the
      validator i + 1 places on, without value, at the fixed price and gas. */
  lemma {:induction false} ProducedInFull(validators: seq<string>, proposer: string, next: nat, hashes: seq<string>,
                                          i: nat)
    requires validators != [] && next + |hashes| < INT64 && i < |hashes|
    ensures var txs := ProducedTxs(validators, proposer, next, hashes);
      && txs.Some? && |txs.value| == |hashes|
      && txs.value[i] == Tx(hashes[i], proposer, validators[(next + i + 1) % |validators|], None,
                            Some(1_000_000_000), 21_000)
  {
    hide Selected;
    var init := hashes[..|hashes| - 1];
    InTurn(validators, next + |hashes|);
    if init != [] {
      ProducedInFull(validators, proposer, next, init, if i < |init| then i else 0);
      assert i < |init| ==> init[i] == hashes[i];
    }
  }

  /** The block made on a head is the next one, names the head's hash as its parent, and is
      signed by the validator whose turn it is. */
  lemma ProducedFollows(validators: seq<string>, head: Header, hash: string, txHashes: seq<string>)
    requires validators != [] && head.number + 1 + |txHashes| < INT64
    ensures var b := Produced(validators, head, hash, txHashes);
      && b.Some?
      && b.value.header == Header(head.number + 1, hash, head.hash, validators[(head.number + 1) % |validators|])
      && b.value.hash == hash && |b.value.txs| == |txHashes|
  {
    hide Selected;
    InTurn(validators, head.number + 1);
    if txHashes != [] {
      ProducedInFull(validators, validators[(head.number + 1) % |validators|], head.number + 1, txHashes, 0);
    }
  }

  // ---------- Interleaved producers ----------

  datatype Step =
    | Read(producer: nat)
    | Submit(producer: nat, hash: string, txHashes: seq<string>)

  /** The chain, and the head each producer last read and has not used. */
  datatype World = World(chain: State, held: map<nat, Header>)

  /** What the producer submits, if it holds a head and does not fail. */
  function Made(w: World, validators: seq<string>, step: Step): Option<Block> {
    if step.Submit? && step.producer in w.held
    then Produced(validators, w.held[step.producer], step.hash, step.txHashes) else None
  }

  function Next(w: World, validators: seq<string>, step: Step): World
    requires w.chain.blocks != []
  {
    match step
    case Read(p) => w.(held := w.held[p := w.chain.blocks[|w.chain.blocks| - 1].header])
    case Submit(p, _, _) =>
      var made := Made(w, validators, step);
      World(if made.None? then w.chain else Insert(w.chain, made.value).state, w.held - {p})
  }

  function Steps(w: World, validators: seq<string>, steps: seq<Step>): (r: World)
    requires w.chain.blocks != []
    ensures w.chain.blocks <= r.chain.blocks
  {
    if steps == [] then w else Next(Steps(w, validators, steps[..|steps| - 1]), validators, steps[|steps| - 1])
  }

  /** The blocks submitted, in order. */
  function Submitted(w: World, validators: seq<string>, steps: seq<Step>): seq<Block>
    requires w.chain.blocks != []
  {
    if steps == [] then []
    else
      var init := steps[..|steps| - 1];
      var made := Made(Steps(w, validators, init), validators, steps[|steps| - 1]);
      Submitted(w, validators, init) + if made.None? then [] else [made.value]
  }

  /** To the chain, producers in any interleaving are just blocks arriving one by one. */
  lemma {:induction false} StepsAreInserts(w: World, validators: seq<string>, steps: seq<Step>)
    requires w.chain.blocks != []
    ensures Steps(w, validators, steps).chain == Run(w.chain, Submitted(w, validators, steps))
  {
    if steps == [] {
    } else {
      var init := steps[..|steps| - 1];
      StepsAreInserts(w, validators, init);
      var before, all := Submitted(w, validators, init), Submitted(w, validators, steps);
      var made := Made(Steps(w, validators, init), validators, steps[|steps| - 1]);
      if made.None? {
        assert all == before;
      } else {
        assert all[..|all| - 1] == before;
      }
    }
  }

  /** Block h carries the h-th validator in turn, as long as its number is not negative as a
      Go int; every block's own hash is its header's. */
  ghost predicate Scheduled(blocks: seq<Block>, validators: seq<string>)
    requires validators != []
  {
    && (forall h | 0 <= h < |blocks| && h < INT64 :: blocks[h].header.validator == validators[h % |validators|])
    && (forall h | 0 <= h < |blocks| :: blocks[h].header.hash == blocks[h].hash)
  }

  lemma ProducedInTurn(validators: seq<string>, head: Header, hash: string, txHashes: seq<string>)
    requires validators != []
    ensures var b := Produced(validators, head, hash, txHashes);
      b.Some? ==> var h := b.value.header;
        && h.number < UINT64 && h.hash == b.value.hash
        && (h.number < INT64 ==> h.validator == validators[h.number % |validators|])
  {
    SelectedInTurn(validators, (head.number + 1) % UINT64);
  }

  lemma ScheduledAdded(blocks: seq<Block>, validators: seq<string>, b: Block)
    requires validators != [] && Scheduled(blocks, validators) && b.header.hash == b.hash
    requires |blocks| < INT64 ==> b.header.validator == validators[|blocks| % |validators|]
    ensures Scheduled(blocks + [b], validators)
  {
  }

  lemma ProducedScheduled(blocks: seq<Block>, validators: seq<string>, head: Header,
          hash: string, txHashes: seq<string>)
    requires validators != [] && Scheduled(blocks, validators)
    ensures var b := Produced(validators, head, hash, txHashes);
      b.Some? && (|blocks| < INT64 ==> b.value.header.number == |blocks|) ==> Scheduled(blocks + [b.value], validators)
  {
    var b := Produced(validators, head, hash, txHashes);
    if b.Some? && (|blocks| < INT64 ==> b.value.header.number == |blocks|) {
      ProducedInTurn(validators, head, hash, txHashes);
      ScheduledAdded(blocks, validators, b.value);
    }
  }

  lemma NextScheduled(w: World, validators: seq<string>, step: Step)
    requires validators != [] && Linked(w.chain.blocks) && Scheduled(w.chain.blocks, validators)
    ensures var blocks := Next(w, validators, step).chain.blocks; Linked(blocks) && Scheduled(blocks, validators)
  {
    var made := Made(w, validators, step);
    if made.Some? && Insert(w.chain, made.value).state != w.chain {
      ProducedScheduled(w.chain.blocks, validators, w.held[step.producer], step.hash, step.txHashes);
      InsertLinked(w.chain, made.value);
      InsertAdds(w.chain, made.value);
    }
  }

  lemma GenesisScheduled(allocs: seq<Allocation>, validators: seq<string>, hash: string)
    requires validators != []
    ensures var blocks := Genesis(allocs, validators, hash).blocks; Linked(blocks) && Scheduled(blocks, validators)
  {
    Quotient(0, |validators|, 0, 0);
  }

  /** Whatever the interleaving, only one list of blocks grows, and its validators take turns
      from the genesis block on. */
  lemma {:induction false} ProposerSchedule(allocs: seq<Allocation>, validators: seq<string>, hash: string,
          steps: seq<Step>)
    requires validators != []
    ensures var s := Steps(World(Genesis(allocs, validators, hash), map[]), validators, steps).chain;
      Linked(s.blocks) && Scheduled(s.blocks, validators)
  {
    if steps == [] {
      GenesisScheduled(allocs, validators, hash);
    } else {
      var init := steps[..|steps| - 1];
      ProposerSchedule(allocs, validators, hash, init);
      var w := World(Genesis(allocs, validators, hash), map[]);
      NextScheduled(Steps(w, validators, init), validators, steps[|steps| - 1]);
    }
  }

  /** Under producers too the chain is its own replay, and of those that read one head at most
      one ever gets a block in. */
  lemma ProducersKeep(allocs: seq<Allocation>, validators: seq<string>, hash: string,
          steps: seq<Step>, i: nat, j: nat)
    requires validators != []
    ensures var s := Steps(World(Genesis(allocs, validators, hash), map[]), validators, steps).chain;
      && Replayed(s, allocs)
      && (0 < i < |s.blocks| && 0 < j < |s.blocks| ==>
            s.blocks[i].header.parentHash == s.blocks[j].header.parentHash ==> i == j)
  {
    var w := World(Genesis(allocs, validators, hash), map[]);
    var blocks := Submitted(w, validators, steps);
    StepsAreInserts(w, validators, steps);
    RunKeeps(allocs, validators, hash, blocks);
    var all := Run(w.chain, blocks).blocks;
    if 0 < i < |all| && 0 < j < |all| && all[i].header.parentHash == all[j].header.parentHash {
      OneChild(w.chain, blocks, i, j);
    }
  }

  lemma {:induction false} ProducedMoveNothing(validators: seq<string>, proposer: string, next: nat,
          hashes: seq<string>, accounts: Accounts)
    ensures var txs := ProducedTxs(validators, proposer, next, hashes);
      txs.Some? ==> |txs.value| == |hashes| && Replay(accounts, txs.value) == accounts
  {
    var txs := ProducedTxs(validators, proposer, next, hashes);
    if hashes != [] && txs.Some? {
      var init := hashes[..|hashes| - 1];
      ProducedMoveNothing(validators, proposer, next, init, accounts);
      assert txs.value[..|txs.value| - 1] == ProducedTxs(validators, proposer, next, init).value;
    }
  }

  /** Producers alone never change an account: the allocation is all there ever is. */
  lemma {:induction false} AccountsStay(allocs: seq<Allocation>, validators: seq<string>, hash: string,
          steps: seq<Step>)
    requires validators != []
    ensures Steps(World(Genesis(allocs, validators, hash), map[]), validators, steps).chain.accounts
         == Allocated(allocs)
  {
    if steps == [] {
    } else {
      var w := World(Genesis(allocs, validators, hash), map[]);
      var init, step := steps[..|steps| - 1], steps[|steps| - 1];
      AccountsStay(allocs, validators, hash, init);
      var before := Steps(w, validators, init);
      if Made(before, validators, step).Some? {
        var next := (before.held[step.producer].number + 1) % UINT64;
        ProducedMoveNothing(validators, Selected(validators, next).value, next, step.txHashes, before.chain.accounts);
      }
    }
  }

  /** A producer's block is appended exactly when the head it read is still the head and the
      block's hash is new. */
  lemma AppendedIff(s: State, validators: seq<string>, held: nat, hash: string,
          txHashes: seq<string>)
    requires validators != [] && Linked(s.blocks) && Scheduled(s.blocks, validators) && held < |s.blocks|
    ensures var b := Produced(validators, s.blocks[held].header, hash, txHashes);
      b.Some? ==>
        (Insert(s, b.value).state.blocks == s.blocks + [b.value]
         <==> held == |s.blocks| - 1 && !Known(s.blocks, hash))
  {
    assert s.blocks[held].header.hash == s.blocks[held].hash;
    assert s.blocks[|s.blocks| - 1].header.hash == s.blocks[|s.blocks| - 1].hash;
    var b := Produced(validators, s.blocks[held].header, hash, txHashes);
    if b.Some? {
      assert Insert(s, b.value).state.blocks == s.blocks + [b.value] <==> Insert(s, b.value).state != s by {
        assert |s.blocks + [b.value]| != |s.blocks|;
      }
    }
  }

  // ---------- Fairness ----------

  /** How many of the numbers from first on have this address in turn. */
  function Turns(validators: seq<string>, addr: string, first: nat, length: nat): nat
    requires validators != []
  {
    if length == 0 then 0
    else
      Turns(validators, addr, first, length - 1)
      + if validators[(first + length - 1) % |validators|] == addr then 1 else 0
  }

  /** How often the address is listed. */
  function Listed(validators: seq<string>, addr: string): nat {
    if validators == [] then 0
    else Listed(validators[..|validators| - 1], addr) + if validators[|validators| - 1] == addr then 1 else 0
  }

  /** The blocks of a stretch of the chain that the address proposed. */
  function ProposedBy(blocks: seq<Block>, addr: string, first: nat, length: nat): nat
    requires first + length <= |blocks|
  {
    if length == 0 then 0
    else
      ProposedBy(blocks, addr, first, length - 1)
      + if blocks[first + length - 1].header.validator == addr then 1 else 0
  }

  lemma {:induction false} ProposedInTurn(blocks: seq<Block>, validators: seq<string>, addr: string, first: nat,
          length: nat)
    requires validators != [] && Scheduled(blocks, validators) && first + length <= |blocks| && first + length <= INT64
    ensures ProposedBy(blocks, addr, first, length) == Turns(validators, addr, first, length)
  {
    if length == 0 {
    } else {
      ProposedInTurn(blocks, validators, addr, first, length - 1);
    }
  }

  lemma {:induction false} TurnsJoin(validators: seq<string>, addr: string, first: nat, a: nat, b: nat)
    requires validators != []
    ensures Turns(validators, addr, first, a + b)
         == Turns(validators, addr, first, a) + Turns(validators, addr, first + a, b)
  {
    if b == 0 {
    } else {
      TurnsJoin(validators, addr, first, a, b - 1);
    }
  }

  lemma {:induction false} ListedIsFirstRound(validators: seq<string>, addr: string, k: nat)
    requires k <= |validators| && validators != []
    ensures Turns(validators, addr, 0, k) == Listed(validators[..k], addr)
  {
    if k == 0 {
    } else {
      ListedIsFirstRound(validators, addr, k - 1);
      assert validators[..k][..k - 1] == validators[..k - 1];
      Quotient(k - 1, |validators|, 0, k - 1);
    }
  }

  lemma SameTurn(h: nat, n: nat)
    requires n > 0
    ensures (h + n) % n == h % n && (h + n) / n == h / n + 1
  {
    Quotient(h + n, n, h / n + 1, h % n);
  }

  /** A full round meets every list position once, wherever it starts. */
  lemma {:induction false} FullRound(validators: seq<string>, addr: string, first: nat)
    requires validators != []
    ensures Turns(validators, addr, first, |validators|) == Listed(validators, addr)
  {
    var n := |validators|;
    if first == 0 {
      ListedIsFirstRound(validators, addr, n);
      assert validators[..n] == validators;
    } else {
      FullRound(validators, addr, first - 1);
      TurnsJoin(validators, addr, first - 1, 1, n - 1);
      TurnsJoin(validators, addr, first, n - 1, 1);
      SameTurn(first - 1, n);
      assert Turns(validators, addr, first - 1, 1) == Turns(validators, addr, first + n - 1, 1);
    }
  }

  lemma Distribute(m: nat, q: nat)
    ensures m * (q + 1) == m * q + m
  {
  }

  lemma {:induction false} Rounds(validators: seq<string>, addr: string, first: nat, q: nat)
    requires validators != []
    ensures Turns(validators, addr, first, |validators| * q) == Listed(validators, addr) * q
  {
    if q == 0 {
    } else {
      var n := |validators|;
      Distribute(n, q - 1);
      Distribute(Listed(validators, addr), q - 1);
      Rounds(validators, addr, first, q - 1);
      TurnsJoin(validators, addr, first, n * (q - 1), n);
      FullRound(validators, addr, first + n * (q - 1));
    }
  }

  lemma PartRound(validators: seq<string>, addr: string, first: nat, r: nat)
    requires r < |validators|
    ensures Turns(validators, addr, first, r) <= if r == 0 then 0 else Listed(validators, addr)
  {
    TurnsJoin(validators, addr, first, r, |validators| - r);
    FullRound(validators, addr, first);
  }

  lemma RoundedUp(length: nat, n: nat)
    requires n > 0
    ensures (length + n - 1) / n == length / n + if length % n == 0 then 0 else 1
  {
    var q, r := length / n, length % n;
    if r == 0 {
      Quotient(length + n - 1, n, q, n - 1);
    } else {
      Distribute(n, q);
      Quotient(length + n - 1, n, q + 1, r - 1);
    }
  }

  lemma TurnsFair(validators: seq<string>, addr: string, first: nat, length: nat)
    requires validators != []
    ensures var n, m := |validators|, Listed(validators, addr);
      m * (length / n) <= Turns(validators, addr, first, length) <= m * ((length + n - 1) / n)
  {
    var n := |validators|;
    var q, r := length / n, length % n;
    assert length == n * q + r;
    Rounds(validators, addr, first, q);
    TurnsJoin(validators, addr, first, n * q, r);
    PartRound(validators, addr, first + n * q, r);
    RoundedUp(length, n);
    Distribute(Listed(validators, addr), q);
  }

  /** In any stretch of the chain an address listed m times among n proposes between m times
      the rounded-down and m times the rounded-up n-th part of its blocks. */
  lemma FairShare(allocs: seq<Allocation>, validators: seq<string>, hash: string, steps: seq<Step>,
                                     addr: string, first: nat, length: nat)
    requires validators != [] && first + length <= INT64
    requires first + length <= |Steps(World(Genesis(allocs, validators, hash), map[]), validators, steps).chain.blocks|
    ensures var blocks := Steps(World(Genesis(allocs, validators, hash), map[]), validators, steps).chain.blocks;
      var n, m := |validators|, Listed(validators, addr);
      m * (length / n) <= ProposedBy(blocks, addr, first, length) <= m * ((length + n - 1) / n)
  {
    ProposerSchedule(allocs, validators, hash, steps);
    var blocks := Steps(World(Genesis(allocs, validators, hash), map[]), validators, steps).chain.blocks;
    ProposedInTurn(blocks, validators, addr, first, length);
    TurnsFair(validators, addr, first, length);
  }

  // ---------- The running objects ----------

  class ValidatorSet {
    var validators: seq<string>
    var stakes: map<string, int>

    constructor (list: seq<string>)
      ensures validators == list
      ensures forall v :: v in stakes <==> v in list
      ensures forall v | v in list :: stakes[v] == INITIAL_STAKE
    {
      validators, stakes := list, map[];
      new;
      for k := 0 to |list|
        invariant validators == list
        invariant forall v :: v in stakes <==> v in list[..k]
        invariant forall v | v in stakes :: stakes[v] == INITIAL_STAKE
      {
        stakes := stakes[list[k] := INITIAL_STAKE];
      }
    }

    method SelectProposer(blockNum: nat) returns (addr: Option<string>)
      ensures addr == Selected(validators, blockNum)
    {
      if |validators| == 0 {
        return Some(DEFAULT_PROPOSER);
      }
      var index := Remainder(AsInt64(blockNum), |validators|);
      if index < 0 {
        return None;
      }
      return Some(validators[index]);
    }

    method AddValidator(addr: string, stake: int)
      modifies this
      ensures validators == old(validators) + [addr] && stakes == old(stakes)[addr := stake]
    {
      validators := validators + [addr];
      stakes := stakes[addr := stake];
    }
  }

  /** Panicked: a proposer selection ran out of range. */
  datatype Result = Done(error: Option<Error>) | Panicked

  lemma {:induction false} NoneFurther(validators: seq<string>, proposer: string, next: nat, hashes: seq<string>,
          k: nat)
    requires k <= |hashes| && ProducedTxs(validators, proposer, next, hashes[..k]).None?
    ensures ProducedTxs(validators, proposer, next, hashes).None?
    decreases |hashes|
  {
    if k < |hashes| {
      assert hashes[..|hashes| - 1][..k] == hashes[..k];
      NoneFurther(validators, proposer, next, hashes[..|hashes| - 1], k);
    } else {
      assert hashes[..k] == hashes;
    }
  }

  class PoSEngine {
    const vs: ValidatorSet
    const chain: Chain

    constructor (chain: Chain, vs: ValidatorSet)
      ensures this.chain == chain && this.vs == vs
    {
      this.chain, this.vs := chain, vs;
    }

    method MakeTxs(proposer: string, next: nat, hashes: seq<string>) returns (txs: Option<seq<Tx>>)
      ensures txs == ProducedTxs(vs.validators, proposer, next, hashes)
    {
      var made := new Tx[|hashes|];
      ghost var done: seq<Tx> := [];
      for i := 0 to |hashes|
        invariant made[..i] == done && ProducedTxs(vs.validators, proposer, next, hashes[..i]) == Some(done)
      {
        ghost var txs := ProducedTxs(vs.validators, proposer, next, hashes[..i + 1]);
        assert hashes[..i + 1][..i] == hashes[..i];
        var to := vs.SelectProposer((next + i + 1) % UINT64);
        if to.None? {
          NoneFurther(vs.validators, proposer, next, hashes, i + 1);
          return None;
        }
        made[i] := Tx(hashes[i], proposer, to.value, None, Some(GAS_PRICE), GAS_USED);
        done := done + [made[i]];
        assert txs == Some(done);
      }
      assert hashes[..|hashes|] == hashes && made[..|hashes|] == made[..];
      return Some(made[..]);
    }

    /** The second half of produceBlock, on the head read in the first. */
    method Submit(head: Header, hash: string, txHashes: seq<string>) returns (r: Result)
      requires chain.Valid()
      modifies chain
      ensures chain.Valid()
      ensures match Produced(vs.validators, head, hash, txHashes)
              case None => r == Panicked && chain.Now() == old(chain.Now())
              case Some(b) => r.Done? && Outcome(chain.Now(), r.error) == Insert(old(chain.Now()), b)
    {
      var next := (head.number + 1) % UINT64;
      var proposer := vs.SelectProposer(next);
      if proposer.None? {
        return Panicked;
      }
      var txs := MakeTxs(proposer.value, next, txHashes);
      if txs.None? {
        return Panicked;
      }
      var error := chain.InsertBlock(Block(Header(next, hash, head.hash, proposer.value), txs.value, hash));
      return Done(error);
    }

    /** With nobody in between, a block is produced on the current head. */
    method ProduceBlock(hash: string, txHashes: seq<string>) returns (r: Result)
      requires chain.Valid()
      modifies chain
      ensures chain.Valid()
      ensures match Produced(vs.validators, old(chain.blocks[|chain.blocks| - 1].header), hash, txHashes)
              case None => r == Panicked && chain.Now() == old(chain.Now())
              case Some(b) => r.Done? && Outcome(chain.Now(), r.error) == Insert(old(chain.Now()), b)
    {
      var head := chain.Head();
      r := Submit(head.header, hash, txHashes);
    }
  }
}
