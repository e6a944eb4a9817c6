/** The node's chain: a hash-linked list of blocks with two indexes, and the account state that
    the inserted transactions leave. */
module BlockChain {
  import opened Arithmetic
  import opened Options
  import opened Sums

  const INT64: int := 0x8000_0000_0000_0000

  /** A value or gas price is None where Go passes a nil pointer; gasUsed is a 64-bit word. */
  datatype Tx = Tx(hash: string, from: string, to: string, value: Option<int>, gasPrice: Option<int>, gasUsed: nat)

  datatype Header = Header(number: nat, hash: string, parentHash: string, validator: string)

  datatype Block = Block(header: Header, txs: seq<Tx>, hash: string)

  datatype Account = Account(balance: int, nonce: nat)

  datatype Allocation = Allocation(address: string, balance: Option<int>, nonce: nat)

  type Accounts = map<string, Account>

  datatype Error = ParentNotFound | InvalidBlock

  /** Everything but the two block indexes. */
  datatype State = State(blocks: seq<Block>, accounts: Accounts, txIndex: map<string, Tx>)

  datatype Outcome = Outcome(state: State, error: Option<Error>)

  function Lower(c: char): char {
    if 'A' <= c <= 'Z' then c - 'A' + 'a' else c
  }

  function ToLower(s: string): (t: string)
    ensures |t| == |s| && forall i | 0 <= i < |s| :: t[i] == Lower(s[i])
  {
    seq(|s|, i requires 0 <= i < |s| => Lower(s[i]))
  }

  /** Lower-casing is settled after one turn, touches no character but the capitals, and maps
      each of those to the letter 32 places on. */
  lemma LowerLaw(s: string, i: nat)
    requires i < |s|
    ensures ToLower(ToLower(s)) == ToLower(s)
    ensures ToLower(s)[i] as int == if 65 <= s[i] as int <= 90 then s[i] as int + 32 else s[i] as int
  {
    assert Lower(Lower(s[i])) == Lower(s[i]);
    assert forall k | 0 <= k < |s| :: ToLower(ToLower(s))[k] == ToLower(s)[k];
  }

  /** Go's int64(n) of a 64-bit word. */
  function AsInt64(n: nat): int {
    var m := n % UINT64;
    if m < INT64 then m else m - UINT64
  }

  // ---------- One transaction ----------

  function Fee(tx: Tx): int {
    if tx.gasPrice.Some? && tx.gasUsed > 0 then tx.gasPrice.value * AsInt64(tx.gasUsed) else 0
  }

  /** An account exists once it is named. */
  function Opened(accounts: Accounts, addr: string): Accounts {
    if addr in accounts then accounts else accounts[addr := Account(0, 0)]
  }

  function OpenedBoth(accounts: Accounts, tx: Tx): Accounts {
    var a := Opened(accounts, ToLower(tx.from));
    if ToLower(tx.to) == "" then a else Opened(a, ToLower(tx.to))
  }

  function BalanceOf(accounts: Accounts, addr: string): int {
    if addr in accounts then accounts[addr].balance else 0
  }

  predicate Moves(tx: Tx) {
    tx.value.Some? && tx.value.value != 0
  }

  /** The transaction is paid for: it moves a value and the sender holds value and fee. */
  predicate Accepted(accounts: Accounts, tx: Tx) {
    Moves(tx) && BalanceOf(accounts, ToLower(tx.from)) >= tx.value.value + Fee(tx)
  }

  function Paid(a: Account, cost: int): Account {
    Account(a.balance - cost, (a.nonce + 1) % UINT64)
  }

  /** The recipient is credited after the sender paid, so a transfer to oneself costs the fee. */
  function Applied(accounts: Accounts, tx: Tx): Accounts {
    if !Moves(tx) then accounts
    else
      var from, to, a := ToLower(tx.from), ToLower(tx.to), OpenedBoth(accounts, tx);
      if a[from].balance < tx.value.value + Fee(tx) then a
      else
        var paid := a[from := Paid(a[from], tx.value.value + Fee(tx))];
        if to == "" then paid else paid[to := paid[to].(balance := paid[to].balance + tx.value.value)]
  }

  function NonceOf(accounts: Accounts, addr: string): nat {
    if addr in accounts then accounts[addr].nonce else 0
  }

  /** An accepted transaction takes value and fee from the sender, gives the value to the
      recipient and counts one nonce of the sender; nothing else moves. One that is refused
      moves nothing. */
  lemma AppliedMoves(accounts: Accounts, tx: Tx, addr: string)
    ensures var from, to, after := ToLower(tx.from), ToLower(tx.to), Applied(accounts, tx);
      if Accepted(accounts, tx)
      then
        && BalanceOf(after, addr) == BalanceOf(accounts, addr)
             - (if addr == from then tx.value.value + Fee(tx) else 0) + (if addr == to != "" then tx.value.value else 0)
        && NonceOf(after, addr)
           == if addr == from then (NonceOf(accounts, addr) + 1) % UINT64 else NonceOf(accounts, addr)
      else BalanceOf(after, addr) == BalanceOf(accounts, addr) && NonceOf(after, addr) == NonceOf(accounts, addr)
  {
  }

  /** The price of the gas of a transaction, in full: price times gas, the gas read as a signed
      64-bit word; nothing when there is no price. */
  function GasBill(tx: Tx): int {
    if tx.gasPrice.None? then 0
    else if tx.gasUsed < INT64 then tx.gasPrice.value * tx.gasUsed
    else tx.gasPrice.value * (tx.gasUsed - 2 * INT64)
  }

  lemma FeeIsBill(tx: Tx)
    requires tx.gasUsed < UINT64
    ensures Fee(tx) == GasBill(tx)
  {
    assert tx.gasUsed % UINT64 == tx.gasUsed;
    assert tx.gasPrice.Some? && tx.gasUsed == 0 ==> tx.gasPrice.value * tx.gasUsed == 0;
  }

  /** What a transaction costs whom, on balances: it is accepted exactly when it moves something
      and the sender holds the value and the gas bill; then a sender other than the recipient
      loses both, the recipient gains the value, and one paying itself loses the bill. */
  lemma Charges(accounts: Accounts, tx: Tx)
    requires tx.gasUsed < UINT64
    ensures var from, to, after := ToLower(tx.from), ToLower(tx.to), Applied(accounts, tx);
      var pays := tx.value.Some? && tx.value.value != 0 && BalanceOf(accounts, from) >= tx.value.value + GasBill(tx);
      && (pays <==> Accepted(accounts, tx))
      && (pays && from != to ==>
            && BalanceOf(after, from) == BalanceOf(accounts, from) - tx.value.value - GasBill(tx)
            && (to != "" ==> BalanceOf(after, to) == BalanceOf(accounts, to) + tx.value.value))
      && (pays && from == to ==>
            BalanceOf(after, from) == BalanceOf(accounts, from) - GasBill(tx) - if to == "" then tx.value.value else 0)
      && (!pays ==>
            BalanceOf(after, from) == BalanceOf(accounts, from) && BalanceOf(after, to) == BalanceOf(accounts, to))
  {
    FeeIsBill(tx);
    AppliedMoves(accounts, tx, ToLower(tx.from));
    AppliedMoves(accounts, tx, ToLower(tx.to));
  }

  function Replay(accounts: Accounts, txs: seq<Tx>): Accounts {
    if txs == [] then accounts else Applied(Replay(accounts, txs[..|txs| - 1]), txs[|txs| - 1])
  }

  function Indexed(index: map<string, Tx>, txs: seq<Tx>): map<string, Tx> {
    if txs == [] then index
    else
      var tx := txs[|txs| - 1];
      Indexed(index, txs[..|txs| - 1])[tx.hash := tx]
  }

  lemma {:induction false} ReplayJoin(accounts: Accounts, a: seq<Tx>, b: seq<Tx>)
    ensures Replay(accounts, a + b) == Replay(Replay(accounts, a), b)
  {
    if b == [] {
      assert a + b == a;
    } else {
      assert (a + b)[..|a + b| - 1] == a + b[..|b| - 1];
      ReplayJoin(accounts, a, b[..|b| - 1]);
    }
  }

  lemma {:induction false} IndexedJoin(index: map<string, Tx>, a: seq<Tx>, b: seq<Tx>)
    ensures Indexed(index, a + b) == Indexed(Indexed(index, a), b)
  {
    if b == [] {
      assert a + b == a;
    } else {
      assert (a + b)[..|a + b| - 1] == a + b[..|b| - 1];
      IndexedJoin(index, a, b[..|b| - 1]);
    }
  }

  /** The index names the last transaction of each hash. */
  lemma {:induction false} IndexedLast(txs: seq<Tx>, i: nat)
    requires i < |txs| && forall j | i < j < |txs| :: txs[j].hash != txs[i].hash
    ensures txs[i].hash in Indexed(map[], txs) && Indexed(map[], txs)[txs[i].hash] == txs[i]
  {
    var init := txs[..|txs| - 1];
    if i < |init| {
      assert init[i] == txs[i];
      IndexedLast(init, i);
    }
  }

  /** It names no other. */
  lemma {:induction false} IndexedOnly(txs: seq<Tx>, hash: string)
    requires hash in Indexed(map[], txs)
    ensures exists i | 0 <= i < |txs| :: txs[i].hash == hash
  {
    var init := txs[..|txs| - 1];
    if txs[|init|].hash != hash {
      IndexedOnly(init, hash);
      var i :| 0 <= i < |init| && init[i].hash == hash;
      assert txs[i] == init[i];
    }
  }

  // ---------- Balances ----------

  ghost const BALANCE: (string, Account) -> int := (addr: string, a: Account) => a.balance

  ghost function TotalBalance(accounts: Accounts): int {
    Total(accounts, BALANCE)
  }

  /** What leaves the accounts for good when the transaction is accepted: the fee, and a value
      sent to nobody. */
  function Lost(tx: Tx): int
    requires tx.value.Some?
  {
    Fee(tx) + if ToLower(tx.to) == "" then tx.value.value else 0
  }

  function Burned(accounts: Accounts, tx: Tx): int {
    if Accepted(accounts, tx) then Lost(tx) else 0
  }

  function AllBurned(accounts: Accounts, txs: seq<Tx>): int {
    if txs == [] then 0
    else
      var init := txs[..|txs| - 1];
      AllBurned(accounts, init) + Burned(Replay(accounts, init), txs[|txs| - 1])
  }

  lemma OpenedTotal(accounts: Accounts, addr: string)
    ensures TotalBalance(Opened(accounts, addr)) == TotalBalance(accounts)
  {
    if addr !in accounts {
      TotalUpdate(accounts, BALANCE, addr, Account(0, 0));
    }
  }

  lemma AppliedTotal(accounts: Accounts, tx: Tx)
    ensures TotalBalance(Applied(accounts, tx)) == TotalBalance(accounts) - Burned(accounts, tx)
  {
    if Moves(tx) {
      var from, to := ToLower(tx.from), ToLower(tx.to);
      OpenedTotal(accounts, from);
      OpenedTotal(Opened(accounts, from), to);
      var a := OpenedBoth(accounts, tx);
      if Accepted(accounts, tx) {
        var payer := Paid(a[from], tx.value.value + Fee(tx));
        TotalUpdate(a, BALANCE, from, payer);
        var paid := a[from := payer];
        if to != "" {
          TotalUpdate(paid, BALANCE, to, paid[to].(balance := paid[to].balance + tx.value.value));
        }
      }
    }
  }

  /** Whatever the transactions are, the total balance falls by exactly the fees of the accepted
      ones and the values they send to an empty recipient. */
  lemma {:induction false} ReplayTotal(accounts: Accounts, txs: seq<Tx>)
    ensures TotalBalance(Replay(accounts, txs)) == TotalBalance(accounts) - AllBurned(accounts, txs)
  {
    if txs == [] {
    } else {
      var init := txs[..|txs| - 1];
      ReplayTotal(accounts, init);
      AppliedTotal(Replay(accounts, init), txs[|txs| - 1]);
    }
  }

  ghost predicate NonNegative(accounts: Accounts) {
    forall addr | addr in accounts :: accounts[addr].balance >= 0
  }

  /** No negative value is credited, except to the payer in return for a fee that is none. */
  predicate Harmless(tx: Tx) {
    || !Moves(tx) || tx.value.value >= 0 || ToLower(tx.to) == ""
    || (ToLower(tx.from) == ToLower(tx.to) && Fee(tx) <= 0)
  }

  lemma HarmlessKeeps(accounts: Accounts, tx: Tx)
    requires NonNegative(accounts) && Harmless(tx)
    ensures NonNegative(Applied(accounts, tx))
  {
    if Moves(tx) {
      assert NonNegative(OpenedBoth(accounts, tx));
    }
  }

  lemma HarmfulBreaks(tx: Tx) returns (accounts: Accounts)
    requires !Harmless(tx)
    ensures NonNegative(accounts) && !NonNegative(Applied(accounts, tx))
  {
    var from, to, cost := ToLower(tx.from), ToLower(tx.to), tx.value.value + Fee(tx);
    accounts := map[from := Account(if cost >= 0 then cost else 0, 0)];
    assert Applied(accounts, tx)[to].balance < 0;
  }

  /** The exact hypothesis under which a transaction never makes a balance negative. A fee may
      be negative: the affordability check alone protects the payer. */
  lemma NonNegativeIff(tx: Tx)
    ensures Harmless(tx) <==> forall accounts | NonNegative(accounts) :: NonNegative(Applied(accounts, tx))
  {
    if Harmless(tx) {
      forall accounts | NonNegative(accounts)
        ensures NonNegative(Applied(accounts, tx))
      {
        HarmlessKeeps(accounts, tx);
      }
    } else {
      var accounts := HarmfulBreaks(tx);
    }
  }

  /** No negative value or gas price, and a gas use that int64 does not fold. */
  predicate Fair(tx: Tx) {
    && (tx.value.Some? ==> tx.value.value >= 0)
    && (tx.gasPrice.Some? ==> tx.gasPrice.value >= 0)
    && tx.gasUsed < INT64
  }

  lemma NothingMinted(accounts: Accounts, tx: Tx)
    requires Fair(tx)
    ensures 0 <= Burned(accounts, tx)
  {
    if tx.gasPrice.Some? {
      assert AsInt64(tx.gasUsed) == tx.gasUsed;
      assert tx.gasPrice.value * tx.gasUsed >= 0;
    }
  }

  ghost predicate NeverMints(tx: Tx) {
    forall accounts :: TotalBalance(Applied(accounts, tx)) <= TotalBalance(accounts)
  }

  /** The exact condition under which a transaction mints in no state at all: it moves nothing,
      or its fee, with a value sent to nobody, is not negative. */
  lemma NeverMintsIff(tx: Tx)
    ensures NeverMints(tx) <==> !Moves(tx) || Lost(tx) >= 0
  {
    if !Moves(tx) || Lost(tx) >= 0 {
      forall accounts
        ensures TotalBalance(Applied(accounts, tx)) <= TotalBalance(accounts)
      {
        AppliedTotal(accounts, tx);
      }
    } else {
      var cost := tx.value.value + Fee(tx);
      var accounts: Accounts := map[ToLower(tx.from) := Account(if cost >= 0 then cost else 0, 0)];
      AppliedTotal(accounts, tx);
      assert Burned(accounts, tx) == Lost(tx);
      assert TotalBalance(Applied(accounts, tx)) > TotalBalance(accounts);
    }
  }

  /** Gas use of 2^63 folds to a negative fee: one unit of value sent mints the sender 2^63 - 1. */
  lemma FoldedGasMints()
    ensures var tx := Tx("t", "a", "b", Some(1), Some(1), INT64);
      && Accepted(map[], tx) && Burned(map[], tx) == -INT64
      && BalanceOf(Applied(map[], tx), "a") == INT64 - 1
  {
    var tx := Tx("t", "a", "b", Some(1), Some(1), INT64);
    assert ToLower("a") == "a" && ToLower("b") == "b";
    assert AsInt64(INT64) == -INT64;
    assert Fee(tx) == -INT64;
    assert Accepted(map[], tx);
  }

  // ---------- Inserting blocks ----------

  predicate Known(blocks: seq<Block>, hash: string) {
    exists i | 0 <= i < |blocks| :: blocks[i].hash == hash
  }

  function Insert(s: State, b: Block): Outcome
    requires s.blocks != []
  {
    var head := s.blocks[|s.blocks| - 1];
    if Known(s.blocks, b.hash) then Outcome(s, None)
    else if b.header.parentHash != head.hash then Outcome(s, Some(ParentNotFound))
    else if b.header.number != (head.header.number + 1) % UINT64 then Outcome(s, Some(InvalidBlock))
    else Outcome(State(s.blocks + [b], Replay(s.accounts, b.txs), Indexed(s.txIndex, b.txs)), None)
  }

  /** Later allocations to an address replace earlier ones, and no balance means zero. */
  function Allocated(allocs: seq<Allocation>): Accounts {
    if allocs == [] then map[]
    else
      var a := allocs[|allocs| - 1];
      var balance := if a.balance.None? then 0 else a.balance.value;
      Allocated(allocs[..|allocs| - 1])[ToLower(a.address) := Account(balance, a.nonce)]
  }

  /** An address holds what its last allocation gives it, whatever the case of its letters. */
  lemma {:induction false} AllocatedLast(allocs: seq<Allocation>, addr: string)
    ensures addr in Allocated(allocs) <==> exists i | 0 <= i < |allocs| :: ToLower(allocs[i].address) == addr
    ensures addr in Allocated(allocs) ==> exists i | 0 <= i < |allocs| ::
      && ToLower(allocs[i].address) == addr
      && Allocated(allocs)[addr].nonce == allocs[i].nonce
      && Allocated(allocs)[addr].balance == (if allocs[i].balance == None then 0 else allocs[i].balance.value)
      && forall j | i < j < |allocs| :: ToLower(allocs[j].address) != addr
  {
    if allocs == [] {
    } else {
      var n := |allocs| - 1;
      AllocatedLast(allocs[..n], addr);
      if ToLower(allocs[n].address) == addr {
        assert addr in Allocated(allocs);
      } else if addr in Allocated(allocs[..n]) {
        var before := allocs[..n];
        var i :| 0 <= i < n && ToLower(before[i].address) == addr && Allocated(before)[addr].nonce == before[i].nonce
                 && Allocated(before)[addr].balance
                    == (if before[i].balance == None then 0 else before[i].balance.value)
                 && forall j | i < j < n :: ToLower(before[j].address) != addr;
        assert allocs[i] == before[i];
        assert forall j | i < j < n :: allocs[j] == before[j];
      }
    }
  }

  const ZERO_HASH: string := "0x0000000000000000000000000000000000000000000000000000000000000000"

  function GenesisBlock(validators: seq<string>, hash: string): Block
    requires validators != []
  {
    Block(Header(0, hash, ZERO_HASH, validators[0]), [], hash)
  }

  function Genesis(allocs: seq<Allocation>, validators: seq<string>, hash: string): State
    requires validators != []
  {
    State([GenesisBlock(validators, hash)], Allocated(allocs), map[])
  }

  function Run(s: State, blocks: seq<Block>): (r: State)
    requires s.blocks != []
    ensures s.blocks <= r.blocks
  {
    if blocks == [] then s else Insert(Run(s, blocks[..|blocks| - 1]), blocks[|blocks| - 1]).state
  }

  function AllTxs(blocks: seq<Block>): seq<Tx> {
    if blocks == [] then [] else AllTxs(blocks[..|blocks| - 1]) + blocks[|blocks| - 1].txs
  }

  /** Each block is numbered by its place, modulo the word size, and names its predecessor;
      no hash occurs twice. */
  ghost predicate Linked(blocks: seq<Block>) {
    && blocks != []
    && (forall i | 0 <= i < |blocks| :: blocks[i].header.number == i % UINT64)
    && (forall i | 0 < i < |blocks| :: blocks[i].header.parentHash == blocks[i - 1].hash)
    && (forall i, j | 0 <= i < j < |blocks| :: blocks[i].hash != blocks[j].hash)
  }

  /** The accounts and the transaction index are a replay of every block from the allocation. */
  ghost predicate Replayed(s: State, allocs: seq<Allocation>) {
    && s.accounts == Replay(Allocated(allocs), AllTxs(s.blocks))
    && s.txIndex == Indexed(map[], AllTxs(s.blocks))
  }

  /** A block that follows the head. */
  predicate Follows(blocks: seq<Block>, b: Block)
    requires blocks != []
  {
    var head := blocks[|blocks| - 1];
    b.header.parentHash == head.hash && b.header.number == (head.header.number + 1) % UINT64
  }

  lemma NextNumber(blocks: seq<Block>, b: Block)
    requires Linked(blocks) && Follows(blocks, b)
    ensures b.header.number == |blocks| % UINT64
  {
    assert blocks[|blocks| - 1].header.number == (|blocks| - 1) % UINT64;
  }

  lemma LinkedAdded(blocks: seq<Block>, b: Block)
    requires Linked(blocks) && Follows(blocks, b) && !Known(blocks, b.hash)
    ensures Linked(blocks + [b])
  {
    NextNumber(blocks, b);
  }

  lemma InsertLinked(s: State, b: Block)
    requires Linked(s.blocks)
    ensures Linked(Insert(s, b).state.blocks)
  {
    if Insert(s, b).state != s {
      LinkedAdded(s.blocks, b);
    }
  }

  /** In a linked chain a block is ignored when its hash is known, refused as an orphan when it
      does not name the last block, refused as invalid when its number is not that of its place,
      and else appended and replayed. */
  lemma InsertAnswers(s: State, b: Block)
    requires Linked(s.blocks)
    ensures var out := Insert(s, b);
      var known := exists i | 0 <= i < |s.blocks| :: s.blocks[i].hash == b.hash;
      var orphan := b.header.parentHash != s.blocks[|s.blocks| - 1].hash;
      && (out.error == Some(ParentNotFound) <==> !known && orphan)
      && (out.error == Some(InvalidBlock) <==> !known && !orphan && b.header.number != |s.blocks| % UINT64)
      && (known || out.error.Some? ==> out.state == s)
      && (!known && out.error.None? ==>
            && out.state.blocks == s.blocks + [b]
            && out.state.accounts == Replay(s.accounts, b.txs) && out.state.txIndex == Indexed(s.txIndex, b.txs))
  {
    var head := s.blocks[|s.blocks| - 1];
    assert head.header.number == (|s.blocks| - 1) % UINT64;
    assert (head.header.number + 1) % UINT64 == |s.blocks| % UINT64;
  }

  lemma InsertAdds(s: State, b: Block)
    requires Linked(s.blocks) && Insert(s, b).state != s
    ensures Insert(s, b).state.blocks == s.blocks + [b]
    ensures |s.blocks| < UINT64 ==> b.header.number == |s.blocks|
  {
    NextNumber(s.blocks, b);
  }

  lemma InsertReplayed(s: State, b: Block, allocs: seq<Allocation>)
    requires s.blocks != [] && Replayed(s, allocs)
    ensures Replayed(Insert(s, b).state, allocs)
  {
    assert (s.blocks + [b])[..|s.blocks|] == s.blocks;
    ReplayJoin(Allocated(allocs), AllTxs(s.blocks), b.txs);
    IndexedJoin(map[], AllTxs(s.blocks), b.txs);
  }

  /** Whatever blocks arrive, in whatever order, the chain stays one linked list and the state
      its replay. */
  lemma {:induction false} RunKeeps(allocs: seq<Allocation>, validators: seq<string>, hash: string, blocks: seq<Block>)
    requires validators != []
    ensures var s := Run(Genesis(allocs, validators, hash), blocks);
      Linked(s.blocks) && Replayed(s, allocs)
  {
    var g := Genesis(allocs, validators, hash);
    if blocks == [] {
      assert AllTxs(g.blocks) == [];
    } else {
      var init := blocks[..|blocks| - 1];
      RunKeeps(allocs, validators, hash, init);
      InsertLinked(Run(g, init), blocks[|blocks| - 1]);
      InsertReplayed(Run(g, init), blocks[|blocks| - 1], allocs);
    }
  }

  /** The total balance after any run is what was allocated less everything burned. */
  lemma RunTotal(allocs: seq<Allocation>, validators: seq<string>, hash: string, blocks: seq<Block>)
    requires validators != []
    ensures var s := Run(Genesis(allocs, validators, hash), blocks);
      TotalBalance(s.accounts) == TotalBalance(Allocated(allocs)) - AllBurned(Allocated(allocs), AllTxs(s.blocks))
  {
    RunKeeps(allocs, validators, hash, blocks);
    ReplayTotal(Allocated(allocs), AllTxs(Run(Genesis(allocs, validators, hash), blocks).blocks));
  }

  lemma {:induction false} ReplaySolvent(accounts: Accounts, txs: seq<Tx>)
    requires NonNegative(accounts) && forall tx | tx in txs :: Fair(tx)
    ensures NonNegative(Replay(accounts, txs)) && AllBurned(accounts, txs) >= 0
  {
    if txs == [] {
    } else {
      var init, tx := txs[..|txs| - 1], txs[|txs| - 1];
      assert Fair(tx);
      ReplaySolvent(accounts, init);
      HarmlessKeeps(Replay(accounts, init), tx);
      NothingMinted(Replay(accounts, init), tx);
    }
  }

  lemma {:induction false} AllocatedNonNegative(allocs: seq<Allocation>)
    requires forall i | 0 <= i < |allocs| :: allocs[i].balance.Some? ==> allocs[i].balance.value >= 0
    ensures NonNegative(Allocated(allocs))
  {
    if allocs == [] {
    } else {
      AllocatedNonNegative(allocs[..|allocs| - 1]);
    }
  }

  /** The gas that the accepted transactions pay for, at their prices, and the values they send
      to nobody. */
  function Spent(accounts: Accounts, txs: seq<Tx>): int {
    if txs == [] then 0
    else
      var init, tx := txs[..|txs| - 1], txs[|txs| - 1];
      var before := Replay(accounts, init);
      Spent(accounts, init) +
      if tx.value.Some? && tx.value.value != 0 && BalanceOf(before, ToLower(tx.from)) >= tx.value.value + GasBill(tx)
      then GasBill(tx) + (if ToLower(tx.to) == "" then tx.value.value else 0) else 0
  }

  /** The total after any transactions falls by exactly price times gas of the accepted ones and
      their values sent to nobody. */
  lemma {:induction false} ReplaySpends(accounts: Accounts, txs: seq<Tx>)
    requires forall tx | tx in txs :: tx.gasUsed < UINT64
    ensures TotalBalance(Replay(accounts, txs)) == TotalBalance(accounts) - Spent(accounts, txs)
  {
    if txs == [] {
    } else {
      var init, tx := txs[..|txs| - 1], txs[|txs| - 1];
      assert tx in txs;
      ReplaySpends(accounts, init);
      AppliedTotal(Replay(accounts, init), tx);
      FeeIsBill(tx);
    }
  }

  /** If the transactions of the inserted blocks are fair and no allocation is negative, no run
      makes a balance negative or the total greater than what was allocated. */
  lemma RunSolvent(allocs: seq<Allocation>, validators: seq<string>, hash: string,
          blocks: seq<Block>)
    requires validators != []
    requires forall i | 0 <= i < |allocs| :: allocs[i].balance.Some? ==> allocs[i].balance.value >= 0
    requires forall tx | tx in AllTxs(Run(Genesis(allocs, validators, hash), blocks).blocks) :: Fair(tx)
    ensures var s := Run(Genesis(allocs, validators, hash), blocks);
      NonNegative(s.accounts) && TotalBalance(s.accounts) <= TotalBalance(Allocated(allocs))
  {
    RunKeeps(allocs, validators, hash, blocks);
    RunTotal(allocs, validators, hash, blocks);
    AllocatedNonNegative(allocs);
    ReplaySolvent(Allocated(allocs), AllTxs(Run(Genesis(allocs, validators, hash), blocks).blocks));
  }

  lemma {:induction false} RunLinked(s: State, blocks: seq<Block>)
    requires Linked(s.blocks)
    ensures Linked(Run(s, blocks).blocks)
  {
    if blocks == [] {
    } else {
      RunLinked(s, blocks[..|blocks| - 1]);
      InsertLinked(Run(s, blocks[..|blocks| - 1]), blocks[|blocks| - 1]);
    }
  }

  /** Of all blocks ever inserted that name one parent there is at most one: a hash that was
      head and is no more never becomes head again. */
  lemma OneChild(s: State, blocks: seq<Block>, i: nat, j: nat)
    requires Linked(s.blocks)
    requires var all := Run(s, blocks).blocks;
      0 < i < |all| && 0 < j < |all| && all[i].header.parentHash == all[j].header.parentHash
    ensures i == j
  {
    RunLinked(s, blocks);
    var all := Run(s, blocks).blocks;
    assert all[i - 1].hash == all[j - 1].hash;
  }

  /** Once the chain has grown past a head, a block on that head is refused, unless its hash
      is already known. */
  lemma LateBlockRefused(s: State, blocks: seq<Block>, b: Block)
    requires Linked(s.blocks) && |Run(s, blocks).blocks| > |s.blocks|
    requires b.header.parentHash == s.blocks[|s.blocks| - 1].hash
    ensures var now := Run(s, blocks);
      Insert(now, b) == Outcome(now, if Known(now.blocks, b.hash) then None else Some(ParentNotFound))
  {
    RunLinked(s, blocks);
    var now := Run(s, blocks).blocks;
    assert now[|s.blocks| - 1] == s.blocks[|s.blocks| - 1];
  }

  // ---------- The chain in memory ----------

  /** The index by hash: every block under its hash and nothing else. */
  ghost predicate HashIndex(blocks: seq<Block>, byHash: map<string, Block>) {
    && (forall i | 0 <= i < |blocks| :: blocks[i].hash in byHash && byHash[blocks[i].hash] == blocks[i])
    && (forall h | h in byHash :: byHash[h] in blocks && byHash[h].hash == h)
  }

  /** The index by number: the latest block of each number, and nothing else. Numbers repeat
      only once there are more than 2^64 blocks. */
  ghost predicate NumberIndex(blocks: seq<Block>, byNumber: map<nat, Block>) {
    && (forall i | 0 <= i < |blocks| <= i + UINT64 :: i % UINT64 in byNumber && byNumber[i % UINT64] == blocks[i])
    && (forall n | n in byNumber :: n < UINT64 && n < |blocks|)
  }

  lemma FirstIndexed(b: Block)
    requires b.header.number == 0
    ensures Linked([b]) && HashIndex([b], map[b.hash := b]) && NumberIndex([b], map[0 := b])
  {
  }

  lemma HashKnown(blocks: seq<Block>, byHash: map<string, Block>, hash: string)
    requires HashIndex(blocks, byHash)
    ensures hash in byHash <==> Known(blocks, hash)
  {
  }

  lemma HashAdded(blocks: seq<Block>, byHash: map<string, Block>, b: Block)
    requires HashIndex(blocks, byHash) && b.hash !in byHash
    ensures !Known(blocks, b.hash) && HashIndex(blocks + [b], byHash[b.hash := b])
  {
    var more := blocks + [b];
    assert more[|blocks|] == b;
    assert forall x | x in blocks :: x in more;
  }

  lemma Apart(i: nat, j: nat)
    requires i < j < i + UINT64
    ensures i % UINT64 != j % UINT64
  {
    assert j - i == UINT64 * (j / UINT64 - i / UINT64) + (j % UINT64 - i % UINT64);
  }

  lemma NumberAdded(blocks: seq<Block>, byNumber: map<nat, Block>, b: Block)
    requires NumberIndex(blocks, byNumber) && b.header.number == |blocks| % UINT64
    ensures NumberIndex(blocks + [b], byNumber[b.header.number := b])
  {
    forall i | 0 <= i < |blocks| && |blocks| < i + UINT64
      ensures i % UINT64 != |blocks| % UINT64
    {
      Apart(i, |blocks|);
    }
  }

  class Chain {
    var blocks: seq<Block>
    var byHash: map<string, Block>
    var byNumber: map<nat, Block>
    var accounts: Accounts
    var txIndex: map<string, Tx>

    ghost predicate Valid()
      reads this`blocks, this`byHash, this`byNumber
    {
      Linked(blocks) && HashIndex(blocks, byHash) && NumberIndex(blocks, byNumber)
    }

    ghost function Now(): State
      reads this
    {
      State(blocks, accounts, txIndex)
    }

    constructor (allocs: seq<Allocation>, validators: seq<string>, hash: string)
      requires validators != []
      ensures Valid() && Now() == Genesis(allocs, validators, hash)
    {
      blocks, byHash, byNumber, accounts, txIndex := [], map[], map[], map[], map[];
      new;
      for k := 0 to |allocs|
        invariant blocks == [] && byHash == map[] && byNumber == map[] && txIndex == map[]
        invariant accounts == Allocated(allocs[..k])
      {
        assert allocs[..k + 1][..k] == allocs[..k];
        var balance := if allocs[k].balance.None? then 0 else allocs[k].balance.value;
        accounts := accounts[ToLower(allocs[k].address) := Account(balance, allocs[k].nonce)];
      }
      assert allocs[..|allocs|] == allocs;
      FirstIndexed(GenesisBlock(validators, hash));
      AddBlock(GenesisBlock(validators, hash));
    }

    method AddBlock(b: Block)
      modifies this`blocks, this`byHash, this`byNumber
      ensures blocks == old(blocks) + [b]
      ensures byHash == old(byHash)[b.hash := b] && byNumber == old(byNumber)[b.header.number := b]
    {
      blocks := blocks + [b];
      byHash := byHash[b.hash := b];
      byNumber := byNumber[b.header.number := b];
    }

    method Head() returns (b: Block)
      requires Valid()
      ensures b == blocks[|blocks| - 1]
    {
      return blocks[|blocks| - 1];
    }

    method GetByHash(hash: string) returns (b: Option<Block>)
      requires Valid()
      ensures b.None? ==> !Known(blocks, hash)
      ensures b.Some? ==> b.value in blocks && b.value.hash == hash
      ensures forall i | 0 <= i < |blocks| :: blocks[i].hash == hash <==> b == Some(blocks[i])
    {
      if hash in byHash {
        return Some(byHash[hash]);
      }
      return None;
    }

    /** While numbers have not wrapped round, a number is a place in the list. */
    method GetByNumber(num: nat) returns (b: Option<Block>)
      requires Valid()
      ensures |blocks| <= UINT64 ==> b == if num < |blocks| then Some(blocks[num]) else None
    {
      assert |blocks| <= UINT64 && num < |blocks| ==> num % UINT64 == num;
      if num in byNumber {
        return Some(byNumber[num]);
      }
      return None;
    }

    /** The last n blocks, newest first. */
    method LatestBlocks(n: nat) returns (result: array<Block>)
      ensures fresh(result) && result.Length == if n > |blocks| then |blocks| else n
      ensures forall k | 0 <= k < result.Length :: result[k] == blocks[|blocks| - 1 - k]
    {
      var m := if n > |blocks| then |blocks| else n;
      var start := |blocks| - m;
      result := new Block[m];
      forall i | 0 <= i < m {
        result[i] := blocks[start + i];
      }
      var i, j := 0, m - 1;
      while i < j
        invariant 0 <= i <= m && j == m - 1 - i && i <= j + 1
        invariant forall k | 0 <= k < i :: result[k] == blocks[|blocks| - 1 - k]
        invariant forall k | i <= k <= j :: result[k] == blocks[start + k]
        invariant forall k | j < k < m :: result[k] == blocks[|blocks| - 1 - k]
      {
        result[i], result[j] := result[j], result[i];
        i, j := i + 1, j - 1;
      }
    }

    method OpenAccount(addr: string)
      modifies this`accounts
      ensures accounts == Opened(old(accounts), addr)
    {
      if addr !in accounts {
        accounts := accounts[addr := Account(0, 0)];
      }
    }

    method ApplyTx(tx: Tx)
      modifies this`accounts, this`txIndex
      ensures accounts == Applied(old(accounts), tx) && txIndex == old(txIndex)[tx.hash := tx]
    {
      txIndex := txIndex[tx.hash := tx];
      if tx.value.None? || tx.value.value == 0 {
        return;
      }
      var from, to := ToLower(tx.from), ToLower(tx.to);
      OpenAccount(from);
      if to != "" {
        OpenAccount(to);
      }
      var cost := tx.value.value;
      if tx.gasPrice.Some? && tx.gasUsed > 0 {
        cost := cost + tx.gasPrice.value * AsInt64(tx.gasUsed);
      }
      if accounts[from].balance >= cost {
        accounts := accounts[from := accounts[from].(balance := accounts[from].balance - cost)];
        accounts := accounts[from := accounts[from].(nonce := (accounts[from].nonce + 1) % UINT64)];
        if to != "" {
          accounts := accounts[to := accounts[to].(balance := accounts[to].balance + tx.value.value)];
        }
      }
    }

    method ApplyTxs(txs: seq<Tx>)
      modifies this`accounts, this`txIndex
      ensures accounts == Replay(old(accounts), txs) && txIndex == Indexed(old(txIndex), txs)
    {
      for k := 0 to |txs|
        invariant accounts == Replay(old(accounts), txs[..k]) && txIndex == Indexed(old(txIndex), txs[..k])
      {
        assert txs[..k + 1][..k] == txs[..k];
        ApplyTx(txs[k]);
      }
      assert txs[..|txs|] == txs;
    }

    /** Adds a child of the head, under a hash not seen before. */
    method Append(b: Block)
      requires Valid() && b.hash !in byHash && Follows(blocks, b)
      modifies this`blocks, this`byHash, this`byNumber
      ensures Valid() && !Known(old(blocks), b.hash) && blocks == old(blocks) + [b]
    {
      HashAdded(blocks, byHash, b);
      LinkedAdded(blocks, b);
      NextNumber(blocks, b);
      NumberAdded(blocks, byNumber, b);
      AddBlock(b);
    }

    /** A known block is ignored, and the caller is told nothing went wrong. */
    method InsertBlock(b: Block) returns (error: Option<Error>)
      requires Valid()
      modifies this
      ensures Valid() && Outcome(Now(), error) == Insert(old(Now()), b)
    {
      HashKnown(blocks, byHash, b.hash);
      if b.hash in byHash {
        return None;
      }
      var head := blocks[|blocks| - 1];
      if b.header.parentHash != head.hash {
        return Some(ParentNotFound);
      }
      if b.header.number != (head.header.number + 1) % UINT64 {
        return Some(InvalidBlock);
      }
      Append(b);
      ApplyTxs(b.txs);
      return None;
    }

    method GetBalance(addr: string) returns (balance: int)
      ensures balance == BalanceOf(accounts, ToLower(addr))
    {
      if ToLower(addr) in accounts {
        return accounts[ToLower(addr)].balance;
      }
      return 0;
    }
  }
}
