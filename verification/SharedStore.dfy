/** The token and the staking program over one store. Their keys never meet, so calls to the
    two may be interleaved in any way without either program noticing the other. */
module SharedStore {
  import opened Options
  import opened Store
  import TokenProgram
  import StakingProgram

  datatype Call =
    | ToToken(token: TokenProgram.Call)
    | ToStaking(staking: StakingProgram.Call)

  datatype Answer =
    | FromToken(failure: Option<TokenProgram.Error>)
    | FromStaking(error: Option<StakingProgram.Error>, claimed: int)

  function Apply(l: Ledger, c: Call): Ledger {
    match c
    case ToToken(t) => TokenProgram.Apply(l, t).ledger
    case ToStaking(s) => StakingProgram.Apply(l, s).ledger
  }

  function AnswerTo(l: Ledger, c: Call): Answer {
    match c
    case ToToken(t) => FromToken(TokenProgram.Apply(l, t).error)
    case ToStaking(s) => FromStaking(StakingProgram.Apply(l, s).error, StakingProgram.Apply(l, s).claimed)
  }

  function Run(l: Ledger, calls: seq<Call>): Ledger {
    if calls == [] then l else Apply(Run(l, calls[..|calls| - 1]), calls[|calls| - 1])
  }

  function Answers(l: Ledger, calls: seq<Call>): seq<Answer> {
    if calls == [] then []
    else
      var init := calls[..|calls| - 1];
      Answers(l, init) + [AnswerTo(Run(l, init), calls[|calls| - 1])]
  }

  /** The calls to one of the programs, in their order. */
  function TokenCalls(calls: seq<Call>): seq<TokenProgram.Call> {
    if calls == [] then []
    else
      var before, c := TokenCalls(calls[..|calls| - 1]), calls[|calls| - 1];
      if c.ToToken? then before + [c.token] else before
  }

  function StakingCalls(calls: seq<Call>): seq<StakingProgram.Call> {
    if calls == [] then []
    else
      var before, c := StakingCalls(calls[..|calls| - 1]), calls[|calls| - 1];
      if c.ToStaking? then before + [c.staking] else before
  }

  /** The token maps of one ledger beside the staking maps of another. */
  function Beside(t: Ledger, s: Ledger): Ledger {
    Ledger(t.tokens, t.accounts, s.validators, s.delegations, s.slashes)
  }

  lemma FindFrame(l: Ledger, s: Ledger, t: string, owner: string)
    ensures TokenProgram.FindAccount(Beside(l, s), t, owner) == TokenProgram.FindAccount(l, t, owner)
    ensures TokenProgram.AccountOrNew(Beside(l, s), t, owner) == TokenProgram.AccountOrNew(l, t, owner)
  {
  }

  lemma MovedFrame(l: Ledger, s: Ledger, a: TokenAccount, b: TokenAccount, x: int)
    ensures TokenProgram.Moved(Beside(l, s), a, b, x) == Beside(TokenProgram.Moved(l, a, b, x), s)
  {
  }

  lemma TransferFrame(l: Ledger, s: Ledger, t: string, from: string, to: string, amount: Option<int>)
    ensures var out := TokenProgram.DoTransfer(l, t, from, to, amount);
      TokenProgram.DoTransfer(Beside(l, s), t, from, to, amount)
      == TokenProgram.Outcome(Beside(out.ledger, s), out.error)
  {
    FindFrame(l, s, t, from);
    FindFrame(l, s, t, to);
    if TokenProgram.DoTransfer(l, t, from, to, amount).error.None? {
      var a, b := l.accounts[(t, from)], TokenProgram.AccountOrNew(l, t, to);
      MovedFrame(l, s, a.(balance := a.balance - amount.value), b, amount.value);
    }
  }

  lemma TransferFromFrame(l: Ledger, s: Ledger, t: string, d: string, from: string, to: string,
          amount: Option<int>)
    ensures var out := TokenProgram.DoTransferFrom(l, t, d, from, to, amount);
      TokenProgram.DoTransferFrom(Beside(l, s), t, d, from, to, amount)
      == TokenProgram.Outcome(Beside(out.ledger, s), out.error)
  {
    FindFrame(l, s, t, from);
    FindFrame(l, s, t, to);
    if TokenProgram.DoTransferFrom(l, t, d, from, to, amount).error.None? {
      var a, b := l.accounts[(t, from)], TokenProgram.AccountOrNew(l, t, to);
      var x := amount.value;
      MovedFrame(l, s, a.(balance := a.balance - x, allowance := Some(a.allowance.value - x)), b, x);
    }
  }

  lemma AdjustedFrame(l: Ledger, s: Ledger, a: TokenAccount, info: TokenInfo, x: int)
    ensures TokenProgram.Adjusted(Beside(l, s), a, info, x) == Beside(TokenProgram.Adjusted(l, a, info, x), s)
  {
  }

  lemma MintFrame(l: Ledger, s: Ledger, t: string, authority: string, to: string,
          amount: Option<int>)
    ensures var out := TokenProgram.DoMint(l, t, authority, to, amount);
      TokenProgram.DoMint(Beside(l, s), t, authority, to, amount)
      == TokenProgram.Outcome(Beside(out.ledger, s), out.error)
  {
    FindFrame(l, s, t, to);
    if TokenProgram.DoMint(l, t, authority, to, amount).error.None? {
      AdjustedFrame(l, s, TokenProgram.AccountOrNew(l, t, to), l.tokens[t], amount.value);
    }
  }

  lemma BurnFrame(l: Ledger, s: Ledger, t: string, authority: string, from: string,
          amount: Option<int>)
    ensures var out := TokenProgram.DoBurn(l, t, authority, from, amount);
      TokenProgram.DoBurn(Beside(l, s), t, authority, from, amount)
      == TokenProgram.Outcome(Beside(out.ledger, s), out.error)
  {
    FindFrame(l, s, t, from);
    if TokenProgram.DoBurn(l, t, authority, from, amount).error.None? {
      AdjustedFrame(l, s, l.accounts[(t, from)], l.tokens[t], -amount.value);
    }
  }

  lemma AdminFrame(l: Ledger, s: Ledger, c: TokenProgram.Call)
    requires c.Create? || c.Approve? || c.Freeze? || c.SetMintAuthority?
    ensures var out := TokenProgram.Apply(l, c);
      TokenProgram.Apply(Beside(l, s), c) == TokenProgram.Outcome(Beside(out.ledger, s), out.error)
  {
  }

  /** A token call neither reads nor writes the staking maps. */
  lemma TokenFrame(l: Ledger, s: Ledger, c: TokenProgram.Call)
    ensures var out := TokenProgram.Apply(l, c);
      TokenProgram.Apply(Beside(l, s), c) == TokenProgram.Outcome(Beside(out.ledger, s), out.error)
  {
    match c
    case Transfer(t, from, to, amount) => TransferFrame(l, s, t, from, to, amount);
    case TransferFrom(t, d, from, to, amount) => TransferFromFrame(l, s, t, d, from, to, amount);
    case Mint(t, authority, to, amount) => MintFrame(l, s, t, authority, to, amount);
    case Burn(t, authority, from, amount) => BurnFrame(l, s, t, authority, from, amount);
    case _ => AdminFrame(l, s, c);
  }

  lemma BondedFrame(l: Ledger, t: Ledger, val: ValidatorInfo, del: Delegation)
    ensures StakingProgram.SaveDelegation(StakingProgram.SaveValidator(Beside(t, l), val), del)
         == Beside(t, StakingProgram.SaveDelegation(StakingProgram.SaveValidator(l, val), del))
  {
  }

  lemma DelegateFrame(l: Ledger, t: Ledger, v: string, d: string, amount: Option<int>, now: int)
    ensures var out := StakingProgram.DoDelegate(l, v, d, amount, now);
      StakingProgram.DoDelegate(Beside(t, l), v, d, amount, now) == out.(ledger := Beside(t, out.ledger))
  {
    if StakingProgram.DoDelegate(l, v, d, amount, now).error.None? {
      var val, del := l.validators[v], StakingProgram.DelegationOrNew(l, v, d, now);
      BondedFrame(l, t, val.(totalStake := val.totalStake + amount.value), del.(amount := del.amount + amount.value));
    }
  }

  lemma UndelegateFrame(l: Ledger, t: Ledger, v: string, d: string, amount: Option<int>)
    ensures var out := StakingProgram.DoUndelegate(l, v, d, amount);
      StakingProgram.DoUndelegate(Beside(t, l), v, d, amount) == out.(ledger := Beside(t, out.ledger))
  {
    if StakingProgram.DoUndelegate(l, v, d, amount).error.None? {
      var val, del := l.validators[v], l.delegations[(v, d)];
      BondedFrame(l, t, val.(totalStake := val.totalStake - amount.value), del.(amount := del.amount - amount.value));
    }
  }

  lemma SlashFrame(l: Ledger, t: Ledger, c: StakingProgram.Call)
    requires c.Slash? || c.Claim?
    ensures var out := StakingProgram.Apply(l, c);
      StakingProgram.Apply(Beside(t, l), c) == out.(ledger := Beside(t, out.ledger))
  {
  }

  lemma ValidatorFrame(l: Ledger, t: Ledger, c: StakingProgram.Call)
    requires c.Register? || c.AddSelfStake? || c.Accrue? || c.Unjail?
    ensures var out := StakingProgram.Apply(l, c);
      StakingProgram.Apply(Beside(t, l), c) == out.(ledger := Beside(t, out.ledger))
  {
  }

  /** A staking call neither reads nor writes the token maps. */
  lemma StakingFrame(l: Ledger, t: Ledger, c: StakingProgram.Call)
    ensures var out := StakingProgram.Apply(l, c);
      StakingProgram.Apply(Beside(t, l), c) == out.(ledger := Beside(t, out.ledger))
  {
    match c
    case Delegate(v, d, amount, now) => DelegateFrame(l, t, v, d, amount, now);
    case Undelegate(v, d, amount) => UndelegateFrame(l, t, v, d, amount);
    case Slash(_, _, _, _, _, _) => SlashFrame(l, t, c);
    case Claim(_, _) => SlashFrame(l, t, c);
    case _ => ValidatorFrame(l, t, c);
  }

  lemma TokenNext(l: Ledger, calls: seq<TokenProgram.Call>, t: TokenProgram.Call)
    requires TokenProgram.Run(EMPTY, calls) == Beside(l, EMPTY)
    ensures TokenProgram.Run(EMPTY, calls + [t]) == Beside(TokenProgram.Apply(l, t).ledger, EMPTY)
    ensures Beside(TokenProgram.Apply(l, t).ledger, l) == TokenProgram.Apply(l, t).ledger
  {
    TokenFrame(l, EMPTY, t);
    TokenFrame(l, l, t);
    assert Beside(l, l) == l;
    assert (calls + [t])[..|calls|] == calls;
  }

  lemma StakingNext(l: Ledger, calls: seq<StakingProgram.Call>, s: StakingProgram.Call)
    requires StakingProgram.Run(EMPTY, calls) == Beside(EMPTY, l)
    ensures StakingProgram.Run(EMPTY, calls + [s]) == Beside(EMPTY, StakingProgram.Apply(l, s).ledger)
    ensures Beside(l, StakingProgram.Apply(l, s).ledger) == StakingProgram.Apply(l, s).ledger
  {
    StakingFrame(l, EMPTY, s);
    StakingFrame(l, l, s);
    assert Beside(l, l) == l;
    assert (calls + [s])[..|calls|] == calls;
  }

  /** After any interleaving each program's maps are what its own calls alone would have made. */
  lemma {:induction false} Independent(calls: seq<Call>)
    ensures Run(EMPTY, calls)
         == Beside(TokenProgram.Run(EMPTY, TokenCalls(calls)), StakingProgram.Run(EMPTY, StakingCalls(calls)))
    ensures TokenProgram.Run(EMPTY, TokenCalls(calls)) == Beside(Run(EMPTY, calls), EMPTY)
    ensures StakingProgram.Run(EMPTY, StakingCalls(calls)) == Beside(EMPTY, Run(EMPTY, calls))
  {
    if calls == [] {
    } else {
      var init, c := calls[..|calls| - 1], calls[|calls| - 1];
      Independent(init);
      match c
      case ToToken(t) =>
        TokenNext(Run(EMPTY, init), TokenCalls(init), t);
        assert TokenCalls(calls) == TokenCalls(init) + [t] && StakingCalls(calls) == StakingCalls(init);
      case ToStaking(s) =>
        StakingNext(Run(EMPTY, init), StakingCalls(init), s);
        assert TokenCalls(calls) == TokenCalls(init) && StakingCalls(calls) == StakingCalls(init) + [s];
    }
  }

  /** The next call is answered as the program would answer it with the store to itself. */
  lemma AnswersIndependent(calls: seq<Call>, c: Call)
    ensures AnswerTo(Run(EMPTY, calls), c)
         == AnswerTo(if c.ToToken? then TokenProgram.Run(EMPTY, TokenCalls(calls))
                     else StakingProgram.Run(EMPTY, StakingCalls(calls)), c)
  {
    Independent(calls);
    match c
    case ToToken(t) => TokenFrame(Run(EMPTY, calls), EMPTY, t);
    case ToStaking(s) => StakingFrame(Run(EMPTY, calls), EMPTY, s);
  }

  /** Both conservation laws hold of the shared store. */
  lemma BothConserve(calls: seq<Call>, tid: string, v: string)
    ensures var l := Run(EMPTY, calls);
      && TokenProgram.Balances(l, tid)
         == TokenProgram.Supply(l, tid) + TokenProgram.SelfTransfers(EMPTY, TokenCalls(calls), tid)
      && (v in l.validators ==>
            l.validators[v].totalStake == l.validators[v].selfStake + StakingProgram.Delegated(l, v)
                - StakingProgram.Sum(EMPTY, StakingCalls(calls), StakingProgram.UncoveredBy(v)))
  {
    Independent(calls);
    TokenProgram.RunConserves(TokenCalls(calls), tid);
    if v in Run(EMPTY, calls).validators {
      StakingProgram.StakeLedger(StakingCalls(calls), v);
    }
  }

  // ---------- Serving calls from one MemStorage ----------

  /** The part of a call that becomes the first half of a two-part key holds no separator. */
  predicate Plain(c: Call) {
    match c
    case ToToken(Create(info, _)) => SlashFree(info.id)
    case ToToken(SetMintAuthority(_, _, _)) => true
    case ToToken(t) => SlashFree(t.token)
    case ToStaking(Delegate(v, _, _, _)) => SlashFree(v)
    case ToStaking(Undelegate(v, _, _)) => SlashFree(v)
    case ToStaking(Claim(v, claimant)) => claimant == v || SlashFree(v)
    case ToStaking(_) => true
  }

  method ServeToken(tokens: TokenProgram.Program, c: TokenProgram.Call) returns (error: Option<TokenProgram.Error>)
    requires tokens.Valid() && Plain(ToToken(c))
    modifies tokens.store
    ensures tokens.Did(TokenProgram.Apply(old(tokens.store.ledger), c), error)
  {
    match c
    case Create(info, supply) => error := tokens.CreateToken(info, supply);
    case Transfer(t, from, to, amount) => error := tokens.Transfer(t, from, to, amount);
    case Mint(t, authority, to, amount) => error := tokens.Mint(t, authority, to, amount);
    case Burn(t, authority, from, amount) => error := tokens.Burn(t, authority, from, amount);
    case Approve(t, owner, delegate, amount) => error := tokens.Approve(t, owner, delegate, amount);
    case TransferFrom(t, delegate, from, to, amount) => error := tokens.TransferFrom(t, delegate, from, to, amount);
    case Freeze(t, authority, target, freeze) => error := tokens.FreezeAccount(t, authority, target, freeze);
    case SetMintAuthority(t, current, next) => error := tokens.SetMintAuthority(t, current, next);
  }

  method ServeStaking(staking: StakingProgram.Program, c: StakingProgram.Call)
    returns (error: Option<StakingProgram.Error>, claimed: int)
    requires staking.Valid() && Plain(ToStaking(c))
    modifies staking.store
    ensures staking.Did(StakingProgram.Apply(old(staking.store.ledger), c), error)
    ensures claimed == StakingProgram.Apply(old(staking.store.ledger), c).claimed
  {
    claimed := 0;
    match c
    case Register(v, stake, commission, block) => error := staking.RegisterValidator(v, stake, commission, block);
    case AddSelfStake(v, amount) => error := staking.AddSelfStake(v, amount);
    case Delegate(v, d, amount, now) => error := staking.Delegate(v, d, amount, now);
    case Undelegate(v, d, amount) => error := staking.Undelegate(v, d, amount);
    case Accrue(v, reward, block) => error := staking.AccrueRewards(v, reward, block);
    case Claim(v, claimant) => claimed, error := staking.ClaimRewards(v, claimant);
    case Slash(v, reason, penalty, jailUntil, block, now) =>
      error := staking.Slash(v, reason, penalty, jailUntil, block, now);
    case Unjail(v, block) => error := staking.Unjail(v, block);
  }

  /** Both programs over one string-keyed store, calls in any order: the store ends up holding
      the ledger of the typed run, and every answer is the typed run's. */
  method Serve(calls: seq<Call>) returns (store: MemStorage, answers: seq<Answer>)
    requires forall i | 0 <= i < |calls| :: Plain(calls[i])
    ensures fresh(store) && store.Valid() && store.ledger == Run(EMPTY, calls)
    ensures answers == Answers(EMPTY, calls)
  {
    store := new MemStorage();
    var tokens := new TokenProgram.Program(store);
    var staking := new StakingProgram.Program(store);
    answers := [];
    for k := 0 to |calls|
      invariant tokens.store == store && staking.store == store && fresh(store)
      invariant tokens.Valid() && staking.Valid()
      invariant store.ledger == Run(EMPTY, calls[..k]) && answers == Answers(EMPTY, calls[..k])
    {
      assert calls[..k + 1][..k] == calls[..k];
      ghost var l := store.ledger;
      match calls[k]
      case ToToken(c) =>
        TokenFrame(l, l, c);
        assert Beside(l, l) == l;
        var error := ServeToken(tokens, c);
        answers := answers + [FromToken(error)];
      case ToStaking(c) =>
        StakingFrame(l, l, c);
        assert Beside(l, l) == l;
        var error, claimed := ServeStaking(staking, c);
        answers := answers + [FromStaking(error, claimed)];
    }
    assert calls[..|calls|] == calls;
  }
}
