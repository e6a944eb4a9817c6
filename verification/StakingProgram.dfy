/** The proof-of-stake staking program: validators, delegations, commissions and slashing as
    records in the shared store. */
module StakingProgram {
  import opened Arithmetic
  import opened Options
  import opened Store
  import opened Sums

  /** 1000 GYD and 1 GYD in the smallest unit. */
  const MIN_VALIDATOR_STAKE: int := 1000 * 1_000_000_000_000_000_000
  const MIN_DELEGATION: int := 1_000_000_000_000_000_000

  datatype Error =
    | BelowMinStake | CommissionTooHigh | AlreadyRegistered | ValidatorNotFound | ValidatorSlashed
    | DelegationNotFound | InsufficientStake | AmountNotPositive | NoRewards | StillJailed

  datatype Call =
    | Register(v: string, stake: Option<int>, commission: nat, block: nat)
    | AddSelfStake(v: string, amount: Option<int>)
    | Delegate(v: string, d: string, amount: Option<int>, now: int)
    | Undelegate(v: string, d: string, amount: Option<int>)
    | Accrue(v: string, reward: Option<int>, block: nat)
    | Claim(v: string, claimant: string)
    | Slash(v: string, reason: string, penalty: int, jailUntil: nat, block: nat, now: int)
    | Unjail(v: string, block: nat)

  /** Claimed is what ClaimRewards returns, zero otherwise. */
  datatype Outcome = Outcome(ledger: Ledger, error: Option<Error>, claimed: int)

  function Fails(l: Ledger, e: Error): Outcome {
    Outcome(l, Some(e), 0)
  }

  function Works(l: Ledger): Outcome {
    Outcome(l, None, 0)
  }

  predicate Positive(amount: Option<int>) {
    amount.Some? && amount.value > 0
  }

  function SaveValidator(l: Ledger, val: ValidatorInfo): Ledger {
    l.(validators := l.validators[val.address := val])
  }

  function SaveDelegation(l: Ledger, del: Delegation): Ledger {
    l.(delegations := l.delegations[(del.validator, del.delegator) := del])
  }

  // ---------- The operations ----------

  function DoRegister(l: Ledger, v: string, stake: Option<int>, commission: nat, block: nat): Outcome {
    if stake.None? || stake.value < MIN_VALIDATOR_STAKE then Fails(l, BelowMinStake)
    else if commission > 10000 then Fails(l, CommissionTooHigh)
    else if v in l.validators then Fails(l, AlreadyRegistered)
    else Works(SaveValidator(l, ValidatorInfo(v, stake.value, stake.value, commission, false, 0, 0, block, 0, 0)))
  }

  function DoAddSelfStake(l: Ledger, v: string, amount: Option<int>): Outcome {
    if !Positive(amount) then Fails(l, BelowMinStake)
    else if v !in l.validators then Fails(l, ValidatorNotFound)
    else
      var val := l.validators[v];
      if val.jailed then Fails(l, ValidatorSlashed)
      else Works(SaveValidator(l, val.(selfStake := val.selfStake + amount.value,
                                       totalStake := val.totalStake + amount.value)))
  }

  function DelegationOrNew(l: Ledger, v: string, d: string, now: int): Delegation {
    if (v, d) in l.delegations then l.delegations[(v, d)] else Delegation(v, d, 0, 0, 0, now)
  }

  function DoDelegate(l: Ledger, v: string, d: string, amount: Option<int>, now: int): Outcome {
    if amount.None? || amount.value < MIN_DELEGATION then Fails(l, BelowMinStake)
    else if v !in l.validators then Fails(l, ValidatorNotFound)
    else
      var val := l.validators[v];
      if val.jailed then Fails(l, ValidatorSlashed)
      else
        var del := DelegationOrNew(l, v, d, now);
        Works(SaveDelegation(SaveValidator(l, val.(totalStake := val.totalStake + amount.value)),
                             del.(amount := del.amount + amount.value)))
  }

  function DoUndelegate(l: Ledger, v: string, d: string, amount: Option<int>): Outcome {
    if !Positive(amount) then Fails(l, AmountNotPositive)
    else if v !in l.validators then Fails(l, ValidatorNotFound)
    else if (v, d) !in l.delegations then Fails(l, DelegationNotFound)
    else
      var val, del := l.validators[v], l.delegations[(v, d)];
      if del.amount < amount.value then Fails(l, InsufficientStake)
      else Works(SaveDelegation(SaveValidator(l, val.(totalStake := val.totalStake - amount.value)),
                                del.(amount := del.amount - amount.value)))
  }

  /** Commission is in basis points and rounds down. */
  function Commission(reward: int, rate: nat): int {
    reward * rate / 10000
  }

  function DoAccrue(l: Ledger, v: string, reward: Option<int>, block: nat): Outcome {
    if !Positive(reward) then Works(l)
    else if v !in l.validators then Fails(l, ValidatorNotFound)
    else
      var val := l.validators[v];
      if val.jailed then Works(l)
      else Works(SaveValidator(l, val.(accumRewards := val.accumRewards + Commission(reward.value, val.commission),
                                       lastRewardAt := block)))
  }

  function DoClaim(l: Ledger, v: string, claimant: string): Outcome {
    if v !in l.validators then Fails(l, ValidatorNotFound)
    else if claimant == v then
      var val := l.validators[v];
      if val.accumRewards == 0 then Fails(l, NoRewards)
      else Outcome(SaveValidator(l, val.(accumRewards := 0)), None, val.accumRewards)
    else if (v, claimant) !in l.delegations then Fails(l, NoRewards)
    else
      var del := l.delegations[(v, claimant)];
      if del.pendingReward == 0 then Fails(l, NoRewards)
      else Outcome(SaveDelegation(l, del.(pendingReward := 0, rewardDebt := del.rewardDebt + del.pendingReward)),
                   None, del.pendingReward)
  }

  /** What a slash takes from the total stake: the penalty, but no more than there is. */
  function Slashed(val: ValidatorInfo, penalty: int): int {
    if penalty > val.totalStake then val.totalStake else penalty
  }

  /** The record goes under the slash count stored before this slash. */
  function DoSlash(l: Ledger, v: string, reason: string, penalty: int, jailUntil: nat, block: nat, now: int): Outcome {
    if v !in l.validators then Fails(l, ValidatorNotFound)
    else
      var val := l.validators[v];
      var x := Slashed(val, penalty);
      var slashed := val.(totalStake := val.totalStake - x,
                          selfStake := if val.selfStake >= x then val.selfStake - x else 0,
                          jailed := true, jailUntil := jailUntil, slashCount := (val.slashCount + 1) % UINT64);
      var recorded := l.(slashes := l.slashes[(v, val.slashCount) := SlashRecord(v, reason, x, block, now)]);
      Works(SaveValidator(recorded, slashed))
  }

  function DoUnjail(l: Ledger, v: string, block: nat): Outcome {
    if v !in l.validators then Fails(l, ValidatorNotFound)
    else if block < l.validators[v].jailUntil then Fails(l, StillJailed)
    else Works(SaveValidator(l, l.validators[v].(jailed := false)))
  }

  function Apply(l: Ledger, c: Call): Outcome {
    match c
    case Register(v, stake, commission, block) => DoRegister(l, v, stake, commission, block)
    case AddSelfStake(v, amount) => DoAddSelfStake(l, v, amount)
    case Delegate(v, d, amount, now) => DoDelegate(l, v, d, amount, now)
    case Undelegate(v, d, amount) => DoUndelegate(l, v, d, amount)
    case Accrue(v, reward, block) => DoAccrue(l, v, reward, block)
    case Claim(v, claimant) => DoClaim(l, v, claimant)
    case Slash(v, reason, penalty, jailUntil, block, now) => DoSlash(l, v, reason, penalty, jailUntil, block, now)
    case Unjail(v, block) => DoUnjail(l, v, block)
  }

  function Run(l: Ledger, calls: seq<Call>): Ledger {
    if calls == [] then l else Apply(Run(l, calls[..|calls| - 1]), calls[|calls| - 1]).ledger
  }

  /** The sum over a run of what each call contributes in the ledger it meets. */
  ghost function Sum(l: Ledger, calls: seq<Call>, weight: (Ledger, Call) -> int): int {
    if calls == [] then 0
    else
      var init := calls[..|calls| - 1];
      Sum(l, init, weight) + weight(Run(l, init), calls[|calls| - 1])
  }

  // ---------- Shape of the ledger ----------

  ghost predicate SoundValidator(v: string, val: ValidatorInfo) {
    val.address == v && val.commission <= 10000 && val.selfStake >= 0
  }

  ghost predicate SoundDelegation(l: Ledger, p: (string, string), del: Delegation) {
    && del.validator == p.0 && del.delegator == p.1
    && p.0 in l.validators && del.pendingReward == 0 && del.rewardDebt == 0 && del.amount >= 0
  }

  /** Records sit under their own identity, no self-stake is negative, a delegation is to a
      registered validator, and no delegator ever has a pending reward. */
  ghost predicate Sound(l: Ledger) {
    && (forall v | v in l.validators :: SoundValidator(v, l.validators[v]))
    && (forall p | p in l.delegations :: SoundDelegation(l, p, l.delegations[p]))
  }

  lemma SaveValidatorSound(l: Ledger, val: ValidatorInfo)
    requires Sound(l) && SoundValidator(val.address, val)
    ensures Sound(SaveValidator(l, val))
  {
    var l' := SaveValidator(l, val);
    forall p | p in l'.delegations
      ensures SoundDelegation(l', p, l'.delegations[p])
    {
      assert SoundDelegation(l, p, l.delegations[p]);
    }
  }

  lemma SaveDelegationSound(l: Ledger, del: Delegation)
    requires Sound(l) && SoundDelegation(l, (del.validator, del.delegator), del)
    ensures Sound(SaveDelegation(l, del))
  {
    var l' := SaveDelegation(l, del);
    forall p | p in l'.delegations
      ensures SoundDelegation(l', p, l'.delegations[p])
    {
      if p in l.delegations {
        assert SoundDelegation(l, p, l.delegations[p]);
      }
    }
  }

  lemma DelegateSound(l: Ledger, v: string, d: string, amount: Option<int>, now: int)
    requires Sound(l)
    ensures Sound(DoDelegate(l, v, d, amount, now).ledger)
  {
    if DoDelegate(l, v, d, amount, now).error.None? {
      var val, del := l.validators[v], DelegationOrNew(l, v, d, now);
      var l' := SaveValidator(l, val.(totalStake := val.totalStake + amount.value));
      SaveValidatorSound(l, val.(totalStake := val.totalStake + amount.value));
      SaveDelegationSound(l', del.(amount := del.amount + amount.value));
    }
  }

  lemma UndelegateSound(l: Ledger, v: string, d: string, amount: Option<int>)
    requires Sound(l)
    ensures Sound(DoUndelegate(l, v, d, amount).ledger)
  {
    if DoUndelegate(l, v, d, amount).error.None? {
      var val, del := l.validators[v], l.delegations[(v, d)];
      assert SoundDelegation(l, (v, d), del);
      var l' := SaveValidator(l, val.(totalStake := val.totalStake - amount.value));
      SaveValidatorSound(l, val.(totalStake := val.totalStake - amount.value));
      SaveDelegationSound(l', del.(amount := del.amount - amount.value));
    }
  }

  /** The operations that write one validator. */
  lemma ValidatorOnlySound(l: Ledger, c: Call)
    requires Sound(l) && (c.Register? || c.AddSelfStake? || c.Accrue? || c.Unjail?)
    ensures Sound(Apply(l, c).ledger)
  {
    var l' := Apply(l, c).ledger;
    if l' != l {
      SaveValidatorSound(l, l'.validators[c.v]);
    }
  }

  lemma ClaimSound(l: Ledger, v: string, claimant: string)
    requires Sound(l)
    ensures Sound(DoClaim(l, v, claimant).ledger)
    ensures claimant != v ==>
      DoClaim(l, v, claimant) == Fails(l, if v in l.validators then NoRewards else ValidatorNotFound)
  {
    if v in l.validators && claimant == v {
      SaveValidatorSound(l, l.validators[v].(accumRewards := 0));
    } else if (v, claimant) in l.delegations {
      assert SoundDelegation(l, (v, claimant), l.delegations[(v, claimant)]);
    }
  }

  lemma SlashSound(l: Ledger, c: Call)
    requires Sound(l) && c.Slash?
    ensures Sound(Apply(l, c).ledger)
  {
    if c.v in l.validators {
      var l' := Apply(l, c).ledger;
      SaveValidatorSound(l.(slashes := l'.slashes), l'.validators[c.v]);
    }
  }

  lemma ApplySound(l: Ledger, c: Call)
    requires Sound(l)
    ensures Sound(Apply(l, c).ledger)
  {
    match c
    case Delegate(v, d, amount, now) => DelegateSound(l, v, d, amount, now);
    case Undelegate(v, d, amount) => UndelegateSound(l, v, d, amount);
    case Claim(v, claimant) => ClaimSound(l, v, claimant);
    case Slash(_, _, _, _, _, _) => SlashSound(l, c);
    case _ => ValidatorOnlySound(l, c);
  }

  lemma {:induction false} RunSound(l: Ledger, calls: seq<Call>)
    requires Sound(l)
    ensures Sound(Run(l, calls))
  {
    if calls == [] {
    } else {
      RunSound(l, calls[..|calls| - 1]);
      ApplySound(Run(l, calls[..|calls| - 1]), calls[|calls| - 1]);
    }
  }

  // ---------- What the operations do ----------

  function Max(x: int, y: int): int {
    if x >= y then x else y
  }

  function BondOf(l: Ledger, v: string, d: string): int {
    if (v, d) in l.delegations then l.delegations[(v, d)].amount else 0
  }

  function StakeOf(l: Ledger, v: string): int {
    if v in l.validators then l.validators[v].totalStake else 0
  }

  function SelfStakeOf(l: Ledger, v: string): int {
    if v in l.validators then l.validators[v].selfStake else 0
  }

  predicate Jailed(l: Ledger, v: string) {
    v in l.validators && l.validators[v].jailed
  }

  /** Every validator but v keeps its record, and no delegation or slash record changes. */
  ghost predicate OnlyValidator(l: Ledger, l': Ledger, v: string) {
    && l'.delegations == l.delegations && l'.slashes == l.slashes
    && l'.tokens == l.tokens && l'.accounts == l.accounts
    && l'.validators.Keys == l.validators.Keys + {v}
    && forall w | w in l.validators && w != v :: l'.validators[w] == l.validators[w]
  }

  /** A new validator starts with exactly the stake given, all its own, at the rate it named,
      free, unslashed and without rewards. */
  lemma RegisterStarts(l: Ledger, v: string, stake: Option<int>, rate: nat, block: nat)
    ensures var out := DoRegister(l, v, stake, rate, block);
      && (out.error.None? <==>
            stake.Some? && stake.value >= 1_000_000_000_000_000_000_000 && rate <= 10000 && v !in l.validators)
      && (out.error.None? ==>
            && OnlyValidator(l, out.ledger, v)
            && var val := out.ledger.validators[v];
               && val.address == v && val.selfStake == stake.value == val.totalStake && val.commission == rate
               && !val.jailed && val.jailUntil == 0 && val.slashCount == 0 && val.registeredAt == block
               && val.accumRewards == 0 && val.lastRewardAt == 0)
  {
  }

  /** A free validator can add any positive amount, to both its stakes. */
  lemma SelfStakeAdds(l: Ledger, v: string, amount: Option<int>)
    requires Sound(l)
    ensures var out := DoAddSelfStake(l, v, amount);
      && (out.error.None? <==> amount.Some? && amount.value > 0 && v in l.validators && !Jailed(l, v))
      && (out.error.None? ==>
            && OnlyValidator(l, out.ledger, v)
            && SelfStakeOf(out.ledger, v) == SelfStakeOf(l, v) + amount.value
            && StakeOf(out.ledger, v) == StakeOf(l, v) + amount.value
            && out.ledger.validators[v]
               == l.validators[v].(selfStake := SelfStakeOf(out.ledger, v), totalStake := StakeOf(out.ledger, v)))
  {
    assert v in l.validators ==> SoundValidator(v, l.validators[v]);
  }

  /** An accrual that takes effect adds the rounded-down commission and notes the block; any
      other that does not fail changes nothing. */
  lemma AccrualAdds(l: Ledger, v: string, reward: Option<int>, block: nat)
    requires Sound(l)
    ensures var out := DoAccrue(l, v, reward, block);
      && (out.error.None? <==> reward.None? || reward.value <= 0 || v in l.validators)
      && (reward.None? || reward.value <= 0 || Jailed(l, v) ==> out.ledger == l)
      && (reward.Some? && reward.value > 0 && v in l.validators && !Jailed(l, v) ==>
            && OnlyValidator(l, out.ledger, v)
            && var val, val' := l.validators[v], out.ledger.validators[v];
               var added := val'.accumRewards - val.accumRewards;
               && 10000 * added <= reward.value * val.commission < 10000 * added + 10000
               && val' == val.(accumRewards := val.accumRewards + added, lastRewardAt := block))
  {
    assert v in l.validators ==> SoundValidator(v, l.validators[v]);
  }

  /** Unjailing works from the block named by the last slash on, and frees the validator. */
  lemma UnjailFrees(l: Ledger, v: string, block: nat)
    requires Sound(l)
    ensures var out := DoUnjail(l, v, block);
      && (out.error.None? <==> v in l.validators && block >= l.validators[v].jailUntil)
      && (out.error.None? ==>
            OnlyValidator(l, out.ledger, v) && out.ledger.validators[v] == l.validators[v].(jailed := false))
  {
    assert v in l.validators ==> SoundValidator(v, l.validators[v]);
  }

  /** One bond and its validator's total stake change by x, and no other bond or stake. */
  ghost predicate Bonded(l: Ledger, l': Ledger, v: string, d: string, x: int) {
    && (forall w, e :: BondOf(l', w, e) == BondOf(l, w, e) + if w == v && e == d then x else 0)
    && (forall w :: StakeOf(l', w) == StakeOf(l, w) + if w == v then x else 0)
  }

  lemma DelegateBonds(l: Ledger, v: string, d: string, amount: Option<int>, now: int)
    requires Sound(l)
    ensures var out := DoDelegate(l, v, d, amount, now);
      && (out.error.None? <==>
            amount.Some? && amount.value >= 1_000_000_000_000_000_000 && v in l.validators && !Jailed(l, v))
      && (out.error.None? ==>
            && Bonded(l, out.ledger, v, d, amount.value)
            && out.ledger.delegations[(v, d)].delegatedAt
               == if (v, d) in l.delegations then l.delegations[(v, d)].delegatedAt else now)
  {
    if DoDelegate(l, v, d, amount, now).error.None? {
      assert SoundValidator(v, l.validators[v]);
      assert (v, d) in l.delegations ==> SoundDelegation(l, (v, d), l.delegations[(v, d)]);
    }
  }

  /** A delegator can withdraw what it has bonded and no more, jailed validator or not. */
  lemma UndelegateUnbonds(l: Ledger, v: string, d: string, amount: Option<int>)
    requires Sound(l)
    ensures var out := DoUndelegate(l, v, d, amount);
      && (out.error.None? <==> amount.Some? && amount.value > 0 && BondOf(l, v, d) >= amount.value)
      && (out.error.None? ==> Bonded(l, out.ledger, v, d, -amount.value))
  {
    if (v, d) in l.delegations {
      assert SoundDelegation(l, (v, d), l.delegations[(v, d)]);
      assert SoundValidator(v, l.validators[v]);
    }
  }

  /** Withdrawing what was just delegated works and puts every bond and stake back. */
  lemma UndelegateUndoes(l: Ledger, v: string, d: string, amount: Option<int>, now: int)
    requires Sound(l) && DoDelegate(l, v, d, amount, now).error.None?
    ensures var out := DoUndelegate(DoDelegate(l, v, d, amount, now).ledger, v, d, amount);
      out.error.None? && Bonded(l, out.ledger, v, d, 0)
  {
    var l1 := DoDelegate(l, v, d, amount, now).ledger;
    DelegateBonds(l, v, d, amount, now);
    DelegateSound(l, v, d, amount, now);
    assert BondOf(l1, v, d) == BondOf(l, v, d) + amount.value;
    if (v, d) in l.delegations {
      assert SoundDelegation(l, (v, d), l.delegations[(v, d)]);
    }
    UndelegateUnbonds(l1, v, d, amount);
  }

  /** A slash takes the penalty, at most the total stake, from that validator alone, jails it,
      and leaves every delegation as it is. The same amount comes off the self-stake as far as
      that goes; it is negative, and raises both, exactly when penalty or total stake is. */
  lemma SlashTakes(l: Ledger, v: string, reason: string, penalty: int, jailUntil: nat,
          block: nat, now: int)
    requires Sound(l)
    ensures var out := DoSlash(l, v, reason, penalty, jailUntil, block, now);
      && (out.error.None? <==> v in l.validators)
      && out.ledger.delegations == l.delegations
      && (out.error.None? ==>
            && Jailed(out.ledger, v)
            && StakeOf(out.ledger, v) == (if penalty > StakeOf(l, v) then 0 else StakeOf(l, v) - penalty)
            && SelfStakeOf(out.ledger, v) == Max(0, SelfStakeOf(l, v) - (StakeOf(l, v) - StakeOf(out.ledger, v)))
            && (SelfStakeOf(out.ledger, v) > SelfStakeOf(l, v) <==> penalty < 0 || StakeOf(l, v) < 0)
            && forall w | w != v :: StakeOf(out.ledger, w) == StakeOf(l, w) && Jailed(out.ledger, w) == Jailed(l, w))
  {
    if v in l.validators {
      assert SoundValidator(v, l.validators[v]);
    }
  }

  /** A slash writes down what it took, why and when, under the number of slashes before it, and
      sets the term of the jail; of the rest of the record only the stakes change. */
  lemma SlashWrites(l: Ledger, v: string, reason: string, penalty: int, jailUntil: nat, block: nat, now: int)
    requires Sound(l) && v in l.validators
    ensures var l' := DoSlash(l, v, reason, penalty, jailUntil, block, now).ledger;
      && l'.slashes == l.slashes[(v, l.validators[v].slashCount) :=
                                   SlashRecord(v, reason, StakeOf(l, v) - StakeOf(l', v), block, now)]
      && l'.validators[v] == l.validators[v].(
           selfStake := SelfStakeOf(l', v), totalStake := StakeOf(l', v), jailed := true, jailUntil := jailUntil,
           slashCount := (l.validators[v].slashCount + 1) % UINT64)
  {
    assert SoundValidator(v, l.validators[v]);
  }

  /** Which error is returned when: each is named with all that was found in order before it. */
  lemma ValidatorErrors(l: Ledger, v: string, amount: Option<int>, rate: nat, block: nat)
    ensures var error := DoRegister(l, v, amount, rate, block).error;
      var given := amount.Some? && amount.value >= MIN_VALIDATOR_STAKE;
      && (error == Some(BelowMinStake) <==> !given)
      && (error == Some(CommissionTooHigh) <==> given && rate > 10000)
      && (error == Some(AlreadyRegistered) <==> given && rate <= 10000 && v in l.validators)
    ensures var error, given := DoAddSelfStake(l, v, amount).error, amount.Some? && amount.value > 0;
      && (error == Some(BelowMinStake) <==> !given)
      && (error == Some(ValidatorNotFound) <==> given && v !in l.validators)
      && (error == Some(ValidatorSlashed) <==> given && Jailed(l, v))
    ensures DoAccrue(l, v, amount, block).error
         == if amount.Some? && amount.value > 0 && v !in l.validators then Some(ValidatorNotFound) else None
    ensures var error := DoUnjail(l, v, block).error;
      && (error == Some(ValidatorNotFound) <==> v !in l.validators)
      && (error == Some(StillJailed) <==> v in l.validators && block < l.validators[v].jailUntil)
  {
  }

  lemma DelegationErrors(l: Ledger, v: string, d: string, amount: Option<int>, now: int)
    ensures var error := DoDelegate(l, v, d, amount, now).error;
      var given := amount.Some? && amount.value >= MIN_DELEGATION;
      && (error == Some(BelowMinStake) <==> !given)
      && (error == Some(ValidatorNotFound) <==> given && v !in l.validators)
      && (error == Some(ValidatorSlashed) <==> given && Jailed(l, v))
    ensures var error, given := DoUndelegate(l, v, d, amount).error, amount.Some? && amount.value > 0;
      var found := given && v in l.validators;
      && (error == Some(AmountNotPositive) <==> !given)
      && (error == Some(ValidatorNotFound) <==> given && !found)
      && (error == Some(DelegationNotFound) <==> found && (v, d) !in l.delegations)
      && (error == Some(InsufficientStake) <==>
            found && (v, d) in l.delegations && l.delegations[(v, d)].amount < amount.value)
    ensures DoSlash(l, v, "", 0, 0, 0, now).error == if v in l.validators then None else Some(ValidatorNotFound)
  {
  }

  /** Were a delegator given a pending reward, its claim would pay it once and book it as paid. */
  lemma DelegatorClaims(l: Ledger, v: string, d: string)
    requires v in l.validators && d != v && (v, d) in l.delegations && l.delegations[(v, d)].pendingReward != 0
    requires l.delegations[(v, d)].validator == v && l.delegations[(v, d)].delegator == d
    ensures var out, del := DoClaim(l, v, d), l.delegations[(v, d)];
      && out.error.None? && out.claimed == del.pendingReward
      && out.ledger.validators == l.validators && out.ledger.slashes == l.slashes
      && out.ledger.delegations.Keys == l.delegations.Keys
      && (forall p | p in l.delegations && p != (v, d) :: out.ledger.delegations[p] == l.delegations[p])
      && out.ledger.delegations[(v, d)].amount == del.amount
      && out.ledger.delegations[(v, d)].rewardDebt - del.rewardDebt == del.pendingReward
      && DoClaim(out.ledger, v, d) == Outcome(out.ledger, Some(NoRewards), 0)
  {
  }

  /** A call that fails changes nothing. */
  lemma FailureKeeps(l: Ledger, c: Call)
    ensures Apply(l, c).error.Some? ==> Apply(l, c).ledger == l && Apply(l, c).claimed == 0
  {
  }

  // ---------- The stake ledger ----------

  ghost function AmountTo(v: string): ((string, string), Delegation) -> int {
    (p: (string, string), del: Delegation) => if p.0 == v then del.amount else 0
  }

  /** The sum of the delegations to a validator. */
  ghost function Delegated(l: Ledger, v: string): int {
    Total(l.delegations, AmountTo(v))
  }

  /** What a validator's own stake and its delegations claim beyond its total stake. */
  ghost function Gap(l: Ledger, v: string): int {
    Delegated(l, v) + if v in l.validators then l.validators[v].selfStake - l.validators[v].totalStake else 0
  }

  /** The part of a slash that the validator's own stake does not cover. */
  ghost function UncoveredBy(v: string): (Ledger, Call) -> int {
    (l: Ledger, c: Call) =>
      if c.Slash? && c.v == v && v in l.validators
      then Max(0, Slashed(l.validators[v], c.penalty) - l.validators[v].selfStake) else 0
  }

  lemma SaveDelegationGap(l: Ledger, del: Delegation, v: string)
    ensures Delegated(SaveDelegation(l, del), v) == Delegated(l, v)
         + if del.validator == v then del.amount - DelegationOrNew(l, v, del.delegator, 0).amount else 0
  {
    TotalUpdate(l.delegations, AmountTo(v), (del.validator, del.delegator), del);
  }

  lemma DelegateGap(l: Ledger, v: string, d: string, amount: Option<int>, now: int, w: string)
    requires Sound(l)
    ensures Gap(DoDelegate(l, v, d, amount, now).ledger, w) == Gap(l, w)
  {
    if DoDelegate(l, v, d, amount, now).error.None? {
      var val, del := l.validators[v], DelegationOrNew(l, v, d, now);
      assert SoundValidator(v, val);
      assert (v, d) in l.delegations ==> SoundDelegation(l, (v, d), del);
      var l' := SaveValidator(l, val.(totalStake := val.totalStake + amount.value));
      SaveDelegationGap(l', del.(amount := del.amount + amount.value), w);
    }
  }

  lemma UndelegateGap(l: Ledger, v: string, d: string, amount: Option<int>, w: string)
    requires Sound(l)
    ensures Gap(DoUndelegate(l, v, d, amount).ledger, w) == Gap(l, w)
  {
    if DoUndelegate(l, v, d, amount).error.None? {
      var val, del := l.validators[v], l.delegations[(v, d)];
      assert SoundValidator(v, val) && SoundDelegation(l, (v, d), del);
      var l' := SaveValidator(l, val.(totalStake := val.totalStake - amount.value));
      SaveDelegationGap(l', del.(amount := del.amount - amount.value), w);
    }
  }

  lemma SlashGap(l: Ledger, c: Call, w: string)
    requires Sound(l) && c.Slash?
    ensures Gap(Apply(l, c).ledger, w) == Gap(l, w) + UncoveredBy(w)(l, c)
  {
    if c.v in l.validators {
      assert SoundValidator(c.v, l.validators[c.v]);
      assert Apply(l, c) == DoSlash(l, c.v, c.reason, c.penalty, c.jailUntil, c.block, c.now);
      assert c.v == w ==>
        UncoveredBy(w)(l, c) == Max(0, Slashed(l.validators[w], c.penalty) - l.validators[w].selfStake);
    }
  }

  lemma ValidatorOnlyGap(l: Ledger, c: Call, w: string)
    requires Sound(l) && (c.Register? || c.AddSelfStake? || c.Accrue? || c.Unjail?)
    ensures Gap(Apply(l, c).ledger, w) == Gap(l, w)
  {
    if c.v in l.validators {
      assert SoundValidator(c.v, l.validators[c.v]);
    }
  }

  lemma ApplyGap(l: Ledger, c: Call, w: string)
    requires Sound(l)
    ensures Gap(Apply(l, c).ledger, w) == Gap(l, w) + UncoveredBy(w)(l, c)
  {
    match c
    case Delegate(v, d, amount, now) => DelegateGap(l, v, d, amount, now, w);
    case Undelegate(v, d, amount) => UndelegateGap(l, v, d, amount, w);
    case Claim(v, claimant) =>
      ClaimSound(l, v, claimant);
      if v in l.validators {
        assert SoundValidator(v, l.validators[v]);
      }
    case Slash(_, _, _, _, _, _) => SlashGap(l, c, w);
    case _ => ValidatorOnlyGap(l, c, w);
  }

  lemma {:induction false} RunGap(l: Ledger, calls: seq<Call>, v: string)
    requires Sound(l)
    ensures Gap(Run(l, calls), v) == Gap(l, v) + Sum(l, calls, UncoveredBy(v))
  {
    if calls == [] {
    } else {
      var init := calls[..|calls| - 1];
      RunGap(l, init, v);
      RunSound(l, init);
      ApplyGap(Run(l, init), calls[|calls| - 1], v);
    }
  }

  /** Over every run a validator's total stake is its own stake and its delegations, less what
      slashes took beyond its own stake at the time. */
  lemma StakeLedger(calls: seq<Call>, v: string)
    requires v in Run(EMPTY, calls).validators
    ensures var l := Run(EMPTY, calls);
      && l.validators[v].totalStake == l.validators[v].selfStake + Delegated(l, v) - Sum(EMPTY, calls, UncoveredBy(v))
      && l.validators[v].selfStake >= 0
  {
    RunGap(EMPTY, calls, v);
    RunSound(EMPTY, calls);
    assert SoundValidator(v, Run(EMPTY, calls).validators[v]);
  }

  /** The delegators who still have something bonded to v. */
  ghost function Delegators(l: Ledger, v: string): set<string> {
    set p | p in l.delegations && p.0 == v && l.delegations[p].amount > 0 :: p.1
  }

  /** The calls are undelegations from v, and each one succeeds. */
  ghost predicate Leaves(l: Ledger, exits: seq<Call>, v: string) {
    forall i | 0 <= i < |exits| ::
      exits[i].Undelegate? && exits[i].v == v && Apply(Run(l, exits[..i]), exits[i]).error.None?
  }

  lemma OneLeaves(l: Ledger, v: string, d: string) returns (c: Call)
    requires Sound(l) && d in Delegators(l, v)
    ensures c.Undelegate? && c.v == v && Apply(l, c).error.None?
    ensures var l' := Apply(l, c).ledger;
      && Sound(l') && Delegators(l', v) == Delegators(l, v) - {d} && Gap(l', v) == Gap(l, v)
      && v in l'.validators && l'.validators[v].selfStake == l.validators[v].selfStake
  {
    var del := l.delegations[(v, d)];
    assert SoundDelegation(l, (v, d), del) && SoundValidator(v, l.validators[v]);
    c := Undelegate(v, d, Some(del.amount));
    UndelegateSound(l, v, d, Some(del.amount));
    UndelegateGap(l, v, d, Some(del.amount), v);
    assert Apply(l, c).ledger.delegations == l.delegations[(v, d) := del.(amount := 0)];
  }

  lemma Appended(l: Ledger, exits: seq<Call>, c: Call, v: string) returns (more: seq<Call>)
    requires Leaves(l, exits, v) && c.Undelegate? && c.v == v && Apply(Run(l, exits), c).error.None?
    ensures more == exits + [c] && Leaves(l, more, v) && Run(l, more) == Apply(Run(l, exits), c).ledger
  {
    more := exits + [c];
    assert more[..|exits|] == exits;
    forall i | 0 <= i < |exits|
      ensures more[..i] == exits[..i] && more[i] == exits[i]
    {
    }
  }

  lemma NoneBonded(l: Ledger, v: string)
    requires Sound(l) && Delegators(l, v) == {}
    ensures Delegated(l, v) == 0
  {
    forall p | p in l.delegations
      ensures AmountTo(v)(p, l.delegations[p]) == 0
    {
      assert SoundDelegation(l, p, l.delegations[p]);
      assert p.0 == v && l.delegations[p].amount > 0 ==> p.1 in Delegators(l, v);
    }
    TotalNone(l.delegations, AmountTo(v));
  }

  /** Every delegator can withdraw in full, whatever was slashed: delegations are never reduced.
      What the validator is left with is its own stake less the gap. */
  lemma AllLeave(l: Ledger, v: string) returns (exits: seq<Call>)
    requires Sound(l) && v in l.validators
    ensures Leaves(l, exits, v)
    ensures var l' := Run(l, exits);
      && v in l'.validators && Delegated(l', v) == 0 && l'.validators[v].selfStake == l.validators[v].selfStake
      && l'.validators[v].totalStake == l.validators[v].selfStake - Gap(l, v)
  {
    exits := [];
    var l' := l;
    while Delegators(l', v) != {}
      invariant l' == Run(l, exits) && Leaves(l, exits, v) && Sound(l') && v in l'.validators
      invariant l'.validators[v].selfStake == l.validators[v].selfStake && Gap(l', v) == Gap(l, v)
      decreases Delegators(l', v)
    {
      var d :| d in Delegators(l', v);
      var c := OneLeaves(l', v, d);
      l' := Apply(l', c).ledger;
      exits := Appended(l, exits, c, v);
    }
    NoneBonded(l', v);
  }

  lemma {:induction false} RunJoin(l: Ledger, a: seq<Call>, b: seq<Call>)
    ensures Run(l, a + b) == Run(Run(l, a), b)
  {
    if b == [] {
      assert a + b == a;
    } else {
      assert (a + b)[..|a + b| - 1] == a + b[..|b| - 1];
      RunJoin(l, a, b[..|b| - 1]);
    }
  }

  /** After any run all delegators can withdraw, and that drives the recorded total stake below
      zero exactly when slashes went beyond the validator's own stake by more than it holds now. */
  lemma WithdrawalsOverdraw(calls: seq<Call>, v: string) returns (exits: seq<Call>)
    requires v in Run(EMPTY, calls).validators
    ensures Leaves(Run(EMPTY, calls), exits, v)
    ensures v in Run(EMPTY, calls + exits).validators && Delegated(Run(EMPTY, calls + exits), v) == 0
    ensures Run(EMPTY, calls + exits).validators[v].totalStake < 0
        <==> Sum(EMPTY, calls, UncoveredBy(v)) > Run(EMPTY, calls).validators[v].selfStake
  {
    RunSound(EMPTY, calls);
    RunGap(EMPTY, calls, v);
    exits := AllLeave(Run(EMPTY, calls), v);
    RunJoin(EMPTY, calls, exits);
  }

  /** The overdraft is reached: 1000 GYD of self-stake, 1000 GYD delegated, 1500 GYD slashed. */
  const OVERDRAFT: seq<Call> := [
    Register("v", Some(MIN_VALIDATOR_STAKE), 0, 0),
    Delegate("v", "d", Some(MIN_VALIDATOR_STAKE), 0),
    Slash("v", "fault", 1500 * MIN_DELEGATION, 0, 0, 0)]

  lemma RunOne(l: Ledger, calls: seq<Call>, c: Call, weight: (Ledger, Call) -> int)
    ensures Run(l, calls + [c]) == Apply(Run(l, calls), c).ledger
    ensures Sum(l, calls + [c], weight) == Sum(l, calls, weight) + weight(Run(l, calls), c)
  {
    assert (calls + [c])[..|calls + [c]| - 1] == calls;
  }

  /** A validator's record, told by its two stakes and whether it is jailed. */
  predicate Stands(l: Ledger, v: string, selfStake: int, totalStake: int, jailed: bool) {
    && v in l.validators && l.validators[v].address == v
    && l.validators[v].selfStake == selfStake && l.validators[v].totalStake == totalStake
    && l.validators[v].jailed == jailed
  }

  /** 500 GYD of that slash go uncovered and no self-stake is left. */
  lemma OverdraftRun()
    ensures var l := Run(EMPTY, OVERDRAFT);
      && Sum(EMPTY, OVERDRAFT, UncoveredBy("v")) == 500 * MIN_DELEGATION
      && Stands(l, "v", 0, 500 * MIN_DELEGATION, true) && BondOf(l, "v", "d") == MIN_VALIDATOR_STAKE
  {
    var a, b, c := OVERDRAFT[0], OVERDRAFT[1], OVERDRAFT[2];
    var weight := UncoveredBy("v");
    assert [] + [a] == [a] && [a] + [b] == [a, b] && [a, b] + [c] == OVERDRAFT;
    RunOne(EMPTY, [], a, weight);
    assert Stands(Run(EMPTY, [a]), "v", MIN_VALIDATOR_STAKE, MIN_VALIDATOR_STAKE, false);
    assert ("v", "d") !in Run(EMPTY, [a]).delegations;
    RunOne(EMPTY, [a], b, weight);
    assert Stands(Run(EMPTY, [a, b]), "v", MIN_VALIDATOR_STAKE, 2 * MIN_VALIDATOR_STAKE, false);
    assert BondOf(Run(EMPTY, [a, b]), "v", "d") == MIN_VALIDATOR_STAKE;
    RunOne(EMPTY, [a, b], c, weight);
    assert Slashed(Run(EMPTY, [a, b]).validators["v"], c.penalty) == 1500 * MIN_DELEGATION;
    assert c.Slash? && c.v == "v";
    assert UncoveredBy("v")(Run(EMPTY, [a, b]), c) == Max(0, c.penalty - Run(EMPTY, [a, b]).validators["v"].selfStake);
    assert Max(0, 1500 * MIN_DELEGATION - MIN_VALIDATOR_STAKE) == 500 * MIN_DELEGATION;
    assert Run(EMPTY, OVERDRAFT).delegations == Run(EMPTY, [a, b]).delegations;
  }

  /** The delegator's withdrawal then drives the total stake to minus 500 GYD, and slashing
      nothing gives the validator 500 GYD of self-stake. */
  lemma OverdraftReached()
    ensures var out := DoUndelegate(Run(EMPTY, OVERDRAFT), "v", "d", Some(MIN_VALIDATOR_STAKE));
      && out.error.None? && StakeOf(out.ledger, "v") == -500 * MIN_DELEGATION
      && SelfStakeOf(DoSlash(out.ledger, "v", "", 0, 0, 0, 0).ledger, "v") == 500 * MIN_DELEGATION
  {
    OverdraftRun();
    RunSound(EMPTY, OVERDRAFT);
    var l := Run(EMPTY, OVERDRAFT);
    UndelegateUnbonds(l, "v", "d", Some(MIN_VALIDATOR_STAKE));
    var after := DoUndelegate(l, "v", "d", Some(MIN_VALIDATOR_STAKE)).ledger;
    assert Stands(after, "v", 0, -500 * MIN_DELEGATION, true);
  }

  // ---------- The slash records ----------

  function Count(l: Ledger, v: string): nat {
    if v in l.validators then l.validators[v].slashCount else 0
  }

  /** The records of a validator are those numbered below its slash count. */
  ghost predicate Recorded(l: Ledger, v: string) {
    forall n: nat :: (v, n) in l.slashes <==> n < Count(l, v)
  }

  ghost function AmountOn(v: string): ((string, nat), SlashRecord) -> int {
    (p: (string, nat), r: SlashRecord) => if p.0 == v then r.amount else 0
  }

  /** The amounts in all the slash records of a validator. */
  ghost function RecordedOn(l: Ledger, v: string): int {
    Total(l.slashes, AmountOn(v))
  }

  /** What a call to Slash removes from the validator's total stake. */
  ghost function TakenFrom(v: string): (Ledger, Call) -> int {
    (l: Ledger, c: Call) => if c.Slash? && c.v == v then StakeOf(l, v) - StakeOf(Apply(l, c).ledger, v) else 0
  }

  /** Whether a call is a slash that finds the validator. */
  ghost function HitsOn(v: string): (Ledger, Call) -> int {
    (l: Ledger, c: Call) => if c.Slash? && c.v == v && v in l.validators then 1 else 0
  }

  lemma SlashRecorded(l: Ledger, c: Call, v: string)
    requires Sound(l) && c.Slash? && Recorded(l, v) && Count(l, v) + HitsOn(v)(l, c) < UINT64
    ensures var l' := Apply(l, c).ledger;
      && Recorded(l', v) && Count(l', v) == Count(l, v) + HitsOn(v)(l, c)
      && RecordedOn(l', v) == RecordedOn(l, v) + TakenFrom(v)(l, c)
  {
    if c.v in l.validators {
      var val := l.validators[c.v];
      assert SoundValidator(c.v, val);
      var x := Slashed(val, c.penalty);
      var l' := Apply(l, c).ledger;
      assert l'.slashes == l.slashes[(c.v, val.slashCount) := SlashRecord(c.v, c.reason, x, c.block, c.now)];
      assert c.v == v ==> TakenFrom(v)(l, c) == x;
      TotalUpdate(l.slashes, AmountOn(v), (c.v, val.slashCount), SlashRecord(c.v, c.reason, x, c.block, c.now));
      assert c.v == v ==> (v, Count(l, v)) !in l.slashes;
    }
  }

  lemma OtherRecorded(l: Ledger, c: Call, v: string)
    requires Sound(l) && !c.Slash?
    ensures Apply(l, c).ledger.slashes == l.slashes && Count(Apply(l, c).ledger, v) == Count(l, v)
  {
    if c.v in l.validators {
      assert SoundValidator(c.v, l.validators[c.v]);
    }
  }

  /** A validator's slash records are numbered without gaps from zero, there is one for each
      slash it took, and their amounts add up to what slashing removed from its stake. The
      count is a 64-bit word: the run has fewer than 2^64 slashes of the validator. */
  lemma {:induction false} SlashRecords(calls: seq<Call>, v: string)
    requires Sum(EMPTY, calls, HitsOn(v)) < UINT64
    ensures var l := Run(EMPTY, calls);
      && Recorded(l, v) && Count(l, v) == Sum(EMPTY, calls, HitsOn(v))
      && RecordedOn(l, v) == Sum(EMPTY, calls, TakenFrom(v))
  {
    if calls == [] {
    } else {
      var init, c := calls[..|calls| - 1], calls[|calls| - 1];
      var l := Run(EMPTY, init);
      SlashRecords(init, v);
      RunSound(EMPTY, init);
      if c.Slash? {
        SlashRecorded(l, c, v);
      } else {
        OtherRecorded(l, c, v);
      }
    }
  }

  lemma CountStep(l: Ledger, c: Call, v: string)
    requires Sound(l) && Count(l, v) < UINT64
    ensures var l' := Apply(l, c).ledger;
      && Count(l', v) < UINT64 && (forall p | p in l.slashes :: p in l'.slashes)
      && (HitsOn(v)(l, c) == 1 ==> (v, Count(l, v)) in l'.slashes)
  {
    if c.Slash? {
      assert c.v in l.validators ==> SoundValidator(c.v, l.validators[c.v]);
    } else {
      OtherRecorded(l, c, v);
    }
  }

  lemma {:induction false} LastRecordStays(calls: seq<Call>, v: string)
    ensures var l := Run(EMPTY, calls);
      Count(l, v) < UINT64 && (Sum(EMPTY, calls, HitsOn(v)) >= UINT64 ==> (v, UINT64 - 1) in l.slashes)
  {
    if calls == [] {
    } else {
      var init, c := calls[..|calls| - 1], calls[|calls| - 1];
      LastRecordStays(init, v);
      RunSound(EMPTY, init);
      CountStep(Run(EMPTY, init), c, v);
      if Sum(EMPTY, init, HitsOn(v)) < UINT64 {
        SlashRecords(init, v);
      }
    }
  }

  /** The bound is exact: from the 2^64-th slash on the count starts over and the records are
      no longer those numbered below it. */
  lemma RecordedIff(calls: seq<Call>, v: string)
    ensures Recorded(Run(EMPTY, calls), v) <==> Sum(EMPTY, calls, HitsOn(v)) < UINT64
  {
    LastRecordStays(calls, v);
    if Sum(EMPTY, calls, HitsOn(v)) < UINT64 {
      SlashRecords(calls, v);
    }
  }

  // ---------- The commission ledger ----------

  /** The reward of an accrual that takes effect: positive, and the validator not jailed. */
  function EffectiveReward(l: Ledger, c: Call, v: string): int {
    if c.Accrue? && c.v == v && Positive(c.reward) && v in l.validators && !l.validators[v].jailed
    then c.reward.value else 0
  }

  ghost function RewardTo(v: string): (Ledger, Call) -> int {
    (l: Ledger, c: Call) => EffectiveReward(l, c, v)
  }

  ghost function AccrualOf(v: string): (Ledger, Call) -> int {
    (l: Ledger, c: Call) => if EffectiveReward(l, c, v) > 0 then 1 else 0
  }

  ghost function CommissionTo(v: string, rate: nat): (Ledger, Call) -> int {
    (l: Ledger, c: Call) => Commission(EffectiveReward(l, c, v), rate)
  }

  /** What ClaimRewards pays the validator itself. */
  ghost function PaidTo(v: string): (Ledger, Call) -> int {
    (l: Ledger, c: Call) => if c.Claim? && c.v == v && c.claimant == v then Apply(l, c).claimed else 0
  }

  lemma AccrueStep(l: Ledger, c: Call, v: string)
    requires Sound(l) && v in l.validators && c.Accrue?
    ensures var l' := Apply(l, c).ledger;
      && v in l'.validators && l'.validators[v].commission == l.validators[v].commission
      && l'.validators[v].accumRewards
         == l.validators[v].accumRewards + Commission(EffectiveReward(l, c, v), l.validators[v].commission)
  {
    if c.v in l.validators {
      assert SoundValidator(c.v, l.validators[c.v]);
    }
  }

  lemma ClaimStep(l: Ledger, c: Call, v: string)
    requires Sound(l) && v in l.validators && c.Claim?
    ensures var l' := Apply(l, c).ledger;
      && v in l'.validators && l'.validators[v].commission == l.validators[v].commission
      && l'.validators[v].accumRewards == l.validators[v].accumRewards - PaidTo(v)(l, c)
  {
    ClaimSound(l, c.v, c.claimant);
    if c.v in l.validators {
      assert SoundValidator(c.v, l.validators[c.v]);
    }
  }

  lemma OtherStep(l: Ledger, c: Call, v: string)
    requires Sound(l) && v in l.validators && !c.Accrue? && !c.Claim?
    ensures var l' := Apply(l, c).ledger;
      && v in l'.validators && l'.validators[v].commission == l.validators[v].commission
      && l'.validators[v].accumRewards == l.validators[v].accumRewards
  {
    if c.v in l.validators {
      assert SoundValidator(c.v, l.validators[c.v]);
    }
  }

  lemma RewardStep(l: Ledger, c: Call, v: string)
    requires Sound(l) && v in l.validators
    ensures var l' := Apply(l, c).ledger; var rate := l.validators[v].commission;
      && v in l'.validators && l'.validators[v].commission == rate
      && l'.validators[v].accumRewards + PaidTo(v)(l, c) == l.validators[v].accumRewards + CommissionTo(v, rate)(l, c)
  {
    match c
    case Accrue(_, _, _) => AccrueStep(l, c, v);
    case Claim(_, _) => ClaimStep(l, c, v);
    case _ => OtherStep(l, c, v);
  }

  /** A validator's rate never changes; what it has accumulated and what it was paid add up to
      the commission of every accrual that took effect while it was not jailed. */
  lemma {:induction false} CommissionLedger(l: Ledger, calls: seq<Call>, v: string)
    requires Sound(l) && v in l.validators
    ensures var l' := Run(l, calls); var rate := l.validators[v].commission;
      && v in l'.validators && l'.validators[v].commission == rate
      && l'.validators[v].accumRewards + Sum(l, calls, PaidTo(v))
         == l.validators[v].accumRewards + Sum(l, calls, CommissionTo(v, rate))
  {
    if calls == [] {
    } else {
      var init := calls[..|calls| - 1];
      CommissionLedger(l, init, v);
      RunSound(l, init);
      RewardStep(Run(l, init), calls[|calls| - 1], v);
    }
  }

  lemma SumsNext(l: Ledger, init: seq<Call>, c: Call, v: string, rate: nat)
    ensures var r := EffectiveReward(Run(l, init), c, v);
      && Sum(l, init + [c], CommissionTo(v, rate)) == Sum(l, init, CommissionTo(v, rate)) + Commission(r, rate)
      && Sum(l, init + [c], RewardTo(v)) == Sum(l, init, RewardTo(v)) + r
      && Sum(l, init + [c], AccrualOf(v)) == Sum(l, init, AccrualOf(v)) + if r > 0 then 1 else 0
  {
    assert (init + [c])[..|init + [c]| - 1] == init;
  }

  lemma OneRounding(reward: int, rate: nat)
    requires reward >= 0
    ensures var paid := 10000 * Commission(reward, rate);
      paid <= rate * reward <= paid + if reward > 0 then 9999 else 0
  {
    assert reward * rate == rate * reward;
  }

  lemma AddRounding(commissions: int, rewards: int, accruals: int, r: int, rate: nat)
    requires r >= 0 && 10000 * commissions <= rate * rewards <= 10000 * commissions + 9999 * accruals
    ensures var paid := 10000 * (commissions + Commission(r, rate));
      paid <= rate * (rewards + r) <= paid + 9999 * (accruals + if r > 0 then 1 else 0)
  {
    OneRounding(r, rate);
    assert rate * (rewards + r) == rate * rewards + rate * r;
  }

  /** Rounding down accrual by accrual loses less than one unit each time. */
  lemma {:induction false} CommissionRounding(l: Ledger, calls: seq<Call>, v: string, rate: nat)
    ensures var paid, due := 10000 * Sum(l, calls, CommissionTo(v, rate)), rate * Sum(l, calls, RewardTo(v));
      paid <= due <= paid + 9999 * Sum(l, calls, AccrualOf(v))
  {
    if calls == [] {
    } else {
      var init, c := calls[..|calls| - 1], calls[|calls| - 1];
      CommissionRounding(l, init, v, rate);
      var r := EffectiveReward(Run(l, init), c, v);
      SumsNext(l, init, c, v, rate);
      assert init + [c] == calls;
      AddRounding(Sum(l, init, CommissionTo(v, rate)), Sum(l, init, RewardTo(v)), Sum(l, init, AccrualOf(v)), r, rate);
    }
  }

  /** No run ever gives a delegator anything to claim: nothing but zero is written to a pending
      reward, so every claim by someone other than the validator fails and changes nothing. */
  lemma DelegatorsEarnNothing(calls: seq<Call>, v: string, claimant: string)
    requires claimant != v
    ensures var l := Run(EMPTY, calls);
      DoClaim(l, v, claimant) == Outcome(l, Some(if v in l.validators then NoRewards else ValidatorNotFound), 0)
  {
    RunSound(EMPTY, calls);
    ClaimSound(Run(EMPTY, calls), v, claimant);
  }

  function RewardsOf(l: Ledger, v: string): int {
    if v in l.validators then l.validators[v].accumRewards else 0
  }

  /** A validator's claim works exactly when it has accumulated something. It pays all of that,
      leaves nothing to claim again, and changes nothing else. */
  lemma ClaimPays(l: Ledger, v: string)
    requires Sound(l)
    ensures var out := DoClaim(l, v, v);
      && (out.error.None? <==> RewardsOf(l, v) != 0)
      && (out.error.None? ==>
            && out.claimed == RewardsOf(l, v) && RewardsOf(out.ledger, v) == 0
            && OnlyValidator(l, out.ledger, v) && out.ledger.validators[v] == l.validators[v].(accumRewards := 0)
            && DoClaim(out.ledger, v, v) == Outcome(out.ledger, Some(NoRewards), 0))
  {
    assert v in l.validators ==> SoundValidator(v, l.validators[v]);
  }

  /** Right after a successful claim a validator has been paid the commission of every effective
      accrual since it registered, to the last unit. */
  lemma PaidInFull(l: Ledger, v: string, stake: Option<int>, rate: nat, block: nat, calls: seq<Call>)
    requires Sound(l) && DoRegister(l, v, stake, rate, block).error.None?
    requires var l1 := DoRegister(l, v, stake, rate, block).ledger; DoClaim(Run(l1, calls), v, v).error.None?
    ensures var l1 := DoRegister(l, v, stake, rate, block).ledger;
      Sum(l1, calls + [Claim(v, v)], PaidTo(v)) == Sum(l1, calls + [Claim(v, v)], CommissionTo(v, rate))
  {
    var l1 := DoRegister(l, v, stake, rate, block).ledger;
    var all := calls + [Claim(v, v)];
    RegisterStarts(l, v, stake, rate, block);
    ApplySound(l, Register(v, stake, rate, block));
    RunSound(l1, calls);
    ClaimPays(Run(l1, calls), v);
    assert all[..|all| - 1] == calls;
    assert Run(l1, all) == DoClaim(Run(l1, calls), v, v).ledger;
    CommissionLedger(l1, all, v);
  }

  // ---------- Jail ----------

  lemma JailedBonds(l: Ledger, c: Call, v: string, d: string)
    requires Sound(l) && Jailed(l, v) && (c.Delegate? || c.Undelegate?)
    ensures Jailed(Apply(l, c).ledger, v) && BondOf(Apply(l, c).ledger, v, d) <= BondOf(l, v, d)
  {
    match c
    case Delegate(w, e, amount, now) =>
      DelegateBonds(l, w, e, amount, now);
      assert w in l.validators ==> SoundValidator(w, l.validators[w]);
    case Undelegate(w, e, amount) =>
      UndelegateUnbonds(l, w, e, amount);
      assert w in l.validators ==> SoundValidator(w, l.validators[w]);
  }

  lemma JailedOther(l: Ledger, c: Call, v: string, d: string)
    requires Sound(l) && Jailed(l, v) && !c.Delegate? && !c.Undelegate? && !(c.Unjail? && c.v == v)
    ensures Jailed(Apply(l, c).ledger, v) && BondOf(Apply(l, c).ledger, v, d) == BondOf(l, v, d)
  {
    assert c.v in l.validators ==> SoundValidator(c.v, l.validators[c.v]);
    if c.Claim? {
      ClaimSound(l, c.v, c.claimant);
    }
  }

  lemma JailedStep(l: Ledger, c: Call, v: string, d: string)
    requires Sound(l) && Jailed(l, v) && !(c.Unjail? && c.v == v)
    ensures Jailed(Apply(l, c).ledger, v) && BondOf(Apply(l, c).ledger, v, d) <= BondOf(l, v, d)
  {
    if c.Delegate? || c.Undelegate? {
      JailedBonds(l, c, v, d);
    } else {
      JailedOther(l, c, v, d);
    }
  }

  /** Until it is unjailed a jailed validator stays jailed, no bond to it grows, and it
      accumulates nothing: what it claims is what it had. */
  lemma {:induction false} JailHolds(l: Ledger, calls: seq<Call>, v: string, d: string)
    requires Sound(l) && Jailed(l, v)
    requires forall c | c in calls :: !(c.Unjail? && c.v == v)
    ensures var l' := Run(l, calls);
      && Jailed(l', v) && BondOf(l', v, d) <= BondOf(l, v, d)
      && l'.validators[v].accumRewards + Sum(l, calls, PaidTo(v)) == l.validators[v].accumRewards
  {
    if calls == [] {
    } else {
      var init, c := calls[..|calls| - 1], calls[|calls| - 1];
      JailHolds(l, init, v, d);
      RunSound(l, init);
      JailedStep(Run(l, init), c, v, d);
      RewardStep(Run(l, init), c, v);
      assert EffectiveReward(Run(l, init), c, v) == 0;
    }
  }

  /** The validator is jailed until block j. */
  predicate JailedUntil(l: Ledger, v: string, j: nat) {
    Jailed(l, v) && l.validators[v].jailUntil == j
  }

  lemma TermStep(l: Ledger, c: Call, v: string, j: nat)
    requires Sound(l) && JailedUntil(l, v, j) && !(c.Slash? && c.v == v) && !(c.Unjail? && c.v == v && c.block >= j)
    ensures JailedUntil(Apply(l, c).ledger, v, j)
    ensures c.Unjail? && c.v == v ==> Apply(l, c).ledger == l
  {
    assert c.v in l.validators ==> SoundValidator(c.v, l.validators[c.v]);
    if c.Claim? {
      ClaimSound(l, c.v, c.claimant);
    }
  }

  /** A slash jails for the whole term: while no unjailing comes at its last block or later, and
      no further slash, the validator stays jailed until then, and earns and bonds nothing. */
  lemma {:induction false} JailTerm(l: Ledger, calls: seq<Call>, v: string, d: string, j: nat)
    requires Sound(l) && JailedUntil(l, v, j)
    requires forall c | c in calls :: !(c.Slash? && c.v == v) && !(c.Unjail? && c.v == v && c.block >= j)
    ensures var l' := Run(l, calls);
      && JailedUntil(l', v, j) && BondOf(l', v, d) <= BondOf(l, v, d)
      && l'.validators[v].accumRewards + Sum(l, calls, PaidTo(v)) == l.validators[v].accumRewards
  {
    if calls == [] {
    } else {
      var init, c := calls[..|calls| - 1], calls[|calls| - 1];
      JailTerm(l, init, v, d, j);
      RunSound(l, init);
      TermStep(Run(l, init), c, v, j);
      RewardStep(Run(l, init), c, v);
      assert EffectiveReward(Run(l, init), c, v) == 0;
      if !(c.Unjail? && c.v == v) {
        JailedStep(Run(l, init), c, v, d);
      }
    }
  }

  // ---------- The program over the store ----------

  /** Validator addresses handed to the program hold no key separator. */
  class Program {
    const store: MemStorage

    constructor (store: MemStorage)
      ensures this.store == store
    {
      this.store := store;
    }

    /** The store holds a ledger whose records sit under their own identity. */
    ghost predicate Valid()
      reads store
    {
      && store.Valid()
      && (forall v | v in store.ledger.validators :: store.ledger.validators[v].address == v)
      && (forall p | p in store.ledger.delegations ::
            store.ledger.delegations[p].validator == p.0 && store.ledger.delegations[p].delegator == p.1)
    }

    /** The operation left the store as the outcome says. */
    ghost predicate Did(out: Outcome, error: Option<Error>)
      reads store
    {
      Valid() && store.ledger == out.ledger && error == out.error
    }

    method GetValidator(addr: string) returns (r: Option<ValidatorInfo>)
      requires Valid()
      ensures r == if addr in store.ledger.validators then Some(store.ledger.validators[addr]) else None
    {
      var raw := store.Get(Key(ValidatorId(addr)));
      assert Lookup(store.ledger, ValidatorId(addr)) == raw;
      if raw.None? {
        return None;
      }
      return Some(raw.value.val);
    }

    method GetDelegation(validator: string, delegator: string) returns (r: Option<Delegation>)
      requires Valid() && SlashFree(validator)
      ensures r == if (validator, delegator) in store.ledger.delegations
                   then Some(store.ledger.delegations[(validator, delegator)]) else None
    {
      var raw := store.Get(Key(DelegationId(validator, delegator)));
      assert Lookup(store.ledger, DelegationId(validator, delegator)) == raw;
      if raw.None? {
        return None;
      }
      return Some(raw.value.del);
    }

    method PutValidator(val: ValidatorInfo)
      requires Valid()
      modifies store
      ensures Valid() && store.ledger == SaveValidator(old(store.ledger), val)
    {
      store.Save(ValidatorId(val.address), Key(ValidatorId(val.address)), ValidatorRec(val));
    }

    method PutDelegation(del: Delegation)
      requires Valid() && SlashFree(del.validator)
      modifies store
      ensures Valid() && store.ledger == SaveDelegation(old(store.ledger), del)
    {
      store.Save(DelegationId(del.validator, del.delegator), Key(DelegationId(del.validator, del.delegator)),
                 DelegationRec(del));
    }

    /** The index of the new record is the slash count in the store. */
    method PutSlash(rec: SlashRecord)
      requires Valid()
      modifies store
      ensures Valid() && store.ledger == old(store.ledger).(slashes :=
        old(store.ledger).slashes[(rec.validator, Count(old(store.ledger), rec.validator)) := rec])
    {
      var v := GetValidator(rec.validator);
      var index := 0;
      if v.Some? {
        index := v.value.slashCount;
      }
      store.Save(SlashId(rec.validator, index), Key(SlashId(rec.validator, index)), SlashRec(rec));
    }

    method RegisterValidator(address: string, selfStake: Option<int>, commission: nat,
            block: nat) returns (error: Option<Error>)
      requires Valid()
      modifies store
      ensures Did(DoRegister(old(store.ledger), address, selfStake, commission, block), error)
    {
      if selfStake.None? || selfStake.value < MIN_VALIDATOR_STAKE {
        return Some(BelowMinStake);
      }
      if commission > 10000 {
        return Some(CommissionTooHigh);
      }
      var exists_ := store.Has(Key(ValidatorId(address)));
      assert Lookup(store.ledger, ValidatorId(address)).Some? <==> exists_;
      if exists_ {
        return Some(AlreadyRegistered);
      }
      PutValidator(ValidatorInfo(address, selfStake.value, selfStake.value, commission, false, 0, 0, block, 0, 0));
      return None;
    }

    method AddSelfStake(address: string, amount: Option<int>) returns (error: Option<Error>)
      requires Valid()
      modifies store
      ensures Did(DoAddSelfStake(old(store.ledger), address, amount), error)
    {
      if amount.None? || amount.value <= 0 {
        return Some(BelowMinStake);
      }
      var found := GetValidator(address);
      if found.None? {
        return Some(ValidatorNotFound);
      }
      var v := found.value;
      if v.jailed {
        return Some(ValidatorSlashed);
      }
      v := v.(selfStake := v.selfStake + amount.value);
      v := v.(totalStake := v.totalStake + amount.value);
      PutValidator(v);
      return None;
    }

    method Delegate(validator: string, delegator: string, amount: Option<int>, now: int) returns (error: Option<Error>)
      requires Valid() && SlashFree(validator)
      modifies store
      ensures Did(DoDelegate(old(store.ledger), validator, delegator, amount, now), error)
    {
      hide Holds;
      if amount.None? || amount.value < MIN_DELEGATION {
        return Some(BelowMinStake);
      }
      var found := GetValidator(validator);
      if found.None? {
        return Some(ValidatorNotFound);
      }
      var v := found.value;
      if v.jailed {
        return Some(ValidatorSlashed);
      }
      var bonded := GetDelegation(validator, delegator);
      var d := if bonded.Some? then bonded.value else Delegation(validator, delegator, 0, 0, 0, now);
      d := d.(amount := d.amount + amount.value);
      v := v.(totalStake := v.totalStake + amount.value);
      PutValidator(v);
      PutDelegation(d);
      return None;
    }

    method Undelegate(validator: string, delegator: string, amount: Option<int>) returns (error: Option<Error>)
      requires Valid() && SlashFree(validator)
      modifies store
      ensures Did(DoUndelegate(old(store.ledger), validator, delegator, amount), error)
    {
      hide Holds;
      if amount.None? || amount.value <= 0 {
        return Some(AmountNotPositive);
      }
      var found := GetValidator(validator);
      if found.None? {
        return Some(ValidatorNotFound);
      }
      var bonded := GetDelegation(validator, delegator);
      if bonded.None? {
        return Some(DelegationNotFound);
      }
      var v, d := found.value, bonded.value;
      if d.amount < amount.value {
        return Some(InsufficientStake);
      }
      d := d.(amount := d.amount - amount.value);
      v := v.(totalStake := v.totalStake - amount.value);
      PutValidator(v);
      PutDelegation(d);
      return None;
    }

    method AccrueRewards(validator: string, totalReward: Option<int>, block: nat) returns (error: Option<Error>)
      requires Valid()
      modifies store
      ensures Did(DoAccrue(old(store.ledger), validator, totalReward, block), error)
    {
      if totalReward.None? || totalReward.value <= 0 {
        return None;
      }
      var found := GetValidator(validator);
      if found.None? {
        return Some(ValidatorNotFound);
      }
      var v := found.value;
      if v.jailed {
        return None;
      }
      v := v.(accumRewards := v.accumRewards + Commission(totalReward.value, v.commission), lastRewardAt := block);
      PutValidator(v);
      return None;
    }

    method ClaimRewards(validator: string, claimant: string) returns (claimed: int, error: Option<Error>)
      requires Valid() && (claimant == validator || SlashFree(validator))
      modifies store
      ensures Did(DoClaim(old(store.ledger), validator, claimant), error)
      ensures claimed == DoClaim(old(store.ledger), validator, claimant).claimed
    {
      var found := GetValidator(validator);
      if found.None? {
        return 0, Some(ValidatorNotFound);
      }
      var v := found.value;
      if claimant == validator {
        if v.accumRewards == 0 {
          return 0, Some(NoRewards);
        }
        PutValidator(v.(accumRewards := 0));
        return v.accumRewards, None;
      }
      var bonded := GetDelegation(validator, claimant);
      if bonded.None? || bonded.value.pendingReward == 0 {
        return 0, Some(NoRewards);
      }
      var d := bonded.value;
      PutDelegation(d.(pendingReward := 0, rewardDebt := d.rewardDebt + d.pendingReward));
      return d.pendingReward, None;
    }

    method Slash(validator: string, reason: string, amount: int, jailUntil: nat, block: nat,
            now: int) returns (error: Option<Error>)
      requires Valid()
      modifies store
      ensures Did(DoSlash(old(store.ledger), validator, reason, amount, jailUntil, block, now), error)
    {
      var found := GetValidator(validator);
      if found.None? {
        return Some(ValidatorNotFound);
      }
      var v := found.value;
      var slash := amount;
      if slash > v.totalStake {
        slash := v.totalStake;
      }
      v := v.(totalStake := v.totalStake - slash);
      if v.selfStake >= slash {
        v := v.(selfStake := v.selfStake - slash);
      } else {
        v := v.(selfStake := 0);
      }
      v := v.(jailed := true, jailUntil := jailUntil, slashCount := (v.slashCount + 1) % UINT64);
      PutSlash(SlashRecord(validator, reason, slash, block, now));
      PutValidator(v);
      return None;
    }

    method Unjail(validator: string, block: nat) returns (error: Option<Error>)
      requires Valid()
      modifies store
      ensures Did(DoUnjail(old(store.ledger), validator, block), error)
    {
      var found := GetValidator(validator);
      if found.None? {
        return Some(ValidatorNotFound);
      }
      if block < found.value.jailUntil {
        return Some(StillJailed);
      }
      PutValidator(found.value.(jailed := false));
      return None;
    }
  }
}
