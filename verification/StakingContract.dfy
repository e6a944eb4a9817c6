/** The GYDSStaking contract: validator registration, rewards and slashing, with the ether
    it holds. A call that reverts leaves no trace. */
module StakingContract {
  import opened Options
  import opened Sums

  type Address = string

  /** 32,000 ether in wei. */
  const MIN_STAKE: nat := 32_000 * 1_000_000_000_000_000_000

  datatype Validator = Validator(stake: nat, active: bool, registeredAt: nat, rewardDebt: nat)

  datatype State = State(
    owner: Address,
    validators: map<Address, Validator>,
    list: seq<Address>,
    totalStaked: nat,
    rewardPool: nat,
    balance: nat)

  datatype Call =
    | Register(sender: Address, value: nat, now: nat)
    | Unstake(sender: Address)
    | Distribute(sender: Address, value: nat)
    | Claim(sender: Address)
    | Slash(sender: Address, validator: Address, amount: nat)
    | Receive(value: nat)

  function Deployed(owner: Address): State {
    State(owner, map[], [], 0, 0, 0)
  }

  /** A mapping reads as the zero record where nothing was written. */
  function At(validators: map<Address, Validator>, a: Address): Validator {
    if a in validators then validators[a] else Validator(0, false, 0, 0)
  }

  /** List positions whose validator is active; one listed twice counts twice. */
  function ActiveCount(validators: map<Address, Validator>, list: seq<Address>): (n: nat)
    ensures n <= |list|
  {
    if list == [] then 0
    else ActiveCount(validators, list[..|list| - 1]) + if At(validators, list[|list| - 1]).active then 1 else 0
  }

  function CreditOne(validators: map<Address, Validator>, a: Address, per: nat): map<Address, Validator> {
    var v := At(validators, a);
    if v.active then validators[a := v.(rewardDebt := v.rewardDebt + per)] else validators
  }

  /** The rewards loop: one share per list position with an active validator. */
  function Credit(validators: map<Address, Validator>, list: seq<Address>, per: nat): map<Address, Validator> {
    if list == [] then validators
    else CreditOne(Credit(validators, list[..|list| - 1], per), list[|list| - 1], per)
  }

  function SlashAmount(s: State, validator: Address, amount: nat): nat {
    var stake := At(s.validators, validator).stake;
    if amount > stake then stake else amount
  }

  /** The state after a call, or None when the call reverts: a failed requirement, an
      underflow, a division by zero or a transfer beyond the balance. */
  function Apply(s: State, call: Call): Option<State> {
    match call
    case Register(sender, value, now) =>
      if value < MIN_STAKE || At(s.validators, sender).active then None
      else Some(s.(validators := s.validators[sender := Validator(value, true, now, 0)],
                   list := s.list + [sender],
                   totalStaked := s.totalStaked + value,
                   balance := s.balance + value))
    case Unstake(sender) =>
      var v := At(s.validators, sender);
      if !v.active || s.totalStaked < v.stake || s.balance < v.stake then None
      else Some(s.(validators := s.validators[sender := v.(active := false, stake := 0)],
                   totalStaked := s.totalStaked - v.stake,
                   balance := s.balance - v.stake))
    case Distribute(sender, value) =>
      var count := ActiveCount(s.validators, s.list);
      if sender != s.owner || |s.list| == 0 || count == 0 then None
      else Some(s.(validators := Credit(s.validators, s.list, value / count),
                   rewardPool := s.rewardPool + value,
                   balance := s.balance + value))
    case Claim(sender) =>
      var v := At(s.validators, sender);
      if !v.active || v.rewardDebt == 0 || s.rewardPool < v.rewardDebt || s.balance < v.rewardDebt then None
      else Some(s.(validators := s.validators[sender := v.(rewardDebt := 0)],
                   rewardPool := s.rewardPool - v.rewardDebt,
                   balance := s.balance - v.rewardDebt))
    case Slash(sender, validator, amount) =>
      var v := At(s.validators, validator);
      var slashed := SlashAmount(s, validator, amount);
      if sender != s.owner || !v.active || s.totalStaked < slashed then None
      else
        var kept := v.stake - slashed;
        Some(s.(validators := s.validators[validator := v.(stake := kept, active := kept >= MIN_STAKE)],
                totalStaked := s.totalStaked - slashed))
    case Receive(value) => Some(s.(balance := s.balance + value))
  }

  function After(s: State, call: Call): State {
    match Apply(s, call)
    case None => s
    case Some(s') => s'
  }

  function Run(s: State, calls: seq<Call>): State {
    if calls == [] then s else After(Run(s, calls[..|calls| - 1]), calls[|calls| - 1])
  }

  // ---------- Books ----------

  ghost const STAKE: (Address, Validator) -> int := (a: Address, v: Validator) => v.stake

  ghost const DEBT: (Address, Validator) -> int := (a: Address, v: Validator) => v.rewardDebt

  ghost function Stakes(validators: map<Address, Validator>): int {
    Total(validators, STAKE)
  }

  ghost function Debts(validators: map<Address, Validator>): int {
    Total(validators, DEBT)
  }

  /** Money the contract holds that no record accounts for: stake overwritten by a new
      registration, reward shares rounded off or overwritten, and slashed or donated ether. */
  datatype Books = Books(stranded: nat, dust: nat, surplus: nat)

  /** Every wei is accounted for, and active validators are listed and staked enough. */
  ghost predicate Balanced(s: State, b: Books) {
    && s.totalStaked == Stakes(s.validators) + b.stranded
    && s.rewardPool == Debts(s.validators) + b.dust
    && s.balance == s.totalStaked + s.rewardPool + b.surplus
    && forall a | a in s.validators && s.validators[a].active :: a in s.list && s.validators[a].stake >= MIN_STAKE
  }

  /** What one call adds to the unaccounted money. */
  function Booked(s: State, b: Books, call: Call): Books {
    if Apply(s, call).None? then b
    else match call
      case Register(sender, _, _) =>
        var v := At(s.validators, sender);
        Books(b.stranded + v.stake, b.dust + v.rewardDebt, b.surplus)
      case Distribute(_, value) => b.(dust := b.dust + value % ActiveCount(s.validators, s.list))
      case Slash(_, validator, amount) => b.(surplus := b.surplus + SlashAmount(s, validator, amount))
      case Receive(value) => b.(surplus := b.surplus + value)
      case _ => b
  }

  function BooksAfter(s: State, calls: seq<Call>): Books {
    if calls == [] then Books(0, 0, 0)
    else
      var init := calls[..|calls| - 1];
      Booked(Run(s, init), BooksAfter(s, init), calls[|calls| - 1])
  }

  lemma WriteTotals(validators: map<Address, Validator>, a: Address, v: Validator)
    ensures Stakes(validators[a := v]) == Stakes(validators) - At(validators, a).stake + v.stake
    ensures Debts(validators[a := v]) == Debts(validators) - At(validators, a).rewardDebt + v.rewardDebt
  {
    TotalUpdate(validators, STAKE, a, v);
    TotalUpdate(validators, DEBT, a, v);
  }

  function Occurrences(list: seq<Address>, a: Address): nat {
    if list == [] then 0 else Occurrences(list[..|list| - 1], a) + if list[|list| - 1] == a then 1 else 0
  }

  /** n shares of per each. */
  function Shares(per: nat, n: nat): nat {
    if n == 0 then 0 else Shares(per, n - 1) + per
  }

  lemma {:induction false} SharesProduct(per: nat, n: nat)
    ensures Shares(per, n) == per * n
  {
    if n == 0 {
    } else {
      SharesProduct(per, n - 1);
    }
  }

  /** The rewards loop gives each active validator one share per time it is listed, and
      changes nothing else. */
  lemma {:induction false} CreditRecords(validators: map<Address, Validator>, list: seq<Address>, per: nat, a: Address)
    ensures Credit(validators, list, per).Keys == validators.Keys
    ensures var v := At(validators, a);
      At(Credit(validators, list, per), a) ==
        if v.active then v.(rewardDebt := v.rewardDebt + Shares(per, Occurrences(list, a))) else v
  {
    if list == [] {
    } else {
      var last := list[|list| - 1];
      CreditRecords(validators, list[..|list| - 1], per, a);
      CreditRecords(validators, list[..|list| - 1], per, last);
    }
  }

  lemma CreditOneTotals(validators: map<Address, Validator>, a: Address, per: nat)
    ensures var after := CreditOne(validators, a, per);
      && Debts(after) == Debts(validators) + (if At(validators, a).active then per else 0)
      && Stakes(after) == Stakes(validators)
  {
    var v := At(validators, a);
    WriteTotals(validators, a, v.(rewardDebt := v.rewardDebt + per));
  }

  /** The rewards loop raises the total debt by one share per counted position. */
  lemma {:induction false} CreditTotals(validators: map<Address, Validator>, list: seq<Address>, per: nat)
    ensures var after := Credit(validators, list, per);
      && Debts(after) == Debts(validators) + Shares(per, ActiveCount(validators, list))
      && Stakes(after) == Stakes(validators)
  {
    if list == [] {
    } else {
      var init, a := list[..|list| - 1], list[|list| - 1];
      CreditTotals(validators, init, per);
      CreditRecords(validators, init, per, a);
      CreditOneTotals(Credit(validators, init, per), a, per);
    }
  }

  /** Writing one record keeps the books when the aggregates move with it. */
  lemma WriteBalanced(s: State, b: Books, s': State, b': Books, a: Address, v: Validator)
    requires Balanced(s, b) && s'.validators == s.validators[a := v]
    requires s'.totalStaked - b'.stranded - v.stake == s.totalStaked - b.stranded - At(s.validators, a).stake
    requires s'.rewardPool - b'.dust - v.rewardDebt == s.rewardPool - b.dust - At(s.validators, a).rewardDebt
    requires s'.balance == s'.totalStaked + s'.rewardPool + b'.surplus
    requires s'.list == s.list || s'.list == s.list + [a]
    requires v.active ==> a in s'.list && v.stake >= MIN_STAKE
    ensures Balanced(s', b')
  {
    WriteTotals(s.validators, a, v);
  }

  lemma Division(value: nat, count: nat)
    requires count > 0
    ensures (value / count) * count + value % count == value
  {
  }

  lemma DistributeBalanced(s: State, b: Books, sender: Address, value: nat)
    requires Balanced(s, b) && Apply(s, Distribute(sender, value)).Some?
    ensures Balanced(After(s, Distribute(sender, value)), Booked(s, b, Distribute(sender, value)))
  {
    var count := ActiveCount(s.validators, s.list);
    var per := value / count;
    CreditTotals(s.validators, s.list, per);
    SharesProduct(per, count);
    Division(value, count);
    var after := Credit(s.validators, s.list, per);
    forall a | a in after && after[a].active
      ensures a in s.list && after[a].stake >= MIN_STAKE
    {
      CreditRecords(s.validators, s.list, per, a);
    }
  }

  /** Each call keeps the books. */
  lemma StepBalanced(s: State, b: Books, call: Call)
    requires Balanced(s, b)
    ensures Balanced(After(s, call), Booked(s, b, call))
  {
    if Apply(s, call).Some? {
      var s', b' := After(s, call), Booked(s, b, call);
      match call
      case Register(sender, value, now) => WriteBalanced(s, b, s', b', sender, Validator(value, true, now, 0));
      case Unstake(sender) => WriteBalanced(s, b, s', b', sender, At(s'.validators, sender));
      case Distribute(sender, value) => DistributeBalanced(s, b, sender, value);
      case Claim(sender) => WriteBalanced(s, b, s', b', sender, At(s'.validators, sender));
      case Slash(_, validator, _) => WriteBalanced(s, b, s', b', validator, At(s'.validators, validator));
      case Receive(value) =>
    }
  }

  /** The books hold after every run from deployment, re-registrations, duplicates and
      partial slashes included. */
  lemma {:induction false} RunBalanced(owner: Address, calls: seq<Call>)
    ensures Balanced(Run(Deployed(owner), calls), BooksAfter(Deployed(owner), calls))
  {
    if calls == [] {
    } else {
      var init := calls[..|calls| - 1];
      RunBalanced(owner, init);
      StepBalanced(Run(Deployed(owner), init), BooksAfter(Deployed(owner), init), calls[|calls| - 1]);
    }
  }

  // ---------- Solvency ----------

  /** In books that balance the only reasons for a call to revert are the contract's own
      requirements and a division among no active validators: never an underflow, never a
      shortfall. */
  lemma ExitsSucceed(s: State, b: Books, a: Address)
    requires Balanced(s, b)
    ensures Stakes(s.validators) <= s.totalStaked && Debts(s.validators) <= s.rewardPool
    ensures s.totalStaked + s.rewardPool <= s.balance
    ensures Apply(s, Unstake(a)).Some? <==> At(s.validators, a).active
    ensures Apply(s, Claim(a)).Some? <==> At(s.validators, a).active && At(s.validators, a).rewardDebt > 0
    ensures forall sender, amount ::
              Apply(s, Slash(sender, a, amount)).Some? <==> sender == s.owner && At(s.validators, a).active
    ensures forall sender, value ::
              Apply(s, Distribute(sender, value)).Some? <==> sender == s.owner && ActiveCount(s.validators, s.list) > 0
  {
    TotalCovers(s.validators, STAKE, a);
    TotalCovers(s.validators, DEBT, a);
  }

  /** After any run an active validator can leave with its stake, and with its rewards first. */
  lemma AlwaysSolvent(owner: Address, calls: seq<Call>, a: Address)
    ensures var s := Run(Deployed(owner), calls);
      && Stakes(s.validators) <= s.totalStaked
      && Debts(s.validators) <= s.rewardPool
      && s.totalStaked + s.rewardPool <= s.balance
      && (Apply(s, Unstake(a)).Some? <==> At(s.validators, a).active)
      && (Apply(s, Claim(a)).Some? <==> At(s.validators, a).active && At(s.validators, a).rewardDebt > 0)
      && (At(s.validators, a).active ==> At(s.validators, a).stake >= MIN_STAKE)
  {
    RunBalanced(owner, calls);
    ExitsSucceed(Run(Deployed(owner), calls), BooksAfter(Deployed(owner), calls), a);
  }

  function ExitCalls(order: seq<Address>): seq<Call> {
    if order == [] then []
    else ExitCalls(order[..|order| - 1]) + [Claim(order[|order| - 1]), Unstake(order[|order| - 1])]
  }

  function Owed(s: State, order: seq<Address>): nat {
    if order == [] then 0
    else
      var v := At(s.validators, order[|order| - 1]);
      Owed(s, order[..|order| - 1]) + v.stake + v.rewardDebt
  }

  lemma RunTwo(s: State, calls: seq<Call>, c: Call, d: Call)
    ensures Run(s, calls + [c, d]) == After(After(Run(s, calls), c), d)
  {
    var all := calls + [c, d];
    assert all[..|all| - 1] == calls + [c];
    assert (calls + [c])[..|calls|] == calls;
  }

  /** One validator leaves with its rewards and its stake. */
  lemma ExitOne(s: State, b: Books, a: Address)
    requires Balanced(s, b) && At(s.validators, a).active
    ensures var s', v := After(After(s, Claim(a)), Unstake(a)), At(s.validators, a);
      && Balanced(s', b)
      && s'.balance == s.balance - v.stake - v.rewardDebt
      && At(s'.validators, a) == v.(active := false, stake := 0, rewardDebt := 0)
      && forall c | c != a :: At(s'.validators, c) == At(s.validators, c)
  {
    ExitsSucceed(s, b, a);
    StepBalanced(s, b, Claim(a));
    ExitsSucceed(After(s, Claim(a)), b, a);
    StepBalanced(After(s, Claim(a)), b, Unstake(a));
  }

  /** All active validators can claim and unstake one after the other, in any order, and
      the contract pays out exactly what it owes them. */
  lemma {:induction false} ExitAll(s: State, b: Books, order: seq<Address>)
    requires Balanced(s, b)
    requires forall i, j | 0 <= i < j < |order| :: order[i] != order[j]
    requires forall a | a in order :: At(s.validators, a).active
    ensures var s' := Run(s, ExitCalls(order));
      && Balanced(s', b)
      && s'.balance == s.balance - Owed(s, order)
      && (forall a | a in order ::
            var v := At(s'.validators, a); !v.active && v.stake == v.rewardDebt == 0)
      && (forall a | a !in order :: At(s'.validators, a) == At(s.validators, a))
  {
    if order == [] {
    } else {
      var init, a := order[..|order| - 1], order[|order| - 1];
      assert order == init + [a];
      ExitAll(s, b, init);
      RunTwo(s, ExitCalls(init), Claim(a), Unstake(a));
      ExitOne(Run(s, ExitCalls(init)), b, a);
    }
  }

  lemma InactiveStep(s: State, call: Call, a: Address)
    requires !At(s.validators, a).active && !(call.Register? && call.sender == a)
    ensures At(After(s, call).validators, a) == At(s.validators, a)
  {
    match call
    case Distribute(_, value) =>
      if Apply(s, call).Some? {
        CreditRecords(s.validators, s.list, value / ActiveCount(s.validators, s.list), a);
      }
    case _ =>
  }

  /** A validator slashed below the minimum gets neither its remaining stake nor its rewards
      out: until it registers anew its record stands still and its exits revert. */
  lemma {:induction false} InactiveStays(s: State, calls: seq<Call>, a: Address)
    requires !At(s.validators, a).active
    requires forall c | c in calls :: !(c.Register? && c.sender == a)
    ensures var s' := Run(s, calls);
      && At(s'.validators, a) == At(s.validators, a)
      && Apply(s', Unstake(a)).None? && Apply(s', Claim(a)).None?
  {
    if calls == [] {
    } else {
      InactiveStays(s, calls[..|calls| - 1], a);
      InactiveStep(Run(s, calls[..|calls| - 1]), calls[|calls| - 1], a);
    }
  }

  /** How often a has registered successfully. */
  function Registrations(s: State, calls: seq<Call>, a: Address): nat {
    if calls == [] then 0
    else
      var init, last := calls[..|calls| - 1], calls[|calls| - 1];
      Registrations(s, init, a) +
      if last.Register? && last.sender == a && Apply(Run(s, init), last).Some? then 1 else 0
  }

  /** A validator stays listed once per registration, so after unstaking and registering
      again it is counted, and paid, more than once. */
  lemma {:induction false} ListedPerRegistration(owner: Address, calls: seq<Call>, a: Address)
    ensures Occurrences(Run(Deployed(owner), calls).list, a) == Registrations(Deployed(owner), calls, a)
  {
    if calls == [] {
    } else {
      var init := calls[..|calls| - 1];
      ListedPerRegistration(owner, init, a);
      var s := Run(Deployed(owner), init);
      assert (s.list + [a])[..|s.list|] == s.list;
      match calls[|calls| - 1]
      case Register(sender, _, _) => assert (s.list + [sender])[..|s.list|] == s.list;
      case _ =>
    }
  }

  lemma SharePerListing(s: State, sender: Address, value: nat, a: Address)
    requires Apply(s, Distribute(sender, value)).Some?
    ensures var v := At(s.validators, a);
      At(After(s, Distribute(sender, value)).validators, a) ==
        if v.active
        then v.(rewardDebt := v.rewardDebt + Shares(value / ActiveCount(s.validators, s.list), Occurrences(s.list, a)))
        else v
  {
    CreditRecords(s.validators, s.list, value / ActiveCount(s.validators, s.list), a);
  }

  /** A distribution pays an active validator one share per registration it ever made, and
      an inactive one nothing. */
  lemma SharePerRegistration(owner: Address, calls: seq<Call>, value: nat, a: Address)
    requires Apply(Run(Deployed(owner), calls), Distribute(owner, value)).Some?
    ensures var s := Run(Deployed(owner), calls);
      var v := At(s.validators, a);
      At(After(s, Distribute(owner, value)).validators, a) ==
        if v.active
        then
          var per := value / ActiveCount(s.validators, s.list);
          v.(rewardDebt := v.rewardDebt + Shares(per, Registrations(Deployed(owner), calls, a)))
        else v
  {
    ListedPerRegistration(owner, calls, a);
    SharePerListing(Run(Deployed(owner), calls), owner, value, a);
  }

  // ---------- What the calls do ----------

  /** Everything but the record of a is as before. */
  ghost predicate OthersKept(s: State, s': State, a: Address) {
    && s'.owner == s.owner
    && forall c | c != a :: At(s'.validators, c) == At(s.validators, c)
  }

  /** Registering needs the minimum and no active record. It starts a new one with exactly the
      ether sent, whatever the old one held, and lists the validator once more. */
  lemma RegisterStarts(s: State, a: Address, value: nat, now: nat)
    ensures Apply(s, Register(a, value, now)).Some?
       <==> value >= 32_000_000_000_000_000_000_000 && !At(s.validators, a).active
    ensures Apply(s, Register(a, value, now)).Some? ==>
      var s' := After(s, Register(a, value, now));
      && OthersKept(s, s', a) && At(s'.validators, a) == Validator(value, true, now, 0)
      && s'.list == s.list + [a]
      && s'.totalStaked - s.totalStaked == value == s'.balance - s.balance && s'.rewardPool == s.rewardPool
  {
  }

  /** Unstaking pays the stake and nothing else: reward debt and reward pool stay. */
  lemma UnstakePays(s: State, b: Books, a: Address)
    requires Balanced(s, b)
    ensures Apply(s, Unstake(a)).Some? <==> At(s.validators, a).active
    ensures At(s.validators, a).active ==>
      var v, s' := At(s.validators, a), After(s, Unstake(a));
      && s.balance - s'.balance == v.stake == s.totalStaked - s'.totalStaked
      && s'.rewardPool == s.rewardPool && s'.list == s.list && OthersKept(s, s', a)
      && At(s'.validators, a) == Validator(0, false, v.registeredAt, v.rewardDebt)
  {
    ExitsSucceed(s, b, a);
  }

  /** Claiming pays the reward debt and nothing else: stake and total stake stay. */
  lemma ClaimPays(s: State, b: Books, a: Address)
    requires Balanced(s, b)
    ensures Apply(s, Claim(a)).Some? <==> At(s.validators, a).active && At(s.validators, a).rewardDebt > 0
    ensures Apply(s, Claim(a)).Some? ==>
      var v, s' := At(s.validators, a), After(s, Claim(a));
      && s.balance - s'.balance == v.rewardDebt == s.rewardPool - s'.rewardPool
      && s'.totalStaked == s.totalStaked && s'.list == s.list && OthersKept(s, s', a)
      && At(s'.validators, a) == Validator(v.stake, true, v.registeredAt, 0)
  {
    ExitsSucceed(s, b, a);
  }

  /** A distribution adds the ether sent to balance and pool, and touches of any record nothing
      but the reward debt. */
  lemma DistributeFunds(s: State, sender: Address, value: nat, a: Address)
    requires Apply(s, Distribute(sender, value)).Some?
    ensures var s' := After(s, Distribute(sender, value));
      && s'.balance - s.balance == value == s'.rewardPool - s.rewardPool
      && s'.totalStaked == s.totalStaked && s'.list == s.list && s'.owner == s.owner
      && At(s'.validators, a) == At(s.validators, a).(rewardDebt := At(s'.validators, a).rewardDebt)
  {
    CreditRecords(s.validators, s.list, value / ActiveCount(s.validators, s.list), a);
  }

  /** A slash takes at most the stake, from that validator alone; it stays active exactly when
      it keeps the minimum. No ether moves. */
  lemma SlashTakes(s: State, sender: Address, a: Address, amount: nat)
    requires Apply(s, Slash(sender, a, amount)).Some?
    ensures var v, s' := At(s.validators, a), After(s, Slash(sender, a, amount));
      var v' := At(s'.validators, a);
      && v'.stake == (if amount <= v.stake then v.stake - amount else 0)
      && (v'.active <==> v'.stake >= MIN_STAKE)
      && v'.rewardDebt == v.rewardDebt && v'.registeredAt == v.registeredAt
      && s.totalStaked - s'.totalStaked == v.stake - v'.stake
      && s'.balance == s.balance && s'.rewardPool == s.rewardPool && s'.list == s.list && OthersKept(s, s', a)
  {
  }

  /** Any ether sent is accepted and changes the balance alone. */
  lemma ReceiveAdds(s: State, value: nat)
    ensures var s' := After(s, Receive(value));
      && s'.balance == s.balance + value && s'.validators == s.validators && s'.list == s.list
      && s'.totalStaked == s.totalStaked && s'.rewardPool == s.rewardPool && s'.owner == s.owner
  {
  }

  // ---------- Who is paid what ----------

  /** The sum over a run of what each call contributes in the state it meets. */
  ghost function Sum(s: State, calls: seq<Call>, weight: (State, Call) -> int): int {
    if calls == [] then 0
    else
      var init := calls[..|calls| - 1];
      Sum(s, init, weight) + weight(Run(s, init), calls[|calls| - 1])
  }

  /** The ether that a call of a takes out of the contract. */
  ghost function PaidTo(a: Address): (State, Call) -> int {
    (s: State, c: Call) => if (c.Unstake? || c.Claim?) && c.sender == a then s.balance - After(s, c).balance else 0
  }

  /** The stake that a has when it unstakes. */
  ghost function StakeTaken(a: Address): (State, Call) -> int {
    (s: State, c: Call) => if c == Unstake(a) && Apply(s, c).Some? then At(s.validators, a).stake else 0
  }

  /** The reward debt that a has when it claims. */
  ghost function DebtTaken(a: Address): (State, Call) -> int {
    (s: State, c: Call) => if c == Claim(a) && Apply(s, c).Some? then At(s.validators, a).rewardDebt else 0
  }

  /** The ether that comes in with a call. */
  function ReceivedBy(s: State, c: Call): int {
    if (c.Register? || c.Distribute? || c.Receive?) && Apply(s, c).Some? then c.value else 0
  }

  /** The ether that an exit takes out, whoever makes it. */
  function PaidBy(s: State, c: Call): int {
    if c.Unstake? || c.Claim? then s.balance - After(s, c).balance else 0
  }

  lemma PaymentStep(s: State, b: Books, c: Call, a: Address)
    requires Balanced(s, b)
    ensures PaidTo(a)(s, c) == StakeTaken(a)(s, c) + DebtTaken(a)(s, c)
    ensures After(s, c).balance == s.balance + ReceivedBy(s, c) - PaidBy(s, c)
  {
    match c
    case Unstake(sender) => UnstakePays(s, b, sender);
    case Claim(sender) => ClaimPays(s, b, sender);
    case _ =>
  }

  /** Over every run what an address is paid is the sum of its stakes at its unstakes and of its
      reward debts at its claims; and the balance is what came in less what was paid. */
  lemma {:induction false} PaymentLedger(owner: Address, calls: seq<Call>, a: Address)
    ensures var s := Deployed(owner);
      && Sum(s, calls, PaidTo(a)) == Sum(s, calls, StakeTaken(a)) + Sum(s, calls, DebtTaken(a))
      && Run(s, calls).balance == Sum(s, calls, ReceivedBy) - Sum(s, calls, PaidBy)
  {
    if calls == [] {
    } else {
      var init := calls[..|calls| - 1];
      PaymentLedger(owner, init, a);
      RunBalanced(owner, init);
      PaymentStep(Run(Deployed(owner), init), BooksAfter(Deployed(owner), init), calls[|calls| - 1], a);
    }
  }

  /** What a distribution adds to the reward debt of a: a share for each time it is listed. */
  ghost function Credited(a: Address): (State, Call) -> int {
    (s: State, c: Call) =>
      if c.Distribute? && Apply(s, c).Some? && At(s.validators, a).active
      then c.value / ActiveCount(s.validators, s.list) * Occurrences(s.list, a) else 0
  }

  /** The reward debt that a registration of a wipes out. */
  ghost function Forfeited(a: Address): (State, Call) -> int {
    (s: State, c: Call) =>
      if c.Register? && c.sender == a && Apply(s, c).Some? then At(s.validators, a).rewardDebt else 0
  }

  lemma DebtStep(s: State, b: Books, c: Call, a: Address)
    requires Balanced(s, b)
    ensures At(After(s, c).validators, a).rewardDebt
         == At(s.validators, a).rewardDebt + Credited(a)(s, c) - DebtTaken(a)(s, c) - Forfeited(a)(s, c)
  {
    match c
    case Distribute(_, value) =>
      if Apply(s, c).Some? {
        var per := value / ActiveCount(s.validators, s.list);
        CreditRecords(s.validators, s.list, per, a);
        SharesProduct(per, Occurrences(s.list, a));
      }
    case Claim(sender) => ClaimPays(s, b, sender);
    case _ =>
  }

  /** Every reward credited is claimed, forfeited by registering anew, or still owed. */
  lemma {:induction false} DebtLedger(owner: Address, calls: seq<Call>, a: Address)
    ensures var s := Deployed(owner);
      Sum(s, calls, Credited(a))
      == Sum(s, calls, DebtTaken(a)) + Sum(s, calls, Forfeited(a)) + At(Run(s, calls).validators, a).rewardDebt
  {
    if calls == [] {
    } else {
      var init := calls[..|calls| - 1];
      DebtLedger(owner, init, a);
      RunBalanced(owner, init);
      DebtStep(Run(Deployed(owner), init), BooksAfter(Deployed(owner), init), calls[|calls| - 1], a);
    }
  }

  /** Nothing is paid to an inactive validator that does not register anew. */
  lemma {:induction false} InactiveUnpaid(s: State, calls: seq<Call>, a: Address)
    requires !At(s.validators, a).active
    requires forall c | c in calls :: !(c.Register? && c.sender == a)
    ensures Sum(s, calls, PaidTo(a)) == 0
  {
    if calls == [] {
    } else {
      var init := calls[..|calls| - 1];
      InactiveUnpaid(s, init, a);
      InactiveStays(s, init, a);
    }
  }

  /** Rewards unclaimed at an unstake are never paid out: nothing is paid until the validator
      registers again, and then the reward debt is gone. */
  lemma LeavingForfeits(s: State, b: Books, a: Address, calls: seq<Call>, value: nat, now: nat)
    requires Balanced(s, b) && At(s.validators, a).active
    requires forall c | c in calls :: !(c.Register? && c.sender == a)
    ensures var left := After(s, Unstake(a));
      && Sum(left, calls, PaidTo(a)) == 0
      && At(Run(left, calls).validators, a).rewardDebt == At(s.validators, a).rewardDebt
      && (value >= MIN_STAKE ==>
            At(After(Run(left, calls), Register(a, value, now)).validators, a) == Validator(value, true, now, 0))
  {
    UnstakePays(s, b, a);
    var left := After(s, Unstake(a));
    InactiveUnpaid(left, calls, a);
    InactiveStays(left, calls, a);
    RegisterStarts(Run(left, calls), a, value, now);
  }

  // ---------- The contract in place ----------

  class Contract {
    const owner: Address
    var validators: map<Address, Validator>
    var validatorList: seq<Address>
    var totalStaked: nat
    var rewardPool: nat
    var balance: nat

    ghost function Now(): State
      reads this
    {
      State(owner, validators, validatorList, totalStaked, rewardPool, balance)
    }

    /** The call did what Apply says, or reverted and changed nothing. */
    twostate predicate Did(call: Call, ok: bool)
      reads this
    {
      && ok == Apply(old(Now()), call).Some?
      && Now() == After(old(Now()), call)
    }

    constructor (sender: Address)
      ensures Now() == Deployed(sender)
    {
      owner, validators, validatorList := sender, map[], [];
      totalStaked, rewardPool, balance := 0, 0, 0;
    }

    method Register(sender: Address, value: nat, now: nat) returns (ok: bool)
      modifies this
      ensures Did(Call.Register(sender, value, now), ok)
    {
      if value < MIN_STAKE || At(validators, sender).active {
        return false;
      }
      balance := balance + value;
      validators := validators[sender := Validator(value, true, now, 0)];
      validatorList := validatorList + [sender];
      totalStaked := totalStaked + value;
      return true;
    }

    method Unstake(sender: Address) returns (ok: bool)
      modifies this
      ensures Did(Call.Unstake(sender), ok)
    {
      var v := At(validators, sender);
      var amount := v.stake;
      if !v.active || totalStaked < amount || balance < amount {
        return false;
      }
      validators := validators[sender := v.(active := false, stake := 0)];
      totalStaked := totalStaked - amount;
      balance := balance - amount;
      return true;
    }

    method CountActive() returns (count: nat)
      ensures count == ActiveCount(validators, validatorList)
    {
      count := 0;
      for i := 0 to |validatorList|
        invariant count == ActiveCount(validators, validatorList[..i])
      {
        assert validatorList[..i + 1][..i] == validatorList[..i];
        if At(validators, validatorList[i]).active {
          count := count + 1;
        }
      }
      assert validatorList[..|validatorList|] == validatorList;
    }

    method DistributeRewards(sender: Address, value: nat) returns (ok: bool)
      modifies this
      ensures Did(Distribute(sender, value), ok)
    {
      var count := CountActive();
      if sender != owner || |validatorList| == 0 || count == 0 {
        return false;
      }
      balance := balance + value;
      var perValidator := value / count;
      for i := 0 to |validatorList|
        modifies this`validators
        invariant validators == Credit(old(validators), validatorList[..i], perValidator)
      {
        assert validatorList[..i + 1][..i] == validatorList[..i];
        var v := At(validators, validatorList[i]);
        if v.active {
          validators := validators[validatorList[i] := v.(rewardDebt := v.rewardDebt + perValidator)];
        }
      }
      assert validatorList[..|validatorList|] == validatorList;
      rewardPool := rewardPool + value;
      return true;
    }

    method ClaimReward(sender: Address) returns (ok: bool)
      modifies this
      ensures Did(Claim(sender), ok)
    {
      var v := At(validators, sender);
      var reward := v.rewardDebt;
      if !v.active || reward == 0 || rewardPool < reward || balance < reward {
        return false;
      }
      validators := validators[sender := v.(rewardDebt := 0)];
      rewardPool := rewardPool - reward;
      balance := balance - reward;
      return true;
    }

    method Slash(sender: Address, validator: Address, amount: nat) returns (ok: bool)
      modifies this
      ensures Did(Call.Slash(sender, validator, amount), ok)
    {
      var v := At(validators, validator);
      var slashAmt := if amount > v.stake then v.stake else amount;
      if sender != owner || !v.active || totalStaked < slashAmt {
        return false;
      }
      v := v.(stake := v.stake - slashAmt);
      totalStaked := totalStaked - slashAmt;
      if v.stake < MIN_STAKE {
        v := v.(active := false);
      }
      validators := validators[validator := v];
      return true;
    }

    method Receive(value: nat) returns (ok: bool)
      modifies this
      ensures Did(Call.Receive(value), ok)
    {
      balance := balance + value;
      return true;
    }
  }
}
