/** The GYDS-20 token program: every fungible token as records in one shared store. */
module TokenProgram {
  import opened Options
  import opened Store
  import opened Sums

  datatype Error =
    | InvalidAmount | BadDecimals | AlreadyExists | TokenNotFound | AccountNotFound
    | SenderFrozen | RecipientFrozen | InsufficientFunds | Unauthorized | MintAuthorityFixed | AllowanceExceeded

  /** An amount is None where Go passes a nil pointer. Create takes the new token's record,
      its identifier being what the hash of creator, symbol and block number gave. */
  datatype Call =
    | Create(info: TokenInfo, supply: Option<int>)
    | Transfer(token: string, from: string, to: string, amount: Option<int>)
    | Mint(token: string, authority: string, to: string, amount: Option<int>)
    | Burn(token: string, authority: string, from: string, amount: Option<int>)
    | Approve(token: string, owner: string, delegate: string, amount: Option<int>)
    | TransferFrom(token: string, delegate: string, from: string, to: string, amount: Option<int>)
    | Freeze(token: string, authority: string, target: string, freeze: bool)
    | SetMintAuthority(token: string, current: string, next: string)

  datatype Outcome = Outcome(ledger: Ledger, error: Option<Error>)

  function Fails(l: Ledger, e: Error): Outcome {
    Outcome(l, Some(e))
  }

  function Works(l: Ledger): Outcome {
    Outcome(l, None)
  }

  // ---------- Records of the program ----------

  function FindToken(l: Ledger, tid: string): Option<TokenInfo> {
    if tid in l.tokens then Some(l.tokens[tid]) else None
  }

  function FindAccount(l: Ledger, tid: string, owner: string): Option<TokenAccount> {
    if (tid, owner) in l.accounts then Some(l.accounts[(tid, owner)]) else None
  }

  function AccountOrNew(l: Ledger, tid: string, owner: string): TokenAccount {
    if (tid, owner) in l.accounts then l.accounts[(tid, owner)]
    else TokenAccount(tid, owner, 0, false, "", None)
  }

  /** A record is saved under the identity it carries. */
  function SaveToken(l: Ledger, info: TokenInfo): Ledger {
    l.(tokens := l.tokens[info.id := info])
  }

  function SaveAccount(l: Ledger, acc: TokenAccount): Ledger {
    l.(accounts := l.accounts[(acc.tokenId, acc.owner) := acc])
  }

  /** A debited sender is saved, then the recipient as loaded before, credited with x. */
  function Moved(l: Ledger, debited: TokenAccount, toAcc: TokenAccount, x: int): Ledger {
    SaveAccount(SaveAccount(l, debited), toAcc.(balance := toAcc.balance + x))
  }

  /** One balance and the supply change by x. */
  function Adjusted(l: Ledger, acc: TokenAccount, info: TokenInfo, x: int): Ledger {
    SaveToken(SaveAccount(l, acc.(balance := acc.balance + x)), info.(totalSupply := info.totalSupply + x))
  }

  predicate Positive(amount: Option<int>) {
    amount.Some? && amount.value > 0
  }

  // ---------- The operations ----------

  function DoCreate(l: Ledger, info: TokenInfo, supply: Option<int>): Outcome {
    if info.decimals > 18 then Fails(l, BadDecimals)
    else if supply.None? || supply.value < 0 then Fails(l, InvalidAmount)
    else if info.id in l.tokens then Fails(l, AlreadyExists)
    else
      var l' := SaveToken(l, info.(totalSupply := supply.value));
      Works(if supply.value > 0
            then SaveAccount(l', TokenAccount(info.id, info.creator, supply.value, false, "", None))
            else l')
  }

  function DoTransfer(l: Ledger, tid: string, from: string, to: string, amount: Option<int>): Outcome {
    if !Positive(amount) then Fails(l, InvalidAmount)
    else match FindAccount(l, tid, from)
      case None => Fails(l, AccountNotFound)
      case Some(fromAcc) =>
        if fromAcc.frozen then Fails(l, SenderFrozen)
        else if fromAcc.balance < amount.value then Fails(l, InsufficientFunds)
        else
          var toAcc := AccountOrNew(l, tid, to);
          if toAcc.frozen then Fails(l, RecipientFrozen)
          else Works(Moved(l, fromAcc.(balance := fromAcc.balance - amount.value), toAcc, amount.value))
  }

  function DoMint(l: Ledger, tid: string, authority: string, to: string, amount: Option<int>): Outcome {
    if !Positive(amount) then Fails(l, InvalidAmount)
    else match FindToken(l, tid)
      case None => Fails(l, TokenNotFound)
      case Some(info) =>
        if info.mintAuthority == "" then Fails(l, MintAuthorityFixed)
        else if info.mintAuthority != authority then Fails(l, Unauthorized)
        else Works(Adjusted(l, AccountOrNew(l, tid, to), info, amount.value))
  }

  function DoBurn(l: Ledger, tid: string, authority: string, from: string, amount: Option<int>): Outcome {
    if !Positive(amount) then Fails(l, InvalidAmount)
    else match FindToken(l, tid)
      case None => Fails(l, TokenNotFound)
      case Some(info) =>
        if authority != from && authority != info.mintAuthority then Fails(l, Unauthorized)
        else match FindAccount(l, tid, from)
          case None => Fails(l, AccountNotFound)
          case Some(fromAcc) =>
            if fromAcc.balance < amount.value then Fails(l, InsufficientFunds)
            else Works(Adjusted(l, fromAcc, info, -amount.value))
  }

  function DoApprove(l: Ledger, tid: string, owner: string, delegate: string, amount: Option<int>): Outcome {
    match FindAccount(l, tid, owner)
    case None => Fails(l, AccountNotFound)
    case Some(acc) =>
      Works(SaveAccount(l, acc.(delegate := delegate,
                                allowance := Some(if amount.None? then 0 else amount.value))))
  }

  function DoTransferFrom(l: Ledger, tid: string, delegate: string, from: string, to: string,
          amount: Option<int>): Outcome {
    if !Positive(amount) then Fails(l, InvalidAmount)
    else match FindAccount(l, tid, from)
      case None => Fails(l, AccountNotFound)
      case Some(fromAcc) =>
        if fromAcc.delegate != delegate then Fails(l, Unauthorized)
        else if fromAcc.allowance.None? || fromAcc.allowance.value < amount.value then Fails(l, AllowanceExceeded)
        else if fromAcc.balance < amount.value then Fails(l, InsufficientFunds)
        else
          Works(Moved(l, fromAcc.(balance := fromAcc.balance - amount.value,
                                  allowance := Some(fromAcc.allowance.value - amount.value)),
                      AccountOrNew(l, tid, to), amount.value))
  }

  function DoFreeze(l: Ledger, tid: string, authority: string, target: string, freeze: bool): Outcome {
    match FindToken(l, tid)
    case None => Fails(l, TokenNotFound)
    case Some(info) =>
      if info.freezeAuth == "" || info.freezeAuth != authority then Fails(l, Unauthorized)
      else Works(SaveAccount(l, AccountOrNew(l, tid, target).(frozen := freeze)))
  }

  function DoSetMintAuthority(l: Ledger, tid: string, current: string, next: string): Outcome {
    match FindToken(l, tid)
    case None => Fails(l, TokenNotFound)
    case Some(info) =>
      if info.mintAuthority != current then Fails(l, Unauthorized)
      else Works(SaveToken(l, info.(mintAuthority := next)))
  }

  function Apply(l: Ledger, c: Call): Outcome {
    match c
    case Create(info, supply) => DoCreate(l, info, supply)
    case Transfer(tid, from, to, amount) => DoTransfer(l, tid, from, to, amount)
    case Mint(tid, authority, to, amount) => DoMint(l, tid, authority, to, amount)
    case Burn(tid, authority, from, amount) => DoBurn(l, tid, authority, from, amount)
    case Approve(tid, owner, delegate, amount) => DoApprove(l, tid, owner, delegate, amount)
    case TransferFrom(tid, delegate, from, to, amount) => DoTransferFrom(l, tid, delegate, from, to, amount)
    case Freeze(tid, authority, target, freeze) => DoFreeze(l, tid, authority, target, freeze)
    case SetMintAuthority(tid, current, next) => DoSetMintAuthority(l, tid, current, next)
  }

  function Run(l: Ledger, calls: seq<Call>): Ledger {
    if calls == [] then l else Apply(Run(l, calls[..|calls| - 1]), calls[|calls| - 1]).ledger
  }

  // ---------- Shape of the ledger ----------

  /** Every record sits under its own identity. */
  ghost predicate Labelled(l: Ledger) {
    && (forall t | t in l.tokens :: l.tokens[t].id == t)
    && (forall p | p in l.accounts :: l.accounts[p].tokenId == p.0 && l.accounts[p].owner == p.1)
  }

  /** Labelled, every account belongs to an existing token, and no balance is negative. */
  ghost predicate Sound(l: Ledger) {
    && Labelled(l)
    && (forall p | p in l.accounts :: p.0 in l.tokens && l.accounts[p].balance >= 0)
  }

  /** An account's balance in one token, and nothing in another. */
  ghost function BalanceIn(tid: string): ((string, string), TokenAccount) -> int {
    (p: (string, string), acc: TokenAccount) => if p.0 == tid then acc.balance else 0
  }

  /** The sum of a token's account balances. */
  ghost function Balances(l: Ledger, tid: string): int {
    Total(l.accounts, BalanceIn(tid))
  }

  function Supply(l: Ledger, tid: string): int {
    if tid in l.tokens then l.tokens[tid].totalSupply else 0
  }

  /** What the accounts of a token hold beyond its supply. */
  ghost function Excess(l: Ledger, tid: string): int {
    Balances(l, tid) - Supply(l, tid)
  }

  function HeldBy(l: Ledger, tid: string, owner: string): int {
    AccountOrNew(l, tid, owner).balance
  }

  lemma SaveAccountExcess(l: Ledger, acc: TokenAccount, tid: string)
    ensures Excess(SaveAccount(l, acc), tid)
         == Excess(l, tid) + if acc.tokenId == tid then acc.balance - HeldBy(l, tid, acc.owner) else 0
  {
    TotalUpdate(l.accounts, BalanceIn(tid), (acc.tokenId, acc.owner), acc);
  }

  // ---------- What the operations do ----------

  /** What is found for this account is labelled with it. */
  predicate LabelledAt(l: Ledger, token: string, owner: string) {
    AccountOrNew(l, token, owner).tokenId == token && AccountOrNew(l, token, owner).owner == owner
  }

  /** No balance but those named changes: x leaves the payer and reaches the payee, either of
      which may be missing. */
  ghost predicate Balanced(l: Ledger, l': Ledger, token: string, payer: Option<string>, payee: Option<string>, x: int) {
    forall t, o :: HeldBy(l', t, o) == HeldBy(l, t, o)
      - (if t == token && Some(o) == payer then x else 0) + (if t == token && Some(o) == payee then x else 0)
  }

  predicate Frozen(l: Ledger, tid: string, owner: string) {
    AccountOrNew(l, tid, owner).frozen
  }

  predicate Exists(l: Ledger, tid: string, owner: string) {
    (tid, owner) in l.accounts
  }

  /** A transfer works exactly when the sender's account exists, neither side is frozen and the
      sender holds the amount. It then moves the amount; a sender paying itself is not debited. */
  lemma TransferMoves(l: Ledger, token: string, from: string, to: string, amount: Option<int>)
    requires LabelledAt(l, token, from) && LabelledAt(l, token, to)
    ensures var out := DoTransfer(l, token, from, to, amount);
      && (out.error.None? <==>
            && amount.Some? && amount.value > 0
            && Exists(l, token, from) && !Frozen(l, token, from) && !Frozen(l, token, to)
            && HeldBy(l, token, from) >= amount.value)
      && (out.error.None? ==>
            && Balanced(l, out.ledger, token, if from == to then None else Some(from), Some(to), amount.value)
            && out.ledger.tokens == l.tokens)
  {
  }

  /** A delegated transfer asks for the delegate and the allowance instead, and for no account
      to be thawed. */
  lemma TransferFromMoves(l: Ledger, token: string, delegate: string, from: string, to: string,
          amount: Option<int>)
    requires LabelledAt(l, token, from) && LabelledAt(l, token, to)
    ensures var out := DoTransferFrom(l, token, delegate, from, to, amount);
      && (out.error.None? <==>
            && amount.Some? && amount.value > 0
            && Exists(l, token, from) && l.accounts[(token, from)].delegate == delegate
            && l.accounts[(token, from)].allowance.Some? && l.accounts[(token, from)].allowance.value >= amount.value
            && HeldBy(l, token, from) >= amount.value)
      && (out.error.None? ==>
            && Balanced(l, out.ledger, token, if from == to then None else Some(from), Some(to), amount.value)
            && out.ledger.tokens == l.tokens)
  {
  }

  /** Every account is as frozen as it was. */
  ghost predicate SameFreezes(l: Ledger, l': Ledger) {
    forall t, o :: Frozen(l', t, o) == Frozen(l, t, o)
  }

  lemma CreateAccounts(l: Ledger, info: TokenInfo, supply: Option<int>)
    requires (info.id, info.creator) !in l.accounts && DoCreate(l, info, supply).error.None?
    ensures var l' := DoCreate(l, info, supply).ledger;
      && AccountOrNew(l', info.id, info.creator) == TokenAccount(info.id, info.creator, supply.value, false, "", None)
      && (forall t, o | t != info.id || o != info.creator :: AccountOrNew(l', t, o) == AccountOrNew(l, t, o))
  {
  }

  /** A new token needs at most 18 decimals, a supply that is given and not negative, and an
      identifier not in use. It is recorded as asked, authorities included, its supply is the
      amount asked, and the creator holds exactly that, in a thawed account without a grant. */
  lemma CreateStarts(l: Ledger, info: TokenInfo, supply: Option<int>)
    requires Sound(l)
    ensures var out := DoCreate(l, info, supply);
      && (out.error.None? <==> info.decimals <= 18 && supply.Some? && supply.value >= 0 && info.id !in l.tokens)
      && (out.error.None? ==>
            && Supply(out.ledger, info.id) == supply.value == HeldBy(out.ledger, info.id, info.creator)
            && (forall t, o | t != info.id || o != info.creator :: HeldBy(out.ledger, t, o) == HeldBy(l, t, o))
            && out.ledger.tokens.Keys == l.tokens.Keys + {info.id}
            && (forall t | t in l.tokens :: out.ledger.tokens[t] == l.tokens[t])
            && out.ledger.tokens[info.id] == info.(totalSupply := Supply(out.ledger, info.id))
            && (Exists(out.ledger, info.id, info.creator) <==> supply.value > 0)
            && AccountOrNew(out.ledger, info.id, info.creator)
               == TokenAccount(info.id, info.creator, supply.value, false, "", None)
            && SameFreezes(l, out.ledger))
  {
    assert (info.id, info.creator) in l.accounts ==> info.id in l.tokens;
    if DoCreate(l, info, supply).error.None? {
      CreateAccounts(l, info, supply);
    }
  }

  /** Afterwards exactly the mint authority named can mint, and exactly the freeze authority
      named can freeze. */
  lemma CreatedAuthorities(l: Ledger, info: TokenInfo, supply: Option<int>, who: string, to: string, x: int,
                           freeze: bool)
    requires Sound(l) && DoCreate(l, info, supply).error.None? && x > 0
    ensures var l' := DoCreate(l, info, supply).ledger;
      && (DoMint(l', info.id, who, to, Some(x)).error.None? <==> who == info.mintAuthority != "")
      && (DoFreeze(l', info.id, who, to, freeze).error.None? <==> who == info.freezeAuth != "")
  {
    CreateStarts(l, info, supply);
  }

  /** Freezing and thawing need the freeze authority, and set that account's flag alone. */
  lemma FreezeSets(l: Ledger, token: string, authority: string, target: string, freeze: bool)
    requires LabelledAt(l, token, target)
    ensures var out := DoFreeze(l, token, authority, target, freeze);
      && (out.error.None? <==> token in l.tokens && l.tokens[token].freezeAuth == authority != "")
      && (out.error.None? ==>
            && out.ledger.tokens == l.tokens && Balanced(l, out.ledger, token, None, None, 0)
            && forall t, o :: Frozen(out.ledger, t, o) == if t == token && o == target then freeze else Frozen(l, t, o))
  {
  }

  /** An approval replaces delegate and allowance, nothing given meaning zero, and moves nothing. */
  lemma ApproveSets(l: Ledger, token: string, owner: string, delegate: string, amount: Option<int>)
    requires LabelledAt(l, token, owner)
    ensures var out := DoApprove(l, token, owner, delegate, amount);
      && (out.error.None? <==> Exists(l, token, owner))
      && (out.error.None? ==>
            && out.ledger.tokens == l.tokens && Balanced(l, out.ledger, token, None, None, 0)
            && out.ledger.accounts[(token, owner)].delegate == delegate
            && out.ledger.accounts[(token, owner)].allowance == Some(if amount == None then 0 else amount.value)
            && forall p | p in l.accounts && p != (token, owner) :: out.ledger.accounts[p] == l.accounts[p])
  {
  }

  /** The mint authority hands over to whom it names, or to nobody; from then on exactly that
      authority can mint. */
  lemma AuthorityPasses(l: Ledger, token: string, current: string, next: string, who: string, to: string, x: int)
    requires Labelled(l) && x > 0
    ensures var out := DoSetMintAuthority(l, token, current, next);
      && (out.error.None? <==> token in l.tokens && l.tokens[token].mintAuthority == current)
      && (out.error.None? ==>
            && out.ledger.accounts == l.accounts
            && out.ledger.tokens == l.tokens[token := l.tokens[token].(mintAuthority := next)]
            && (DoMint(out.ledger, token, who, to, Some(x)).error.None? <==> who == next != ""))
  {
  }

  predicate Mintable(l: Ledger, token: string, authority: string) {
    token in l.tokens && l.tokens[token].mintAuthority == authority != ""
  }

  lemma MintMoves(l: Ledger, token: string, authority: string, to: string, amount: Option<int>)
    requires LabelledAt(l, token, to) && (token in l.tokens ==> l.tokens[token].id == token)
    ensures var out := DoMint(l, token, authority, to, amount);
      && (out.error.None? <==> amount.Some? && amount.value > 0 && Mintable(l, token, authority))
      && (out.error.None? ==>
            && Balanced(l, out.ledger, token, None, Some(to), amount.value)
            && Supply(out.ledger, token) == Supply(l, token) + amount.value
            && out.ledger.tokens == l.tokens[token := l.tokens[token].(totalSupply := Supply(out.ledger, token))])
  {
  }

  /** The holder may burn, and so may the mint authority. */
  lemma BurnMoves(l: Ledger, token: string, authority: string, from: string, amount: Option<int>)
    requires LabelledAt(l, token, from) && (token in l.tokens ==> l.tokens[token].id == token)
    ensures var out := DoBurn(l, token, authority, from, amount);
      && (out.error.None? <==>
            && amount.Some? && amount.value > 0 && token in l.tokens
            && (authority == from || authority == l.tokens[token].mintAuthority)
            && Exists(l, token, from) && HeldBy(l, token, from) >= amount.value)
      && (out.error.None? ==>
            && Balanced(l, out.ledger, token, Some(from), None, amount.value)
            && Supply(out.ledger, token) == Supply(l, token) - amount.value
            && out.ledger.tokens == l.tokens[token := l.tokens[token].(totalSupply := Supply(out.ledger, token))])
  {
  }

  lemma MovedFreezes(l: Ledger, a: TokenAccount, b: TokenAccount, x: int)
    requires a.frozen == Frozen(l, a.tokenId, a.owner) && b.frozen == Frozen(l, b.tokenId, b.owner)
    ensures SameFreezes(l, Moved(l, a, b, x))
  {
  }

  lemma TransferFreezes(l: Ledger, token: string, from: string, to: string, amount: Option<int>)
    requires Labelled(l)
    ensures SameFreezes(l, DoTransfer(l, token, from, to, amount).ledger)
  {
    var out := DoTransfer(l, token, from, to, amount);
    if out.error.None? {
      var x, fromAcc, toAcc := amount.value, l.accounts[(token, from)], AccountOrNew(l, token, to);
      var debited := fromAcc.(balance := fromAcc.balance - x);
      assert out.ledger == Moved(l, debited, toAcc, x);
      MovedFreezes(l, debited, toAcc, x);
    }
  }

  lemma TransferFromFreezes(l: Ledger, token: string, delegate: string, from: string, to: string, amount: Option<int>)
    requires Labelled(l)
    ensures SameFreezes(l, DoTransferFrom(l, token, delegate, from, to, amount).ledger)
  {
    var out := DoTransferFrom(l, token, delegate, from, to, amount);
    if out.error.None? {
      var x, fromAcc, toAcc := amount.value, l.accounts[(token, from)], AccountOrNew(l, token, to);
      var debited := fromAcc.(balance := fromAcc.balance - x, allowance := Some(fromAcc.allowance.value - x));
      assert out.ledger == Moved(l, debited, toAcc, x);
      MovedFreezes(l, debited, toAcc, x);
    }
  }

  /** Only Freeze freezes or thaws: every other call leaves every account as frozen as it was. */
  lemma FreezeOnly(l: Ledger, c: Call)
    requires Sound(l) && !c.Freeze?
    ensures SameFreezes(l, Apply(l, c).ledger)
  {
    match c
    case Create(info, supply) => CreateStarts(l, info, supply);
    case Transfer(token, from, to, amount) => TransferFreezes(l, token, from, to, amount);
    case TransferFrom(token, delegate, from, to, amount) => TransferFromFreezes(l, token, delegate, from, to, amount);
    case _ =>
  }

  /** Which error is returned when: each is named with all that was found in order before it. */
  lemma TransferErrors(l: Ledger, token: string, from: string, to: string, amount: Option<int>)
    ensures var error, given := DoTransfer(l, token, from, to, amount).error, amount.Some? && amount.value > 0;
      var found := given && Exists(l, token, from);
      var thawed := found && !Frozen(l, token, from);
      var funded := thawed && HeldBy(l, token, from) >= amount.value;
      && (error == Some(InvalidAmount) <==> !given)
      && (error == Some(AccountNotFound) <==> given && !found)
      && (error == Some(SenderFrozen) <==> found && !thawed)
      && (error == Some(InsufficientFunds) <==> thawed && !funded)
      && (error == Some(RecipientFrozen) <==> funded && Frozen(l, token, to))
  {
  }

  lemma TransferFromErrors(l: Ledger, token: string, delegate: string, from: string, to: string, amount: Option<int>)
    ensures var error, given := DoTransferFrom(l, token, delegate, from, to, amount).error,
                                amount.Some? && amount.value > 0;
      var found := given && Exists(l, token, from);
      var trusted := found && l.accounts[(token, from)].delegate == delegate;
      var allowance := AccountOrNew(l, token, from).allowance;
      var allowed := trusted && allowance.Some? && allowance.value >= amount.value;
      && (error == Some(InvalidAmount) <==> !given)
      && (error == Some(AccountNotFound) <==> given && !found)
      && (error == Some(Unauthorized) <==> found && !trusted)
      && (error == Some(AllowanceExceeded) <==> trusted && !allowed)
      && (error == Some(InsufficientFunds) <==> allowed && HeldBy(l, token, from) < amount.value)
  {
  }

  lemma SupplyErrors(l: Ledger, token: string, authority: string, holder: string, amount: Option<int>)
    ensures var error, given := DoMint(l, token, authority, holder, amount).error, amount.Some? && amount.value > 0;
      var found := given && token in l.tokens;
      && (error == Some(InvalidAmount) <==> !given)
      && (error == Some(TokenNotFound) <==> given && !found)
      && (error == Some(MintAuthorityFixed) <==> found && l.tokens[token].mintAuthority == "")
      && (error == Some(Unauthorized) <==>
            found && l.tokens[token].mintAuthority != "" && l.tokens[token].mintAuthority != authority)
    ensures var error, given := DoBurn(l, token, authority, holder, amount).error, amount.Some? && amount.value > 0;
      var found := given && token in l.tokens;
      var trusted := found && (authority == holder || authority == l.tokens[token].mintAuthority);
      && (error == Some(InvalidAmount) <==> !given)
      && (error == Some(TokenNotFound) <==> given && !found)
      && (error == Some(Unauthorized) <==> found && !trusted)
      && (error == Some(AccountNotFound) <==> trusted && !Exists(l, token, holder))
      && (error == Some(InsufficientFunds) <==>
            trusted && Exists(l, token, holder) && HeldBy(l, token, holder) < amount.value)
  {
  }

  lemma AdminErrors(l: Ledger, info: TokenInfo, supply: Option<int>, token: string, who: string, next: string,
                    freeze: bool)
    ensures var error := DoCreate(l, info, supply).error;
      var given := info.decimals <= 18 && supply.Some? && supply.value >= 0;
      && (error == Some(BadDecimals) <==> info.decimals > 18)
      && (error == Some(InvalidAmount) <==> info.decimals <= 18 && !given)
      && (error == Some(AlreadyExists) <==> given && info.id in l.tokens)
    ensures DoApprove(l, token, who, next, supply).error
         == if Exists(l, token, who) then None else Some(AccountNotFound)
    ensures var error := DoFreeze(l, token, who, next, freeze).error;
      && (error == Some(TokenNotFound) <==> token !in l.tokens)
      && (error == Some(Unauthorized) <==>
            token in l.tokens && !(l.tokens[token].freezeAuth == who != ""))
    ensures var error := DoSetMintAuthority(l, token, who, next).error;
      && (error == Some(TokenNotFound) <==> token !in l.tokens)
      && (error == Some(Unauthorized) <==> token in l.tokens && l.tokens[token].mintAuthority != who)
  {
  }

  /** A call that fails changes nothing. */
  lemma FailureKeeps(l: Ledger, c: Call)
    ensures Apply(l, c).error.Some? ==> Apply(l, c).ledger == l
  {
  }

  // ---------- Conservation ----------

  /** A transfer to oneself loads the account twice and saves the credited copy last: what it
      adds to the balances out of nothing. */
  function SelfMoved(out: Outcome, token: string, from: string, to: string, amount: Option<int>, tid: string): nat {
    if out.error.None? && token == tid && from == to && Positive(amount) then amount.value else 0
  }

  function SelfTransfer(l: Ledger, c: Call, tid: string): nat {
    match c
    case Transfer(token, from, to, amount) =>
      SelfMoved(DoTransfer(l, token, from, to, amount), token, from, to, amount, tid)
    case TransferFrom(token, delegate, from, to, amount) =>
      SelfMoved(DoTransferFrom(l, token, delegate, from, to, amount), token, from, to, amount, tid)
    case _ => 0
  }

  function SelfTransfers(l: Ledger, calls: seq<Call>, tid: string): nat {
    if calls == [] then 0
    else
      var init := calls[..|calls| - 1];
      SelfTransfers(l, init, tid) + SelfTransfer(Run(l, init), calls[|calls| - 1], tid)
  }

  lemma MovedExcess(l: Ledger, debited: TokenAccount, toAcc: TokenAccount, x: int, tid: string)
    requires toAcc == AccountOrNew(l, debited.tokenId, toAcc.owner) && toAcc.tokenId == debited.tokenId
    requires debited.balance == HeldBy(l, debited.tokenId, debited.owner) - x
    ensures Excess(Moved(l, debited, toAcc, x), tid)
         == Excess(l, tid) + if debited.tokenId == tid && debited.owner == toAcc.owner then x else 0
  {
    var l1, credited := SaveAccount(l, debited), toAcc.(balance := toAcc.balance + x);
    SaveAccountExcess(l, debited, tid);
    SaveAccountExcess(l1, credited, tid);
    assert HeldBy(l1, toAcc.tokenId, toAcc.owner)
        == if toAcc.owner == debited.owner then debited.balance else toAcc.balance;
  }

  lemma TransferExcess(l: Ledger, token: string, from: string, to: string, amount: Option<int>,
          tid: string)
    requires LabelledAt(l, token, from) && LabelledAt(l, token, to)
    ensures var out := DoTransfer(l, token, from, to, amount);
      Excess(out.ledger, tid) == Excess(l, tid) + SelfMoved(out, token, from, to, amount, tid)
  {
    if DoTransfer(l, token, from, to, amount).error.None? {
      var x, fromAcc, toAcc := amount.value, l.accounts[(token, from)], AccountOrNew(l, token, to);
      MovedExcess(l, fromAcc.(balance := fromAcc.balance - x), toAcc, x, tid);
    }
  }

  lemma TransferFromExcess(l: Ledger, token: string, delegate: string, from: string, to: string,
          amount: Option<int>, tid: string)
    requires LabelledAt(l, token, from) && LabelledAt(l, token, to)
    ensures var out := DoTransferFrom(l, token, delegate, from, to, amount);
      Excess(out.ledger, tid) == Excess(l, tid) + SelfMoved(out, token, from, to, amount, tid)
  {
    if DoTransferFrom(l, token, delegate, from, to, amount).error.None? {
      var x, fromAcc, toAcc := amount.value, l.accounts[(token, from)], AccountOrNew(l, token, to);
      var debited := fromAcc.(balance := fromAcc.balance - x, allowance := Some(fromAcc.allowance.value - x));
      MovedExcess(l, debited, toAcc, x, tid);
    }
  }

  lemma AdjustedExcess(l: Ledger, acc: TokenAccount, info: TokenInfo, x: int, tid: string)
    requires info.id in l.tokens && l.tokens[info.id] == info && acc.tokenId == info.id
    requires acc == AccountOrNew(l, acc.tokenId, acc.owner)
    ensures Excess(Adjusted(l, acc, info, x), tid) == Excess(l, tid)
  {
    SaveAccountExcess(l, acc.(balance := acc.balance + x), tid);
  }

  lemma MintExcess(l: Ledger, token: string, authority: string, to: string, amount: Option<int>,
          tid: string)
    requires LabelledAt(l, token, to) && (token in l.tokens ==> l.tokens[token].id == token)
    ensures Excess(DoMint(l, token, authority, to, amount).ledger, tid) == Excess(l, tid)
  {
    if DoMint(l, token, authority, to, amount).error.None? {
      AdjustedExcess(l, AccountOrNew(l, token, to), l.tokens[token], amount.value, tid);
    }
  }

  lemma BurnExcess(l: Ledger, token: string, authority: string, from: string,
          amount: Option<int>, tid: string)
    requires LabelledAt(l, token, from) && (token in l.tokens ==> l.tokens[token].id == token)
    ensures Excess(DoBurn(l, token, authority, from, amount).ledger, tid) == Excess(l, tid)
  {
    if DoBurn(l, token, authority, from, amount).error.None? {
      AdjustedExcess(l, AccountOrNew(l, token, from), l.tokens[token], -amount.value, tid);
    }
  }

  lemma CreateExcess(l: Ledger, info: TokenInfo, supply: Option<int>, tid: string)
    requires info.id !in l.tokens ==> (info.id, info.creator) !in l.accounts
    ensures Excess(DoCreate(l, info, supply).ledger, tid) == Excess(l, tid)
  {
    if DoCreate(l, info, supply).error.None? && supply.value > 0 {
      SaveAccountExcess(SaveToken(l, info.(totalSupply := supply.value)),
                        TokenAccount(info.id, info.creator, supply.value, false, "", None), tid);
    }
  }

  lemma ApproveExcess(l: Ledger, token: string, owner: string, delegate: string,
          amount: Option<int>, tid: string)
    requires LabelledAt(l, token, owner)
    ensures Excess(DoApprove(l, token, owner, delegate, amount).ledger, tid) == Excess(l, tid)
  {
    if (token, owner) in l.accounts {
      var granted := Some(if amount.None? then 0 else amount.value);
      SaveAccountExcess(l, l.accounts[(token, owner)].(delegate := delegate, allowance := granted), tid);
    }
  }

  lemma FreezeExcess(l: Ledger, token: string, authority: string, target: string, freeze: bool,
          tid: string)
    requires LabelledAt(l, token, target)
    ensures Excess(DoFreeze(l, token, authority, target, freeze).ledger, tid) == Excess(l, tid)
  {
    SaveAccountExcess(l, AccountOrNew(l, token, target).(frozen := freeze), tid);
  }

  /** One call changes the excess of balances over supply by exactly what it transfers from an
      account to itself; in particular it conserves if and only if it does no such thing. */
  lemma ApplyExcess(l: Ledger, c: Call, tid: string)
    requires Sound(l)
    ensures Excess(Apply(l, c).ledger, tid) == Excess(l, tid) + SelfTransfer(l, c, tid)
  {
    match c
    case Create(info, supply) => CreateExcess(l, info, supply, tid);
    case Transfer(token, from, to, amount) => TransferExcess(l, token, from, to, amount, tid);
    case Mint(token, authority, to, amount) => MintExcess(l, token, authority, to, amount, tid);
    case Burn(token, authority, from, amount) => BurnExcess(l, token, authority, from, amount, tid);
    case Approve(token, owner, delegate, amount) => ApproveExcess(l, token, owner, delegate, amount, tid);
    case TransferFrom(token, delegate, from, to, amount) =>
      TransferFromExcess(l, token, delegate, from, to, amount, tid);
    case Freeze(token, authority, target, freeze) => FreezeExcess(l, token, authority, target, freeze, tid);
    case SetMintAuthority(token, current, next) =>
  }

  // ---------- Soundness ----------

  lemma SaveAccountSound(l: Ledger, acc: TokenAccount)
    requires Sound(l) && acc.tokenId in l.tokens && acc.balance >= 0
    ensures Sound(SaveAccount(l, acc))
  {
  }

  lemma SaveTokenSound(l: Ledger, info: TokenInfo)
    requires Sound(l)
    ensures Sound(SaveToken(l, info))
  {
  }

  lemma MovedSound(l: Ledger, debited: TokenAccount, toAcc: TokenAccount, x: int)
    requires Sound(l) && debited.tokenId in l.tokens && toAcc.tokenId in l.tokens
    requires debited.balance >= 0 && toAcc.balance + x >= 0
    ensures Sound(Moved(l, debited, toAcc, x))
  {
    SaveAccountSound(l, debited);
    SaveAccountSound(SaveAccount(l, debited), toAcc.(balance := toAcc.balance + x));
  }

  lemma AdjustedSound(l: Ledger, acc: TokenAccount, info: TokenInfo, x: int)
    requires Sound(l) && acc.tokenId in l.tokens && acc.balance + x >= 0
    ensures Sound(Adjusted(l, acc, info, x))
  {
    SaveAccountSound(l, acc.(balance := acc.balance + x));
    SaveTokenSound(SaveAccount(l, acc.(balance := acc.balance + x)), info.(totalSupply := info.totalSupply + x));
  }

  lemma TransferSound(l: Ledger, token: string, from: string, to: string, amount: Option<int>)
    requires Sound(l)
    ensures Sound(DoTransfer(l, token, from, to, amount).ledger)
  {
    var out := DoTransfer(l, token, from, to, amount);
    if out.error.None? {
      var x, fromAcc, toAcc := amount.value, l.accounts[(token, from)], AccountOrNew(l, token, to);
      var debited := fromAcc.(balance := fromAcc.balance - x);
      assert out.ledger == Moved(l, debited, toAcc, x);
      MovedSound(l, debited, toAcc, x);
    }
  }

  lemma TransferFromSound(l: Ledger, token: string, delegate: string, from: string, to: string,
          amount: Option<int>)
    requires Sound(l)
    ensures Sound(DoTransferFrom(l, token, delegate, from, to, amount).ledger)
  {
    var out := DoTransferFrom(l, token, delegate, from, to, amount);
    if out.error.None? {
      var x, fromAcc, toAcc := amount.value, l.accounts[(token, from)], AccountOrNew(l, token, to);
      var debited := fromAcc.(balance := fromAcc.balance - x, allowance := Some(fromAcc.allowance.value - x));
      assert out.ledger == Moved(l, debited, toAcc, x);
      MovedSound(l, debited, toAcc, x);
    }
  }

  lemma MintSound(l: Ledger, token: string, authority: string, to: string, amount: Option<int>)
    requires Sound(l)
    ensures Sound(DoMint(l, token, authority, to, amount).ledger)
  {
    var out := DoMint(l, token, authority, to, amount);
    if out.error.None? {
      var acc, info, x := AccountOrNew(l, token, to), l.tokens[token], amount.value;
      assert out.ledger == Adjusted(l, acc, info, x);
      AdjustedSound(l, acc, info, x);
    }
  }

  lemma BurnSound(l: Ledger, token: string, authority: string, from: string, amount: Option<int>)
    requires Sound(l)
    ensures Sound(DoBurn(l, token, authority, from, amount).ledger)
  {
    var out := DoBurn(l, token, authority, from, amount);
    if out.error.None? {
      var acc, info, x := AccountOrNew(l, token, from), l.tokens[token], -amount.value;
      assert out.ledger == Adjusted(l, acc, info, x);
      AdjustedSound(l, acc, info, x);
    }
  }

  lemma RestSound(l: Ledger, c: Call)
    requires Sound(l) && (c.Create? || c.Approve? || c.Freeze? || c.SetMintAuthority?)
    ensures Sound(Apply(l, c).ledger)
  {
    match c
    case Create(info, supply) =>
      if DoCreate(l, info, supply).error.None? {
        var l1 := SaveToken(l, info.(totalSupply := supply.value));
        SaveTokenSound(l, info.(totalSupply := supply.value));
        if supply.value > 0 {
          SaveAccountSound(l1, TokenAccount(info.id, info.creator, supply.value, false, "", None));
        }
      }
    case Approve(token, owner, delegate, amount) =>
      if (token, owner) in l.accounts {
        var granted := Some(if amount.None? then 0 else amount.value);
        SaveAccountSound(l, l.accounts[(token, owner)].(delegate := delegate, allowance := granted));
      }
    case Freeze(token, _, target, freeze) =>
      if token in l.tokens {
        SaveAccountSound(l, AccountOrNew(l, token, target).(frozen := freeze));
      }
    case SetMintAuthority(token, _, next) =>
      if token in l.tokens {
        SaveTokenSound(l, l.tokens[token].(mintAuthority := next));
      }
  }

  lemma ApplySound(l: Ledger, c: Call)
    requires Sound(l)
    ensures Sound(Apply(l, c).ledger)
  {
    match c
    case Transfer(token, from, to, amount) => TransferSound(l, token, from, to, amount);
    case Mint(token, authority, to, amount) => MintSound(l, token, authority, to, amount);
    case Burn(token, authority, from, amount) => BurnSound(l, token, authority, from, amount);
    case TransferFrom(token, delegate, from, to, amount) => TransferFromSound(l, token, delegate, from, to, amount);
    case _ => RestSound(l, c);
  }

  lemma {:induction false} RunSound(l: Ledger, calls: seq<Call>)
    requires Sound(l)
    ensures Sound(Run(l, calls))
  {
    if calls == [] {
    } else {
      RunSound(l, calls[..|calls| - 1]);
      ApplySound(Run(l, calls[..|calls| - 1]), calls[|calls| - 1]);
    }
  }

  /** In every run from the empty store the balances of a token add up to its supply plus
      everything transferred from an account to itself. */
  lemma {:induction false} RunConserves(calls: seq<Call>, tid: string)
    ensures var l := Run(EMPTY, calls);
      && Sound(l)
      && Balances(l, tid) == Supply(l, tid) + SelfTransfers(EMPTY, calls, tid)
      && (tid !in l.tokens ==> forall owner :: (tid, owner) !in l.accounts)
  {
    if calls == [] {
    } else {
      var init := calls[..|calls| - 1];
      RunConserves(init, tid);
      ApplySound(Run(EMPTY, init), calls[|calls| - 1]);
      ApplyExcess(Run(EMPTY, init), calls[|calls| - 1], tid);
    }
  }

  /** The failure is reached: one unit created, and transferred by its holder to itself. */
  lemma SelfTransferReached(info: TokenInfo)
    requires info.decimals <= 18
    ensures var calls := [Create(info, Some(1)), Transfer(info.id, info.creator, info.creator, Some(1))];
      Supply(Run(EMPTY, calls), info.id) == 1 && Balances(Run(EMPTY, calls), info.id) == 2
  {
    var first, second := Create(info, Some(1)), Transfer(info.id, info.creator, info.creator, Some(1));
    var calls := [first, second];
    assert calls[..1] == [first] && [first][..0] == [];
    var l := Run(EMPTY, [first]);
    var acc := TokenAccount(info.id, info.creator, 1, false, "", None);
    assert Run(EMPTY, []) == EMPTY && l == DoCreate(EMPTY, info, Some(1)).ledger;
    assert l == SaveAccount(SaveToken(EMPTY, info.(totalSupply := 1)), acc);
    assert FindAccount(l, info.id, info.creator) == Some(acc);
    assert SelfTransfer(l, second, info.id) == 1;
    assert SelfTransfers(EMPTY, [first], info.id) == 0;
    RunConserves(calls, info.id);
  }

  /** The payee can always pay back, unless someone is frozen, and every balance is then what
      it was. */
  lemma TransferBack(l: Ledger, token: string, from: string, to: string, amount: Option<int>)
    requires Sound(l) && from != to && DoTransfer(l, token, from, to, amount).error.None?
    ensures var l1 := DoTransfer(l, token, from, to, amount).ledger;
      var out := DoTransfer(l1, token, to, from, amount);
      out.error.None? && forall t, o :: HeldBy(out.ledger, t, o) == HeldBy(l, t, o)
  {
    var l1 := DoTransfer(l, token, from, to, amount).ledger;
    TransferMoves(l, token, from, to, amount);
    TransferSound(l, token, from, to, amount);
    TransferMoves(l1, token, to, from, amount);
    assert HeldBy(l1, token, to) == HeldBy(l, token, to) + amount.value;
  }

  lemma MintedHolds(l: Ledger, token: string, authority: string, to: string, amount: Option<int>)
    requires Sound(l) && DoMint(l, token, authority, to, amount).error.None?
    ensures var l1 := DoMint(l, token, authority, to, amount).ledger;
      && Labelled(l1) && token in l1.tokens && Exists(l1, token, to)
      && HeldBy(l1, token, to) == HeldBy(l, token, to) + amount.value >= amount.value
  {
    MintMoves(l, token, authority, to, amount);
    MintSound(l, token, authority, to, amount);
  }

  /** The holder can burn what was minted to it, and supply and balances are then what they were. */
  lemma BurnUndoesMint(l: Ledger, token: string, authority: string, to: string, amount: Option<int>)
    requires Sound(l) && DoMint(l, token, authority, to, amount).error.None?
    ensures var l1 := DoMint(l, token, authority, to, amount).ledger;
      var out := DoBurn(l1, token, to, to, amount);
      && out.error.None? && Supply(out.ledger, token) == Supply(l, token)
      && forall t, o :: HeldBy(out.ledger, t, o) == HeldBy(l, t, o)
  {
    MintMoves(l, token, authority, to, amount);
    MintedHolds(l, token, authority, to, amount);
    BurnMoves(DoMint(l, token, authority, to, amount).ledger, token, to, to, amount);
  }

  // ---------- Revoked mint authority ----------

  /** The call gives a token without mint authority a new one. */
  predicate Restores(c: Call, token: string) {
    c.SetMintAuthority? && c.token == token && c.current == "" && c.next != ""
  }

  ghost predicate Revoked(l: Ledger, token: string) {
    token in l.tokens && l.tokens[token].mintAuthority == ""
  }

  lemma RevokedStep(l: Ledger, c: Call, token: string)
    requires Labelled(l) && Revoked(l, token) && !Restores(c, token)
    ensures Revoked(Apply(l, c).ledger, token) && Supply(Apply(l, c).ledger, token) <= Supply(l, token)
  {
  }

  /** Without its mint authority a token never gains supply again, in any run that does not
      restore the authority. */
  lemma {:induction false} RevokedSupply(l: Ledger, calls: seq<Call>, token: string)
    requires Sound(l) && Revoked(l, token) && forall c | c in calls :: !Restores(c, token)
    ensures Revoked(Run(l, calls), token) && Supply(Run(l, calls), token) <= Supply(l, token)
  {
    if calls == [] {
    } else {
      RevokedSupply(l, calls[..|calls| - 1], token);
      RunSound(l, calls[..|calls| - 1]);
      RevokedStep(Run(l, calls[..|calls| - 1]), calls[|calls| - 1], token);
    }
  }

  /** The hypothesis is needed: restoring works, and minting after it too. */
  lemma RestoredMints(l: Ledger, token: string, next: string, to: string)
    requires Sound(l) && Revoked(l, token) && next != ""
    ensures var calls := [SetMintAuthority(token, "", next), Mint(token, next, to, Some(1))];
      Supply(Run(l, calls), token) == Supply(l, token) + 1
  {
    var first, second := SetMintAuthority(token, "", next), Mint(token, next, to, Some(1));
    var l1 := Apply(l, first).ledger;
    assert [first, second][..1] == [first] && [first][..0] == [];
    ApplySound(l, first);
    MintMoves(l1, token, next, to, Some(1));
    assert Run(l, [first]) == l1 && Run(l, [first, second]) == Apply(l1, second).ledger;
  }

  // ---------- Allowances ----------

  /** What the call moves out of the account on the strength of its allowance. */
  function Spent(l: Ledger, c: Call, token: string, owner: string): nat {
    if c.TransferFrom? && c.token == token && c.from == owner && c.to != owner && Positive(c.amount)
       && DoTransferFrom(l, c.token, c.delegate, c.from, c.to, c.amount).error.None?
    then c.amount.value else 0
  }

  /** What the calls move out of the account on the strength of its allowance. */
  function AllSpent(l: Ledger, calls: seq<Call>, token: string, owner: string): nat {
    if calls == [] then 0
    else
      var init := calls[..|calls| - 1];
      AllSpent(l, init, token, owner) + Spent(Run(l, init), calls[|calls| - 1], token, owner)
  }

  predicate Approves(c: Call, token: string, owner: string) {
    c.Approve? && c.token == token && c.owner == owner
  }

  /** The account has this delegate and allowance. */
  ghost predicate Allows(l: Ledger, token: string, owner: string, delegate: string, allowance: int) {
    && (token, owner) in l.accounts
    && l.accounts[(token, owner)].delegate == delegate
    && l.accounts[(token, owner)].allowance.Some? && l.accounts[(token, owner)].allowance.value == allowance
  }

  /** No account loses or changes its grant. */
  ghost predicate KeepsGrants(l: Ledger, l': Ledger) {
    forall p | p in l.accounts ::
      && p in l'.accounts
      && l'.accounts[p].delegate == l.accounts[p].delegate
      && l'.accounts[p].allowance == l.accounts[p].allowance
  }

  /** The account has the grant stored for it, or the empty grant of a new account. */
  predicate GrantOf(l: Ledger, acc: TokenAccount) {
    var now := AccountOrNew(l, acc.tokenId, acc.owner);
    acc.delegate == now.delegate && acc.allowance == now.allowance
  }

  lemma SaveGrants(l: Ledger, acc: TokenAccount)
    requires GrantOf(l, acc)
    ensures KeepsGrants(l, SaveAccount(l, acc))
  {
  }

  lemma MovedGrants(l: Ledger, a: TokenAccount, b: TokenAccount, x: int)
    requires GrantOf(l, a) && GrantOf(l, b)
    ensures KeepsGrants(l, Moved(l, a, b, x))
  {
    SaveGrants(l, a);
    SaveGrants(SaveAccount(l, a), b.(balance := b.balance + x));
  }

  lemma TransferGrants(l: Ledger, token: string, from: string, to: string, amount: Option<int>)
    requires Labelled(l)
    ensures KeepsGrants(l, DoTransfer(l, token, from, to, amount).ledger)
  {
    var out := DoTransfer(l, token, from, to, amount);
    if out.error.None? {
      var x, fromAcc, toAcc := amount.value, l.accounts[(token, from)], AccountOrNew(l, token, to);
      assert out.ledger == Moved(l, fromAcc.(balance := fromAcc.balance - x), toAcc, x);
      MovedGrants(l, fromAcc.(balance := fromAcc.balance - x), toAcc, x);
    }
  }

  lemma MintGrants(l: Ledger, token: string, authority: string, to: string, amount: Option<int>)
    requires Labelled(l)
    ensures KeepsGrants(l, DoMint(l, token, authority, to, amount).ledger)
  {
    if DoMint(l, token, authority, to, amount).error.None? {
      var acc := AccountOrNew(l, token, to);
      SaveGrants(l, acc.(balance := acc.balance + amount.value));
    }
  }

  lemma BurnGrants(l: Ledger, token: string, authority: string, from: string, amount: Option<int>)
    requires Labelled(l)
    ensures KeepsGrants(l, DoBurn(l, token, authority, from, amount).ledger)
  {
    if DoBurn(l, token, authority, from, amount).error.None? {
      var acc := AccountOrNew(l, token, from);
      SaveGrants(l, acc.(balance := acc.balance - amount.value));
    }
  }

  lemma FreezeGrants(l: Ledger, token: string, authority: string, target: string, freeze: bool)
    requires Labelled(l)
    ensures KeepsGrants(l, DoFreeze(l, token, authority, target, freeze).ledger)
  {
    SaveGrants(l, AccountOrNew(l, token, target).(frozen := freeze));
  }

  lemma CreateGrants(l: Ledger, info: TokenInfo, supply: Option<int>)
    requires Sound(l)
    ensures KeepsGrants(l, DoCreate(l, info, supply).ledger)
  {
  }

  lemma ApproveGrants(l: Ledger, t: string, o: string, d: string, amount: Option<int>,
          token: string, owner: string, delegate: string, x: int)
    requires Sound(l) && Allows(l, token, owner, delegate, x) && (t != token || o != owner)
    ensures Allows(DoApprove(l, t, o, d, amount).ledger, token, owner, delegate, x)
  {
  }

  lemma TransferFromGrants(l: Ledger, t: string, d: string, from: string, to: string,
          amount: Option<int>,
                           token: string, owner: string, delegate: string, x: int)
    requires Sound(l) && Allows(l, token, owner, delegate, x)
    ensures var spent := Spent(l, TransferFrom(t, d, from, to, amount), token, owner);
      && Allows(DoTransferFrom(l, t, d, from, to, amount).ledger, token, owner, delegate, x - spent)
      && (spent > 0 ==> d == delegate && spent <= x)
  {
  }

  lemma OtherGrants(l: Ledger, c: Call)
    requires Sound(l) && !c.Approve? && !c.TransferFrom?
    ensures KeepsGrants(l, Apply(l, c).ledger)
  {
    match c
    case Create(info, supply) => CreateGrants(l, info, supply);
    case Transfer(t, from, to, amount) => TransferGrants(l, t, from, to, amount);
    case Mint(t, authority, to, amount) => MintGrants(l, t, authority, to, amount);
    case Burn(t, authority, from, amount) => BurnGrants(l, t, authority, from, amount);
    case Freeze(t, authority, target, freeze) => FreezeGrants(l, t, authority, target, freeze);
    case SetMintAuthority(_, _, _) =>
  }

  lemma AllowanceStep(l: Ledger, c: Call, token: string, owner: string, delegate: string, x: int)
    requires Sound(l) && Allows(l, token, owner, delegate, x) && !Approves(c, token, owner)
    ensures Allows(Apply(l, c).ledger, token, owner, delegate, x - Spent(l, c, token, owner))
    ensures Spent(l, c, token, owner) > 0 ==> c.delegate == delegate && Spent(l, c, token, owner) <= x
  {
    match c
    case Approve(t, o, d, amount) => ApproveGrants(l, t, o, d, amount, token, owner, delegate, x);
    case TransferFrom(t, d, from, to, amount) =>
      TransferFromGrants(l, t, d, from, to, amount, token, owner, delegate, x);
    case _ => OtherGrants(l, c);
  }

  /** As long as no approval touches the account, what is left of its allowance and what is
      moved out of it add up to what it was. */
  lemma {:induction false} AllowanceKept(l: Ledger, calls: seq<Call>, token: string, owner: string, delegate: string,
                                         x: int)
    requires Sound(l) && Allows(l, token, owner, delegate, x)
    requires forall c | c in calls :: !Approves(c, token, owner)
    ensures Allows(Run(l, calls), token, owner, delegate, x - AllSpent(l, calls, token, owner))
    ensures x >= 0 ==> AllSpent(l, calls, token, owner) <= x
  {
    if calls == [] {
    } else {
      var init, c := calls[..|calls| - 1], calls[|calls| - 1];
      AllowanceKept(l, init, token, owner, delegate, x);
      RunSound(l, init);
      AllowanceStep(Run(l, init), c, token, owner, delegate, x - AllSpent(l, init, token, owner));
    }
  }

  /** From an approval until the next one on that account, what is left of the allowance and
      what was moved out add up to the amount approved, whatever else happens. */
  lemma AllowanceBudget(l: Ledger, calls: seq<Call>, token: string, owner: string,
          delegate: string, amount: int)
    requires Sound(l) && (token, owner) in l.accounts
    requires forall c | c in calls :: !Approves(c, token, owner)
    ensures var approved := DoApprove(l, token, owner, delegate, Some(amount)).ledger;
      var spent := AllSpent(approved, calls, token, owner);
      && Allows(Run(approved, calls), token, owner, delegate, amount - spent)
      && (amount >= 0 ==> spent <= amount)
  {
    RestSound(l, Approve(token, owner, delegate, Some(amount)));
    AllowanceKept(DoApprove(l, token, owner, delegate, Some(amount)).ledger, calls, token, owner, delegate, amount);
  }

  // ---------- The program over the store ----------

  /** Token identifiers handed to the program hold no key separator; the hash that creates
      them writes hexadecimal digits only. */
  class Program {
    const store: MemStorage

    constructor (store: MemStorage)
      ensures this.store == store
    {
      this.store := store;
    }

    ghost predicate Valid()
      reads store
    {
      store.Valid() && Labelled(store.ledger)
    }

    /** The operation left the store as the outcome says. */
    ghost predicate Did(out: Outcome, error: Option<Error>)
      reads store
    {
      Valid() && store.ledger == out.ledger && error == out.error
    }

    method GetToken(tid: string) returns (r: Option<TokenInfo>)
      requires Valid()
      ensures r == FindToken(store.ledger, tid)
    {
      var raw := store.Get(Key(TokenId(tid)));
      assert Lookup(store.ledger, TokenId(tid)) == raw;
      if raw.None? {
        return None;
      }
      return Some(raw.value.info);
    }

    method GetAccount(tid: string, owner: string) returns (r: Option<TokenAccount>)
      requires Valid() && SlashFree(tid)
      ensures r == FindAccount(store.ledger, tid, owner)
    {
      var raw := store.Get(Key(AccountId(tid, owner)));
      assert Lookup(store.ledger, AccountId(tid, owner)) == raw;
      if raw.None? {
        return None;
      }
      return Some(raw.value.acc);
    }

    method GetOrCreateAccount(tid: string, owner: string) returns (acc: TokenAccount)
      requires Valid() && SlashFree(tid)
      ensures acc == AccountOrNew(store.ledger, tid, owner)
    {
      var r := GetAccount(tid, owner);
      if r.None? {
        return TokenAccount(tid, owner, 0, false, "", None);
      }
      return r.value;
    }

    method PutToken(info: TokenInfo)
      requires Valid()
      modifies store
      ensures Valid() && store.ledger == SaveToken(old(store.ledger), info)
    {
      store.Save(TokenId(info.id), Key(TokenId(info.id)), TokenRec(info));
    }

    method PutAccount(acc: TokenAccount)
      requires Valid() && SlashFree(acc.tokenId)
      modifies store
      ensures Valid() && store.ledger == SaveAccount(old(store.ledger), acc)
    {
      store.Save(AccountId(acc.tokenId, acc.owner), Key(AccountId(acc.tokenId, acc.owner)), AccountRec(acc));
    }

    method Move(debited: TokenAccount, toAcc: TokenAccount, amount: int)
      requires Valid() && SlashFree(debited.tokenId) && SlashFree(toAcc.tokenId)
      modifies store
      ensures Valid() && store.ledger == Moved(old(store.ledger), debited, toAcc, amount)
    {
      PutAccount(debited);
      PutAccount(toAcc.(balance := toAcc.balance + amount));
    }

    method Adjust(acc: TokenAccount, info: TokenInfo, amount: int)
      requires Valid() && SlashFree(acc.tokenId)
      modifies store
      ensures Valid() && store.ledger == Adjusted(old(store.ledger), acc, info, amount)
    {
      PutAccount(acc.(balance := acc.balance + amount));
      PutToken(info.(totalSupply := info.totalSupply + amount));
    }

    method CreateToken(info: TokenInfo, initialSupply: Option<int>) returns (error: Option<Error>)
      requires Valid() && SlashFree(info.id)
      modifies store
      ensures Did(DoCreate(old(store.ledger), info, initialSupply), error)
    {
      if info.decimals > 18 {
        return Some(BadDecimals);
      }
      if initialSupply.None? || initialSupply.value < 0 {
        return Some(InvalidAmount);
      }
      var exists_ := store.Has(Key(TokenId(info.id)));
      assert Lookup(store.ledger, TokenId(info.id)).Some? <==> exists_;
      if exists_ {
        return Some(AlreadyExists);
      }
      PutToken(info.(totalSupply := initialSupply.value));
      if initialSupply.value > 0 {
        PutAccount(TokenAccount(info.id, info.creator, initialSupply.value, false, "", None));
      }
      return None;
    }

    method Transfer(tid: string, from: string, to: string, amount: Option<int>) returns (error: Option<Error>)
      requires Valid() && SlashFree(tid)
      modifies store
      ensures Did(DoTransfer(old(store.ledger), tid, from, to, amount), error)
    {
      if amount.None? || amount.value <= 0 {
        return Some(InvalidAmount);
      }
      var found := GetAccount(tid, from);
      if found.None? {
        return Some(AccountNotFound);
      }
      var fromAcc := found.value;
      if fromAcc.frozen {
        return Some(SenderFrozen);
      }
      if fromAcc.balance < amount.value {
        return Some(InsufficientFunds);
      }
      var toAcc := GetOrCreateAccount(tid, to);
      if toAcc.frozen {
        return Some(RecipientFrozen);
      }
      Move(fromAcc.(balance := fromAcc.balance - amount.value), toAcc, amount.value);
      return None;
    }

    method Mint(tid: string, authority: string, to: string, amount: Option<int>) returns (error: Option<Error>)
      requires Valid() && SlashFree(tid)
      modifies store
      ensures Did(DoMint(old(store.ledger), tid, authority, to, amount), error)
    {
      if amount.None? || amount.value <= 0 {
        return Some(InvalidAmount);
      }
      var found := GetToken(tid);
      if found.None? {
        return Some(TokenNotFound);
      }
      var info := found.value;
      if info.mintAuthority == "" {
        return Some(MintAuthorityFixed);
      }
      if info.mintAuthority != authority {
        return Some(Unauthorized);
      }
      var toAcc := GetOrCreateAccount(tid, to);
      Adjust(toAcc, info, amount.value);
      return None;
    }

    method Burn(tid: string, authority: string, from: string, amount: Option<int>) returns (error: Option<Error>)
      requires Valid() && SlashFree(tid)
      modifies store
      ensures Did(DoBurn(old(store.ledger), tid, authority, from, amount), error)
    {
      if amount.None? || amount.value <= 0 {
        return Some(InvalidAmount);
      }
      var found := GetToken(tid);
      if found.None? {
        return Some(TokenNotFound);
      }
      var info := found.value;
      if authority != from && authority != info.mintAuthority {
        return Some(Unauthorized);
      }
      var held := GetAccount(tid, from);
      if held.None? {
        return Some(AccountNotFound);
      }
      var fromAcc := held.value;
      if fromAcc.balance < amount.value {
        return Some(InsufficientFunds);
      }
      Adjust(fromAcc, info, -amount.value);
      return None;
    }

    method Approve(tid: string, owner: string, delegate: string, amount: Option<int>) returns (error: Option<Error>)
      requires Valid() && SlashFree(tid)
      modifies store
      ensures Did(DoApprove(old(store.ledger), tid, owner, delegate, amount), error)
    {
      var found := GetAccount(tid, owner);
      if found.None? {
        return Some(AccountNotFound);
      }
      var acc := found.value.(delegate := delegate);
      if amount.None? {
        acc := acc.(allowance := Some(0));
      } else {
        acc := acc.(allowance := amount);
      }
      PutAccount(acc);
      return None;
    }

    method TransferFrom(tid: string, delegate: string, from: string, to: string,
            amount: Option<int>) returns (error: Option<Error>)
      requires Valid() && SlashFree(tid)
      modifies store
      ensures Did(DoTransferFrom(old(store.ledger), tid, delegate, from, to, amount), error)
    {
      if amount.None? || amount.value <= 0 {
        return Some(InvalidAmount);
      }
      var found := GetAccount(tid, from);
      if found.None? {
        return Some(AccountNotFound);
      }
      var fromAcc := found.value;
      if fromAcc.delegate != delegate {
        return Some(Unauthorized);
      }
      if fromAcc.allowance.None? || fromAcc.allowance.value < amount.value {
        return Some(AllowanceExceeded);
      }
      if fromAcc.balance < amount.value {
        return Some(InsufficientFunds);
      }
      var toAcc := GetOrCreateAccount(tid, to);
      Move(fromAcc.(balance := fromAcc.balance - amount.value,
                    allowance := Some(fromAcc.allowance.value - amount.value)), toAcc, amount.value);
      return None;
    }

    method FreezeAccount(tid: string, freezeAuth: string, target: string, freeze: bool) returns (error: Option<Error>)
      requires Valid() && SlashFree(tid)
      modifies store
      ensures Did(DoFreeze(old(store.ledger), tid, freezeAuth, target, freeze), error)
    {
      var found := GetToken(tid);
      if found.None? {
        return Some(TokenNotFound);
      }
      if found.value.freezeAuth == "" || found.value.freezeAuth != freezeAuth {
        return Some(Unauthorized);
      }
      var acc := GetOrCreateAccount(tid, target);
      PutAccount(acc.(frozen := freeze));
      return None;
    }

    method SetMintAuthority(tid: string, currentAuth: string, newAuth: string) returns (error: Option<Error>)
      requires Valid()
      modifies store
      ensures Did(DoSetMintAuthority(old(store.ledger), tid, currentAuth, newAuth), error)
    {
      var found := GetToken(tid);
      if found.None? {
        return Some(TokenNotFound);
      }
      if found.value.mintAuthority != currentAuth {
        return Some(Unauthorized);
      }
      PutToken(found.value.(mintAuthority := newAuth));
      return None;
    }
  }
}
