/** The byte-keyed store under the token and staking programs. Records are kept decoded: the
    JSON codec is taken to round-trip. The keys are built as the programs build them, and
    the store is shown to be a map from typed record identities. */
module Store {
  import opened Options

  // ---------- Records ----------

  datatype TokenInfo = TokenInfo(
    id: string,
    name: string,
    symbol: string,
    decimals: nat,
    totalSupply: int,
    mintAuthority: string,
    freezeAuth: string,
    creator: string,
    createdAt: int,
    uri: string)

  datatype TokenAccount = TokenAccount(
    tokenId: string,
    owner: string,
    balance: int,
    frozen: bool,
    delegate: string,
    allowance: Option<int>)

  datatype ValidatorInfo = ValidatorInfo(
    address: string,
    selfStake: int,
    totalStake: int,
    commission: nat,
    jailed: bool,
    jailUntil: nat,
    slashCount: nat,
    registeredAt: nat,
    lastRewardAt: nat,
    accumRewards: int)

  datatype Delegation = Delegation(
    validator: string,
    delegator: string,
    amount: int,
    rewardDebt: int,
    pendingReward: int,
    delegatedAt: int)

  datatype SlashRecord = SlashRecord(validator: string, reason: string, amount: int, blockNum: nat, timestamp: int)

  datatype Record =
    | TokenRec(info: TokenInfo)
    | AccountRec(acc: TokenAccount)
    | ValidatorRec(val: ValidatorInfo)
    | DelegationRec(del: Delegation)
    | SlashRec(slash: SlashRecord)

  // ---------- Identities and keys ----------

  datatype Id =
    | TokenId(id: string)
    | AccountId(tid: string, owner: string)
    | ValidatorId(addr: string)
    | DelegationId(validator: string, delegator: string)
    | SlashId(slashed: string, index: nat)

  function Digit(d: nat): char
    requires d < 10
  {
    "0123456789"[d]
  }

  function Decimal(n: nat): string {
    if n < 10 then [Digit(n)] else Decimal(n / 10) + [Digit(n % 10)]
  }

  function Joined(a: string, b: string): string {
    a + "/" + b
  }

  function Key(i: Id): string {
    match i
    case TokenId(id) => "token/info/" + id
    case AccountId(tid, owner) => "token/acc/" + Joined(tid, owner)
    case ValidatorId(addr) => "staking/validator/" + addr
    case DelegationId(v, d) => "staking/delegation/" + Joined(v, d)
    case SlashId(v, n) => "staking/slash/" + Joined(v, Decimal(n))
  }

  predicate SlashFree(s: string) {
    '/' !in s
  }

  /** The first of two caller-supplied parts holds no separator. */
  predicate WellFormed(i: Id) {
    match i
    case AccountId(tid, _) => SlashFree(tid)
    case DelegationId(v, _) => SlashFree(v)
    case _ => true
  }

  lemma {:induction false} DecimalDigits(n: nat)
    ensures SlashFree(Decimal(n)) && |Decimal(n)| >= 1
    ensures n < 10 <==> |Decimal(n)| == 1
  {
    if n >= 10 {
      DecimalDigits(n / 10);
    }
  }

  lemma {:induction false} DecimalInjective(m: nat, n: nat)
    requires Decimal(m) == Decimal(n)
    ensures m == n
  {
    DecimalDigits(m);
    DecimalDigits(n);
    var s, t := Decimal(m), Decimal(n);
    assert s[|s| - 1] == t[|t| - 1];
    assert s[|s| - 1] == Digit(m % 10) && t[|t| - 1] == Digit(n % 10);
    if m >= 10 {
      assert s[..|s| - 1] == Decimal(m / 10) && t[..|t| - 1] == Decimal(n / 10);
      DecimalInjective(m / 10, n / 10);
    }
  }

  /** A separator splits a string in one way when the first parts do not contain it. */
  lemma FirstSplit(a: string, b: string, c: string, d: string)
    requires Joined(a, b) == Joined(c, d) && SlashFree(a) && SlashFree(c)
    ensures a == c && b == d
  {
    var s := Joined(a, b);
    assert s[|a|] == '/' && s[|c|] == '/';
    assert s[..|a|] == a && s[..|c|] == c;
    assert s[|a| + 1..] == b && s[|c| + 1..] == d;
  }

  /** The same when the last parts do not. */
  lemma LastSplit(a: string, b: string, c: string, d: string)
    requires Joined(a, b) == Joined(c, d) && SlashFree(b) && SlashFree(d)
    ensures a == c && b == d
  {
    var s := Joined(a, b);
    assert s[|a|] == '/' && s[|c|] == '/';
    assert s[..|a|] == a && s[..|c|] == c;
    assert s[|a| + 1..] == b && s[|c| + 1..] == d;
  }

  lemma Cancel(prefix: string, s: string, t: string)
    requires prefix + s == prefix + t
    ensures s == t
  {
    assert (prefix + s)[|prefix|..] == s && (prefix + t)[|prefix|..] == t;
  }

  /** The character in which the key of i differs from the keys of the other kinds. */
  lemma KindOfKey(i: Id)
    ensures |Key(i)| > 8
    ensures Key(i)[0] == (if i.TokenId? || i.AccountId? then 't' else 's')
    ensures Key(i)[0] == 't' ==> Key(i)[6] == (if i.TokenId? then 'i' else 'a')
    ensures Key(i)[0] == 's' ==> Key(i)[8] == (if i.ValidatorId? then 'v' else if i.DelegationId? then 'd' else 's')
  {
  }

  /** Distinct well-formed identities have distinct keys: each of the five builders is
      injective and no two of them meet. */
  lemma KeyInjective(i: Id, j: Id)
    requires WellFormed(i) && WellFormed(j) && Key(i) == Key(j)
    ensures i == j
  {
    KindOfKey(i);
    KindOfKey(j);
    match (i, j)
    case (TokenId(a), TokenId(b)) => Cancel("token/info/", a, b);
    case (ValidatorId(a), ValidatorId(b)) => Cancel("staking/validator/", a, b);
    case (AccountId(a, b), AccountId(c, d)) =>
      Cancel("token/acc/", Joined(a, b), Joined(c, d));
      FirstSplit(a, b, c, d);
    case (DelegationId(a, b), DelegationId(c, d)) =>
      Cancel("staking/delegation/", Joined(a, b), Joined(c, d));
      FirstSplit(a, b, c, d);
    case (SlashId(a, m), SlashId(b, n)) =>
      Cancel("staking/slash/", Joined(a, Decimal(m)), Joined(b, Decimal(n)));
      DecimalDigits(m);
      DecimalDigits(n);
      LastSplit(a, Decimal(m), b, Decimal(n));
      DecimalInjective(m, n);
    case _ =>
  }

  lemma OneSeparator(a: string, b: string, c: string, d: string)
    requires Joined(a, b) == Joined(c, d) && SlashFree(c) && SlashFree(d)
    ensures a == c && b == d
  {
    var s := Joined(c, d);
    assert s[|a|] == '/';
    assert s[..|a|] == a && s[..|c|] == c;
    assert s[|a| + 1..] == b && s[|c| + 1..] == d;
  }

  lemma OtherSplit(a: string, b: string) returns (c: string, d: string)
    requires !SlashFree(a) || !SlashFree(b)
    ensures Joined(c, d) == Joined(a, b) && c != a
  {
    if !SlashFree(a) {
      var k :| 0 <= k < |a| && a[k] == '/';
      c, d := a[..k], Joined(a[k + 1..], b);
      assert a == Joined(c, a[k + 1..]);
    } else {
      var k :| 0 <= k < |b| && b[k] == '/';
      c, d := Joined(a, b[..k]), b[k + 1..];
      assert b == Joined(b[..k], d);
    }
  }

  /** Where the hypothesis matters: an account key belongs to one (token, owner) pair alone
      if and only if neither part contains the separator. */
  lemma AccountKeyUnique(tid: string, owner: string)
    ensures (forall t, o :: Key(AccountId(t, o)) == Key(AccountId(tid, owner)) ==> t == tid && o == owner)
            <==> SlashFree(tid) && SlashFree(owner)
  {
    if SlashFree(tid) && SlashFree(owner) {
      forall t, o | Key(AccountId(t, o)) == Key(AccountId(tid, owner))
        ensures t == tid && o == owner
      {
        Cancel("token/acc/", Joined(t, o), Joined(tid, owner));
        OneSeparator(t, o, tid, owner);
      }
    } else {
      var t, o := OtherSplit(tid, owner);
      assert Key(AccountId(t, o)) == Key(AccountId(tid, owner));
    }
  }

  // ---------- The store as typed maps ----------

  type Data = map<string, Record>

  /** What the two programs keep, without keys. */
  datatype Ledger = Ledger(
    tokens: map<string, TokenInfo>,
    accounts: map<(string, string), TokenAccount>,
    validators: map<string, ValidatorInfo>,
    delegations: map<(string, string), Delegation>,
    slashes: map<(string, nat), SlashRecord>)

  const EMPTY: Ledger := Ledger(map[], map[], map[], map[], map[])

  /** The record says of itself where it belongs. */
  predicate Fits(i: Id, r: Record) {
    match i
    case TokenId(id) => r.TokenRec? && r.info.id == id
    case AccountId(tid, owner) => r.AccountRec? && r.acc.tokenId == tid && r.acc.owner == owner
    case ValidatorId(a) => r.ValidatorRec? && r.val.address == a
    case DelegationId(v, d) => r.DelegationRec? && r.del.validator == v && r.del.delegator == d
    case SlashId(v, _) => r.SlashRec? && r.slash.validator == v
  }

  function Lookup(l: Ledger, i: Id): Option<Record> {
    match i
    case TokenId(id) => if id in l.tokens then Some(TokenRec(l.tokens[id])) else None
    case AccountId(t, o) => if (t, o) in l.accounts then Some(AccountRec(l.accounts[(t, o)])) else None
    case ValidatorId(a) => if a in l.validators then Some(ValidatorRec(l.validators[a])) else None
    case DelegationId(v, d) => if (v, d) in l.delegations then Some(DelegationRec(l.delegations[(v, d)])) else None
    case SlashId(v, n) => if (v, n) in l.slashes then Some(SlashRec(l.slashes[(v, n)])) else None
  }

  function Updated(l: Ledger, i: Id, r: Record): Ledger
    requires Fits(i, r)
  {
    match i
    case TokenId(id) => l.(tokens := l.tokens[id := r.info])
    case AccountId(t, o) => l.(accounts := l.accounts[(t, o) := r.acc])
    case ValidatorId(a) => l.(validators := l.validators[a := r.val])
    case DelegationId(v, d) => l.(delegations := l.delegations[(v, d) := r.del])
    case SlashId(v, n) => l.(slashes := l.slashes[(v, n) := r.slash])
  }

  /** The string-keyed data holds exactly the typed ledger: reading the key of any well-formed
      identity gives what the ledger has there. */
  ghost predicate Holds(data: Data, l: Ledger) {
    forall i | WellFormed(i) :: Lookup(l, i) == if Key(i) in data then Some(data[Key(i)]) else None
  }

  lemma UpdatedLookup(l: Ledger, i: Id, r: Record, j: Id)
    requires Fits(i, r)
    ensures Lookup(Updated(l, i, r), j) == if j == i then Some(r) else Lookup(l, j)
  {
  }

  /** Writing at the key of an identity writes one entry of one typed map and nothing else. */
  lemma HoldsPut(data: Data, l: Ledger, i: Id, r: Record)
    requires Holds(data, l) && WellFormed(i) && Fits(i, r)
    ensures Holds(data[Key(i) := r], Updated(l, i, r))
  {
    forall j | WellFormed(j)
      ensures Lookup(Updated(l, i, r), j)
           == if Key(j) in data[Key(i) := r] then Some(data[Key(i) := r][Key(j)]) else None
    {
      if j != i && Key(j) == Key(i) {
        KeyInjective(i, j);
      }
      UpdatedLookup(l, i, r, j);
    }
  }

  // ---------- MemStorage ----------

  class MemStorage {
    var data: Data

    /** What the data holds, kept by the programs that write to it. */
    ghost var ledger: Ledger

    ghost predicate Valid()
      reads this
    {
      Holds(data, ledger)
    }

    constructor ()
      ensures Valid() && data == map[] && ledger == EMPTY
    {
      data, ledger := map[], EMPTY;
    }

    method Get(key: string) returns (r: Option<Record>)
      ensures r == if key in data then Some(data[key]) else None
    {
      if key in data {
        return Some(data[key]);
      }
      return None;
    }

    method Has(key: string) returns (r: bool)
      ensures r <==> key in data
    {
      return key in data;
    }

    method Put(key: string, value: Record)
      modifies this`data
      ensures data == old(data)[key := value]
    {
      data := data[key := value];
    }

    /** Puts a record under the key of its identity. */
    method Save(ghost i: Id, key: string, value: Record)
      requires Valid() && WellFormed(i) && key == Key(i) && Fits(i, value)
      modifies this
      ensures Valid() && ledger == Updated(old(ledger), i, value)
    {
      HoldsPut(data, ledger, i, value);
      Put(key, value);
      ledger := Updated(ledger, i, value);
    }
  }
}
