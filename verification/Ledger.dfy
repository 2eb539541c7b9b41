/** native/financial-core: Money and the in-memory double-entry ledger of posting.rs.
    Integers are i64 as in a release build, where abs and negation of i64::MIN wrap. */
module Ledger {
  import opened Seqs
  import opened Wrappers
  import opened Int64

  type Uuid = nat

  datatype Money = Money(amountMinor: int64, currency: string) {
    function Abs(): int64 {
      if amountMinor < 0 then Wrap(0 - amountMinor) else amountMinor
    }
  }

  datatype Direction = Debit | Credit

  datatype Posting = Posting(accountId: Uuid, money: Money, direction: Direction) {
    /** Credits increase, debits decrease. */
    function SignedDelta(): int64 {
      match direction
      case Credit => money.Abs()
      case Debit => Wrap(0 - money.Abs())
    }
  }

  datatype JournalEntry = JournalEntry(
    id: Uuid, transferId: Uuid, idempotencyKey: string, description: string, postings: seq<Posting>)

  datatype JournalError =
    | TooFewPostings | Unbalanced(currency: string, net: int64) | MissingAuthorisation
    | Overflow | CurrencyMismatch(held: string, posted: string)
    | InsufficientFunds(account: Uuid) | AccountNotFound(account: Uuid) | AccountFrozen(account: Uuid)

  datatype AccountState = AccountState(
    id: Uuid, currency: string, balanceMinor: int64, holdMinor: int64, frozen: bool)
  {
    function Available(): int64 {
      Wrap(balanceMinor - holdMinor)
    }
  }

  type Accounts = map<Uuid, AccountState>

  datatype Books = Books(accounts: Accounts, seen: map<string, Uuid>, journals: seq<JournalEntry>)

  // ----- what a journal means -----

  /** The mathematical sum of the signed deltas in one currency. */
  function Net(ps: seq<Posting>, c: string): int {
    if ps == [] then 0
    else Net(Init(ps), c) + if Last(ps).money.currency == c then Last(ps).SignedDelta() else 0
  }

  ghost predicate PrefixesFit(ps: seq<Posting>) {
    forall k, c :: 0 <= k <= |ps| ==> Fits(Net(ps[..k], c))
  }

  ghost predicate ZeroNet(ps: seq<Posting>) {
    forall c :: Net(ps, c) == 0
  }

  ghost predicate Balanced(ps: seq<Posting>) {
    |ps| >= 2 && PrefixesFit(ps) && ZeroNet(ps)
  }

  /** What is wrong with a posting, checked against the accounts as they stood before the journal. */
  function Problem(accounts: Accounts, p: Posting): Option<JournalError> {
    if p.accountId !in accounts then Some(AccountNotFound(p.accountId))
    else
      var a := accounts[p.accountId];
      if a.frozen then Some(AccountFrozen(p.accountId))
      else if a.currency != p.money.currency then Some(CurrencyMismatch(a.currency, p.money.currency))
      else if p.direction == Debit && a.Available() < p.money.Abs() then Some(InsufficientFunds(p.accountId))
      else None
  }

  function FirstProblem(accounts: Accounts, ps: seq<Posting>): Option<JournalError> {
    if ps == [] then None
    else if FirstProblem(accounts, Init(ps)).Some? then FirstProblem(accounts, Init(ps))
    else Problem(accounts, Last(ps))
  }

  ghost predicate Clear(accounts: Accounts, ps: seq<Posting>) {
    forall i :: 0 <= i < |ps| ==> Problem(accounts, ps[i]) == None
  }

  ghost predicate Known(accounts: Accounts, ps: seq<Posting>) {
    forall i :: 0 <= i < |ps| ==> ps[i].accountId in accounts
  }

  lemma KnownSplits(accounts: Accounts, ps: seq<Posting>)
    requires ps != []
    ensures Known(accounts, ps) <==> Known(accounts, Init(ps)) && Last(ps).accountId in accounts
  {
    if Known(accounts, Init(ps)) && Last(ps).accountId in accounts {
      forall i | 0 <= i < |ps| ensures ps[i].accountId in accounts {
        assert i < |ps| - 1 ==> ps[i] == Init(ps)[i];
      }
    }
    if Known(accounts, ps) {
      forall i | 0 <= i < |Init(ps)| ensures Init(ps)[i].accountId in accounts {
        assert ps[i] == Init(ps)[i];
      }
    }
  }

  /** One posting applied to its account, unless the balance would overflow. */
  function ApplyOne(accounts: Accounts, p: Posting): (r: (Accounts, bool))
    requires p.accountId in accounts
    ensures r.0.Keys == accounts.Keys
  {
    match CheckedAdd(accounts[p.accountId].balanceMinor, p.SignedDelta())
    case None => (accounts, false)
    case Some(b) => (accounts[p.accountId := accounts[p.accountId].(balanceMinor := b)], true)
  }

  /** The balances after the postings, and whether all of them could be applied: an overflow stops
      the loop and leaves what was applied before it. */
  ghost function Apply(accounts: Accounts, ps: seq<Posting>): (r: (Accounts, bool))
    requires Known(accounts, ps)
    ensures r.0.Keys == accounts.Keys
  {
    if ps == [] then (accounts, true)
    else
      KnownSplits(accounts, ps);
      var r := Apply(accounts, Init(ps));
      if r.1 then ApplyOne(r.0, Last(ps)) else r
  }

  ghost predicate Acceptable(b: Books, e: JournalEntry) {
    Balanced(e.postings) && Clear(b.accounts, e.postings)
  }

  /** The books after post. */
  ghost function AfterPost(b: Books, e: JournalEntry, authorised: bool): Books {
    if !authorised || e.idempotencyKey in b.seen || !Acceptable(b, e) then b
    else
      AcceptableAccounts(b.accounts, e.postings);
      var (m, ok) := Apply(b.accounts, e.postings);
      if ok then Books(m, b.seen[e.idempotencyKey := e.id], b.journals + [e]) else b.(accounts := m)
  }

  /** The results post may return; which unbalanced currency it names depends on map order. */
  ghost predicate MayReturn(b: Books, e: JournalEntry, authorised: bool, r: Result<Uuid, JournalError>) {
    if !authorised then r == Err(MissingAuthorisation)
    else if e.idempotencyKey in b.seen then r == Ok(b.seen[e.idempotencyKey])
    else if !Balanced(e.postings) then r.Err? && BalanceError(e.postings, r.error)
    else
      match FirstProblem(b.accounts, e.postings)
      case Some(problem) => r == Err(problem)
      case None =>
        ClearIffNoProblem(b.accounts, e.postings);
        AcceptableAccounts(b.accounts, e.postings);
        r == if Apply(b.accounts, e.postings).1 then Ok(e.id) else Err(Overflow)
  }

  ghost predicate BalanceError(ps: seq<Posting>, error: JournalError) {
    if |ps| < 2 then error == TooFewPostings
    else if !PrefixesFit(ps) then error == Overflow
    else error.Unbalanced? && error.net == Net(ps, error.currency) != 0
  }

  lemma AcceptableAccounts(accounts: Accounts, ps: seq<Posting>)
    requires Clear(accounts, ps)
    ensures Known(accounts, ps)
  {
    forall i | 0 <= i < |ps| ensures ps[i].accountId in accounts {
      assert Problem(accounts, ps[i]) == None;
    }
  }

  lemma {:induction false} ClearIffNoProblem(accounts: Accounts, ps: seq<Posting>)
    ensures FirstProblem(accounts, ps) == None <==> Clear(accounts, ps)
  {
    if ps != [] {
      ClearIffNoProblem(accounts, Init(ps));
      if Clear(accounts, ps) {
        forall i | 0 <= i < |Init(ps)| ensures Problem(accounts, Init(ps)[i]) == None {
          assert Init(ps)[i] == ps[i];
        }
        assert Problem(accounts, ps[|ps| - 1]) == None;
      } else {
        var i :| 0 <= i < |ps| && Problem(accounts, ps[i]) != None;
        if i < |ps| - 1 {
          assert Init(ps)[i] == ps[i];
        }
      }
    }
  }

  lemma {:induction false} ProblemStays(accounts: Accounts, ps: seq<Posting>, k: nat)
    requires k <= |ps| && FirstProblem(accounts, ps[..k]).Some?
    ensures FirstProblem(accounts, ps) == FirstProblem(accounts, ps[..k])
  {
    if k == |ps| {
      assert ps[..k] == ps;
    } else {
      assert Init(ps)[..k] == ps[..k];
      ProblemStays(accounts, Init(ps), k);
    }
  }

  lemma {:induction false} OverflowStays(accounts: Accounts, ps: seq<Posting>, k: nat)
    requires Known(accounts, ps) && k <= |ps| && Known(accounts, ps[..k]) && !Apply(accounts, ps[..k]).1
    ensures Apply(accounts, ps) == Apply(accounts, ps[..k])
  {
    if k == |ps| {
      assert ps[..k] == ps;
    } else {
      assert Init(ps)[..k] == ps[..k];
      KnownSplits(accounts, ps);
      OverflowStays(accounts, Init(ps), k);
    }
  }

  class Ledger {
    var accounts: Accounts
    var seen: map<string, Uuid>
    var journals: seq<JournalEntry>

    ghost function Contents(): Books
      reads this
    {
      Books(accounts, seen, journals)
    }

    constructor ()
      ensures Contents() == Books(map[], map[], [])
    {
      accounts := map[];
      seen := map[];
      journals := [];
    }

    /** Opening an account that exists resets it. */
    method OpenAccount(id: Uuid, currency: string)
      modifies this
      ensures Contents() == Opened(old(Contents()), id, currency)
      ensures accounts == old(accounts)[id := AccountState(id, currency, 0, 0, false)]
      ensures seen == old(seen) && journals == old(journals)
    {
      accounts := accounts[id := AccountState(id, currency, 0, 0, false)];
    }

    method CreditOpeningBalance(id: Uuid, amount: int64) returns (error: Option<JournalError>)
      modifies this
      ensures Contents() == Credited(old(Contents()), id, amount)
      ensures seen == old(seen) && journals == old(journals) && accounts.Keys == old(accounts).Keys
      ensures forall a :: a in accounts ==> accounts[a] == old(accounts)[a].(balanceMinor := accounts[a].balanceMinor)
      ensures forall a :: a in accounts ==>
        accounts[a].balanceMinor == old(accounts)[a].balanceMinor + if a == id && error == None then amount else 0
      ensures error == if id !in old(accounts) then Some(AccountNotFound(id))
                       else if Fits(old(accounts)[id].balanceMinor + amount) then None
                       else Some(Overflow)
    {
      if id !in accounts {
        return Some(AccountNotFound(id));
      }
      var sum := CheckedAdd(accounts[id].balanceMinor, amount);
      if sum.None? {
        return Some(Overflow);
      }
      accounts := accounts[id := accounts[id].(balanceMinor := sum.value)];
      return None;
    }

    method SetFrozen(id: Uuid, frozen: bool) returns (error: Option<JournalError>)
      modifies this
      ensures Contents() == Frozen(old(Contents()), id, frozen)
      ensures seen == old(seen) && journals == old(journals) && accounts.Keys == old(accounts).Keys
      ensures forall a :: a in accounts ==>
        accounts[a] == if a == id then old(accounts)[a].(frozen := frozen) else old(accounts)[a]
      ensures error == if id in old(accounts) then None else Some(AccountNotFound(id))
    {
      if id !in accounts {
        return Some(AccountNotFound(id));
      }
      accounts := accounts[id := accounts[id].(frozen := frozen)];
      return None;
    }

    method Balance(id: Uuid) returns (r: Result<int64, JournalError>)
      ensures r == if id in accounts then Ok(accounts[id].balanceMinor) else Err(AccountNotFound(id))
    {
      r := if id in accounts then Ok(accounts[id].balanceMinor) else Err(AccountNotFound(id));
    }

    /** Post: every check comes before the first balance is touched. */
    method Post(e: JournalEntry, authorised: bool) returns (r: Result<Uuid, JournalError>)
      modifies this
      ensures Contents() == AfterPost(old(Contents()), e, authorised)
      ensures MayReturn(old(Contents()), e, authorised, r)
    {
      if !authorised {
        return Err(MissingAuthorisation);
      }
      if e.idempotencyKey in seen {
        return Ok(seen[e.idempotencyKey]);
      }
      var unbalanced := ValidateBalanced(e.postings);
      if unbalanced.Some? {
        return Err(unbalanced.value);
      }
      var problem := PreCheck(e.postings);
      ClearIffNoProblem(accounts, e.postings);
      if problem.Some? {
        return Err(problem.value);
      }
      AcceptableAccounts(accounts, e.postings);
      var ok := ApplyAll(e.postings);
      if !ok {
        return Err(Overflow);
      }
      seen := seen[e.idempotencyKey := e.id];
      journals := journals + [e];
      return Ok(e.id);
    }

    method PreCheck(ps: seq<Posting>) returns (problem: Option<JournalError>)
      ensures problem == FirstProblem(accounts, ps)
    {
      var i := 0;
      while i < |ps|
        invariant 0 <= i <= |ps| && FirstProblem(accounts, ps[..i]) == None
      {
        var p := ps[i];
        assert Init(ps[..i + 1]) == ps[..i];
        var error := if p.accountId !in accounts then Some(AccountNotFound(p.accountId))
          else if accounts[p.accountId].frozen then Some(AccountFrozen(p.accountId))
          else if accounts[p.accountId].currency != p.money.currency then
            Some(CurrencyMismatch(accounts[p.accountId].currency, p.money.currency))
          else if p.direction == Debit && accounts[p.accountId].Available() < p.money.Abs() then
            Some(InsufficientFunds(p.accountId))
          else None;
        if error.Some? {
          ProblemStays(accounts, ps, i + 1);
          return error;
        }
        i := i + 1;
      }
      assert ps[..i] == ps;
      return None;
    }

    /** The apply loop. */
    method ApplyAll(ps: seq<Posting>) returns (ok: bool)
      requires Known(accounts, ps)
      modifies this`accounts
      ensures (accounts, ok) == Apply(old(accounts), ps)
    {
      var i := 0;
      assert ps[..0] == [];
      while i < |ps|
        invariant 0 <= i <= |ps| && accounts.Keys == old(accounts).Keys && Known(old(accounts), ps[..i])
        invariant Apply(old(accounts), ps[..i]) == (accounts, true)
      {
        var p := ps[i];
        ghost var done := ps[..i + 1];
        assert Init(done) == ps[..i] && Last(done) == p;
        KnownSplits(old(accounts), done);
        var sum := CheckedAdd(accounts[p.accountId].balanceMinor, p.SignedDelta());
        if sum.None? {
          OverflowStays(old(accounts), ps, i + 1);
          return false;
        }
        accounts := accounts[p.accountId := accounts[p.accountId].(balanceMinor := sum.value)];
        i := i + 1;
      }
      assert ps[..i] == ps;
      return true;
    }
  }

  function Opened(b: Books, id: Uuid, currency: string): Books {
    b.(accounts := b.accounts[id := AccountState(id, currency, 0, 0, false)])
  }

  function Credited(b: Books, id: Uuid, amount: int64): Books {
    if id in b.accounts && Fits(b.accounts[id].balanceMinor + amount) then
      b.(accounts := b.accounts[id := b.accounts[id].(balanceMinor := b.accounts[id].balanceMinor + amount)])
    else b
  }

  function Frozen(b: Books, id: Uuid, frozen: bool): Books {
    if id in b.accounts then b.(accounts := b.accounts[id := b.accounts[id].(frozen := frozen)]) else b
  }

  /** One pass over the postings with a map of running nets. It succeeds exactly on journals of at
      least two postings whose nets never leave the i64 range and end at zero in every currency. */
  method ValidateBalanced(ps: seq<Posting>) returns (error: Option<JournalError>)
    ensures error == None <==> Balanced(ps)
    ensures error.Some? ==> BalanceError(ps, error.value)
  {
    if |ps| < 2 {
      return Some(TooFewPostings);
    }
    var nets: map<string, int64> := map[];
    var i := 0;
    while i < |ps|
      invariant 0 <= i <= |ps|
      invariant forall c :: Net(ps[..i], c) == if c in nets then nets[c] else 0
      invariant forall k, c :: 0 <= k <= i ==> Fits(Net(ps[..k], c))
    {
      var p := ps[i];
      var key := p.money.currency;
      assert Init(ps[..i + 1]) == ps[..i];
      assert Net(ps[..i + 1], key) == Net(ps[..i], key) + p.SignedDelta();
      var sum := CheckedAdd(if key in nets then nets[key] else 0, p.SignedDelta());
      if sum.None? {
        return Some(Overflow);
      }
      nets := nets[key := sum.value];
      i := i + 1;
    }
    assert ps[..i] == ps;
    var remaining := nets.Keys;
    while remaining != {}
      invariant remaining <= nets.Keys
      invariant forall c :: c !in remaining ==> Net(ps, c) == 0
      decreases |remaining|
    {
      var c :| c in remaining;
      if nets[c] != 0 {
        return Some(Unbalanced(c, nets[c]));
      }
      remaining := remaining - {c};
    }
    return None;
  }
}
