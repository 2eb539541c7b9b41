/** What post refuses and why, and what that means for frozen accounts and for the log: stated on the
    accounts and postings themselves, for one journal and over whole runs. */
module LedgerRefusals {
  import opened Seqs
  import opened Wrappers
  import opened Int64
  import opened Ledger
  import opened LedgerLaws
  import opened LedgerRuns

  /** The account exists, is not frozen, holds the posted currency and, for a debit, has the amount
      available. An amount is its absolute value, which wraps for i64::MIN. */
  predicate Passes(m: Accounts, p: Posting) {
    && p.accountId in m
    && !m[p.accountId].frozen
    && m[p.accountId].currency == p.money.currency
    && (p.direction == Debit ==>
          Size(p.money.amountMinor) <= Wrap(m[p.accountId].balanceMinor - m[p.accountId].holdMinor))
  }

  function Size(amount: int64): int64 {
    if amount >= 0 then amount else if amount == MIN then MIN else 0 - amount
  }

  lemma SizeIsAbs(money: Money)
    ensures money.Abs() == Size(money.amountMinor)
  {
    WrapIsModular(0 - money.amountMinor);
  }

  lemma PostingRefused(m: Accounts, p: Posting)
    ensures var a := p.accountId; var r := Problem(m, p);
      && (r == None <==> Passes(m, p))
      && (r == Some(AccountNotFound(a)) <==> a !in m)
      && (r == Some(AccountFrozen(a)) <==> a in m && m[a].frozen)
      && (a in m ==> (r == Some(CurrencyMismatch(m[a].currency, p.money.currency)) <==>
                        !m[a].frozen && m[a].currency != p.money.currency))
      && (r == Some(InsufficientFunds(a)) <==>
            a in m && !m[a].frozen && m[a].currency == p.money.currency && !Passes(m, p))
  {
    SizeIsAbs(p.money);
  }

  /** The first posting that does not pass decides the error. */
  lemma {:induction false} FirstToFail(m: Accounts, ps: seq<Posting>, i: nat)
    requires i < |ps| && !Passes(m, ps[i]) && forall j :: 0 <= j < i ==> Passes(m, ps[j])
    ensures FirstProblem(m, ps) == Problem(m, ps[i]) && FirstProblem(m, ps).Some?
  {
    PostingRefused(m, ps[i]);
    if i < |ps| - 1 {
      assert Init(ps)[i] == ps[i];
      FirstToFail(m, Init(ps), i);
    } else {
      forall j | 0 <= j < |Init(ps)| ensures Problem(m, Init(ps)[j]) == None {
        assert Init(ps)[j] == ps[j];
        PostingRefused(m, ps[j]);
      }
      ClearIffNoProblem(m, Init(ps));
    }
  }

  lemma ClearIffAllPass(m: Accounts, ps: seq<Posting>)
    ensures Clear(m, ps) <==> forall i :: 0 <= i < |ps| ==> Passes(m, ps[i])
  {
    forall i | 0 <= i < |ps| ensures Problem(m, ps[i]) == None <==> Passes(m, ps[i]) {
      PostingRefused(m, ps[i]);
    }
  }

  // ----- one journal -----

  /** Without authorisation nothing happens, whatever the journal, its key included. */
  lemma UnauthorisedRefused(b: Books, e: JournalEntry, r: Result<Uuid, JournalError>)
    ensures AfterPost(b, e, false) == b
    ensures MayReturn(b, e, false, r) <==> r == Err(MissingAuthorisation)
  {
  }

  /** An unbalanced journal changes nothing: too few postings, a running net that overflows, or a
      currency whose net is not zero, in this order. */
  lemma UnbalancedRefused(b: Books, e: JournalEntry, r: Result<Uuid, JournalError>)
    requires e.idempotencyKey !in b.seen && MayReturn(b, e, true, r)
    requires |e.postings| < 2 || !PrefixesFit(e.postings) || exists c :: Net(e.postings, c) != 0
    ensures AfterPost(b, e, true) == b
    ensures |e.postings| < 2 ==> r == Err(TooFewPostings)
    ensures |e.postings| >= 2 && !PrefixesFit(e.postings) ==> r == Err(JournalError.Overflow)
    ensures |e.postings| >= 2 && PrefixesFit(e.postings) ==>
      r.Err? && r.error.Unbalanced? && r.error.net == Net(e.postings, r.error.currency) != 0
  {
    assert !Balanced(e.postings);
  }

  /** A balanced journal with a posting that does not pass changes nothing, and the first such posting
      says why. */
  lemma PostingStopsJournal(b: Books, e: JournalEntry, r: Result<Uuid, JournalError>, i: nat)
    requires e.idempotencyKey !in b.seen && Balanced(e.postings) && MayReturn(b, e, true, r)
    requires i < |e.postings| && !Passes(b.accounts, e.postings[i])
    requires forall j :: 0 <= j < i ==> Passes(b.accounts, e.postings[j])
    ensures AfterPost(b, e, true) == b
    ensures var p := e.postings[i]; var a := p.accountId;
      r == Err(
        if a !in b.accounts then AccountNotFound(a)
        else if b.accounts[a].frozen then AccountFrozen(a)
        else if b.accounts[a].currency != p.money.currency then
          CurrencyMismatch(b.accounts[a].currency, p.money.currency)
        else InsufficientFunds(a))
  {
    FirstToFail(b.accounts, e.postings, i);
    PostingRefused(b.accounts, e.postings[i]);
    ClearIffAllPass(b.accounts, e.postings);
  }

  /** And one whose postings all pass is recorded and answered with its ID, or overflows. */
  lemma PassingJournal(b: Books, e: JournalEntry, r: Result<Uuid, JournalError>)
    requires e.idempotencyKey !in b.seen && Balanced(e.postings) && MayReturn(b, e, true, r)
    requires forall i :: 0 <= i < |e.postings| ==> Passes(b.accounts, e.postings[i])
    ensures Known(b.accounts, e.postings)
    ensures r == if FirstMisfit(b.accounts, e.postings) == |e.postings| then Ok(e.id) else Err(JournalError.Overflow)
    ensures r.Ok? <==> AfterPost(b, e, true).journals == b.journals + [e]
    ensures r.Ok? ==> AfterPost(b, e, true).seen == b.seen[e.idempotencyKey := e.id]
  {
    ClearIffAllPass(b.accounts, e.postings);
    ClearIffNoProblem(b.accounts, e.postings);
    AcceptableAccounts(b.accounts, e.postings);
    StopsAtFirstMisfit(b.accounts, e.postings);
    assert |b.journals + [e]| > |b.journals|;
  }

  // ----- frozen accounts -----

  lemma {:induction false} UnnamedDoesNotMove(ps: seq<Posting>, a: Uuid)
    requires forall i :: 0 <= i < |ps| ==> ps[i].accountId != a
    ensures Delta(ps, a) == 0
  {
    if ps != [] {
      assert forall i :: 0 <= i < |Init(ps)| ==> Init(ps)[i] == ps[i];
      assert ps[|ps| - 1].accountId != a;
      UnnamedDoesNotMove(Init(ps), a);
    }
  }

  /** No journal touches a frozen account. */
  lemma FrozenUntouched(b: Books, e: JournalEntry, authorised: bool, a: Uuid)
    requires a in b.accounts && b.accounts[a].frozen
    ensures a in AfterPost(b, e, authorised).accounts && AfterPost(b, e, authorised).accounts[a] == b.accounts[a]
  {
    if authorised && e.idempotencyKey !in b.seen && Acceptable(b, e) {
      var m, ps := b.accounts, e.postings;
      ClearIffAllPass(m, ps);
      AcceptableAccounts(m, ps);
      StopsAtFirstMisfit(m, ps);
      var done := ps[..FirstMisfit(m, ps)];
      forall i | 0 <= i < |done| ensures done[i].accountId != a {
        assert Passes(m, ps[i]);
      }
      UnnamedDoesNotMove(done, a);
      ApplyLaw(m, done);
      assert MovedByDelta(m, done, Apply(m, done).0, a);
    }
  }

  /** And a journal that names one moves no other account's money either. */
  lemma FrozenStopsJournal(b: Books, e: JournalEntry, r: Result<Uuid, JournalError>, i: nat)
    requires e.idempotencyKey !in b.seen && Balanced(e.postings) && MayReturn(b, e, true, r)
    requires i < |e.postings| && e.postings[i].accountId in b.accounts && b.accounts[e.postings[i].accountId].frozen
    ensures AfterPost(b, e, true) == b && r.Err?
    ensures (forall j :: 0 <= j < i ==> Passes(b.accounts, e.postings[j])) ==>
      r == Err(AccountFrozen(e.postings[i].accountId))
  {
    assert !Passes(b.accounts, e.postings[i]);
    ClearIffAllPass(b.accounts, e.postings);
    ClearIffNoProblem(b.accounts, e.postings);
    if forall j :: 0 <= j < i ==> Passes(b.accounts, e.postings[j]) {
      PostingStopsJournal(b, e, r, i);
    }
  }

  // ----- over runs -----

  ghost function Then(b: Books, ops: seq<Op>): Books {
    if ops == [] then b else After(Then(b, Init(ops)), Last(ops))
  }

  /** An operation that could change a frozen account: an opening credit to it, opening it again or
      thawing it. */
  predicate Reaches(op: Op, a: Uuid) {
    match op
    case OpenAccount(id, _) => id == a
    case CreditOpening(id, _) => id == a
    case SetFrozen(id, frozen) => id == a && !frozen
    case Post(_, _) => false
  }

  /** A frozen account stays exactly as it is through any operations that do not reach it, posts above
      all. */
  lemma {:induction false} FrozenStaysPut(b: Books, ops: seq<Op>, a: Uuid)
    requires a in b.accounts && b.accounts[a].frozen
    requires forall i :: 0 <= i < |ops| ==> !Reaches(ops[i], a)
    ensures a in Then(b, ops).accounts && Then(b, ops).accounts[a] == b.accounts[a]
  {
    if ops != [] {
      assert forall i :: 0 <= i < |Init(ops)| ==> Init(ops)[i] == ops[i];
      FrozenStaysPut(b, Init(ops), a);
      assert !Reaches(ops[|ops| - 1], a);
      if Last(ops).Post? {
        FrozenUntouched(Then(b, Init(ops)), Last(ops).entry, Last(ops).authorised, a);
      }
    }
  }

  /** The log grows by the journal posted, which was authorised, is balanced, and passes throughout. */
  lemma RecordedPasses(b: Books, e: JournalEntry, authorised: bool)
    requires AfterPost(b, e, authorised).journals != b.journals
    ensures AfterPost(b, e, authorised).journals == b.journals + [e] && authorised
    ensures |e.postings| >= 2 && (forall c :: Net(e.postings, c) == 0)
    ensures forall i :: 0 <= i < |e.postings| ==> Passes(b.accounts, e.postings[i])
  {
    ClearIffAllPass(b.accounts, e.postings);
  }

  /** A journal that the last operation added to the log. */
  lemma NewestIsSound(ops: seq<Op>, j: nat)
    requires ops != [] && |Run(Init(ops)).journals| <= j < |Run(ops).journals|
    ensures Last(ops) == Post(Run(ops).journals[j], true)
    ensures var ps := Run(ops).journals[j].postings;
      && |ps| >= 2 && (forall c :: Net(ps, c) == 0)
      && forall i :: 0 <= i < |ps| ==> Passes(Run(Init(ops)).accounts, ps[i])
  {
    var b, op := Run(Init(ops)), Last(ops);
    assert Run(ops) == After(b, op);
    assert op.Post? && After(b, op) == AfterPost(b, op.entry, op.authorised);
    RecordedPasses(b, op.entry, op.authorised);
  }

  /** Every journal on record was posted with authorisation, has at least two postings and nets to zero
      in every currency, and each of its postings passed when it was posted. */
  lemma {:induction false} LogIsSound(ops: seq<Op>, j: nat) returns (n: nat)
    requires j < |Run(ops).journals|
    ensures n < |ops| && ops[n] == Post(Run(ops).journals[j], true)
    ensures var ps := Run(ops).journals[j].postings;
      && |ps| >= 2 && (forall c :: Net(ps, c) == 0)
      && forall i :: 0 <= i < |ps| ==> Passes(Run(ops[..n]).accounts, ps[i])
  {
    n := |ops| - 1;
    assert ops[..n] == Init(ops);
    if j < |Run(ops[..n]).journals| {
      LogGrows(ops, n);
      n := LogIsSound(Init(ops), j);
      assert Init(ops)[..n] == ops[..n];
    } else {
      NewestIsSound(ops, j);
    }
  }
}
