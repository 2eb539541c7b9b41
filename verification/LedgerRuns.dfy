/** Whole runs of the ledger: solvency, agreement of the balances with the journal log, and
    idempotent re-posting, over any sequence of operations. */
module LedgerRuns {
  import opened Seqs
  import opened Wrappers
  import opened Int64
  import opened Ledger
  import opened LedgerLaws

  datatype Op =
    | OpenAccount(id: Uuid, currency: string)
    | CreditOpening(id: Uuid, amount: int64)
    | SetFrozen(id: Uuid, frozen: bool)
    | Post(entry: JournalEntry, authorised: bool)

  const NEW := Books(map[], map[], [])

  ghost function After(b: Books, op: Op): Books {
    match op
    case OpenAccount(id, currency) => Opened(b, id, currency)
    case CreditOpening(id, amount) => Credited(b, id, amount)
    case SetFrozen(id, frozen) => Frozen(b, id, frozen)
    case Post(e, authorised) => AfterPost(b, e, authorised)
  }

  ghost function Run(ops: seq<Op>): Books {
    if ops == [] then NEW else After(Run(Init(ops)), Last(ops))
  }

  // ----- the idempotency map and the log, in every run whatever -----

  /** Every journal's key is recorded with the journal's ID. */
  ghost predicate LogRecorded(b: Books) {
    forall i :: 0 <= i < |b.journals| ==>
      b.journals[i].idempotencyKey in b.seen && b.seen[b.journals[i].idempotencyKey] == b.journals[i].id
  }

  ghost predicate LogKeysDistinct(b: Books) {
    forall i, j :: 0 <= i < j < |b.journals| ==> b.journals[i].idempotencyKey != b.journals[j].idempotencyKey
  }

  ghost predicate LoggedUnder(b: Books, k: string) {
    exists i :: 0 <= i < |b.journals| && b.journals[i].idempotencyKey == k
  }

  /** The recorded keys are exactly the keys of the journals, one journal each, with its ID. */
  ghost predicate KeysMatchLog(b: Books) {
    && |b.seen| == |b.journals|
    && LogRecorded(b) && LogKeysDistinct(b)
    && (forall k :: k in b.seen ==> LoggedUnder(b, k))
  }

  lemma AppendKeepsKeys(b: Books, e: JournalEntry, after: Books)
    requires KeysMatchLog(b) && e.idempotencyKey !in b.seen
    requires after.seen == b.seen[e.idempotencyKey := e.id] && after.journals == b.journals + [e]
    ensures KeysMatchLog(after)
  {
    forall k | k in after.seen ensures LoggedUnder(after, k) {
      if k != e.idempotencyKey {
        assert LoggedUnder(b, k);
        var i :| 0 <= i < |b.journals| && b.journals[i].idempotencyKey == k;
        assert after.journals[i].idempotencyKey == k;
      } else {
        assert after.journals[|b.journals|].idempotencyKey == k;
      }
    }
    AppendKeepsDistinct(b, e, after);
  }

  lemma AppendKeepsDistinct(b: Books, e: JournalEntry, after: Books)
    requires LogRecorded(b) && LogKeysDistinct(b) && e.idempotencyKey !in b.seen
    requires after.journals == b.journals + [e]
    ensures LogKeysDistinct(after)
  {
  }

  lemma StepKeepsKeys(b: Books, op: Op)
    requires KeysMatchLog(b)
    ensures KeysMatchLog(After(b, op)) && b.journals <= After(b, op).journals
  {
    var after := After(b, op);
    if after.journals != b.journals {
      assert op.Post? && op.entry.idempotencyKey !in b.seen;
      AppendKeepsKeys(b, op.entry, after);
    } else {
      assert after.seen == b.seen by { SameLogSameKeys(b, op); }
    }
  }

  lemma SameLogSameKeys(b: Books, op: Op)
    requires After(b, op).journals == b.journals
    ensures After(b, op).seen == b.seen
  {
    if op.Post? {
      assert |b.journals + [op.entry]| > |b.journals|;
    }
  }

  lemma {:induction false} LogMatchesInEveryRun(ops: seq<Op>)
    ensures KeysMatchLog(Run(ops))
  {
    if ops != [] {
      LogMatchesInEveryRun(Init(ops));
      StepKeepsKeys(Run(Init(ops)), Last(ops));
    }
  }

  /** The log is append-only. */
  lemma {:induction false} LogGrows(ops: seq<Op>, n: nat)
    requires n <= |ops|
    ensures Run(ops[..n]).journals <= Run(ops).journals
  {
    if n == |ops| {
      assert ops[..n] == ops;
    } else {
      assert Init(ops)[..n] == ops[..n];
      LogGrows(Init(ops), n);
      LogMatchesInEveryRun(Init(ops));
      StepKeepsKeys(Run(Init(ops)), Last(ops));
    }
  }

  /** An authorised post of a key already recorded when it is made. */
  ghost predicate Repost(b: Books, op: Op) {
    op.Post? && op.authorised && op.entry.idempotencyKey in b.seen
  }

  /** The run without its re-posts. */
  ghost function WithoutReposts(ops: seq<Op>): seq<Op> {
    if ops == [] then []
    else if Repost(Run(Init(ops)), Last(ops)) then WithoutReposts(Init(ops))
    else WithoutReposts(Init(ops)) + [Last(ops)]
  }

  /** Re-posts stutter: taking every one of them out of a run, wherever they stand and however
      many there are, gives the same books. */
  lemma {:induction false} RepostsStutter(ops: seq<Op>)
    ensures Run(WithoutReposts(ops)) == Run(ops)
  {
    if ops != [] {
      RepostsStutter(Init(ops));
      var kept := WithoutReposts(Init(ops));
      assert Init(kept + [Last(ops)]) == kept;
    }
  }

  /** And each returns the ID of the one journal the final log holds under its key. */
  lemma RepostReturnsOriginal(ops: seq<Op>, n: nat, r: Result<Uuid, JournalError>) returns (i: nat)
    requires n < |ops| && Repost(Run(ops[..n]), ops[n])
    requires MayReturn(Run(ops[..n]), ops[n].entry, ops[n].authorised, r)
    ensures var log := Run(ops).journals;
      && i < |log| && log[i].idempotencyKey == ops[n].entry.idempotencyKey && r == Ok(log[i].id)
      && forall j :: 0 <= j < |log| && log[j].idempotencyKey == ops[n].entry.idempotencyKey ==> j == i
  {
    var b := Run(ops[..n]);
    LogMatchesInEveryRun(ops[..n]);
    LogMatchesInEveryRun(ops);
    LogGrows(ops, n);
    var k := ops[n].entry.idempotencyKey;
    assert LoggedUnder(b, k);
    i :| 0 <= i < |b.journals| && b.journals[i].idempotencyKey == k;
    assert Run(ops).journals[i] == b.journals[i];
  }

  // ----- solvency over runs -----

  /** The part of the callers' duty that solvency needs. */
  ghost predicate Prudent(op: Op) {
    match op
    case CreditOpening(_, amount) => amount >= 0
    case Post(e, _) => Careful(e.postings)
    case _ => true
  }

  /** No sequence of operations ever makes an account insolvent, whether posts succeed, are refused
      or stop half way, if opening credits are not negative and journals are careful. */
  lemma {:induction false} AlwaysSolvent(ops: seq<Op>)
    requires forall i :: 0 <= i < |ops| ==> Prudent(ops[i])
    ensures Solvent(Run(ops).accounts)
    ensures forall a :: a in Run(ops).accounts ==> Run(ops).accounts[a].Available() >= 0
  {
    if ops != [] {
      forall i | 0 <= i < |Init(ops)| ensures Prudent(Init(ops)[i]) {
        assert Init(ops)[i] == ops[i];
      }
      AlwaysSolvent(Init(ops));
      assert Prudent(ops[|ops| - 1]);
      if Last(ops).Post? {
        PostKeepsSolvency(Run(Init(ops)), Last(ops).entry, Last(ops).authorised);
      }
    }
  }

  // ----- the balances agree with the log -----

  /** What the callers must see to for the bound to hold throughout. */
  ghost predicate Proper(b: Books, op: Op) {
    match op
    case OpenAccount(id, _) => id !in b.accounts
    case CreditOpening(id, amount) =>
      amount >= 0 && (id in b.accounts ==> Total(b.accounts, b.accounts[id].currency) + amount <= HALF)
    case SetFrozen(_, _) => true
    case Post(e, _) => Careful(e.postings)
  }

  ghost predicate ProperRun(ops: seq<Op>) {
    forall n :: 0 <= n < |ops| ==> Proper(Run(ops[..n]), ops[n])
  }

  /** Opening credits an account has received, those that overflowed not being received. */
  ghost function OpeningCredits(ops: seq<Op>, a: Uuid): int {
    if ops == [] then 0
    else
      OpeningCredits(Init(ops), a) + Received(Run(Init(ops)), Last(ops), a)
  }

  ghost function Received(b: Books, op: Op, a: Uuid): int {
    if op.CreditOpening? && op.id == a && a in b.accounts && Fits(b.accounts[a].balanceMinor + op.amount) then op.amount
    else 0
  }

  /** The sum of an account's deltas over all recorded journals. */
  function Posted(log: seq<JournalEntry>, a: Uuid): int {
    if log == [] then 0 else Posted(Init(log), a) + Delta(Last(log).postings, a)
  }

  function BalanceOf(b: Books, a: Uuid): int {
    if a in b.accounts then b.accounts[a].balanceMinor else 0
  }

  ghost predicate Audited(ops: seq<Op>, a: Uuid) {
    OpeningCredits(ops, a) + Posted(Run(ops).journals, a) == BalanceOf(Run(ops), a)
  }

  ghost predicate AllAudited(ops: seq<Op>) {
    forall a :: Audited(ops, a)
  }

  lemma ProperInit(ops: seq<Op>)
    requires ProperRun(ops) && ops != []
    ensures ProperRun(Init(ops)) && Proper(Run(Init(ops)), Last(ops))
  {
    forall n | 0 <= n < |Init(ops)| ensures Proper(Run(Init(ops)[..n]), Init(ops)[n]) {
      assert Init(ops)[..n] == ops[..n] && Init(ops)[n] == ops[n];
      assert Proper(Run(ops[..n]), ops[n]);
    }
    assert Proper(Run(ops[..|ops| - 1]), ops[|ops| - 1]);
  }

  lemma {:induction false} NothingMoved(m: Accounts, ps: seq<Posting>, a: Uuid)
    requires Known(m, ps) && a !in m
    ensures Delta(ps, a) == 0
  {
    if ps != [] {
      KnownInit(m, ps);
      NothingMoved(m, Init(ps), a);
    }
  }

  lemma OpenKeepsHealth(m: Accounts, id: Uuid, c: string)
    requires Healthy(m) && id !in m
    ensures Healthy(m[id := AccountState(id, c, 0, 0, false)])
  {
    var a := AccountState(id, c, 0, 0, false);
    var n := m[id := a];
    forall d ensures Total(n, d) <= HALF {
      TotalInsert(m, id, a, d);
      assert m - {id} == m;
    }
  }

  lemma ReplaceKeepsHealth(m: Accounts, id: Uuid, a: AccountState)
    requires Healthy(m) && id in m && a.currency == m[id].currency
    requires a.holdMinor == m[id].holdMinor && a.balanceMinor >= m[id].balanceMinor
    requires Total(m, a.currency) + a.balanceMinor - m[id].balanceMinor <= HALF
    ensures Healthy(m[id := a])
  {
    var n := m[id := a];
    forall d ensures Total(n, d) <= HALF {
      TotalInsert(m, id, a, d);
      TotalRemove(m, id, d);
    }
  }

  lemma ProperKeepsHealth(b: Books, op: Op)
    requires Healthy(b.accounts) && Proper(b, op)
    ensures Healthy(After(b, op).accounts)
    ensures op.CreditOpening? && op.id in b.accounts ==> Fits(b.accounts[op.id].balanceMinor + op.amount)
  {
    match op
    case OpenAccount(id, c) => OpenKeepsHealth(b.accounts, id, c);
    case CreditOpening(id, amount) =>
      if id in b.accounts {
        var a := b.accounts[id];
        ShareWithinTotal(b.accounts, id, a.currency);
        ReplaceKeepsHealth(b.accounts, id, a.(balanceMinor := a.balanceMinor + amount));
      }
    case SetFrozen(id, frozen) =>
      if id in b.accounts {
        ReplaceKeepsHealth(b.accounts, id, b.accounts[id].(frozen := frozen));
      }
    case Post(e, authorised) => PostIsAtomic(b, e, authorised);
  }

  // ----- exactly which operations keep the agreement -----

  /** The apply loop goes through, or what it applied nets to zero on every account. */
  ghost predicate LeavesNoTrace(m: Accounts, ps: seq<Posting>) {
    && Known(m, ps)
    && (FirstMisfit(m, ps) == |ps| || forall a :: a in m ==> Delta(ps[..FirstMisfit(m, ps)], a) == 0)
  }

  /** The operation does not empty an account, nor stop half way through a journal that moves money. */
  ghost predicate Settles(b: Books, op: Op) {
    match op
    case OpenAccount(id, _) => BalanceOf(b, id) == 0
    case Post(e, authorised) =>
      authorised && e.idempotencyKey !in b.seen && Acceptable(b, e) ==> LeavesNoTrace(b.accounts, e.postings)
    case _ => true
  }

  /** By how much an operation changes a balance beyond what it puts on record. */
  ghost function Drift(b: Books, op: Op, a: Uuid): int {
    var after := After(b, op);
    BalanceOf(after, a) - BalanceOf(b, a) - Received(b, op, a) - (Posted(after.journals, a) - Posted(b.journals, a))
  }

  lemma DriftAudits(ops: seq<Op>, op: Op, a: Uuid)
    requires Audited(ops, a)
    ensures Audited(ops + [op], a) <==> Drift(Run(ops), op, a) == 0
  {
    assert Init(ops + [op]) == ops;
  }

  lemma PlainDrift(b: Books, op: Op, a: Uuid)
    requires !op.Post?
    ensures Drift(b, op, a) == if op.OpenAccount? && op.id == a then 0 - BalanceOf(b, a) else 0
  {
  }

  lemma RefusedDrift(b: Books, e: JournalEntry, authorised: bool, a: Uuid)
    requires !(authorised && e.idempotencyKey !in b.seen && Acceptable(b, e))
    ensures Drift(b, Post(e, authorised), a) == 0
  {
  }

  /** Nothing for a journal that goes through; otherwise what was applied before the overflow. */
  lemma AcceptedDrift(b: Books, e: JournalEntry, a: Uuid)
    requires Acceptable(b, e) && e.idempotencyKey !in b.seen
    ensures Known(b.accounts, e.postings)
    ensures var k := FirstMisfit(b.accounts, e.postings);
      Drift(b, Post(e, true), a) == if k < |e.postings| && a in b.accounts then Delta(e.postings[..k], a) else 0
  {
    var m, ps := b.accounts, e.postings;
    AcceptableAccounts(m, ps);
    StopsAtFirstMisfit(m, ps);
    var k := FirstMisfit(m, ps);
    ApplyLaw(m, ps[..k]);
    if a in m {
      assert MovedByDelta(m, ps[..k], Apply(m, ps[..k]).0, a);
    } else {
      NothingMoved(m, ps, a);
    }
    if k == |ps| {
      assert ps[..k] == ps;
      var log := b.journals + [e];
      assert Init(log) == b.journals && Last(log) == e;
    }
  }

  /** From books in which every balance agrees with the log, an operation keeps that so exactly when
      it does not re-open an account that holds money and is not an accepted journal that overflows
      after applying something that does not cancel out. */
  lemma AgreementStep(ops: seq<Op>, op: Op)
    requires AllAudited(ops)
    ensures AllAudited(ops + [op]) <==> Settles(Run(ops), op)
  {
    var b := Run(ops);
    forall a ensures Audited(ops + [op], a) <==> Drift(b, op, a) == 0 {
      DriftAudits(ops, op, a);
    }
    DriftlessIffSettles(b, op);
  }

  lemma DriftlessIffSettles(b: Books, op: Op)
    ensures (forall a :: Drift(b, op, a) == 0) <==> Settles(b, op)
  {
    if op.Post? {
      PostDriftless(b, op.entry, op.authorised);
    } else {
      forall a ensures Drift(b, op, a) == if op.OpenAccount? && op.id == a then 0 - BalanceOf(b, a) else 0 {
        PlainDrift(b, op, a);
      }
      if op.OpenAccount? {
        assert Drift(b, op, op.id) == 0 - BalanceOf(b, op.id);
      }
    }
  }

  lemma PostDriftless(b: Books, e: JournalEntry, authorised: bool)
    ensures (forall a :: Drift(b, Post(e, authorised), a) == 0) <==> Settles(b, Post(e, authorised))
  {
    if authorised && e.idempotencyKey !in b.seen && Acceptable(b, e) {
      AcceptableAccounts(b.accounts, e.postings);
      var k, n := FirstMisfit(b.accounts, e.postings), |e.postings|;
      forall a
        ensures Drift(b, Post(e, true), a) == if k < n && a in b.accounts then Delta(e.postings[..k], a) else 0
      {
        AcceptedDrift(b, e, a);
      }
      if k < |e.postings| && forall a :: Drift(b, Post(e, authorised), a) == 0 {
        forall a | a in b.accounts ensures Delta(e.postings[..k], a) == 0 {
          assert Drift(b, Post(e, authorised), a) == 0;
        }
      }
    } else {
      forall a ensures Drift(b, Post(e, authorised), a) == 0 {
        RefusedDrift(b, e, authorised, a);
      }
    }
  }

  ghost predicate SettledAt(ops: seq<Op>, n: nat)
    requires n < |ops|
  {
    Settles(Run(ops[..n]), ops[n])
  }

  ghost predicate SettledThrough(ops: seq<Op>) {
    forall n :: 0 <= n < |ops| ==> SettledAt(ops, n)
  }

  ghost predicate AuditedThrough(ops: seq<Op>) {
    forall n :: 0 <= n <= |ops| ==> AllAudited(ops[..n])
  }

  /** Over whole runs, with no bound on anything: the balances agree with the log all the way exactly
      when every operation settles. */
  lemma {:induction false} AgreementThroughout(ops: seq<Op>)
    ensures AuditedThrough(ops) <==> SettledThrough(ops)
  {
    if ops == [] {
      assert ops[..0] == ops;
      forall a ensures Audited(ops, a) {
      }
    } else {
      var init := Init(ops);
      AgreementThroughout(init);
      SettledInit(ops);
      AuditedInit(ops);
      if AuditedThrough(init) {
        assert init[..|init|] == init && init + [Last(ops)] == ops;
        AgreementStep(init, Last(ops));
      }
    }
  }

  lemma SettledInit(ops: seq<Op>)
    requires ops != []
    ensures SettledThrough(ops) <==> SettledThrough(Init(ops)) && Settles(Run(Init(ops)), Last(ops))
  {
    var init := Init(ops);
    if SettledThrough(ops) {
      forall n | 0 <= n < |init| ensures SettledAt(init, n) {
        assert SettledAt(ops, n) && init[..n] == ops[..n];
      }
      assert SettledAt(ops, |init|);
    }
    if SettledThrough(init) && Settles(Run(init), Last(ops)) {
      forall n | 0 <= n < |ops| ensures SettledAt(ops, n) {
        assert n < |init| ==> SettledAt(init, n) && init[..n] == ops[..n];
      }
    }
  }

  lemma AuditedInit(ops: seq<Op>)
    requires ops != []
    ensures AuditedThrough(ops) <==> AuditedThrough(Init(ops)) && AllAudited(ops)
  {
    var init := Init(ops);
    if AuditedThrough(ops) {
      forall n | 0 <= n <= |init| ensures AllAudited(init[..n]) {
        assert AllAudited(ops[..n]) && init[..n] == ops[..n];
      }
      assert AllAudited(ops[..|ops|]) && ops[..|ops|] == ops;
    }
    if AuditedThrough(init) && AllAudited(ops) {
      forall n | 0 <= n <= |ops| ensures AllAudited(ops[..n]) {
        if n < |ops| {
          assert AllAudited(init[..n]) && init[..n] == ops[..n];
        } else {
          assert ops[..n] == ops;
        }
      }
    }
  }

  /** Under the bound every operation settles: no journal stops half way. */
  lemma ProperSettles(b: Books, op: Op)
    requires Healthy(b.accounts) && Proper(b, op)
    ensures Settles(b, op)
  {
    if op.Post? && op.entry.idempotencyKey !in b.seen && Acceptable(b, op.entry) {
      NeverOverflows(b.accounts, op.entry.postings);
      StopsAtFirstMisfit(b.accounts, op.entry.postings);
    }
  }

  /** So in every proper run each balance is what was credited to the account at opening plus the sum
      of its signed deltas over the recorded journals. */
  lemma {:induction false} BalancesAgreeWithLog(ops: seq<Op>)
    requires ProperRun(ops)
    ensures AllAudited(ops) && Healthy(Run(ops).accounts)
  {
    if ops == [] {
      forall c ensures Total(NEW.accounts, c) <= HALF {
      }
      forall a ensures Audited(ops, a) {
      }
    } else {
      ProperInit(ops);
      BalancesAgreeWithLog(Init(ops));
      ProperKeepsHealth(Run(Init(ops)), Last(ops));
      ProperSettles(Run(Init(ops)), Last(ops));
      AgreementStep(Init(ops), Last(ops));
      assert Init(ops) + [Last(ops)] == ops;
    }
  }

  // ----- exactly which operations keep every account solvent -----

  ghost predicate KeepsSolvent(b: Books, op: Op) {
    match op
    case CreditOpening(id, amount) =>
      id in b.accounts && Fits(b.accounts[id].balanceMinor + amount) ==>
        b.accounts[id].holdMinor <= b.accounts[id].balanceMinor + amount
    case Post(e, authorised) =>
      authorised && e.idempotencyKey !in b.seen && Acceptable(b, e) ==> Covered(b.accounts, e.postings)
    case _ => true
  }

  lemma SolvencyStep(b: Books, op: Op)
    requires Solvent(b.accounts)
    ensures Solvent(After(b, op).accounts) <==> KeepsSolvent(b, op)
  {
    if op.Post? {
      if op.authorised && op.entry.idempotencyKey !in b.seen && Acceptable(b, op.entry) {
        SolvencyExactly(b, op.entry);
      }
    } else if op.CreditOpening? {
      CreditSolvency(b, op.id, op.amount);
    }
  }

  lemma CreditSolvency(b: Books, id: Uuid, amount: int64)
    requires Solvent(b.accounts)
    ensures Solvent(Credited(b, id, amount).accounts) <==> KeepsSolvent(b, CreditOpening(id, amount))
  {
    var after := Credited(b, id, amount).accounts;
    if id in b.accounts {
      assert id in after;
    }
  }

  ghost predicate SolventAfter(ops: seq<Op>) {
    Solvent(Run(ops).accounts)
  }

  ghost predicate SolventThrough(ops: seq<Op>) {
    forall n :: 0 <= n <= |ops| ==> SolventAfter(ops[..n])
  }

  ghost predicate KeptAt(ops: seq<Op>, n: nat)
    requires n < |ops|
  {
    KeepsSolvent(Run(ops[..n]), ops[n])
  }

  ghost predicate KeptThrough(ops: seq<Op>) {
    forall n :: 0 <= n < |ops| ==> KeptAt(ops, n)
  }

  /** Over whole runs: no account is ever insolvent exactly when every operation keeps it so, careful
      or not. */
  lemma {:induction false} SolvencyThroughout(ops: seq<Op>)
    ensures SolventThrough(ops) <==> KeptThrough(ops)
  {
    if ops == [] {
      assert ops[..0] == ops;
    } else {
      var init := Init(ops);
      SolvencyThroughout(init);
      KeptInit(ops);
      SolventInit(ops);
      if SolventThrough(init) {
        assert init[..|init|] == init;
        SolvencyStep(Run(init), Last(ops));
      }
    }
  }

  lemma KeptInit(ops: seq<Op>)
    requires ops != []
    ensures KeptThrough(ops) <==> KeptThrough(Init(ops)) && KeepsSolvent(Run(Init(ops)), Last(ops))
  {
    var init := Init(ops);
    if KeptThrough(ops) {
      forall n | 0 <= n < |init| ensures KeptAt(init, n) {
        assert KeptAt(ops, n) && init[..n] == ops[..n];
      }
      assert KeptAt(ops, |init|);
    }
    if KeptThrough(init) && KeepsSolvent(Run(init), Last(ops)) {
      forall n | 0 <= n < |ops| ensures KeptAt(ops, n) {
        assert n < |init| ==> KeptAt(init, n) && init[..n] == ops[..n];
      }
    }
  }

  lemma SolventInit(ops: seq<Op>)
    requires ops != []
    ensures SolventThrough(ops) <==> SolventThrough(Init(ops)) && SolventAfter(ops)
  {
    var init := Init(ops);
    if SolventThrough(ops) {
      forall n | 0 <= n <= |init| ensures SolventAfter(init[..n]) {
        assert SolventAfter(ops[..n]) && init[..n] == ops[..n];
      }
      assert SolventAfter(ops[..|ops|]) && ops[..|ops|] == ops;
    }
    if SolventThrough(init) && SolventAfter(ops) {
      forall n | 0 <= n <= |ops| ensures SolventAfter(ops[..n]) {
        if n < |ops| {
          assert SolventAfter(init[..n]) && init[..n] == ops[..n];
        } else {
          assert ops[..n] == ops;
        }
      }
    }
  }

  /** Re-opening an account that is in use is not proper, and does break the agreement: the balance
      is reset while the opening credit stays on record. */
  lemma ReopeningBreaksAgreement(c: string)
    ensures var ops := [OpenAccount(1, c), CreditOpening(1, 10), OpenAccount(1, c)];
      !Audited(ops, 1) && forall i :: 0 <= i < |ops| ==> Prudent(ops[i])
  {
    var x, y := OpenAccount(1, c), CreditOpening(1, 10);
    var ops := [x, y, x];
    assert Init(ops) == [x, y] && Init([x, y]) == [x] && Init([x]) == [];
    var opening, funded := Books(map[1 := AccountState(1, c, 0, 0, false)], map[], []),
                           Books(map[1 := AccountState(1, c, 10, 0, false)], map[], []);
    assert Run([]) == NEW && Run([x]) == After(NEW, x) == opening;
    assert Run([x, y]) == After(opening, y) == funded;
    assert Run(ops) == After(funded, x);
    assert Run(ops).journals == [] && Run(ops).accounts[1].balanceMinor == 0;
    assert OpeningCredits([x], 1) == 0 && OpeningCredits([x, y], 1) == 10;
    assert OpeningCredits(ops, 1) == 10 && Posted(Run(ops).journals, 1) == 0;
  }
}
