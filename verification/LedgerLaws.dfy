/** Laws of one journal: what applying it does to every account, conservation, when the apply loop
    can overflow and what that costs, and solvency. */
module LedgerLaws {
  import opened Seqs
  import opened Wrappers
  import opened Int64
  import opened Ledger

  const HALF: int := MAX / 2

  // ----- the effect of the apply loop -----

  /** The mathematical sum of the signed deltas on one account. */
  function Delta(ps: seq<Posting>, a: Uuid): int {
    if ps == [] then 0
    else Delta(Init(ps), a) + if Last(ps).accountId == a then Last(ps).SignedDelta() else 0
  }

  /** The balance posting i leaves behind fits. */
  ghost predicate FitsAt(m: Accounts, ps: seq<Posting>, i: nat)
    requires Known(m, ps) && i < |ps|
  {
    Fits(m[ps[i].accountId].balanceMinor + Delta(ps[..i + 1], ps[i].accountId))
  }

  ghost predicate FitsThrough(m: Accounts, ps: seq<Posting>)
    requires Known(m, ps)
  {
    forall i :: 0 <= i < |ps| ==> FitsAt(m, ps, i)
  }

  lemma KnownInit(m: Accounts, ps: seq<Posting>)
    requires Known(m, ps) && ps != []
    ensures Known(m, Init(ps)) && Last(ps).accountId in m
    ensures FitsThrough(m, ps) <==> FitsThrough(m, Init(ps)) && FitsAt(m, ps, |ps| - 1)
  {
    KnownSplits(m, ps);
    forall i | 0 <= i < |Init(ps)| ensures FitsAt(m, ps, i) <==> FitsAt(m, Init(ps), i) {
      assert Init(ps)[..i + 1] == ps[..i + 1];
    }
  }

  /** Every account has moved by the sum of its deltas in the journal, and nothing else has changed. */
  ghost predicate FullyApplied(m: Accounts, ps: seq<Posting>, after: Accounts) {
    after.Keys == m.Keys && forall a :: a in m ==> MovedByDelta(m, ps, after, a)
  }

  ghost predicate MovedByDelta(m: Accounts, ps: seq<Posting>, after: Accounts, a: Uuid)
    requires a in m && a in after
  {
    && Fits(m[a].balanceMinor + Delta(ps, a))
    && after[a] == m[a].(balanceMinor := m[a].balanceMinor + Delta(ps, a))
  }

  /** The apply loop goes through exactly when no running balance leaves the i64 range, and then it
      has added to every account the sum of its deltas and changed nothing else. */
  lemma {:induction false} ApplyLaw(m: Accounts, ps: seq<Posting>)
    requires Known(m, ps)
    ensures Apply(m, ps).1 <==> FitsThrough(m, ps)
    ensures Apply(m, ps).1 ==> FullyApplied(m, ps, Apply(m, ps).0)
  {
    if ps != [] {
      KnownInit(m, ps);
      ApplyLaw(m, Init(ps));
      if Apply(m, Init(ps)).1 {
        LastApplied(m, ps);
      }
    }
  }

  lemma DeltaLast(ps: seq<Posting>, a: Uuid)
    requires ps != []
    ensures Delta(ps, a) == Delta(Init(ps), a) + if Last(ps).accountId == a then Last(ps).SignedDelta() else 0
  {
  }

  /** Adding one posting's delta to one balance. */
  lemma OnePosting(m: Accounts, ps: seq<Posting>, before: Accounts)
    requires ps != [] && Last(ps).accountId in m && FullyApplied(m, Init(ps), before)
    ensures ApplyOne(before, Last(ps)).1 <==> Fits(m[Last(ps).accountId].balanceMinor + Delta(ps, Last(ps).accountId))
    ensures ApplyOne(before, Last(ps)).1 ==> FullyApplied(m, ps, ApplyOne(before, Last(ps)).0)
  {
    var p, after := Last(ps).accountId, ApplyOne(before, Last(ps)).0;
    assert MovedByDelta(m, Init(ps), before, p);
    DeltaLast(ps, p);
    if ApplyOne(before, Last(ps)).1 {
      forall a | a in m ensures MovedByDelta(m, ps, after, a) {
        assert MovedByDelta(m, Init(ps), before, a);
        DeltaLast(ps, a);
      }
    }
  }

  /** The last posting of a journal, once those before it have been applied. */
  lemma LastApplied(m: Accounts, ps: seq<Posting>)
    requires Known(m, ps) && ps != [] && Known(m, Init(ps)) && Last(ps).accountId in m
    requires Apply(m, Init(ps)).1 && FullyApplied(m, Init(ps), Apply(m, Init(ps)).0)
    ensures Apply(m, ps).1 <==> FitsAt(m, ps, |ps| - 1)
    ensures Apply(m, ps).1 ==> FullyApplied(m, ps, Apply(m, ps).0)
  {
    OnePosting(m, ps, Apply(m, Init(ps)).0);
    LastFits(m, ps);
  }

  lemma LastFits(m: Accounts, ps: seq<Posting>)
    requires Known(m, ps) && ps != [] && Last(ps).accountId in m
    ensures FitsAt(m, ps, |ps| - 1) <==> Fits(m[Last(ps).accountId].balanceMinor + Delta(ps, Last(ps).accountId))
  {
    assert ps[..|ps|] == ps;
  }

  /** Where the apply loop stops: the first posting whose balance does not fit, or the end. */
  ghost function FirstMisfit(m: Accounts, ps: seq<Posting>): (k: nat)
    requires Known(m, ps)
    ensures k <= |ps|
  {
    if ps == [] then 0
    else
      KnownInit(m, ps);
      var k := FirstMisfit(m, Init(ps));
      if k < |ps| - 1 then k
      else if FitsAt(m, ps, |ps| - 1) then |ps|
      else |ps| - 1
  }

  /** The apply loop stops at position k, or at the end. */
  ghost predicate StopsAt(m: Accounts, ps: seq<Posting>, k: nat)
    requires Known(m, ps) && k <= |ps|
  {
    && Known(m, ps[..k]) && FitsThrough(m, ps[..k])
    && (k < |ps| ==> !FitsAt(m, ps, k))
    && Apply(m, ps) == (Apply(m, ps[..k]).0, k == |ps|)
  }

  lemma {:induction false} StopsAtFirstMisfit(m: Accounts, ps: seq<Posting>)
    requires Known(m, ps)
    ensures StopsAt(m, ps, FirstMisfit(m, ps))
  {
    if ps != [] {
      KnownInit(m, ps);
      StopsAtFirstMisfit(m, Init(ps));
      var k := FirstMisfit(m, Init(ps));
      if k < |ps| - 1 {
        StoppedEarlier(m, ps, k);
      } else {
        StopsAtLast(m, ps);
      }
    }
  }

  lemma StoppedEarlier(m: Accounts, ps: seq<Posting>, k: nat)
    requires Known(m, ps) && k < |ps| - 1 && Known(m, Init(ps)) && StopsAt(m, Init(ps), k)
    ensures StopsAt(m, ps, k)
  {
    assert Init(ps)[..k] == ps[..k];
    assert Init(ps)[..k + 1] == ps[..k + 1] && Init(ps)[k] == ps[k];
    assert FitsAt(m, ps, k) <==> FitsAt(m, Init(ps), k);
  }

  lemma StopsAtLast(m: Accounts, ps: seq<Posting>)
    requires Known(m, ps) && ps != [] && Known(m, Init(ps)) && StopsAt(m, Init(ps), |ps| - 1)
    ensures StopsAt(m, ps, if FitsAt(m, ps, |ps| - 1) then |ps| else |ps| - 1)
  {
    assert Init(ps)[..|ps| - 1] == Init(ps) == ps[..|ps| - 1];
    assert ps[..|ps|] == ps;
    KnownInit(m, ps);
    ApplyLaw(m, Init(ps));
    LastApplied(m, ps);
  }

  // ----- atomicity -----

  /** An accepted journal is all or nothing exactly when no running balance overflows, or what was
      applied before the overflow nets to zero on every account. */
  lemma AllOrNothing(b: Books, e: JournalEntry)
    requires Acceptable(b, e) && e.idempotencyKey !in b.seen
    ensures Known(b.accounts, e.postings)
    ensures var k := FirstMisfit(b.accounts, e.postings); var after := AfterPost(b, e, true);
      && (after.journals == b.journals + [e] <==> k == |e.postings|)
      && (after.journals == b.journals + [e] || after == b <==>
            k == |e.postings| || forall a :: a in b.accounts ==> Delta(e.postings[..k], a) == 0)
  {
    AcceptableAccounts(b.accounts, e.postings);
    var k := FirstMisfit(b.accounts, e.postings);
    StopsAtFirstMisfit(b.accounts, e.postings);
    assert |b.journals + [e]| > |b.journals|;
    if k < |e.postings| {
      NetsToNothing(b.accounts, e.postings[..k]);
      assert AfterPost(b, e, true) == b.(accounts := Apply(b.accounts, e.postings[..k]).0);
    }
  }

  lemma NetsToNothing(m: Accounts, ps: seq<Posting>)
    requires Known(m, ps) && FitsThrough(m, ps)
    ensures Apply(m, ps).0 == m <==> forall a :: a in m ==> Delta(ps, a) == 0
  {
    ApplyLaw(m, ps);
    var after := Apply(m, ps).0;
    if after == m {
      forall a | a in m ensures Delta(ps, a) == 0 {
        assert after[a] == m[a];
      }
    }
    if forall a :: a in m ==> Delta(ps, a) == 0 {
      assert after == m;
    }
  }

  /** The property does fail: a credit that overflows leaves the earlier debit in place, although
      the journal is balanced, funded and not recorded. */
  lemma PartialPost(c: string)
    ensures var payer := AccountState(1, c, 10, 0, false); var full := AccountState(2, c, MAX, 0, false);
      var b := Books(map[1 := payer, 2 := full], map[], []);
      var e := JournalEntry(7, 8, "k", "", [Posting(1, Money(5, c), Debit), Posting(2, Money(5, c), Credit)]);
      && Acceptable(b, e)
      && AfterPost(b, e, true) == b.(accounts := map[1 := payer.(balanceMinor := 5), 2 := full])
  {
    var payer, full := AccountState(1, c, 10, 0, false), AccountState(2, c, MAX, 0, false);
    var m := map[1 := payer, 2 := full];
    var ps := [Posting(1, Money(5, c), Debit), Posting(2, Money(5, c), Credit)];
    var b := Books(m, map[], []);
    var e := JournalEntry(7, 8, "k", "", ps);
    assert Init(ps) == [ps[0]] && Init([ps[0]]) == [];
    assert ps[..2] == ps && ps[..1] == [ps[0]] && ps[..0] == [];
    forall d ensures Net([ps[0]], d) == (if d == c then -5 else 0) && Net(ps, d) == 0 {
    }
    assert Balanced(ps);
    assert Clear(m, ps);
    var left := m[1 := payer.(balanceMinor := 5)];
    assert Apply(m, [ps[0]]) == (left, true);
    assert Apply(m, ps) == (left, false);
    assert left == map[1 := payer.(balanceMinor := 5), 2 := full];
    assert Acceptable(b, e);
  }

  // ----- totals over the map of accounts -----

  function Share(a: AccountState, c: string): int {
    if a.currency == c then a.balanceMinor else 0
  }

  ghost function Total(m: Accounts, c: string): int
    decreases |m|
  {
    if m == map[] then 0
    else
      var k :| k in m;
      Share(m[k], c) + Total(m - {k}, c)
  }

  lemma {:induction false} TotalRemove(m: Accounts, k: Uuid, c: string)
    requires k in m
    ensures Total(m, c) == Share(m[k], c) + Total(m - {k}, c)
    decreases |m|
  {
    var j :| j in m && Total(m, c) == Share(m[j], c) + Total(m - {j}, c);
    if j != k {
      TotalRemove(m - {j}, k, c);
      TotalRemove(m - {k}, j, c);
      assert m - {j} - {k} == m - {k} - {j};
    }
  }

  lemma TotalInsert(m: Accounts, k: Uuid, a: AccountState, c: string)
    ensures Total(m[k := a], c) == Share(a, c) + Total(m - {k}, c)
  {
    TotalRemove(m[k := a], k, c);
    assert m[k := a] - {k} == m - {k};
  }

  lemma {:induction false} TotalNonNegative(m: Accounts, c: string)
    requires forall a :: a in m ==> m[a].balanceMinor >= 0
    ensures Total(m, c) >= 0
    decreases |m|
  {
    if m != map[] {
      var k :| k in m;
      TotalRemove(m, k, c);
      TotalNonNegative(m - {k}, c);
    }
  }

  lemma ShareWithinTotal(m: Accounts, k: Uuid, c: string)
    requires k in m && forall a :: a in m ==> m[a].balanceMinor >= 0
    ensures Share(m[k], c) <= Total(m, c)
  {
    TotalRemove(m, k, c);
    TotalNonNegative(m - {k}, c);
  }

  // ----- conservation -----

  ghost predicate Matched(m: Accounts, ps: seq<Posting>) {
    forall i :: 0 <= i < |ps| ==>
      ps[i].accountId in m && m[ps[i].accountId].currency == ps[i].money.currency
  }

  lemma ClearIsMatched(m: Accounts, ps: seq<Posting>)
    requires Clear(m, ps)
    ensures Matched(m, ps)
  {
    forall i | 0 <= i < |ps|
      ensures ps[i].accountId in m && m[ps[i].accountId].currency == ps[i].money.currency
    {
      assert Problem(m, ps[i]) == None;
    }
  }

  /** Applying postings moves each currency's total by their net in that currency. */
  lemma {:induction false} ApplyMovesTotal(m: Accounts, ps: seq<Posting>, c: string)
    requires Matched(m, ps) && Apply(m, ps).1
    ensures Total(Apply(m, ps).0, c) == Total(m, c) + Net(ps, c)
    ensures forall a :: a in m ==> Apply(m, ps).0[a].currency == m[a].currency
  {
    if ps != [] {
      forall i | 0 <= i < |Init(ps)|
        ensures Init(ps)[i].accountId in m && m[Init(ps)[i].accountId].currency == Init(ps)[i].money.currency
      {
        assert Init(ps)[i] == ps[i];
      }
      ApplyMovesTotal(m, Init(ps), c);
      var p := ps[|ps| - 1];
      var before := Apply(m, Init(ps)).0;
      TotalRemove(before, p.accountId, c);
      TotalInsert(before, p.accountId, Apply(m, ps).0[p.accountId], c);
    }
  }

  /** Whatever post returns, a journal that is recorded leaves the total of every currency as it
      was, however many currencies and however many postings per account it has. */
  lemma Conservation(b: Books, e: JournalEntry, authorised: bool, c: string)
    requires AfterPost(b, e, authorised).journals != b.journals
    ensures Total(AfterPost(b, e, authorised).accounts, c) == Total(b.accounts, c)
  {
    AcceptableAccounts(b.accounts, e.postings);
    ClearIsMatched(b.accounts, e.postings);
    ApplyMovesTotal(b.accounts, e.postings, c);
  }

  // ----- debits, credits and the real overflow bound -----

  /** The amounts the source can take the absolute value of. */
  ghost predicate NoMin(ps: seq<Posting>) {
    forall i :: 0 <= i < |ps| ==> ps[i].money.amountMinor != MIN
  }

  ghost predicate DebitsEachOnce(ps: seq<Posting>) {
    forall i, j :: 0 <= i < j < |ps| && ps[i].direction == Debit && ps[j].direction == Debit ==>
      ps[i].accountId != ps[j].accountId
  }

  function Abs(x: int): nat {
    if x < 0 then -x else x
  }

  function Moved(ps: seq<Posting>, d: Direction, a: Uuid): nat {
    if ps == [] then 0
    else Moved(Init(ps), d, a)
         + if Last(ps).direction == d && Last(ps).accountId == a then Abs(Last(ps).money.amountMinor) else 0
  }

  function MovedIn(ps: seq<Posting>, d: Direction, c: string): nat {
    if ps == [] then 0
    else MovedIn(Init(ps), d, c)
         + if Last(ps).direction == d && Last(ps).money.currency == c then Abs(Last(ps).money.amountMinor) else 0
  }

  lemma InitKeeps(ps: seq<Posting>)
    requires ps != []
    ensures NoMin(ps) ==> NoMin(Init(ps)) && Last(ps).money.amountMinor != MIN
    ensures DebitsEachOnce(ps) ==> DebitsEachOnce(Init(ps))
    ensures forall i :: 0 <= i < |ps| - 1 ==> Init(ps)[i] == ps[i]
  {
  }

  lemma DeltaOf(p: Posting)
    requires p.money.amountMinor != MIN
    ensures p.SignedDelta() == if p.direction == Credit then Abs(p.money.amountMinor) else 0 - Abs(p.money.amountMinor)
  {
    assert p.money.Abs() == Abs(p.money.amountMinor);
  }

  lemma {:induction false} DeltaSplits(ps: seq<Posting>, a: Uuid, c: string)
    requires NoMin(ps)
    ensures Delta(ps, a) == Moved(ps, Credit, a) - Moved(ps, Debit, a)
    ensures Net(ps, c) == MovedIn(ps, Credit, c) - MovedIn(ps, Debit, c)
  {
    if ps != [] {
      InitKeeps(ps);
      DeltaOf(Last(ps));
      DeltaSplits(Init(ps), a, c);
    }
  }

  lemma {:induction false} MovedPrefix(ps: seq<Posting>, k: nat, d: Direction, a: Uuid)
    requires k <= |ps|
    ensures Moved(ps[..k], d, a) <= Moved(ps, d, a)
  {
    if k == |ps| {
      assert ps[..k] == ps;
    } else {
      assert Init(ps)[..k] == ps[..k];
      MovedPrefix(Init(ps), k, d, a);
    }
  }

  /** What is credited to an account is part of what is credited in its currency. */
  lemma {:induction false} MovedWithinCurrency(m: Accounts, ps: seq<Posting>, d: Direction, a: Uuid)
    requires Matched(m, ps) && a in m
    ensures Moved(ps, d, a) <= MovedIn(ps, d, m[a].currency)
  {
    if ps != [] {
      InitKeeps(ps);
      assert ps[|ps| - 1].accountId in m;
      MovedWithinCurrency(m, Init(ps), d, a);
    }
  }

  ghost predicate Funded(m: Accounts, ps: seq<Posting>) {
    forall i :: 0 <= i < |ps| && ps[i].direction == Debit ==>
      && ps[i].accountId in m
      && Abs(ps[i].money.amountMinor) <= m[ps[i].accountId].balanceMinor - m[ps[i].accountId].holdMinor
  }

  ghost predicate NotDebited(ps: seq<Posting>, a: Uuid) {
    forall i :: 0 <= i < |ps| ==> !(ps[i].direction == Debit && ps[i].accountId == a)
  }

  lemma {:induction false} NotDebitedMovesNothing(ps: seq<Posting>, a: Uuid)
    requires NotDebited(ps, a)
    ensures Moved(ps, Debit, a) == 0
  {
    if ps != [] {
      InitKeeps(ps);
      assert !(ps[|ps| - 1].direction == Debit && ps[|ps| - 1].accountId == a);
      NotDebitedMovesNothing(Init(ps), a);
    }
  }

  lemma LastDebitIsOnly(ps: seq<Posting>)
    requires DebitsEachOnce(ps) && ps != [] && Last(ps).direction == Debit
    ensures NotDebited(Init(ps), Last(ps).accountId)
  {
    forall i | 0 <= i < |Init(ps)|
      ensures !(Init(ps)[i].direction == Debit && Init(ps)[i].accountId == Last(ps).accountId)
    {
      assert Init(ps)[i] == ps[i];
    }
  }

  /** Debited at all, and then once, an account is debited by no more than it has available. */
  lemma {:induction false} DebitWithinAvailable(m: Accounts, ps: seq<Posting>, a: Uuid)
    requires DebitsEachOnce(ps) && Funded(m, ps) && a in m
    ensures Moved(ps, Debit, a) == 0 || Moved(ps, Debit, a) <= m[a].balanceMinor - m[a].holdMinor
  {
    if ps != [] {
      InitKeeps(ps);
      if Last(ps).direction == Debit && Last(ps).accountId == a {
        LastDebitIsOnly(ps);
        NotDebitedMovesNothing(Init(ps), a);
        assert ps[|ps| - 1].direction == Debit;
      } else {
        DebitWithinAvailable(m, Init(ps), a);
      }
    }
  }

  /** All debits in a currency together are covered by the currency's total. */
  lemma {:induction false} DebitsWithinTotal(m: Accounts, ps: seq<Posting>, c: string)
    requires DebitsEachOnce(ps) && Funded(m, ps) && NonNegative(m)
    requires forall i :: 0 <= i < |ps| && ps[i].direction == Debit ==>
      ps[i].accountId in m && m[ps[i].accountId].currency == ps[i].money.currency
    ensures MovedIn(ps, Debit, c) <= Total(m, c)
  {
    if ps == [] {
      TotalNonNegative(m, c);
    } else {
      InitKeeps(ps);
      var p := ps[|ps| - 1];
      if p.direction == Debit {
        LastDebitIsOnly(ps);
        TotalRemove(m, p.accountId, c);
        DebitsWithinTotal(m - {p.accountId}, Init(ps), c);
      } else {
        DebitsWithinTotal(m, Init(ps), c);
      }
    }
  }

  ghost predicate NonNegative(m: Accounts) {
    forall a :: a in m ==> 0 <= m[a].holdMinor && 0 <= m[a].balanceMinor
  }

  /** What a caller must see to before posting. */
  ghost predicate Careful(ps: seq<Posting>) {
    NoMin(ps) && DebitsEachOnce(ps)
  }

  ghost predicate Healthy(m: Accounts) {
    NonNegative(m) && forall c :: Total(m, c) <= HALF
  }

  lemma ClearIsFunded(m: Accounts, ps: seq<Posting>)
    requires Clear(m, ps) && NoMin(ps) && NonNegative(m)
    ensures Funded(m, ps)
  {
    forall i | 0 <= i < |ps| && ps[i].direction == Debit
      ensures ps[i].accountId in m
      ensures Abs(ps[i].money.amountMinor) <= m[ps[i].accountId].balanceMinor - m[ps[i].accountId].holdMinor
    {
      assert Problem(m, ps[i]) == None;
    }
  }

  /** The running balance of an account in a careful journal never falls below zero, nor below a
      hold that was covered, and rises by at most its currency's total. */
  lemma RunningBalance(m: Accounts, ps: seq<Posting>, k: nat, a: Uuid)
    requires Clear(m, ps) && ZeroNet(ps) && Careful(ps) && k <= |ps| && a in m && NonNegative(m)
    ensures 0 <= m[a].balanceMinor + Delta(ps[..k], a)
    ensures m[a].holdMinor <= m[a].balanceMinor ==> m[a].holdMinor <= m[a].balanceMinor + Delta(ps[..k], a)
    ensures m[a].balanceMinor + Delta(ps[..k], a) <= m[a].balanceMinor + Total(m, m[a].currency)
  {
    var c := m[a].currency;
    ClearIsFunded(m, ps);
    ClearIsMatched(m, ps);
    DeltaSplits(ps[..k], a, c);
    DeltaSplits(ps, a, c);
    MovedPrefix(ps, k, Debit, a);
    MovedPrefix(ps, k, Credit, a);
    DebitWithinAvailable(m, ps, a);
    MovedWithinCurrency(m, ps, Credit, a);
    DebitsWithinTotal(m, ps, c);
  }

  /** The real bound: if balances and holds are not negative, each currency's total is at most half the
      i64 range and the journal is careful, the apply loop never overflows at any prefix. */
  lemma NeverOverflows(m: Accounts, ps: seq<Posting>)
    requires Healthy(m) && Balanced(ps) && Clear(m, ps) && Careful(ps)
    ensures Known(m, ps) && FitsThrough(m, ps) && Apply(m, ps).1
  {
    AcceptableAccounts(m, ps);
    forall i | 0 <= i < |ps| ensures FitsAt(m, ps, i) {
      var a := ps[i].accountId;
      RunningBalance(m, ps, i + 1, a);
      ShareWithinTotal(m, a, m[a].currency);
    }
    ApplyLaw(m, ps);
  }

  lemma ApplyKeepsHealth(m: Accounts, ps: seq<Posting>)
    requires Healthy(m) && Balanced(ps) && Clear(m, ps) && Careful(ps)
    ensures Known(m, ps) && Apply(m, ps).1 && Healthy(Apply(m, ps).0)
  {
    NeverOverflows(m, ps);
    ApplyLaw(m, ps);
    ClearIsMatched(m, ps);
    var after := Apply(m, ps).0;
    forall c ensures Total(after, c) <= HALF {
      ApplyMovesTotal(m, ps, c);
    }
    forall a | a in after ensures 0 <= after[a].holdMinor && 0 <= after[a].balanceMinor {
      RunningBalance(m, ps, |ps|, a);
      assert ps[..|ps|] == ps;
    }
  }

  /** Under the bound, post either records the journal with every posting applied or changes
      nothing at all, and the bound still holds afterwards. */
  lemma PostIsAtomic(b: Books, e: JournalEntry, authorised: bool)
    requires Healthy(b.accounts) && Careful(e.postings)
    ensures var after := AfterPost(b, e, authorised);
      && Healthy(after.accounts)
      && (after == b || after.journals == b.journals + [e])
      && (after.journals == b.journals + [e] ==> FullyApplied(b.accounts, e.postings, after.accounts))
  {
    assert |b.journals + [e]| > |b.journals|;
    if AfterPost(b, e, authorised) != b {
      ApplyKeepsHealth(b.accounts, e.postings);
      ApplyLaw(b.accounts, e.postings);
    }
  }

  // ----- solvency -----

  ghost predicate Solvent(m: Accounts) {
    forall a :: a in m ==> 0 <= m[a].holdMinor <= m[a].balanceMinor
  }

  /** No careful journal makes an account insolvent, in whatever order it debits and credits, and
      even if the apply loop overflows and stops half way. */
  lemma PostKeepsSolvency(b: Books, e: JournalEntry, authorised: bool)
    requires Solvent(b.accounts) && Careful(e.postings)
    ensures Solvent(AfterPost(b, e, authorised).accounts)
  {
    var after := AfterPost(b, e, authorised);
    if after.accounts != b.accounts {
      var m, ps := b.accounts, e.postings;
      AcceptableAccounts(m, ps);
      StopsAtFirstMisfit(m, ps);
      var k := FirstMisfit(m, ps);
      ApplyLaw(m, ps[..k]);
      forall a | a in after.accounts ensures 0 <= after.accounts[a].holdMinor <= after.accounts[a].balanceMinor {
        RunningBalance(m, ps, k, a);
      }
    }
  }

  /** What the apply loop would leave on each account covers its hold. A caller can work this out
      before posting: it takes the balances, the postings and where the first overflow falls. */
  ghost predicate Covered(m: Accounts, ps: seq<Posting>) {
    Known(m, ps) && forall a :: a in m ==> m[a].holdMinor <= m[a].balanceMinor + Delta(ps[..FirstMisfit(m, ps)], a)
  }

  /** An accepted journal leaves all accounts solvent exactly when what the loop applies covers every
      hold, whatever the amounts and whether or not it stops half way; the per-posting check on funds
      is weaker than that. */
  lemma SolvencyExactly(b: Books, e: JournalEntry)
    requires Solvent(b.accounts) && Acceptable(b, e) && e.idempotencyKey !in b.seen
    ensures Solvent(AfterPost(b, e, true).accounts) <==> Covered(b.accounts, e.postings)
  {
    var m, ps := b.accounts, e.postings;
    AcceptableAccounts(m, ps);
    StopsAtFirstMisfit(m, ps);
    var done := ps[..FirstMisfit(m, ps)];
    ApplyLaw(m, done);
    var after := Apply(m, done).0;
    assert AfterPost(b, e, true).accounts == after;
    forall a | a in m
      ensures after[a].balanceMinor == m[a].balanceMinor + Delta(done, a) && after[a].holdMinor == m[a].holdMinor
    {
      assert MovedByDelta(m, done, after, a);
    }
  }

  /** For a journal that goes through, with amounts that have absolute values: account by account,
      its debits are covered by what was available plus its own credits. */
  lemma SolvencyOfRecorded(b: Books, e: JournalEntry)
    requires Solvent(b.accounts) && NoMin(e.postings)
    requires AfterPost(b, e, true).journals != b.journals
    ensures Solvent(AfterPost(b, e, true).accounts) <==> forall a :: a in b.accounts ==>
      Moved(e.postings, Debit, a)
        <= b.accounts[a].balanceMinor - b.accounts[a].holdMinor + Moved(e.postings, Credit, a)
  {
    var m, ps := b.accounts, e.postings;
    SolvencyExactly(b, e);
    AcceptableAccounts(m, ps);
    StopsAtFirstMisfit(m, ps);
    assert ps[..FirstMisfit(m, ps)] == ps;
    forall a | a in m ensures Delta(ps, a) == Moved(ps, Credit, a) - Moved(ps, Debit, a) {
      DeltaSplits(ps, a, "");
    }
  }

  /** Two debits of 60 from an account holding 100 each pass the check, and overdraw it. */
  lemma DoubleDebitOverdraws(c: string)
    ensures var m := map[1 := AccountState(1, c, 100, 0, false), 2 := AccountState(2, c, 0, 0, false)];
      var b := Books(m, map[], []);
      var e := JournalEntry(7, 8, "k", "",
        [Posting(1, Money(60, c), Debit), Posting(1, Money(60, c), Debit), Posting(2, Money(120, c), Credit)]);
      && Solvent(b.accounts) && AfterPost(b, e, true).journals == [e]
      && AfterPost(b, e, true).accounts[1].balanceMinor == -20
  {
    var m := map[1 := AccountState(1, c, 100, 0, false), 2 := AccountState(2, c, 0, 0, false)];
    var x, y := Posting(1, Money(60, c), Debit), Posting(2, Money(120, c), Credit);
    var ps := [x, x, y];
    var b, e := Books(m, map[], []), JournalEntry(7, 8, "k", "", ps);
    assert ps[..3] == ps && ps[..2] == [x, x] && ps[..1] == [x] && ps[..0] == [];
    assert Init(ps) == [x, x] && Init([x, x]) == [x] && Init([x]) == [];
    forall d ensures Net([x], d) == (if d == c then -60 else 0) && Net([x, x], d) == (if d == c then -120 else 0)
      && Net(ps, d) == 0 {
    }
    assert Balanced(ps) && Clear(m, ps);
    var once := m[1 := m[1].(balanceMinor := 40)];
    assert Apply(m, [x]) == (once, true);
    assert Apply(m, [x, x]) == (once[1 := once[1].(balanceMinor := -20)], true);
    assert Apply(m, ps).1;
    assert Acceptable(b, e);
  }

  /** And an amount of i64::MIN, whose absolute value wraps back to itself in a release build, passes
      the check of an empty account and overdraws it to the limit. */
  lemma MinAmountOverdraws(c: string)
    ensures var m := map[1 := AccountState(1, c, 0, 0, false), 2 := AccountState(2, c, 0, 0, false)];
      var b := Books(m, map[], []);
      var e := JournalEntry(7, 8, "k", "",
        [Posting(1, Money(MIN, c), Debit), Posting(2, Money(MAX, c), Credit), Posting(1, Money(1, c), Credit)]);
      && Solvent(b.accounts) && DebitsEachOnce(e.postings) && AfterPost(b, e, true).journals == [e]
      && AfterPost(b, e, true).accounts[1].balanceMinor == MIN + 1
  {
    var m := map[1 := AccountState(1, c, 0, 0, false), 2 := AccountState(2, c, 0, 0, false)];
    var x, y, z := Posting(1, Money(MIN, c), Debit), Posting(2, Money(MAX, c), Credit), Posting(1, Money(1, c), Credit);
    var ps := [x, y, z];
    var b, e := Books(m, map[], []), JournalEntry(7, 8, "k", "", ps);
    assert x.SignedDelta() == MIN && y.SignedDelta() == MAX && z.SignedDelta() == 1;
    assert Init(ps) == [x, y] && Init([x, y]) == [x] && Init([x]) == [];
    assert Balanced(ps) by {
      assert ps[..3] == ps && ps[..2] == [x, y] && ps[..1] == [x] && ps[..0] == [];
      forall d ensures Net([x], d) == (if d == c then MIN else 0) && Net([x, y], d) == (if d == c then -1 else 0)
        && Net(ps, d) == 0 {
      }
    }
    assert Clear(m, ps);
    var first := m[1 := m[1].(balanceMinor := MIN)];
    var second := first[2 := first[2].(balanceMinor := MAX)];
    assert Apply(m, [x]) == ApplyOne(m, x) == (first, true);
    assert Apply(m, [x, y]) == ApplyOne(first, y) == (second, true);
    assert Apply(m, ps) == ApplyOne(second, z) == (second[1 := second[1].(balanceMinor := MIN + 1)], true);
    assert Acceptable(b, e);
  }
}
