/** packages/offline-queue/src/index.ts: the queue over objects that the storage, the loop's
    snapshot and the caller share. */
module OfflineQueue {
  import opened Seqs
  import opened Wrappers

  datatype Status = Pending | Syncing | Synced | Failed | Rejected

  datatype Kind = DomesticTransfer | Airtime | FreezeWallet

  /** What awaiting the sender gives: a result, or an exception with its message. */
  datatype SendOutcome = Result(ok: bool, permanent: bool, error: Option<string>) | Threw(message: string)

  predicate Terminal(s: Status) {
    s == Synced || s == Rejected
  }

  predicate Retryable(o: SendOutcome) {
    o.Threw? || (!o.ok && !o.permanent)
  }

  function StatusAfter(o: SendOutcome): Status {
    if o.Threw? then Failed
    else if o.ok then Synced
    else if o.permanent then Rejected
    else Failed
  }

  function ErrorAfter(o: SendOutcome, before: Option<string>): Option<string> {
    if o.Threw? then Some(o.message)
    else if o.ok then before
    else Some(OrElse(o.error, if o.permanent then "rejected" else "unknown"))
  }

  class PendingTransfer {
    var id: string
    var kind: Kind
    var payload: string
    var authorisationRef: string
    var createdAt: string
    var status: Status
    var lastError: Option<string>

    constructor (id: string, kind: Kind, payload: string, authorisationRef: string, createdAt: string,
                 lastError: Option<string>)
      ensures this.id == id && this.kind == kind && this.payload == payload
      ensures this.authorisationRef == authorisationRef && this.createdAt == createdAt
      ensures this.status == Pending && this.lastError == lastError
    {
      this.id, this.kind, this.payload := id, kind, payload;
      this.authorisationRef, this.createdAt := authorisationRef, createdAt;
      this.status, this.lastError := Pending, lastError;
    }
  }

  /** The two fields flush changes. */
  datatype Slot = Slot(status: Status, lastError: Option<string>)

  function Slots(items: seq<PendingTransfer>): (slots: seq<Slot>)
    reads items
    ensures |slots| == |items|
  {
    seq(|items|, i requires 0 <= i < |items| reads items => Slot(items[i].status, items[i].lastError))
  }

  // ----- what one flush does to the slots, given the answers it gets -----

  /** The positions a flush sends, in list order. */
  function Due(slots: seq<Slot>): seq<nat> {
    if slots == [] then []
    else Due(Init(slots)) + if Terminal(Last(slots).status) then [] else [|slots| - 1]
  }

  function Settled(s: Slot, o: SendOutcome): Slot {
    Slot(StatusAfter(o), ErrorAfter(o, s.lastError))
  }

  /** The slots after each due item has received its answer. */
  function Flushed(slots: seq<Slot>, answers: seq<SendOutcome>): (after: seq<Slot>)
    requires |answers| == |Due(slots)|
    ensures |after| == |slots|
  {
    if slots == [] then []
    else if Terminal(Last(slots).status) then Flushed(Init(slots), answers) + [Last(slots)]
    else Flushed(Init(slots), Init(answers)) + [Settled(Last(slots), Last(answers))]
  }

  function CountOk(answers: seq<SendOutcome>): (n: nat)
    ensures n <= |answers|
  {
    if answers == [] then 0
    else CountOk(Init(answers)) + if Last(answers).Result? && Last(answers).ok then 1 else 0
  }

  datatype Sending = Sending(item: PendingTransfer, answer: SendOutcome)

  function Answers(log: seq<Sending>): (a: seq<SendOutcome>)
    ensures |a| == |log|
  {
    seq(|log|, i requires 0 <= i < |log| => log[i].answer)
  }

  datatype EnqueueError = MissingAuthorisation | StorageThrew

  datatype Counts = Counts(synced: nat, failed: nat, skipped: nat)

  /** How one turn of the loop ends: saved, or with an exception of the first or the second save. */
  datatype Turn = Done(answer: SendOutcome) | NotSent | NotSaved(answer: SendOutcome)

  function Marked(s: Slot): Slot {
    s.(status := Syncing)
  }

  /** The network: any answer may come back. An item is sent only once it is marked syncing, in
      memory and in what was last saved. */
  class Sender {
    var log: seq<Sending>

    constructor ()
      ensures log == []
    {
      log := [];
    }

    method Send(item: PendingTransfer, ghost storage: QueueStorage, ghost i: nat) returns (answer: SendOutcome)
      requires i < |storage.items| == |storage.saved|
      requires storage.items[i] == item && item.status == storage.saved[i].status == Syncing
      modifies this
      ensures log == old(log) + [Sending(item, answer)]
    {
      answer := *;
      log := log + [Sending(item, answer)];
    }
  }

  /** A QueueStorage: it shares the items with its callers, and either call may throw unless it is
      reliable, as MemoryStorage is. Saved is what the items looked like when they were last saved,
      which is all a durable storage would keep. */
  class QueueStorage {
    const reliable: bool
    var items: seq<PendingTransfer>
    ghost var saved: seq<Slot>

    constructor (reliable: bool)
      ensures items == [] && saved == [] && this.reliable == reliable
    {
      this.reliable := reliable;
      items := [];
      saved := [];
    }

    /** None is an exception. */
    method Load() returns (copy: Option<seq<PendingTransfer>>)
      ensures reliable ==> copy.Some?
      ensures copy.Some? ==> copy.value == items
    {
      var fine: bool := *;
      copy := if reliable || fine then Some(items) else None;
    }

    method Save(items: seq<PendingTransfer>) returns (threw: bool)
      modifies this
      ensures reliable ==> !threw
      ensures if threw then unchanged(this) else this.items == items && saved == Slots(items)
    {
      var fine: bool := *;
      if !reliable && !fine {
        return true;
      }
      this.items := items;
      saved := Slots(items);
      return false;
    }
  }

  ghost predicate Distinct(items: seq<PendingTransfer>) {
    forall i, j :: 0 <= i < j < |items| ==> items[i] != items[j]
  }

  /** The objects at the given positions. */
  function At(items: seq<PendingTransfer>, positions: seq<nat>): seq<PendingTransfer>
    requires forall k :: k in positions ==> k < |items|
  {
    seq(|positions|, i requires 0 <= i < |positions| =>
      assert positions[i] in positions;
      items[positions[i]])
  }

  function Objects(log: seq<Sending>): (xs: seq<PendingTransfer>)
    ensures |xs| == |log|
  {
    seq(|log|, i requires 0 <= i < |log| => log[i].item)
  }

  lemma {:induction false} DueInRange(slots: seq<Slot>)
    ensures forall k :: k in Due(slots) ==> k < |slots| && !Terminal(slots[k].status)
    ensures forall i, j :: 0 <= i < j < |Due(slots)| ==> Due(slots)[i] < Due(slots)[j]
    ensures forall k :: 0 <= k < |slots| && !Terminal(slots[k].status) ==> k in Due(slots)
  {
    if slots != [] {
      DueInRange(Init(slots));
      forall i | 0 <= i < |Due(Init(slots))| ensures Due(Init(slots))[i] < |slots| - 1 {
        assert Due(Init(slots))[i] in Due(Init(slots));
      }
      forall k | 0 <= k < |slots| && !Terminal(slots[k].status) ensures k in Due(slots) {
        if k < |slots| - 1 {
          assert Init(slots)[k] == slots[k];
        }
      }
    }
  }

  class OfflineQueue {
    const storage: QueueStorage
    var flushing: bool

    ghost predicate Valid()
      reads this, storage
    {
      Distinct(storage.items)
    }

    constructor (storage: QueueStorage)
      requires Distinct(storage.items)
      ensures this.storage == storage && !flushing && Valid()
    {
      this.storage := storage;
      flushing := false;
    }

    method Enqueue(id: string, kind: Kind, payload: string, authorisationRef: string,
                   createdAt: Option<string>, lastError: Option<string>, now: string)
      returns (full: Result<PendingTransfer, EnqueueError>)
      requires Valid()
      modifies storage
      ensures Valid()
      ensures full == Err(MissingAuthorisation) <==> authorisationRef == ""
      ensures full == Err(StorageThrew) ==> !storage.reliable
      ensures full.Err? ==> unchanged(storage)
      ensures full.Ok? ==> fresh(full.value) && storage.items == old(storage.items) + [full.value]
      ensures full.Ok? ==> full.value.id == id && full.value.kind == kind && full.value.payload == payload
      ensures full.Ok? ==> full.value.authorisationRef == authorisationRef && full.value.status == Pending
      ensures full.Ok? ==> full.value.createdAt == OrElse(createdAt, now) && full.value.lastError == lastError
    {
      if authorisationRef == "" {
        return Err(MissingAuthorisation);
      }
      var item := new PendingTransfer(id, kind, payload, authorisationRef, OrElse(createdAt, now), lastError);
      var items := storage.Load();
      if items.None? {
        return Err(StorageThrew);
      }
      var threw := storage.Save(items.value + [item]);
      return if threw then Err(StorageThrew) else Ok(item);
    }

    /** Flush; None is an exception of the storage, after which the guard is released all the same.
        The frame says that of the items only status and lastError change. */
    method Flush(sender: Sender) returns (counts: Option<Counts>)
      requires Valid()
      modifies this`flushing, storage, storage.items`status, storage.items`lastError, sender
      ensures Valid() && flushing == old(flushing) && storage.items == old(storage.items)
      ensures old(flushing) || storage.reliable ==> counts.Some?
      ensures old(flushing) ==>
        && Slots(storage.items) == old(Slots(storage.items)) && sender.log == old(sender.log)
        && counts == Some(Counts(0, 0, 0))
      ensures !old(flushing) ==> old(sender.log) <= sender.log
      ensures !old(flushing) && counts.Some? ==>
        Completed(storage.items, old(Slots(storage.items)), Slots(storage.items),
                  sender.log[|old(sender.log)|..], counts.value)
      ensures counts.Some? && sender.log != old(sender.log) ==> storage.saved == Slots(storage.items)
      ensures counts.None? ==>
        Interrupted(storage.items, old(Slots(storage.items)), Slots(storage.items), sender.log[|old(sender.log)|..])
    {
      if flushing {
        return Some(Counts(0, 0, 0));
      }
      flushing := true;
      var items := storage.Load();
      if items.Some? {
        counts := Drain(items.value, sender);
      } else {
        counts := None;
      }
      flushing := false;
    }

    /** The loop of flush, over the list it loaded. */
    method Drain(items: seq<PendingTransfer>, sender: Sender) returns (counts: Option<Counts>)
      requires Distinct(items) && storage.items == items
      modifies storage, items`status, items`lastError, sender
      ensures storage.items == items && old(sender.log) <= sender.log
      ensures storage.reliable ==> counts.Some?
      ensures counts.Some? && |sender.log| > |old(sender.log)| ==> storage.saved == Slots(items)
      ensures counts.Some? ==>
        Completed(items, old(Slots(items)), Slots(items), sender.log[|old(sender.log)|..], counts.value)
      ensures counts.None? ==>
        Interrupted(items, old(Slots(items)), Slots(items), sender.log[|old(sender.log)|..])
    {
      var synced, failed, skipped := 0, 0, 0;
      ghost var before, start := Slots(items), sender.log;
      var i := 0;
      ProgressStart(items, before);
      while i < |items|
        invariant 0 <= i <= |items| && storage.items == items && start <= sender.log
        invariant |sender.log| > |start| ==> storage.saved == Slots(items)
        invariant Progress(items, before, Slots(items), sender.log[|start|..], i, synced, failed, skipped)
      {
        ghost var slots, log := Slots(items), sender.log;
        if items[i].status == Synced || items[i].status == Rejected {
          skipped := skipped + 1;
          ProgressSkip(items, before, slots, log[|start|..], i, synced, failed, skipped);
        } else {
          var turn := Deliver(items, i, items[i], sender);
          if turn.NotSent? {
            StopMarked(items, before, slots, Slots(items), log[|start|..], i, synced, failed, skipped);
            return None;
          }
          var answer := turn.answer;
          TurnTaken(items, before, slots, Slots(items), start, log, i, answer, synced, failed, skipped);
          if turn.NotSaved? {
            return None;
          }
          if answer.Result? && answer.ok {
            synced := synced + 1;
          } else {
            failed := failed + 1;
          }
        }
        i := i + 1;
      }
      ProgressEnd(items, before, Slots(items), sender.log[|start|..], synced, failed, skipped);
      return Some(Counts(synced, failed, skipped));
    }

    /** One turn of the loop for an item that is not terminal: mark, save, await the sender, record
        its answer, save. A save that throws ends it there. */
    method Deliver(items: seq<PendingTransfer>, i: nat, item: PendingTransfer, sender: Sender) returns (turn: Turn)
      requires Distinct(items) && i < |items| && item == items[i] && storage.items == items
      modifies storage, item`status, item`lastError, sender
      ensures storage.items == items && (storage.reliable ==> turn.Done?)
      ensures turn.Done? ==> storage.saved == Slots(items)
      ensures turn.NotSent? ==> sender.log == old(sender.log) && storage.saved == old(storage.saved)
      ensures turn.NotSaved? ==> i < |storage.saved| && storage.saved[i].status == Syncing
      ensures !turn.NotSent? ==> sender.log == old(sender.log) + [Sending(items[i], turn.answer)]
      ensures Slots(items)[i] == if turn.NotSent? then Marked(old(Slots(items))[i])
                                 else Settled(old(Slots(items))[i], turn.answer)
      ensures Slots(items)[..i] == old(Slots(items)[..i]) && Slots(items)[i + 1..] == old(Slots(items)[i + 1..])
    {
      ghost var before := Slots(items);
      item.status := Syncing;
      var threw := storage.Save(items);
      if threw {
        OthersKept(before, Slots(items), i);
        return NotSent;
      }
      var answer := sender.Send(item, storage, i);
      match answer {
        case Threw(message) =>
          item.status := Failed;
          item.lastError := Some(message);
        case Result(ok, permanent, error) =>
          if ok {
            item.status := Synced;
          } else if permanent {
            item.status := Rejected;
            item.lastError := Some(OrElse(error, "rejected"));
          } else {
            item.status := Failed;
            item.lastError := Some(OrElse(error, "unknown"));
          }
      }
      threw := storage.Save(items);
      OthersKept(before, Slots(items), i);
      return if threw then NotSaved(answer) else Done(answer);
    }
  }

  lemma Suffix<T>(xs: seq<T>, x: T, n: nat)
    requires n <= |xs|
    ensures (xs + [x])[n..] == xs[n..] + [x] && xs[..n] <= xs + [x]
  {
  }

  lemma CountSending(sent: seq<Sending>, item: PendingTransfer, answer: SendOutcome)
    ensures CountOk(Answers(sent + [Sending(item, answer)]))
         == CountOk(Answers(sent)) + if answer.Result? && answer.ok then 1 else 0
  {
    assert Init(Answers(sent + [Sending(item, answer)])) == Answers(sent);
  }

  /** Each item that was not terminal was sent once, in list order, and each slot shows the answer. */
  ghost predicate SentAll(items: seq<PendingTransfer>, before: seq<Slot>, sent: seq<Sending>, after: seq<Slot>) {
    && |items| == |before| && |sent| == |Due(before)|
    && (DueInRange(before); Objects(sent) == At(items, Due(before)))
    && after == Flushed(before, Answers(sent))
  }

  /** The first i items have had their turn; the rest are as the flush found them. */
  ghost predicate Progress(items: seq<PendingTransfer>, before: seq<Slot>, now: seq<Slot>, sent: seq<Sending>,
                           i: nat, synced: nat, failed: nat, skipped: nat) {
    && i <= |items| == |before| == |now|
    && SentAll(items[..i], before[..i], sent, now[..i]) && now[i..] == before[i..]
    && synced == CountOk(Answers(sent)) && synced + failed == |sent| && synced + failed + skipped == i
  }

  lemma ProgressStart(items: seq<PendingTransfer>, before: seq<Slot>)
    requires |before| == |items|
    ensures Progress(items, before, before, [], 0, 0, 0, 0)
  {
  }

  lemma ProgressSkip(items: seq<PendingTransfer>, before: seq<Slot>, now: seq<Slot>, sent: seq<Sending>,
                     i: nat, synced: nat, failed: nat, skipped: nat)
    requires i < |items| && 0 < skipped && Progress(items, before, now, sent, i, synced, failed, skipped - 1)
    requires Terminal(now[i].status)
    ensures Progress(items, before, now, sent, i + 1, synced, failed, skipped)
  {
    assert now[i] == now[i..][0] == before[i..][0] == before[i];
    assert now[i + 1..] == now[i..][1..];
    SkipOne(items, before, now, sent, i);
  }

  lemma ProgressSend(items: seq<PendingTransfer>, before: seq<Slot>, was: seq<Slot>, now: seq<Slot>, sent: seq<Sending>,
                     i: nat, answer: SendOutcome, synced: nat, failed: nat, skipped: nat)
    requires i < |items| == |now| && Progress(items, before, was, sent, i, synced, failed, skipped)
    requires !Terminal(was[i].status) && now[i] == Settled(was[i], answer)
    requires now[..i] == was[..i] && now[i + 1..] == was[i + 1..]
    ensures !Terminal(before[i].status)
    ensures var ok := if answer.Result? && answer.ok then 1 else 0;
      Progress(items, before, now, sent + [Sending(items[i], answer)], i + 1, synced + ok, failed + 1 - ok, skipped)
  {
    assert was[i] == was[i..][0] == before[i..][0] == before[i];
    assert was[i + 1..] == was[i..][1..];
    CountSending(sent, items[i], answer);
    SendOne(items, before, was, now, sent, i, answer);
  }

  lemma ProgressEnd(items: seq<PendingTransfer>, before: seq<Slot>, now: seq<Slot>, sent: seq<Sending>,
                    synced: nat, failed: nat, skipped: nat)
    requires Progress(items, before, now, sent, |items|, synced, failed, skipped)
    ensures Completed(items, before, now, sent, Counts(synced, failed, skipped))
  {
    assert items[..|items|] == items && before[..|items|] == before && now[..|items|] == now;
  }

  /** A flush that ran to its end: everything due was sent, and the counts say how it went. */
  ghost predicate Completed(items: seq<PendingTransfer>, before: seq<Slot>, now: seq<Slot>, sent: seq<Sending>,
                            counts: Counts) {
    && SentAll(items, before, sent, now)
    && counts.synced == CountOk(Answers(sent)) && counts.synced + counts.failed == |sent|
    && counts.synced + counts.failed + counts.skipped == |items|
  }

  /** The storage threw at item i: those before it have had their turn, those after it are untouched,
      and it is marked but not sent, or sent and answered. */
  ghost predicate StoppedAt(items: seq<PendingTransfer>, before: seq<Slot>, now: seq<Slot>, sent: seq<Sending>,
                            i: nat) {
    && i < |items| == |before| == |now| && !Terminal(before[i].status) && now[i + 1..] == before[i + 1..]
    && ((SentAll(items[..i], before[..i], sent, now[..i]) && now[i] == Marked(before[i]))
        || SentAll(items[..i + 1], before[..i + 1], sent, now[..i + 1]))
  }

  ghost predicate Interrupted(items: seq<PendingTransfer>, before: seq<Slot>, now: seq<Slot>, sent: seq<Sending>) {
    (sent == [] && now == before) || exists i :: StoppedAt(items, before, now, sent, i)
  }

  lemma StopMarked(items: seq<PendingTransfer>, before: seq<Slot>, was: seq<Slot>, now: seq<Slot>, sent: seq<Sending>,
                   i: nat, synced: nat, failed: nat, skipped: nat)
    requires i < |items| == |now| && Progress(items, before, was, sent, i, synced, failed, skipped)
    requires !Terminal(was[i].status) && now[i] == Marked(was[i])
    requires now[..i] == was[..i] && now[i + 1..] == was[i + 1..]
    ensures Interrupted(items, before, now, sent)
  {
    assert was[i] == was[i..][0] == before[i..][0] == before[i];
    assert was[i + 1..] == was[i..][1..] == before[i..][1..] == before[i + 1..];
    assert StoppedAt(items, before, now, sent, i);
  }

  lemma StopAnswered(items: seq<PendingTransfer>, before: seq<Slot>, now: seq<Slot>, sent: seq<Sending>,
                     i: nat, synced: nat, failed: nat, skipped: nat)
    requires i < |items| == |before| && !Terminal(before[i].status)
    requires Progress(items, before, now, sent, i + 1, synced, failed, skipped)
    ensures Interrupted(items, before, now, sent)
  {
    assert StoppedAt(items, before, now, sent, i);
  }

  /** A turn that reached the sender, as the log shows it. */
  lemma TurnTaken(items: seq<PendingTransfer>, before: seq<Slot>, was: seq<Slot>, now: seq<Slot>,
                  start: seq<Sending>, log: seq<Sending>,
                  i: nat, answer: SendOutcome, synced: nat, failed: nat, skipped: nat)
    requires i < |items| == |now| && start <= log
    requires Progress(items, before, was, log[|start|..], i, synced, failed, skipped)
    requires !Terminal(was[i].status) && now[i] == Settled(was[i], answer)
    requires now[..i] == was[..i] && now[i + 1..] == was[i + 1..]
    ensures var ok := if answer.Result? && answer.ok then 1 else 0;
      var sent := (log + [Sending(items[i], answer)])[|start|..];
      && Progress(items, before, now, sent, i + 1, synced + ok, failed + 1 - ok, skipped)
      && Interrupted(items, before, now, sent)
  {
    var ok := if answer.Result? && answer.ok then 1 else 0;
    Suffix(log, Sending(items[i], answer), |start|);
    ProgressSend(items, before, was, now, log[|start|..], i, answer, synced, failed, skipped);
    StopAnswered(items, before, now, log[|start|..] + [Sending(items[i], answer)], i,
                 synced + ok, failed + 1 - ok, skipped);
  }

  lemma SkipOne(items: seq<PendingTransfer>, before: seq<Slot>, now: seq<Slot>, sent: seq<Sending>, i: nat)
    requires i < |items| == |before| == |now|
    requires SentAll(items[..i], before[..i], sent, now[..i])
    requires now[i] == before[i] && Terminal(before[i].status)
    ensures SentAll(items[..i + 1], before[..i + 1], sent, now[..i + 1])
  {
    assert Init(before[..i + 1]) == before[..i];
    assert Due(before[..i + 1]) == Due(before[..i]);
    assert now[..i + 1] == now[..i] + [now[i]];
    DueInRange(before[..i]);
    DueInRange(before[..i + 1]);
    assert At(items[..i + 1], Due(before[..i])) == At(items[..i], Due(before[..i])) by {
      AtPrefix(items, i, Due(before[..i]));
    }
  }

  lemma AtPrefix(items: seq<PendingTransfer>, i: nat, positions: seq<nat>)
    requires i < |items| && forall k :: k in positions ==> k < i
    ensures At(items[..i + 1], positions) == At(items[..i], positions)
  {
    assert forall n :: 0 <= n < |positions| ==> positions[n] in positions;
  }

  lemma SendOne(items: seq<PendingTransfer>, before: seq<Slot>, was: seq<Slot>, now: seq<Slot>,
                sent: seq<Sending>, i: nat, answer: SendOutcome)
    requires i < |items| == |before| == |was| == |now|
    requires SentAll(items[..i], before[..i], sent, was[..i])
    requires !Terminal(before[i].status) && now[..i] == was[..i] && now[i] == Settled(before[i], answer)
    ensures SentAll(items[..i + 1], before[..i + 1], sent + [Sending(items[i], answer)], now[..i + 1])
  {
    var all := sent + [Sending(items[i], answer)];
    assert Init(before[..i + 1]) == before[..i];
    assert Due(before[..i + 1]) == Due(before[..i]) + [i];
    assert Init(Answers(all)) == Answers(sent) && Last(Answers(all)) == answer;
    assert now[..i + 1] == now[..i] + [now[i]];
    DueInRange(before[..i]);
    DueInRange(before[..i + 1]);
    AtPrefix(items, i, Due(before[..i]));
    assert Objects(all) == Objects(sent) + [items[i]];
    assert At(items[..i + 1], Due(before[..i]) + [i]) == At(items[..i + 1], Due(before[..i])) + [items[i]];
  }

  /** Changing one object of a list without repetitions changes one slot. */
  lemma OthersKept(before: seq<Slot>, after: seq<Slot>, i: nat)
    requires i < |before| == |after|
    requires forall j :: 0 <= j < |before| && j != i ==> after[j] == before[j]
    ensures after[..i] == before[..i] && after[i + 1..] == before[i + 1..]
  {
  }

  // ----- laws of flush -----

  lemma {:induction false} SettledByAnswer(slots: seq<Slot>, answers: seq<SendOutcome>, k: nat) returns (n: nat)
    requires |answers| == |Due(slots)| && k < |slots| && !Terminal(slots[k].status)
    ensures n < |answers| && Due(slots)[n] == k && Flushed(slots, answers)[k] == Settled(slots[k], answers[n])
  {
    if k == |slots| - 1 {
      n := |answers| - 1;
    } else {
      n := SettledByAnswer(Init(slots), if Terminal(Last(slots).status) then answers else Init(answers), k);
      EarlierEdge(slots, answers, k);
    }
  }

  lemma {:induction false} TerminalStays(slots: seq<Slot>, answers: seq<SendOutcome>, k: nat)
    requires |answers| == |Due(slots)| && k < |slots| && Terminal(slots[k].status)
    ensures Flushed(slots, answers)[k] == slots[k]
  {
    if k < |slots| - 1 {
      EarlierEdge(slots, answers, k);
      TerminalStays(Init(slots), if Terminal(Last(slots).status) then answers else Init(answers), k);
    }
  }

  lemma SettledEnds(s: Slot, answer: SendOutcome)
    ensures Ends(Settled(s, answer), s, answer)
  {
  }

  /** Status moves only along the intended edges: synced and rejected items are not sent and stay as
      they are; every other one is sent, and its answer alone decides what it ends as, with which
      error. */
  lemma FlushEdges(slots: seq<Slot>, answers: seq<SendOutcome>, k: nat)
    requires |answers| == |Due(slots)| && k < |slots|
    ensures slots[k].status in {Synced, Rejected} ==>
      Flushed(slots, answers)[k] == slots[k] && k !in Due(slots)
    ensures slots[k].status in {Pending, Syncing, Failed} ==>
      exists n :: 0 <= n < |answers| && Due(slots)[n] == k && Ends(Flushed(slots, answers)[k], slots[k], answers[n])
  {
    DueInRange(slots);
    if Terminal(slots[k].status) {
      TerminalStays(slots, answers, k);
    } else {
      var n := SettledByAnswer(slots, answers, k);
      SettledEnds(slots[k], answers[n]);
    }
  }

  /** What a flush does to an earlier item does not depend on the last one. */
  lemma EarlierEdge(slots: seq<Slot>, answers: seq<SendOutcome>, k: nat)
    requires |answers| == |Due(slots)| && k < |slots| - 1
    ensures var fewer := if Terminal(Last(slots).status) then answers else Init(answers);
      && |fewer| == |Due(Init(slots))| && Flushed(slots, answers)[k] == Flushed(Init(slots), fewer)[k]
      && Init(slots)[k] == slots[k]
      && forall n :: 0 <= n < |fewer| ==> Due(slots)[n] == Due(Init(slots))[n] && answers[n] == fewer[n]
  {
  }

  /** What a sent item ends as: synced with its error as it was; rejected or failed with the server's
      error or a word for it; failed with the message of the exception. */
  predicate Ends(after: Slot, before: Slot, answer: SendOutcome) {
    match answer
    case Result(true, _, _) => after == Slot(Synced, before.lastError)
    case Result(false, true, Some(error)) => after == Slot(Rejected, Some(error))
    case Result(false, true, None) => after == Slot(Rejected, Some("rejected"))
    case Result(false, false, Some(error)) => after == Slot(Failed, Some(error))
    case Result(false, false, None) => after == Slot(Failed, Some("unknown"))
    case Threw(message) => after == Slot(Failed, Some(message))
  }

  /** How many slots that were not synced became so. */
  function BecameSynced(before: seq<Slot>, after: seq<Slot>): nat
    requires |before| == |after|
  {
    if before == [] then 0
    else
      BecameSynced(Init(before), Init(after))
      + if Last(before).status != Synced && Last(after).status == Synced then 1 else 0
  }

  /** How many slots were synced or rejected to begin with. */
  function WereTerminal(slots: seq<Slot>): nat {
    if slots == [] then 0
    else WereTerminal(Init(slots)) + if Last(slots).status in {Synced, Rejected} then 1 else 0
  }

  /** The three counts are what their names say. */
  lemma {:induction false} CountsMean(slots: seq<Slot>, answers: seq<SendOutcome>)
    requires |answers| == |Due(slots)|
    ensures CountOk(answers) == BecameSynced(slots, Flushed(slots, answers))
    ensures |answers| + WereTerminal(slots) == |slots|
  {
    if slots != [] {
      var after := Flushed(slots, answers);
      if Terminal(Last(slots).status) {
        CountsMean(Init(slots), answers);
        assert Init(after) == Flushed(Init(slots), answers) && Last(after) == Last(slots);
      } else {
        CountsMean(Init(slots), Init(answers));
        assert Init(after) == Flushed(Init(slots), Init(answers)) && Last(after) == Settled(Last(slots), Last(answers));
      }
    }
  }

  /** So after a flush that ran to its end: synced counts the items that became synced, skipped those
      that were synced or rejected already, and failed the rest. */
  lemma CompletedCounts(items: seq<PendingTransfer>, before: seq<Slot>, now: seq<Slot>, sent: seq<Sending>,
                        counts: Counts)
    requires Completed(items, before, now, sent, counts)
    ensures counts.synced == BecameSynced(before, now) && counts.skipped == WereTerminal(before)
    ensures counts.failed == |before| - counts.synced - counts.skipped
  {
    CountsMean(before, Answers(sent));
  }

  /** The positions whose answer asks for another attempt. */
  function ToRetry(due: seq<nat>, answers: seq<SendOutcome>): seq<nat>
    requires |due| == |answers|
  {
    if due == [] then []
    else ToRetry(Init(due), Init(answers)) + if Retryable(Last(answers)) then [Last(due)] else []
  }

  /** The next flush sends exactly the items whose send failed retryably in this one, in order. */
  lemma {:induction false} NextFlushRetries(slots: seq<Slot>, answers: seq<SendOutcome>)
    requires |answers| == |Due(slots)|
    ensures Due(Flushed(slots, answers)) == ToRetry(Due(slots), answers)
  {
    if slots != [] {
      var after := Flushed(slots, answers);
      if Terminal(Last(slots).status) {
        NextFlushRetries(Init(slots), answers);
        assert Init(after) == Flushed(Init(slots), answers);
        assert Due(slots) == Due(Init(slots));
        assert Due(after) == Due(Init(after));
      } else {
        NextFlushRetries(Init(slots), Init(answers));
        assert Init(after) == Flushed(Init(slots), Init(answers));
        assert Init(Due(slots)) == Due(Init(slots));
      }
    }
  }

  /** If nothing failed retryably, only terminal items are left, and flushing again changes nothing. */
  lemma {:induction false} QuietAfterDefiniteAnswers(slots: seq<Slot>, answers: seq<SendOutcome>)
    requires |answers| == |Due(slots)|
    requires forall n :: 0 <= n < |answers| ==> !Retryable(answers[n])
    ensures Due(Flushed(slots, answers)) == []
    ensures Flushed(Flushed(slots, answers), []) == Flushed(slots, answers)
  {
    NextFlushRetries(slots, answers);
    NothingToRetry(Due(slots), answers);
    NothingDueNothingChanges(Flushed(slots, answers));
  }

  lemma {:induction false} NothingToRetry(due: seq<nat>, answers: seq<SendOutcome>)
    requires |due| == |answers| && forall n :: 0 <= n < |answers| ==> !Retryable(answers[n])
    ensures ToRetry(due, answers) == []
  {
    if due != [] {
      NothingToRetry(Init(due), Init(answers));
    }
  }

  lemma {:induction false} NothingDueNothingChanges(slots: seq<Slot>)
    requires Due(slots) == []
    ensures Flushed(slots, []) == slots
  {
    if slots != [] {
      NothingDueNothingChanges(Init(slots));
    }
  }
}
