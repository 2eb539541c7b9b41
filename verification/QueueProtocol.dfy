/** packages/offline-queue over whole runs: overlapping flush calls that interleave where one awaits
    the sender, over storage that keeps only what was saved, with crashes and restarts anywhere.
    Items are known by their position; nothing is enqueued while a flush is running. A save that
    throws ends the one running flush and loses what was not saved, which is a crash here. */
module QueueProtocol {
  import opened Seqs
  import opened OfflineQueue

  /** Where one flush call is, and at which item. */
  datatype Phase =
    | Head(i: nat)                          // about to look at item i
    | Marked(i: nat)                        // marked syncing in memory only
    | Saved(i: nat)                         // and saved
    | AwaitingSend(i: nat)                  // the sender has been called
    | Answered(i: nat, answer: SendOutcome) // the promise has settled
    | Recorded(i: nat, answer: SendOutcome) // the answer is in memory only

  datatype Activation = Activation(items: seq<Status>, phase: Phase)

  /** What the outside sees: item i was handed to the sender, or the sender resolved it as ok. */
  datatype Event = Sent(i: nat) | Accepted(i: nat)

  datatype State = State(
    disk: seq<Status>,            // the last saved snapshot
    flushing: bool,
    active: map<nat, Activation>, // flush calls past the guard, by caller
    trace: seq<Event>,
    lost: seq<nat>)               // per item: crashes between an accepted send and its save

  const START := State([], false, map[], [], [])

  datatype Step =
    | Enqueue
    | Call(f: nat)
    | Skip(f: nat)
    | Mark(f: nat)
    | SaveMark(f: nat)
    | Send(f: nat)
    | Settle(f: nat, answer: SendOutcome)
    | Record(f: nat)
    | SaveAnswer(f: nat)
    | Finish(f: nat)
    | Crash

  predicate Here(s: State, f: nat) {
    f in s.active && s.active[f].phase.i < |s.active[f].items|
  }

  predicate Enabled(s: State, step: Step) {
    match step
    case Enqueue => !s.flushing
    case Call(f) => f !in s.active
    case Skip(f) => Here(s, f) && s.active[f].phase.Head? && Terminal(s.active[f].items[s.active[f].phase.i])
    case Mark(f) => Here(s, f) && s.active[f].phase.Head? && !Terminal(s.active[f].items[s.active[f].phase.i])
    case SaveMark(f) => Here(s, f) && s.active[f].phase.Marked?
    case Send(f) => Here(s, f) && s.active[f].phase.Saved?
    case Settle(f, _) => Here(s, f) && s.active[f].phase.AwaitingSend?
    case Record(f) => Here(s, f) && s.active[f].phase.Answered?
    case SaveAnswer(f) => Here(s, f) && s.active[f].phase.Recorded?
    case Finish(f) => f in s.active && s.active[f].phase.Head? && s.active[f].phase.i >= |s.active[f].items|
    case Crash => true
  }

  function Goto(s: State, f: nat, phase: Phase): State
    requires f in s.active
  {
    s.(active := s.active[f := s.active[f].(phase := phase)])
  }

  /** The server took the item: the sender's promise resolved with ok. */
  predicate Accepts(answer: SendOutcome) {
    answer.Result? && answer.ok
  }

  predicate HoldsAccepted(p: Phase) {
    (p.Answered? || p.Recorded?) && Accepts(p.answer)
  }

  /** Whether some call holds an accepted answer for item i that is not saved. */
  predicate Unsaved(s: State, i: nat) {
    exists f :: f in s.active && HoldsAccepted(s.active[f].phase) && s.active[f].phase.i == i
  }

  function Next(s: State, step: Step): State
    requires Enabled(s, step)
  {
    match step
    case Enqueue => s.(disk := s.disk + [Pending], lost := s.lost + [0])
    case Call(f) =>
      if s.flushing then s
      else s.(flushing := true, active := s.active[f := Activation(s.disk, Head(0))])
    case Skip(f) => Goto(s, f, Head(s.active[f].phase.i + 1))
    case Mark(f) =>
      var x := s.active[f];
      s.(active := s.active[f := Activation(x.items[x.phase.i := Syncing], Marked(x.phase.i))])
    case SaveMark(f) => Goto(s, f, Saved(s.active[f].phase.i)).(disk := s.active[f].items)
    case Send(f) =>
      Goto(s, f, AwaitingSend(s.active[f].phase.i)).(trace := s.trace + [Sent(s.active[f].phase.i)])
    case Settle(f, answer) =>
      var t := Goto(s, f, Answered(s.active[f].phase.i, answer));
      if Accepts(answer) then t.(trace := s.trace + [Accepted(s.active[f].phase.i)]) else t
    case Record(f) =>
      var x := s.active[f];
      s.(active := s.active[f :=
        Activation(x.items[x.phase.i := StatusAfter(x.phase.answer)], Recorded(x.phase.i, x.phase.answer))])
    case SaveAnswer(f) => Goto(s, f, Head(s.active[f].phase.i + 1)).(disk := s.active[f].items)
    case Finish(f) => s.(flushing := false, active := s.active - {f})
    case Crash =>
      s.(flushing := false, active := map[],
         lost := seq(|s.lost|, i requires 0 <= i < |s.lost| => if Unsaved(s, i) then s.lost[i] + 1 else s.lost[i]))
  }

  ghost predicate Legal(s: State, run: seq<Step>)
    decreases run
  {
    run == [] || (Enabled(s, run[0]) && Legal(Next(s, run[0]), run[1..]))
  }

  ghost function After(s: State, run: seq<Step>): State
    requires Legal(s, run)
    decreases run
  {
    if run == [] then s else After(Next(s, run[0]), run[1..])
  }

  function CountAccepted(trace: seq<Event>, i: nat): nat {
    if trace == [] then 0
    else CountAccepted(Init(trace), i) + if Last(trace) == Accepted(i) then 1 else 0
  }

  // ----- the invariant -----

  ghost predicate OneFlush(s: State) {
    && (s.flushing <==> s.active != map[])
    && (forall f, g :: f in s.active && g in s.active ==> f == g)
  }

  /** How the snapshot of a running flush relates to what is saved. */
  predicate InStep(disk: seq<Status>, x: Activation) {
    var i := x.phase.i;
    match x.phase
    case Head(_) => i <= |disk| && x.items == disk
    case Marked(_) => i < |disk| && !Terminal(disk[i]) && x.items == disk[i := Syncing]
    case Recorded(_, answer) => i < |disk| && disk[i] == Syncing && x.items == disk[i := StatusAfter(answer)]
    case _ => i < |disk| && disk[i] == Syncing && x.items == disk
  }

  /** Acceptances of item i: one if it is saved as synced, one for each crash that lost an accepted
      answer, and one if an accepted answer is waiting to be saved. */
  ghost predicate Accounted(s: State, i: nat)
    requires i < |s.disk| == |s.lost|
  {
    CountAccepted(s.trace, i)
      == (if s.disk[i] == Synced then 1 else 0) + s.lost[i] + (if Unsaved(s, i) then 1 else 0)
  }

  ghost predicate Inv(s: State) {
    && OneFlush(s)
    && |s.lost| == |s.disk|
    && (forall f :: f in s.active ==> InStep(s.disk, s.active[f]))
    && (forall i :: 0 <= i < |s.disk| ==> Accounted(s, i))
    && (forall k :: 0 <= k < |s.trace| ==> s.trace[k].i < |s.disk|)
  }

  lemma {:induction false} NeverAccepted(trace: seq<Event>, i: nat)
    requires forall k :: 0 <= k < |trace| ==> trace[k].i != i
    ensures CountAccepted(trace, i) == 0
  {
    if trace != [] {
      assert trace[|trace| - 1].i != i;
      NeverAccepted(Init(trace), i);
    }
  }

  lemma CountAppend(trace: seq<Event>, e: Event, i: nat)
    ensures CountAccepted(trace + [e], i) == CountAccepted(trace, i) + if e == Accepted(i) then 1 else 0
  {
    assert Init(trace + [e]) == trace;
  }

  lemma StepKeepsShape(s: State, step: Step)
    requires OneFlush(s) && Enabled(s, step) && forall f :: f in s.active ==> InStep(s.disk, s.active[f])
    ensures OneFlush(Next(s, step))
    ensures forall f :: f in Next(s, step).active ==> InStep(Next(s, step).disk, Next(s, step).active[f])
  {
    var t := Next(s, step);
    if !step.Enqueue? && !step.Crash? && !step.Finish? {
      assert step.f in t.active ==> InStep(t.disk, t.active[step.f]);
    }
  }

  lemma EnqueueAccounts(s: State, i: nat)
    requires Inv(s) && !s.flushing && i <= |s.disk|
    ensures Accounted(Next(s, Enqueue), i)
  {
    var t := Next(s, Enqueue);
    assert Unsaved(t, i) <==> Unsaved(s, i);
    if i == |s.disk| {
      NeverAccepted(s.trace, i);
    } else {
      assert Accounted(s, i);
    }
  }

  lemma CrashAccounts(s: State, i: nat)
    requires Inv(s) && i < |s.disk|
    ensures Accounted(Next(s, Crash), i)
  {
    assert Accounted(s, i);
    assert !Unsaved(Next(s, Crash), i);
  }

  /** With one flush at most, an unsaved acceptance can only be its own. */
  lemma OnlyOwn(s: State, f: nat, i: nat)
    requires OneFlush(s) && f in s.active
    ensures Unsaved(s, i) <==> HoldsAccepted(s.active[f].phase) && s.active[f].phase.i == i
  {
  }

  lemma CallAccounts(s: State, f: nat, i: nat)
    requires OneFlush(s) && Enabled(s, Call(f)) && |s.lost| == |s.disk| && i < |s.disk| && Accounted(s, i)
    ensures Accounted(Next(s, Call(f)), i)
  {
    if !s.flushing {
      OnlyOwn(Next(s, Call(f)), f, i);
    }
  }

  lemma FinishAccounts(s: State, f: nat, i: nat)
    requires OneFlush(s) && Enabled(s, Finish(f)) && |s.lost| == |s.disk| && i < |s.disk| && Accounted(s, i)
    ensures Accounted(Next(s, Finish(f)), i)
  {
    OnlyOwn(s, f, i);
  }

  /** An event is booked by what it adds to the unsaved acceptances. */
  lemma EventAccounts(s: State, t: State, e: Event, i: nat)
    requires |s.lost| == |s.disk| && i < |s.disk| && Accounted(s, i)
    requires t.disk == s.disk && t.lost == s.lost && t.trace == s.trace + [e]
    requires if e == Accepted(i) then Unsaved(t, i) && !Unsaved(s, i) else Unsaved(t, i) == Unsaved(s, i)
    ensures Accounted(t, i)
  {
    CountAppend(s.trace, e, i);
  }

  lemma SendAccounts(s: State, step: Step, i: nat)
    requires OneFlush(s) && Enabled(s, step) && |s.lost| == |s.disk| && i < |s.disk| && Accounted(s, i)
    requires step.Send?
    ensures Accounted(Next(s, step), i)
  {
    OnlyOwn(s, step.f, i);
    OnlyOwn(Next(s, step), step.f, i);
    EventAccounts(s, Next(s, step), Sent(s.active[step.f].phase.i), i);
  }

  lemma SettleAccounts(s: State, step: Step, i: nat)
    requires OneFlush(s) && Enabled(s, step) && |s.lost| == |s.disk| && i < |s.disk| && Accounted(s, i)
    requires step.Settle?
    ensures Accounted(Next(s, step), i)
  {
    OnlyOwn(s, step.f, i);
    OnlyOwn(Next(s, step), step.f, i);
    if Accepts(step.answer) {
      EventAccounts(s, Next(s, step), Accepted(s.active[step.f].phase.i), i);
    }
  }

  lemma SaveAccounts(s: State, step: Step, i: nat)
    requires OneFlush(s) && Enabled(s, step) && |s.lost| == |s.disk| && i < |s.disk| && Accounted(s, i)
    requires (step.SaveMark? || step.SaveAnswer?) && InStep(s.disk, s.active[step.f])
    ensures Accounted(Next(s, step), i)
  {
    OnlyOwn(s, step.f, i);
    OnlyOwn(Next(s, step), step.f, i);
  }

  lemma MemoryAccounts(s: State, step: Step, i: nat)
    requires OneFlush(s) && Enabled(s, step) && |s.lost| == |s.disk| && i < |s.disk| && Accounted(s, i)
    requires step.Skip? || step.Mark? || step.Record?
    ensures Accounted(Next(s, step), i)
  {
    OnlyOwn(s, step.f, i);
    OnlyOwn(Next(s, step), step.f, i);
  }

  lemma FlushStepAccounts(s: State, step: Step, i: nat)
    requires Inv(s) && Enabled(s, step) && !step.Enqueue? && !step.Crash? && i < |s.disk|
    ensures Accounted(Next(s, step), i)
  {
    assert Accounted(s, i);
    match step
    case Call(f) => CallAccounts(s, f, i);
    case Finish(f) => FinishAccounts(s, f, i);
    case Send(_) => SendAccounts(s, step, i);
    case Settle(_, _) => SettleAccounts(s, step, i);
    case SaveMark(_) => SaveAccounts(s, step, i);
    case SaveAnswer(_) => SaveAccounts(s, step, i);
    case _ => MemoryAccounts(s, step, i);
  }

  lemma StepKeepsInv(s: State, step: Step)
    requires Inv(s) && Enabled(s, step)
    ensures Inv(Next(s, step))
  {
    var t := Next(s, step);
    StepKeepsShape(s, step);
    if !step.Enqueue? && !step.Crash? && step.f in s.active {
      assert InStep(s.disk, s.active[step.f]);
    }
    forall i | 0 <= i < |t.disk| ensures Accounted(t, i) {
      match step
      case Enqueue => EnqueueAccounts(s, i);
      case Crash => CrashAccounts(s, i);
      case _ => FlushStepAccounts(s, step, i);
    }
  }

  lemma {:induction false} RunKeepsInv(s: State, run: seq<Step>)
    requires Inv(s) && Legal(s, run)
    ensures Inv(After(s, run))
    decreases run
  {
    if run != [] {
      StepKeepsInv(s, run[0]);
      RunKeepsInv(Next(s, run[0]), run[1..]);
    }
  }

  // ----- what it gives over whole runs -----

  /** The guard works: however many calls to flush overlap, at most one is waiting for the sender. */
  lemma OneSendInFlight(run: seq<Step>, f: nat, g: nat)
    requires Legal(START, run)
    requires var s := After(START, run);
      f in s.active && s.active[f].phase.AwaitingSend? && g in s.active && s.active[g].phase.AwaitingSend?
    ensures f == g
  {
    RunKeepsInv(START, run);
  }

  lemma TerminalStep(s: State, step: Step, i: nat)
    requires Inv(s) && Enabled(s, step) && i < |s.disk| && Terminal(s.disk[i])
    ensures var t := Next(s, step);
      && |s.disk| <= |t.disk| && t.disk[i] == s.disk[i]
      && (t.trace == s.trace
        || exists e :: t.trace == s.trace + [e] && e != Sent(i) && e != Accepted(i))
  {
    if !step.Enqueue? && !step.Crash? && step.f in s.active {
      var x := s.active[step.f];
      assert InStep(s.disk, x);
      if step.Send? {
        assert Next(s, step).trace == s.trace + [Sent(x.phase.i)];
      } else if step.Settle? && Accepts(step.answer) {
        assert Next(s, step).trace == s.trace + [Accepted(x.phase.i)];
      }
    }
  }

  /** Once an item is saved as synced or rejected it stays so and is not sent again, whatever
      flushes, crashes and enqueues follow; and no item ever disappears. */
  lemma {:induction false} TerminalIsForGood(s: State, run: seq<Step>, i: nat)
    requires Inv(s) && Legal(s, run) && i < |s.disk| && Terminal(s.disk[i])
    ensures var t := After(s, run);
      && |s.disk| <= |t.disk| && t.disk[i] == s.disk[i]
      && s.trace <= t.trace
      && forall k :: |s.trace| <= k < |t.trace| ==> t.trace[k] != Sent(i) && t.trace[k] != Accepted(i)
    decreases run
  {
    if run != [] {
      TerminalStep(s, run[0], i);
      StepKeepsInv(s, run[0]);
      TerminalIsForGood(Next(s, run[0]), run[1..], i);
    }
  }

  lemma NeverSentAgain(run: seq<Step>, more: seq<Step>, i: nat)
    requires Legal(START, run) && Legal(After(START, run), more)
    requires i < |After(START, run).disk| && Terminal(After(START, run).disk[i])
    ensures var s, t := After(START, run), After(After(START, run), more);
      && i < |t.disk| && t.disk[i] == s.disk[i] && s.trace <= t.trace
      && Sent(i) !in t.trace[|s.trace|..]
  {
    RunKeepsInv(START, run);
    TerminalIsForGood(After(START, run), more, i);
  }

  /** The ledger of acceptances: an item is accepted more than once only if crashes fell between
      an accepted send and its save, and never more often than there were such crashes plus one. */
  lemma AcceptedOncePlusCrashes(run: seq<Step>, i: nat)
    requires Legal(START, run) && i < |After(START, run).disk|
    ensures var s := After(START, run);
      && |s.lost| == |s.disk|
      && s.lost[i] <= CountAccepted(s.trace, i) <= 1 + s.lost[i]
      && (s.disk[i] == Synced ==> CountAccepted(s.trace, i) == 1 + s.lost[i])
      && (s.disk[i] == Rejected ==> CountAccepted(s.trace, i) == s.lost[i])
  {
    RunKeepsInv(START, run);
    var s := After(START, run);
    assert Accounted(s, i);
    if Unsaved(s, i) {
      var f :| f in s.active && HoldsAccepted(s.active[f].phase) && s.active[f].phase.i == i;
      assert InStep(s.disk, s.active[f]);
    }
  }

  lemma {:induction false} NothingLostWithoutCrash(s: State, run: seq<Step>)
    requires Legal(s, run) && Crash !in run && forall i :: 0 <= i < |s.lost| ==> s.lost[i] == 0
    ensures forall i :: 0 <= i < |After(s, run).lost| ==> After(s, run).lost[i] == 0
    decreases run
  {
    if run != [] {
      assert run[0] in run;
      NothingLostWithoutCrash(Next(s, run[0]), run[1..]);
    }
  }

  /** Without crashes no item is accepted twice, however often flush is called and whatever fails. */
  lemma AcceptedAtMostOnceWithoutCrash(run: seq<Step>, i: nat)
    requires Legal(START, run) && Crash !in run && i < |After(START, run).disk|
    ensures CountAccepted(After(START, run).trace, i) <= 1
  {
    AcceptedOncePlusCrashes(run, i);
    NothingLostWithoutCrash(START, run);
  }
}
