/** The two models of flush agree: a flush that meets no crash and no other call takes the protocol
    through exactly the sends, and to exactly the saved statuses, that the loop over the shared
    objects is proved to produce. */
module QueueRefinement {
  import opened Seqs
  import opened OfflineQueue
  import opened QueueProtocol

  function Statuses(slots: seq<Slot>): (statuses: seq<Status>)
    ensures |statuses| == |slots|
  {
    seq(|slots|, i requires 0 <= i < |slots| => slots[i].status)
  }

  /** The steps of call f for an item that is due. */
  function SendTurn(f: nat, answer: SendOutcome): seq<Step> {
    [Mark(f), SaveMark(f), Send(f), Settle(f, answer), Record(f), SaveAnswer(f)]
  }

  function Turns(f: nat, slots: seq<Slot>, answers: seq<SendOutcome>): seq<Step>
    requires |answers| == |Due(slots)|
  {
    if slots == [] then []
    else if Terminal(Last(slots).status) then Turns(f, Init(slots), answers) + [Skip(f)]
    else Turns(f, Init(slots), Init(answers)) + SendTurn(f, Last(answers))
  }

  function FlushRun(f: nat, slots: seq<Slot>, answers: seq<SendOutcome>): seq<Step>
    requires |answers| == |Due(slots)|
  {
    [Call(f)] + Turns(f, slots, answers) + [Finish(f)]
  }

  /** What the outside sees of one send. */
  function Events(i: nat, answer: SendOutcome): seq<Event> {
    if Accepts(answer) then [Sent(i), Accepted(i)] else [Sent(i)]
  }

  function Trace(due: seq<nat>, answers: seq<SendOutcome>): seq<Event>
    requires |due| == |answers|
  {
    if due == [] then [] else Trace(Init(due), Init(answers)) + Events(Last(due), Last(answers))
  }

  /** The state while call f is the only one past the guard. */
  function During(s: State, f: nat, disk: seq<Status>, x: Activation, events: seq<Event>): State {
    s.(disk := disk, flushing := true, active := map[f := x], trace := s.trace + events)
  }

  function AtHead(s: State, f: nat, disk: seq<Status>, i: nat, events: seq<Event>): State {
    During(s, f, disk, Activation(disk, Head(i)), events)
  }

  lemma {:induction false} RunSplit(s: State, xs: seq<Step>, ys: seq<Step>)
    requires Legal(s, xs) && Legal(After(s, xs), ys)
    ensures Legal(s, xs + ys) && After(s, xs + ys) == After(After(s, xs), ys)
    decreases xs
  {
    if xs == [] {
      assert xs + ys == ys;
    } else {
      assert (xs + ys)[0] == xs[0] && (xs + ys)[1..] == xs[1..] + ys;
      RunSplit(Next(s, xs[0]), xs[1..], ys);
    }
  }

  lemma SingleStep(s: State, step: Step)
    requires Enabled(s, step)
    ensures Legal(s, [step]) && After(s, [step]) == Next(s, step)
  {
    var none: seq<Step> := [];
    assert [step][1..] == none;
    assert Legal(Next(s, step), none) && After(Next(s, step), none) == Next(s, step);
  }

  lemma OneMore(s: State, run: seq<Step>, step: Step, t: State)
    requires Legal(s, run) && Enabled(After(s, run), step) && Next(After(s, run), step) == t
    ensures Legal(s, run + [step]) && After(s, run + [step]) == t
  {
    SingleStep(After(s, run), step);
    RunSplit(s, run, [step]);
  }

  lemma Replaced(s: State, f: nat, disk: seq<Status>, x: Activation, events: seq<Event>, phase: Phase)
    ensures Goto(During(s, f, disk, x, events), f, phase) == During(s, f, disk, x.(phase := phase), events)
  {
    assert map[f := x][f := x.(phase := phase)] == map[f := x.(phase := phase)];
  }

  lemma SkipTurn(s: State, f: nat, disk: seq<Status>, i: nat, events: seq<Event>)
    requires i < |disk| && Terminal(disk[i])
    ensures var u := AtHead(s, f, disk, i, events);
      Enabled(u, Skip(f)) && Next(u, Skip(f)) == AtHead(s, f, disk, i + 1, events)
  {
    Replaced(s, f, disk, Activation(disk, Head(i)), events, Head(i + 1));
  }

  /** Marking an item and saving the mark. */
  lemma MarkTurn(s: State, f: nat, disk: seq<Status>, i: nat, events: seq<Event>)
    requires i < |disk| && !Terminal(disk[i])
    ensures var u := AtHead(s, f, disk, i, events); var run := [Mark(f), SaveMark(f)];
      var marked := disk[i := Syncing];
      Legal(u, run) && After(u, run) == During(s, f, marked, Activation(marked, Saved(i)), events)
  {
    var u, marked := AtHead(s, f, disk, i, events), disk[i := Syncing];
    var x := Activation(marked, Marked(i));
    var v := During(s, f, disk, x, events);
    assert map[f := Activation(disk, Head(i))][f := x] == map[f := x];
    assert Next(u, Mark(f)) == v;
    SingleStep(u, Mark(f));
    Replaced(s, f, disk, x, events, Saved(i));
    OneMore(u, [Mark(f)], SaveMark(f), During(s, f, marked, x.(phase := Saved(i)), events));
    assert [Mark(f)] + [SaveMark(f)] == [Mark(f), SaveMark(f)];
  }

  /** Handing the item to the sender and getting its answer. */
  lemma WireTurn(s: State, f: nat, disk: seq<Status>, i: nat, events: seq<Event>, answer: SendOutcome)
    requires i < |disk|
    ensures var u := During(s, f, disk, Activation(disk, Saved(i)), events); var run := [Send(f), Settle(f, answer)];
      Legal(u, run)
      && After(u, run) == During(s, f, disk, Activation(disk, Answered(i, answer)), events + Events(i, answer))
  {
    var x := Activation(disk, Saved(i));
    var u := During(s, f, disk, x, events);
    var v := During(s, f, disk, x.(phase := AwaitingSend(i)), events + [Sent(i)]);
    Replaced(s, f, disk, x, events, AwaitingSend(i));
    Assoc(s.trace, events, [Sent(i)]);
    assert Next(u, Send(f)) == v;
    SingleStep(u, Send(f));
    Replaced(s, f, disk, x.(phase := AwaitingSend(i)), events + [Sent(i)], Answered(i, answer));
    Assoc(s.trace, events + [Sent(i)], [Accepted(i)]);
    Assoc(events, [Sent(i)], [Accepted(i)]);
    assert [Sent(i)] + [Accepted(i)] == [Sent(i), Accepted(i)];
    OneMore(u, [Send(f)], Settle(f, answer),
            During(s, f, disk, x.(phase := Answered(i, answer)), events + Events(i, answer)));
    assert [Send(f)] + [Settle(f, answer)] == [Send(f), Settle(f, answer)];
  }

  /** Recording the answer and saving it. */
  lemma RecordTurn(s: State, f: nat, disk: seq<Status>, i: nat, events: seq<Event>, answer: SendOutcome)
    requires i < |disk|
    ensures var u := During(s, f, disk, Activation(disk, Answered(i, answer)), events);
      var run := [Record(f), SaveAnswer(f)];
      Legal(u, run) && After(u, run) == AtHead(s, f, disk[i := StatusAfter(answer)], i + 1, events)
  {
    var u := During(s, f, disk, Activation(disk, Answered(i, answer)), events);
    var done := disk[i := StatusAfter(answer)];
    var x := Activation(done, Recorded(i, answer));
    assert map[f := Activation(disk, Answered(i, answer))][f := x] == map[f := x];
    assert Next(u, Record(f)) == During(s, f, disk, x, events);
    SingleStep(u, Record(f));
    Replaced(s, f, disk, x, events, Head(i + 1));
    OneMore(u, [Record(f)], SaveAnswer(f), AtHead(s, f, done, i + 1, events));
    assert [Record(f)] + [SaveAnswer(f)] == [Record(f), SaveAnswer(f)];
  }

  lemma SendTurnRuns(s: State, f: nat, disk: seq<Status>, i: nat, events: seq<Event>, answer: SendOutcome)
    requires i < |disk| && !Terminal(disk[i])
    ensures var u := AtHead(s, f, disk, i, events);
      Legal(u, SendTurn(f, answer))
      && After(u, SendTurn(f, answer))
      == AtHead(s, f, disk[i := StatusAfter(answer)], i + 1, events + Events(i, answer))
  {
    var u, marked := AtHead(s, f, disk, i, events), disk[i := Syncing];
    var mark, wire, record := [Mark(f), SaveMark(f)], [Send(f), Settle(f, answer)], [Record(f), SaveAnswer(f)];
    MarkTurn(s, f, disk, i, events);
    WireTurn(s, f, marked, i, events, answer);
    RecordTurn(s, f, marked, i, events + Events(i, answer), answer);
    RunSplit(u, mark, wire);
    RunSplit(u, mark + wire, record);
    assert mark + wire + record == SendTurn(f, answer);
    assert marked[i := StatusAfter(answer)] == disk[i := StatusAfter(answer)];
  }

  /** The loop over the first items of the list, the others being still to come. */
  ghost predicate TurnsReach(s: State, f: nat, slots: seq<Slot>, others: seq<Status>, answers: seq<SendOutcome>)
    requires |answers| == |Due(slots)|
  {
    var u := AtHead(s, f, Statuses(slots) + others, 0, []);
    && Legal(u, Turns(f, slots, answers))
    && After(u, Turns(f, slots, answers))
    == AtHead(s, f, Statuses(Flushed(slots, answers)) + others, |slots|, Trace(Due(slots), answers))
  }

  lemma StatusesSnoc(slots: seq<Slot>, last: Slot, others: seq<Status>)
    ensures Statuses(slots + [last]) + others == Statuses(slots) + ([last.status] + others)
  {
  }

  lemma LastSkips(s: State, f: nat, slots: seq<Slot>, others: seq<Status>, answers: seq<SendOutcome>)
    requires slots != [] && Terminal(Last(slots).status) && |answers| == |Due(slots)| == |Due(Init(slots))|
    requires TurnsReach(s, f, Init(slots), [Last(slots).status] + others, answers)
    ensures TurnsReach(s, f, slots, others, answers)
  {
    var last, before := Last(slots), Flushed(Init(slots), answers);
    var disk := Statuses(before) + ([last.status] + others);
    assert Due(slots) == Due(Init(slots)) && Init(slots) + [last] == slots;
    StatusesSnoc(Init(slots), last, others);
    StatusesSnoc(before, last, others);
    assert disk[|slots| - 1] == last.status;
    SkipTurn(s, f, disk, |slots| - 1, Trace(Due(slots), answers));
    OneMore(AtHead(s, f, Statuses(slots) + others, 0, []), Turns(f, Init(slots), answers), Skip(f),
            AtHead(s, f, disk, |slots|, Trace(Due(slots), answers)));
  }

  lemma DueSnoc(slots: seq<Slot>)
    requires slots != [] && !Terminal(Last(slots).status)
    ensures Init(Due(slots)) == Due(Init(slots)) && Last(Due(slots)) == |slots| - 1
  {
  }

  /** The one status a sent item leaves behind. */
  lemma StatusReplaced(before: seq<Status>, was: Status, now: Status, others: seq<Status>)
    ensures (before + ([was] + others))[|before|] == was
    ensures (before + ([was] + others))[|before| := now] == before + ([now] + others)
  {
  }

  lemma LastSends(s: State, f: nat, slots: seq<Slot>, others: seq<Status>, answers: seq<SendOutcome>)
    requires slots != [] && !Terminal(Last(slots).status) && |answers| == |Due(slots)| == |Due(Init(slots))| + 1
    requires TurnsReach(s, f, Init(slots), [Last(slots).status] + others, Init(answers))
    ensures TurnsReach(s, f, slots, others, answers)
  {
    var i, last, before := |slots| - 1, Last(slots), Flushed(Init(slots), Init(answers));
    var settled := Settled(last, Last(answers));
    var disk := Statuses(before) + ([last.status] + others);
    DueSnoc(slots);
    assert Init(slots) + [last] == slots;
    StatusesSnoc(Init(slots), last, others);
    StatusesSnoc(before, settled, others);
    StatusReplaced(Statuses(before), last.status, settled.status, others);
    SendTurnRuns(s, f, disk, i, Trace(Due(Init(slots)), Init(answers)), Last(answers));
    RunSplit(AtHead(s, f, Statuses(slots) + others, 0, []), Turns(f, Init(slots), Init(answers)),
             SendTurn(f, Last(answers)));
  }

  lemma {:induction false} TurnsRun(s: State, f: nat, slots: seq<Slot>, others: seq<Status>, answers: seq<SendOutcome>)
    requires |answers| == |Due(slots)|
    ensures TurnsReach(s, f, slots, others, answers)
    decreases |slots|
  {
    if slots != [] {
      if Terminal(Last(slots).status) {
        TurnsRun(s, f, Init(slots), [Last(slots).status] + others, answers);
        LastSkips(s, f, slots, others, answers);
      } else {
        TurnsRun(s, f, Init(slots), [Last(slots).status] + others, Init(answers));
        LastSends(s, f, slots, others, answers);
      }
    }
  }

  /** From any state with no flush running, a flush with these answers leaves the saved statuses and
      sends the items that the loop over the shared objects does, and releases the guard. */
  lemma FlushRefines(s: State, f: nat, slots: seq<Slot>, answers: seq<SendOutcome>)
    requires !s.flushing && s.active == map[] && s.disk == Statuses(slots) && |answers| == |Due(slots)|
    ensures Legal(s, FlushRun(f, slots, answers))
    ensures After(s, FlushRun(f, slots, answers))
         == s.(disk := Statuses(Flushed(slots, answers)), trace := s.trace + Trace(Due(slots), answers))
  {
    var disk := Statuses(slots);
    var u := AtHead(s, f, disk, 0, []);
    assert s.trace + [] == s.trace && disk + [] == disk;
    assert s.active[f := Activation(disk, Head(0))] == map[f := Activation(disk, Head(0))];
    SingleStep(s, Call(f));
    assert After(s, [Call(f)]) == u;
    TurnsRun(s, f, slots, [], answers);
    RunSplit(s, [Call(f)], Turns(f, slots, answers));
    var after := Statuses(Flushed(slots, answers));
    assert after + [] == after;
    var end := AtHead(s, f, after, |slots|, Trace(Due(slots), answers));
    assert end.active - {f} == map[];
    OneMore(s, [Call(f)] + Turns(f, slots, answers), Finish(f),
            s.(disk := after, trace := s.trace + Trace(Due(slots), answers)));
  }
}
