/** The three bounded outbound queues and the loop that drains them, one channel operation a step. */
module Outbound {
  datatype MessageType =
    | NewBlock | NewTransaction | BlockRequest | BlockResponse | PeerDiscovery | Heartbeat | Ping | Pong
    | ValidatorUpdate | EmptyBlock | SyncRequest | SyncResponse | Unlisted(code: nat)

  datatype Priority = High | Medium | Low

  function PriorityOf(kind: MessageType): Priority {
    match kind
    case NewBlock | ValidatorUpdate | EmptyBlock => High
    case NewTransaction | Heartbeat | Ping | Pong => Medium
    case _ => Low
  }

  /** Blocks and validator changes go first, transactions and signs of life next, the rest last. */
  lemma KindsByPriority(kind: MessageType)
    ensures PriorityOf(kind) == High <==> kind in {NewBlock, ValidatorUpdate, EmptyBlock}
    ensures PriorityOf(kind) == Medium <==> kind in {NewTransaction, Heartbeat, Ping, Pong}
  {}

  datatype Message = Message(kind: MessageType, id: nat)

  predicate Is(m: Message, p: Priority) { PriorityOf(m.kind) == p }

  function Capacity(p: Priority): nat {
    match p case High => 1000 case Medium => 5000 case Low => 10000
  }

  /** Where the drain loop stands: waiting, holding a message it took, or about to put it back. */
  datatype Loop = Idle | Holding(message: Message) | Returning(message: Message)

  /** `admitted` are broadcasts past the bandwidth check and not yet at their queue; `offered`,
      `dropped` and `acceptedHigh` are histories. */
  datatype State = State(
    high: seq<Message>, medium: seq<Message>, low: seq<Message>, loop: Loop, admitted: seq<Message>,
    sent: seq<Message>, offered: multiset<Message>, dropped: multiset<Message>, acceptedHigh: seq<Message>)

  const EMPTY := State([], [], [], Idle, [], [], multiset{}, multiset{}, [])

  /** `pick` is the case Go's select takes among the ready ones. */
  datatype Action =
    | Offer(message: Message, withinBandwidth: bool)
    | Enqueue(index: nat)
    | Take(pick: Priority)
    | Inspect(pick: Priority, congestion: real)
    | PutBack

  function Queue(s: State, p: Priority): seq<Message> {
    match p case High => s.high case Medium => s.medium case Low => s.low
  }

  function WithQueue(s: State, p: Priority, q: seq<Message>): State {
    match p case High => s.(high := q) case Medium => s.(medium := q) case Low => s.(low := q)
  }

  /** The queues the inner select reads while the loop holds m. */
  predicate Outranks(p: Priority, m: Message) {
    match PriorityOf(m.kind) case High => false case Medium => p == High case Low => p != Low
  }

  predicate NoneAbove(s: State, m: Message) {
    (Outranks(High, m) ==> s.high == []) && (Outranks(Medium, m) ==> s.medium == [])
  }

  predicate Enabled(s: State, a: Action) {
    match a
    case Offer(_, _) => true
    case Enqueue(index) => index < |s.admitted|
    case Take(pick) => s.loop.Idle? && Queue(s, pick) != []
    case Inspect(pick, _) =>
      && s.loop.Holding?
      && (NoneAbove(s, s.loop.message) || (Outranks(pick, s.loop.message) && Queue(s, pick) != []))
    case PutBack => s.loop.Returning?
  }

  function Send(s: State, m: Message): State { s.(sent := s.sent + [m]) }

  function Drop(s: State, m: Message): State { s.(dropped := s.dropped + multiset{m}) }

  /** A non-blocking send on the channel of m's priority. */
  function Accept(s: State, m: Message): State {
    var p := PriorityOf(m.kind);
    if |Queue(s, p)| < Capacity(p) then WithQueue(s, p, Queue(s, p) + [m]) else Drop(s, m)
  }

  function AcceptNew(s: State, m: Message): State {
    var accepted := Accept(s, m);
    if Is(m, High) && |s.high| < Capacity(High) then accepted.(acceptedHigh := s.acceptedHigh + [m]) else accepted
  }

  /** A receive from the channel of priority p. */
  function Receive(s: State, p: Priority): State
    requires Queue(s, p) != []
  {
    WithQueue(s, p, Queue(s, p)[1..])
  }

  function AfterOffer(s: State, m: Message, withinBandwidth: bool): State {
    var o := s.(offered := s.offered + multiset{m});
    if withinBandwidth then o.(admitted := s.admitted + [m]) else Drop(o, m)
  }

  function AfterEnqueue(s: State, i: nat): State
    requires i < |s.admitted|
  {
    AcceptNew(s.(admitted := s.admitted[..i] + s.admitted[i + 1..]), s.admitted[i])
  }

  function AfterTake(s: State, pick: Priority): State
    requires Enabled(s, Take(pick))
  {
    var m := Queue(s, pick)[0];
    if pick == High then Send(Receive(s, High), m) else Receive(s, pick).(loop := Holding(m))
  }

  function AfterInspect(s: State, pick: Priority, congestion: real): State
    requires Enabled(s, Inspect(pick, congestion))
  {
    var m := s.loop.message;
    if !NoneAbove(s, m) then Send(Receive(s, pick), Queue(s, pick)[0]).(loop := Returning(m))
    else if Is(m, Medium) || congestion < 0.8 then Send(s, m).(loop := Idle)
    else Drop(s, m).(loop := Idle)
  }

  function AfterPutBack(s: State): State
    requires s.loop.Returning?
  {
    Accept(s, s.loop.message).(loop := Idle)
  }

  function Step(s: State, a: Action): State
    requires Enabled(s, a)
  {
    match a
    case Offer(m, ok) => AfterOffer(s, m, ok)
    case Enqueue(i) => AfterEnqueue(s, i)
    case Take(pick) => AfterTake(s, pick)
    case Inspect(pick, congestion) => AfterInspect(s, pick, congestion)
    case PutBack => AfterPutBack(s)
  }

  ghost predicate Legal(actions: seq<Action>)
    decreases |actions|, 0
  {
    actions == [] || (Legal(actions[..|actions| - 1]) && Enabled(Run(actions[..|actions| - 1]), actions[|actions| - 1]))
  }

  ghost function Run(actions: seq<Action>): State
    requires Legal(actions)
    decreases |actions|, 1
  {
    if actions == [] then EMPTY else Step(Run(actions[..|actions| - 1]), actions[|actions| - 1])
  }

  // ---------- accounting ----------

  function Held(loop: Loop): multiset<Message> { if loop.Idle? then multiset{} else multiset{loop.message} }

  function Queued(s: State): multiset<Message> { multiset(s.high) + multiset(s.medium) + multiset(s.low) }

  predicate Accounted(s: State) {
    s.offered == multiset(s.sent) + Queued(s) + Held(s.loop) + s.dropped + multiset(s.admitted)
  }

  lemma Head(q: seq<Message>)
    requires q != []
    ensures multiset(q) == multiset{q[0]} + multiset(q[1..])
  {
    assert q == [q[0]] + q[1..];
  }

  lemma AcceptMoves(s: State, m: Message)
    ensures var t := Accept(s, m);
            && Queued(t) + t.dropped == Queued(s) + s.dropped + multiset{m}
            && t == s.(high := t.high, medium := t.medium, low := t.low, dropped := t.dropped)
  {}

  lemma ReceiveMoves(s: State, p: Priority)
    requires Queue(s, p) != []
    ensures var t := Receive(s, p);
            && Queued(t) + multiset{Queue(s, p)[0]} == Queued(s)
            && t == s.(high := t.high, medium := t.medium, low := t.low)
  {
    Head(Queue(s, p));
  }

  lemma OfferAccounted(s: State, m: Message, ok: bool)
    requires Accounted(s)
    ensures Accounted(AfterOffer(s, m, ok))
  {}

  lemma EnqueueAccounted(s: State, i: nat)
    requires Accounted(s) && i < |s.admitted|
    ensures Accounted(AfterEnqueue(s, i))
  {
    hide Queued, Accept;
    var m := s.admitted[i];
    var left := s.(admitted := s.admitted[..i] + s.admitted[i + 1..]);
    var t := Accept(left, m);
    AdmittedWithout(s.admitted, i);
    AcceptMoves(left, m);
    QueuedFrame(s, left);
    QueuedFrame(t, AfterEnqueue(s, i));
    Regroup(multiset(s.sent) + Held(s.loop), Queued(s), s.dropped, m, Queued(t), t.dropped, multiset(left.admitted));
    Reorder(multiset(s.sent), Queued(s), Held(s.loop), s.dropped, multiset(s.admitted), m, multiset(left.admitted));
    Reorder2(multiset(s.sent), Queued(t), Held(s.loop), t.dropped, multiset(left.admitted));
  }

  lemma Regroup(sent: multiset<Message>, queued: multiset<Message>, dropped: multiset<Message>, m: Message,
                queued': multiset<Message>, dropped': multiset<Message>, admitted: multiset<Message>)
    requires queued' + dropped' == queued + dropped + multiset{m}
    ensures sent + queued' + multiset{} + dropped' + admitted == sent + queued + multiset{m} + dropped + admitted
  {
    forall x
      ensures (sent + queued' + multiset{} + dropped' + admitted)[x]
              == (sent + queued + multiset{m} + dropped + admitted)[x]
    {
      assert (queued' + dropped')[x] == (queued + dropped + multiset{m})[x];
    }
  }

  lemma QueuedFrame(s: State, t: State)
    requires s.high == t.high && s.medium == t.medium && s.low == t.low
    ensures Queued(s) == Queued(t)
  {}

  lemma AdmittedWithout(q: seq<Message>, i: nat)
    requires i < |q|
    ensures multiset(q) == multiset(q[..i] + q[i + 1..]) + multiset{q[i]}
  {
    assert q == q[..i] + [q[i]] + q[i + 1..];
  }

  lemma Reorder(sent: multiset<Message>, queued: multiset<Message>, held: multiset<Message>,
                dropped: multiset<Message>, admitted: multiset<Message>, m: Message, left: multiset<Message>)
    requires admitted == left + multiset{m}
    ensures sent + queued + held + dropped + admitted == sent + held + queued + multiset{m} + dropped + left
  {}

  lemma Reorder2(sent: multiset<Message>, queued: multiset<Message>, held: multiset<Message>,
                 dropped: multiset<Message>, left: multiset<Message>)
    ensures sent + queued + held + dropped + left == sent + held + queued + multiset{} + dropped + left
  {}

  lemma TakeAccounted(s: State, pick: Priority)
    requires Accounted(s) && Enabled(s, Take(pick))
    ensures Accounted(AfterTake(s, pick))
  {
    hide Queued, Receive;
    ReceiveMoves(s, pick);
    QueuedFrame(Receive(s, pick), AfterTake(s, pick));
  }

  lemma InspectAccounted(s: State, pick: Priority, congestion: real)
    requires Accounted(s) && Enabled(s, Inspect(pick, congestion))
    ensures Accounted(AfterInspect(s, pick, congestion))
  {
    hide Accounted, Receive, NoneAbove, Outranks;
    if !NoneAbove(s, s.loop.message) {
      SentFrontAccounted(s, pick);
    } else {
      HandedOnAccounted(s);
    }
  }

  lemma SentFrontAccounted(s: State, pick: Priority)
    requires Accounted(s) && s.loop.Holding? && Queue(s, pick) != []
    ensures Accounted(Send(Receive(s, pick), Queue(s, pick)[0]).(loop := Returning(s.loop.message)))
  {
    hide Queued, Receive;
    ReceiveMoves(s, pick);
    QueuedFrame(Receive(s, pick), Send(Receive(s, pick), Queue(s, pick)[0]).(loop := Returning(s.loop.message)));
  }

  lemma HandedOnAccounted(s: State)
    requires Accounted(s) && s.loop.Holding?
    ensures Accounted(Send(s, s.loop.message).(loop := Idle))
    ensures Accounted(Drop(s, s.loop.message).(loop := Idle))
  {
    hide Queued;
    QueuedFrame(s, Send(s, s.loop.message).(loop := Idle));
    QueuedFrame(s, Drop(s, s.loop.message).(loop := Idle));
  }

  lemma PutBackAccounted(s: State)
    requires Accounted(s) && s.loop.Returning?
    ensures Accounted(AfterPutBack(s))
  {
    hide Queued, Accept;
    var t := Accept(s, s.loop.message);
    AcceptMoves(s, s.loop.message);
    QueuedFrame(t, AfterPutBack(s));
    Regroup(multiset(s.sent), Queued(s), s.dropped, s.loop.message, Queued(t), t.dropped, multiset(s.admitted));
  }

  /** Every step of every interleaving: each offered message is sent, queued, in the loop's hand,
      dropped, or on its way to a queue, exactly once. */
  lemma {:induction false} NothingLost(actions: seq<Action>)
    requires Legal(actions)
    ensures Accounted(Run(actions))
    decreases |actions|
  {
    hide Accounted, AfterOffer, AfterEnqueue, AfterTake, AfterInspect, AfterPutBack;
    if actions == [] {
      EmptyAccounted();
    } else {
      NothingLost(actions[..|actions| - 1]);
      var s := Run(actions[..|actions| - 1]);
      match actions[|actions| - 1]
      case Offer(m, ok) => OfferAccounted(s, m, ok);
      case Enqueue(i) => EnqueueAccounted(s, i);
      case Take(pick) => TakeAccounted(s, pick);
      case Inspect(pick, congestion) => InspectAccounted(s, pick, congestion);
      case PutBack => PutBackAccounted(s);
    }
  }

  lemma EmptyAccounted()
    ensures Accounted(EMPTY)
  {}

  // ---------- capacities, sorting, order ----------

  predicate AllOf(q: seq<Message>, p: Priority) { forall i :: 0 <= i < |q| ==> Is(q[i], p) }

  /** Each queue holds messages of its own priority, no more than its capacity, and the loop never
      holds a high message. */
  predicate WellKept(s: State) {
    && Kept(s, High) && Kept(s, Medium) && Kept(s, Low)
    && (s.loop.Idle? || !Is(s.loop.message, High))
  }

  predicate Kept(s: State, p: Priority) { AllOf(Queue(s, p), p) && |Queue(s, p)| <= Capacity(p) }

  lemma AcceptKeeps(s: State, m: Message, p: Priority)
    requires Kept(s, p)
    ensures Kept(Accept(s, m), p)
  {}

  lemma ReceiveKeeps(s: State, from: Priority, p: Priority)
    requires Kept(s, p) && Queue(s, from) != []
    ensures Kept(Receive(s, from), p)
  {}

  lemma KeptFrame(s: State, t: State)
    requires s.high == t.high && s.medium == t.medium && s.low == t.low
    ensures forall p :: Kept(s, p) ==> Kept(t, p)
  {}

  lemma AcceptKeepsAll(s: State, m: Message)
    ensures forall p :: Kept(s, p) ==> Kept(Accept(s, m), p)
  {
    hide Kept, Accept;
    forall p | Kept(s, p) ensures Kept(Accept(s, m), p) { AcceptKeeps(s, m, p); }
  }

  lemma ReceiveKeepsAll(s: State, from: Priority)
    requires Queue(s, from) != []
    ensures forall p :: Kept(s, p) ==> Kept(Receive(s, from), p)
  {
    hide Kept, Receive;
    forall p | Kept(s, p) ensures Kept(Receive(s, from), p) { ReceiveKeeps(s, from, p); }
  }

  lemma EnqueueKeepsQueues(s: State, i: nat)
    requires WellKept(s) && i < |s.admitted|
    ensures WellKept(AfterEnqueue(s, i))
  {
    hide Kept, Accept;
    var left := s.(admitted := s.admitted[..i] + s.admitted[i + 1..]);
    KeptFrame(s, left);
    AcceptMoves(left, s.admitted[i]);
    AcceptKeepsAll(left, s.admitted[i]);
    KeptFrame(Accept(left, s.admitted[i]), AfterEnqueue(s, i));
  }

  lemma SendFrontKeepsQueues(s: State, t: State, from: Priority)
    requires WellKept(s) && Queue(s, from) != []
    requires var r := Receive(s, from); t.high == r.high && t.medium == r.medium && t.low == r.low
    requires t.loop.Idle? || (t.loop.message == Queue(s, from)[0] && from != High)
             || (!s.loop.Idle? && t.loop.message == s.loop.message)
    ensures WellKept(t)
  {
    hide Kept, Receive;
    ReceiveKeepsAll(s, from);
    KeptFrame(Receive(s, from), t);
    HeadIs(s, from);
  }

  lemma StepKeepsQueues(s: State, a: Action)
    requires WellKept(s) && Enabled(s, a)
    ensures WellKept(Step(s, a))
  {
    var t := Step(s, a);
    hide Kept, Accept, Receive, NoneAbove, AfterEnqueue;
    match a
    case Offer(_, _) => KeptFrame(s, t);
    case Enqueue(i) => EnqueueKeepsQueues(s, i);
    case Take(pick) =>
      ReceiveMoves(s, pick);
      SendFrontKeepsQueues(s, t, pick);
    case Inspect(pick, _) =>
      if NoneAbove(s, s.loop.message) {
        KeptFrame(s, t);
      } else {
        SendFrontKeepsQueues(s, t, pick);
      }
    case PutBack =>
      AcceptMoves(s, s.loop.message);
      AcceptKeepsAll(s, s.loop.message);
      KeptFrame(Accept(s, s.loop.message), t);
  }

  lemma HeadIs(s: State, p: Priority)
    requires Kept(s, p) && Queue(s, p) != []
    ensures Is(Queue(s, p)[0], p)
  {}

  /** The high-priority messages of a sequence, in order. */
  function HighOnly(q: seq<Message>): seq<Message> {
    if q == [] then []
    else HighOnly(q[..|q| - 1]) + if Is(q[|q| - 1], High) then [q[|q| - 1]] else []
  }

  lemma HighOnlyAppend(q: seq<Message>, m: Message)
    ensures HighOnly(q + [m]) == HighOnly(q) + if Is(m, High) then [m] else []
  {
    assert (q + [m])[..|q|] == q;
  }

  /** The accepted high messages are those sent, then those still queued. */
  predicate InOrder(s: State) { s.acceptedHigh == HighOnly(s.sent) + s.high }

  lemma StepKeepsOrder(s: State, a: Action)
    requires InOrder(s) && WellKept(s) && Enabled(s, a)
    ensures InOrder(Step(s, a))
  {
    hide HighOnly, AllOf;
    match a
    case Offer(_, _) =>
    case Enqueue(i) =>
    case Take(pick) => SendFrontKeepsOrder(s, pick);
    case Inspect(pick, _) =>
      if NoneAbove(s, s.loop.message) {
        HighOnlyAppend(s.sent, s.loop.message);
      } else {
        SendFrontKeepsOrder(s, pick);
      }
    case PutBack =>
  }

  lemma SendFrontKeepsOrder(s: State, pick: Priority)
    requires InOrder(s) && Kept(s, pick) && Queue(s, pick) != []
    ensures InOrder(Send(Receive(s, pick), Queue(s, pick)[0]))
    ensures pick != High ==> InOrder(Receive(s, pick))
  {
    hide InOrder, Kept, Receive;
    if pick == High { HighFrontKeepsOrder(s); } else { OtherFrontKeepsOrder(s, pick); }
  }

  lemma HighFrontKeepsOrder(s: State)
    requires InOrder(s) && Kept(s, High) && s.high != []
    ensures InOrder(Send(Receive(s, High), s.high[0]))
  {
    HeadIs(s, High);
    HighOnlyAppend(s.sent, s.high[0]);
    assert s.high == [s.high[0]] + s.high[1..];
    hide Kept, HighOnly;
  }

  lemma OtherFrontKeepsOrder(s: State, pick: Priority)
    requires InOrder(s) && Kept(s, pick) && Queue(s, pick) != [] && pick != High
    ensures InOrder(Receive(s, pick)) && InOrder(Send(Receive(s, pick), Queue(s, pick)[0]))
  {
    HeadIs(s, pick);
    HighOnlyAppend(s.sent, Queue(s, pick)[0]);
    hide Kept, HighOnly;
    var t := Receive(s, pick);
    assert t.high == s.high && t.sent == s.sent && t.acceptedHigh == s.acceptedHigh;
  }

  /** Every step of every interleaving: no queue outgrows its capacity or holds a message of another
      priority, and high-priority messages leave in the order they were accepted. */
  lemma {:induction false} QueuesInOrder(actions: seq<Action>)
    requires Legal(actions)
    ensures WellKept(Run(actions)) && InOrder(Run(actions))
    ensures HighOnly(Run(actions).sent) <= Run(actions).acceptedHigh
    ensures |Run(actions).high| <= 1000 && |Run(actions).medium| <= 5000 && |Run(actions).low| <= 10000
    decreases |actions|
  {
    hide WellKept, Step, HighOnly, Enabled;
    Capacities(Run(actions));
    if actions == [] {
      EmptyInOrder();
    } else {
      QueuesInOrder(actions[..|actions| - 1]);
      StepKeepsQueues(Run(actions[..|actions| - 1]), actions[|actions| - 1]);
      StepKeepsOrder(Run(actions[..|actions| - 1]), actions[|actions| - 1]);
    }
  }

  lemma Capacities(s: State)
    ensures WellKept(s) ==> |s.high| <= 1000 && |s.medium| <= 5000 && |s.low| <= 10000
  {}

  lemma EmptyInOrder()
    ensures WellKept(EMPTY) && InOrder(EMPTY)
  {}

  /** Every queue is first in, first out: a step leaves it, takes its front, or adds at its end, and what is
      put back goes to the end like anything else. */
  lemma FirstInFirstOut(s: State, a: Action, p: Priority)
    requires Enabled(s, a)
    ensures var q, r := Queue(s, p), Queue(Step(s, a), p);
            || r == q
            || (q != [] && r == q[1..] && (Step(s, a).sent == s.sent + [q[0]] || Step(s, a).loop == Holding(q[0])))
            || exists m :: r == q + [m]
    ensures a.PutBack? && p == PriorityOf(s.loop.message.kind) ==>
              Queue(Step(s, a), p)
              == if |Queue(s, p)| < Capacity(p) then Queue(s, p) + [s.loop.message] else Queue(s, p)
  {}

  // ---------- priority ----------

  /** What a step sends, and what was waiting then. A low message leaves only past two empty queues.
      A medium one leaves past a waiting high one only where the loop holds a low message and its
      select, finding both higher queues ready, picks the medium. */
  lemma SendDiscipline(s: State, a: Action)
    requires WellKept(s) && Enabled(s, a) && Step(s, a).sent != s.sent
    ensures |Step(s, a).sent| == |s.sent| + 1 && s.sent <= Step(s, a).sent
    ensures var m := Step(s, a).sent[|s.sent|];
            && (Is(m, Low) ==> s.high == [] && s.medium == [])
            && (Is(m, Medium) && s.high != [] ==> PicksMedium(s, a))
  {
    hide AllOf, Kept;
    match a
    case Offer(_, _) =>
    case Enqueue(i) =>
    case Take(pick) => HeadIs(s, pick);
    case Inspect(pick, _) => if Queue(s, pick) != [] { HeadIs(s, pick); }
    case PutBack =>
  }

  /** The loop holds a low message, both higher queues are ready, and the select picks the medium. */
  predicate PicksMedium(s: State, a: Action) {
    && s.loop.Holding? && Is(s.loop.message, Low) && a.Inspect? && a.pick == Medium
    && s.high != [] && s.medium != []
  }

  /** In that case the medium message does leave, and the high one goes on waiting. */
  lemma MediumPassesHigh(s: State, a: Action)
    requires WellKept(s) && PicksMedium(s, a)
    ensures Enabled(s, a)
    ensures var t := Step(s, a); t.sent == s.sent + [s.medium[0]] && Is(s.medium[0], Medium) && t.high == s.high
  {
    HeadIs(s, Medium);
    hide AllOf, Kept;
  }

  lemma Extend(actions: seq<Action>, a: Action) returns (longer: seq<Action>)
    requires Legal(actions) && Enabled(Run(actions), a)
    ensures longer == actions + [a] && Legal(longer) && Run(longer) == Step(Run(actions), a)
  {
    longer := actions + [a];
    assert longer[..|actions|] == actions;
  }

  lemma Accepted(actions: seq<Action>, m: Message) returns (longer: seq<Action>)
    requires Legal(actions) && Run(actions).admitted == []
    ensures Legal(longer)
    ensures var s := Run(actions);
            Run(longer) == AcceptNew(s.(offered := s.offered + multiset{m}), m)
  {
    hide AcceptNew;
    var offer := Extend(actions, Offer(m, true));
    longer := Extend(offer, Enqueue(0));
    var s := Run(actions);
    assert s.(offered := s.offered + multiset{m})
           == Run(offer).(admitted := Run(offer).admitted[..0] + Run(offer).admitted[1..]);
  }

  /** That case arises: a medium message is sent while a high one waits. */
  lemma MediumOvertakesHigh() returns (actions: seq<Action>)
    ensures Legal(actions)
    ensures Run(actions).sent == [Message(Heartbeat, 1)] && Run(actions).high == [Message(NewBlock, 2)]
  {
    hide Run, Legal, WellKept, InOrder, Enabled;
    actions := HoldingLow(Message(SyncRequest, 0));
    actions := BothAboveReady(actions, Message(Heartbeat, 1), Message(NewBlock, 2));
    hide Step;
    QueuesInOrder(actions);
    MediumPassesHigh(Run(actions), Inspect(Medium, 0.0));
    actions := Extend(actions, Inspect(Medium, 0.0));
  }

  /** The capacities are used: offered nothing else, a queue takes that many, and drops none. */
  lemma {:induction false} QueueFills(m: Message, n: nat) returns (actions: seq<Action>)
    requires n <= (if m.kind in {NewBlock, ValidatorUpdate, EmptyBlock} then 1000
                   else if m.kind in {NewTransaction, Heartbeat, Ping, Pong} then 5000 else 10000)
    ensures Legal(actions)
    ensures var s := Run(actions);
            s.admitted == [] && s.dropped == multiset{} && |Queue(s, PriorityOf(m.kind))| == n
  {
    KindsByPriority(m.kind);
    hide Run, Legal, Step, PriorityOf;
    if n == 0 {
      EmptyRun();
      actions := [];
    } else {
      var before := QueueFills(m, n - 1);
      actions := Accepted(before, m);
    }
  }

  /** With nothing above it waiting, the message the loop holds is sent, unless it is a low one under
      congestion of 0.8 or more: that one is dropped. */
  lemma HeldIsHandedOn(s: State, pick: Priority, congestion: real)
    requires s.loop.Holding? && s.high == [] && (Is(s.loop.message, Low) ==> s.medium == [])
    requires !Is(s.loop.message, High)
    ensures Enabled(s, Inspect(pick, congestion))
    ensures var t, m := Step(s, Inspect(pick, congestion)), s.loop.message;
            && t.loop == Idle && Queued(t) == Queued(s)
            && (if Is(m, Low) && congestion >= 0.8
                then t.sent == s.sent && t.dropped == s.dropped + multiset{m}
                else t.sent == s.sent + [m] && t.dropped == s.dropped)
  {
    QueuedFrame(s, Step(s, Inspect(pick, congestion)));
    hide Queued, Accept;
  }

  lemma HoldingLow(low: Message) returns (actions: seq<Action>)
    requires Is(low, Low)
    ensures Legal(actions)
    ensures Run(actions) == EMPTY.(loop := Holding(low), offered := multiset{low})
  {
    hide Run, Legal;
    EmptyRun();
    actions := Accepted([], low);
    actions := Extend(actions, Take(Low));
  }

  lemma BothAboveReady(before: seq<Action>, medium: Message, high: Message) returns (actions: seq<Action>)
    requires Is(medium, Medium) && Is(high, High)
    requires Legal(before)
    requires var s := Run(before); s == EMPTY.(loop := s.loop, offered := s.offered) && s.loop.Holding?
    ensures Legal(actions)
    ensures var t := Run(actions);
            t == EMPTY.(medium := [medium], high := [high], loop := Run(before).loop, offered := t.offered,
                        acceptedHigh := [high])
  {
    hide Run, Legal, Step;
    actions := Accepted(before, medium);
    actions := Accepted(actions, high);
  }

  lemma EmptyRun()
    ensures Legal([]) && Run([]) == EMPTY
  {}

  // ---------- the code between two steps of another goroutine ----------

  lemma BroadcastKeeps(s: State, m: Message, ok: bool)
    requires WellKept(s) && Accounted(s) && InOrder(s) && s.admitted == []
    ensures var offer := Step(s, Offer(m, ok));
            var t := if ok then Step(offer, Enqueue(0)) else offer;
            && WellKept(t) && Accounted(t) && InOrder(t)
            && t == (if ok then AcceptNew(s.(offered := s.offered + multiset{m}), m)
                     else Drop(s.(offered := s.offered + multiset{m}), m))
  {
    hide WellKept, Accounted, InOrder, AcceptNew;
    var offer := Step(s, Offer(m, ok));
    StepKeepsQueues(s, Offer(m, ok));
    StepKeepsOrder(s, Offer(m, ok));
    OfferAccounted(s, m, ok);
    if ok {
      StepKeepsQueues(offer, Enqueue(0));
      StepKeepsOrder(offer, Enqueue(0));
      EnqueueAccounted(offer, 0);
      assert s.(offered := s.offered + multiset{m})
             == offer.(admitted := offer.admitted[..0] + offer.admitted[1..]);
    }
  }

  /** The loop may take `pick`, and then `inner` if its select finds a higher queue ready. */
  predicate MayIterate(s: State, pick: Priority, inner: Priority) {
    && Enabled(s, Take(pick))
    && (pick == High || Enabled(Step(s, Take(pick)), Inspect(inner, 0.0)))
  }

  function Iteration(s: State, pick: Priority, inner: Priority, congestion: real): State
    requires WellKept(s) && MayIterate(s, pick, inner)
  {
    var t := Step(s, Take(pick));
    if t.loop.Idle? then t
    else
      var u := Step(t, Inspect(inner, congestion));
      if u.loop.Idle? then u else Step(u, PutBack)
  }

  lemma IterationKeeps(s: State, pick: Priority, inner: Priority, congestion: real)
    requires WellKept(s) && Accounted(s) && InOrder(s) && MayIterate(s, pick, inner)
    ensures var t := Iteration(s, pick, inner, congestion); WellKept(t) && Accounted(t) && InOrder(t)
  {
    hide WellKept, Accounted, InOrder, NoneAbove, Outranks, Queue, Receive, WithQueue, Accept;
    StepKeepsQueues(s, Take(pick));
    StepKeepsOrder(s, Take(pick));
    TakeAccounted(s, pick);
    ReceiveMoves(s, pick);
    var t := Step(s, Take(pick));
    if !t.loop.Idle? {
      StepKeepsQueues(t, Inspect(inner, congestion));
      StepKeepsOrder(t, Inspect(inner, congestion));
      InspectAccounted(t, inner, congestion);
      var u := Step(t, Inspect(inner, congestion));
      if !u.loop.Idle? {
        StepKeepsQueues(u, PutBack);
        StepKeepsOrder(u, PutBack);
        PutBackAccounted(u);
      }
    }
  }

  predicate NoneAbovePick(s: State, pick: Priority) { s.high == [] && (pick == Low ==> s.medium == []) }

  lemma IterationIs(s: State, pick: Priority, inner: Priority, congestion: real)
    requires WellKept(s) && MayIterate(s, pick, inner)
    ensures Queue(s, pick) != [] && Is(Queue(s, pick)[0], pick)
    ensures var m := Queue(s, pick)[0];
            var t := Receive(s, pick);
            && (pick == High ==> Iteration(s, pick, inner, congestion) == Send(t, m))
            && (pick != High && NoneAbovePick(s, pick) ==>
                  Iteration(s, pick, inner, congestion) ==
                  (if pick == Medium || congestion < 0.8 then Send(t, m) else Drop(t, m)).(loop := Idle))
            && (pick != High && !NoneAbovePick(s, pick) ==>
                  && (inner == High || (inner == Medium && pick == Low)) && Queue(s, inner) != []
                  && Iteration(s, pick, inner, congestion)
                     == Accept(Send(Receive(t, inner), Queue(s, inner)[0]), m).(loop := Idle))
  {
    hide AllOf;
    HeadIs(s, pick);
    if pick != High {
      if NoneAbovePick(s, pick) { IterationSends(s, pick, inner, congestion); }
      else { IterationReturns(s, pick, inner, congestion); }
    }
  }

  lemma IterationSends(s: State, pick: Priority, inner: Priority, congestion: real)
    requires WellKept(s) && MayIterate(s, pick, inner) && pick != High && NoneAbovePick(s, pick)
    ensures var m := Queue(s, pick)[0];
            var t := Receive(s, pick);
            Iteration(s, pick, inner, congestion) ==
            (if pick == Medium || congestion < 0.8 then Send(t, m) else Drop(t, m)).(loop := Idle)
  {
    hide AllOf, Accept;
    HeadIs(s, pick);
  }

  lemma IterationReturns(s: State, pick: Priority, inner: Priority, congestion: real)
    requires WellKept(s) && MayIterate(s, pick, inner) && pick != High && !NoneAbovePick(s, pick)
    ensures var m := Queue(s, pick)[0];
            && (inner == High || (inner == Medium && pick == Low)) && Queue(s, inner) != []
            && Iteration(s, pick, inner, congestion)
               == Accept(Send(Receive(Receive(s, pick), inner), Queue(s, inner)[0]), m).(loop := Idle)
  {
    hide AllOf, Accept;
    HeadIs(s, pick);
    var m := Queue(s, pick)[0];
    AcceptIgnoresLoop(Send(Receive(Receive(s, pick), inner), Queue(s, inner)[0]), m, Returning(m));
  }

  lemma AcceptIgnoresLoop(s: State, m: Message, loop: Loop)
    ensures Accept(s.(loop := loop), m).(loop := Idle) == Accept(s, m).(loop := Idle)
  {}

  class PriorityQueue {
    var high: seq<Message>
    var medium: seq<Message>
    var low: seq<Message>
    var droppedMessages: nat
    ghost var dropped: multiset<Message>
    ghost var sent: seq<Message>
    ghost var offered: multiset<Message>
    ghost var acceptedHigh: seq<Message>

    ghost predicate Valid()
      reads this
    {
      WellKept(View()) && Accounted(View()) && InOrder(View()) && droppedMessages == |dropped|
    }

    ghost function View(): State
      reads this
    {
      State(high, medium, low, Idle, [], sent, offered, dropped, acceptedHigh)
    }

    constructor ()
      ensures Valid() && View() == EMPTY
    {
      high, medium, low, droppedMessages := [], [], [], 0;
      dropped, sent, offered, acceptedHigh := multiset{}, [], multiset{}, [];
    }

    /** A receive from the channel of priority p. */
    method Take(p: Priority) returns (m: Message)
      requires Queue(View(), p) != []
      modifies this`high, this`medium, this`low
      ensures m == Queue(old(View()), p)[0] && View() == Receive(old(View()), p)
    {
      match p {
      case High => m, high := high[0], high[1..];
      case Medium => m, medium := medium[0], medium[1..];
      case Low => m, low := low[0], low[1..];
      }
    }

    /** A non-blocking send on the channel of m's priority; what finds it full is counted as dropped. */
    method Put(m: Message) returns (ok: bool)
      modifies this`high, this`medium, this`low, this`dropped, this`droppedMessages
      ensures View() == Accept(old(View()), m) && dropped == old(dropped) + if ok then multiset{} else multiset{m}
      ensures ok <==> |Queue(old(View()), PriorityOf(m.kind))| < Capacity(PriorityOf(m.kind))
      ensures droppedMessages == old(droppedMessages) + if ok then 0 else 1
    {
      ok := true;
      match PriorityOf(m.kind) {
      case High =>
        if |high| < Capacity(High) {
          high := high + [m];
          return;
        }
      case Medium =>
        if |medium| < Capacity(Medium) {
          medium := medium + [m];
          return;
        }
      case Low =>
        if |low| < Capacity(Low) {
          low := low + [m];
          return;
        }
      }
      Discard(m);
      ok := false;
    }

    method Discard(m: Message)
      modifies this`dropped, this`droppedMessages
      ensures View() == Drop(old(View()), m)
      ensures dropped == old(dropped) + multiset{m} && droppedMessages == old(droppedMessages) + 1
    {
      droppedMessages, dropped := droppedMessages + 1, dropped + multiset{m};
    }

    /** sendToPeers. */
    method SendToPeers(m: Message)
      modifies this`sent
      ensures View() == Send(old(View()), m)
    {
      sent := sent + [m];
    }

    /** broadcast, with no drain step in between; `withinBandwidth` is what checkBandwidth answered. */
    method Broadcast(m: Message, withinBandwidth: bool) returns (ok: bool)
      requires Valid()
      modifies this
      ensures Valid()
      ensures var offer := Step(old(View()), Offer(m, withinBandwidth));
              View() == if withinBandwidth then Step(offer, Enqueue(0)) else offer
      ensures ok <==> withinBandwidth && |Queue(old(View()), PriorityOf(m.kind))| < Capacity(PriorityOf(m.kind))
      ensures droppedMessages == old(droppedMessages) + if ok then 0 else 1
    {
      hide WellKept, Accounted, InOrder, Step, Accept, Drop;
      ghost var s := View();
      BroadcastKeeps(s, m, withinBandwidth);
      offered := offered + multiset{m};
      if !withinBandwidth {
        Discard(m);
        return false;
      }
      ok := Put(m);
      AcceptMoves(s.(offered := s.offered + multiset{m}), m);
      if ok && PriorityOf(m.kind) == High {
        acceptedHigh := acceptedHigh + [m];
      }
    }

    /** One iteration of messageLoop with no broadcast in between: `pick` and `inner` are the ready
        cases the outer and the inner select take. */
    method DrainOnce(pick: Priority, inner: Priority, congestion: real) returns (out: seq<Message>)
      requires Valid() && MayIterate(View(), pick, inner)
      modifies this
      ensures Valid() && View() == Iteration(old(View()), pick, inner, congestion)
      ensures sent == old(sent) + out && |out| <= 1
    {
      hide WellKept, Accounted, InOrder, Iteration, MayIterate, Accept, Receive, Drop, Queued;
      ghost var s := View();
      IterationKeeps(s, pick, inner, congestion);
      IterationIs(s, pick, inner, congestion);
      ReceiveMoves(s, pick);
      OtherQueues(s, pick);
      var m := Take(pick);
      if pick == High || (high == [] && (pick == Medium || medium == [])) {
        if pick != Low || congestion < 0.8 {
          SendToPeers(m);
          return [m];
        }
        Discard(m);
        return [];
      }
      ReceiveMoves(View(), inner);
      var first := Take(inner);
      SendToPeers(first);
      AcceptMoves(View(), m);
      var _ := Put(m);
      out := [first];
    }
  }

  lemma OtherQueues(s: State, from: Priority)
    requires Queue(s, from) != []
    ensures from != High ==> Queue(Receive(s, from), High) == s.high == Receive(s, from).high
    ensures from != Medium ==> Queue(Receive(s, from), Medium) == s.medium == Receive(s, from).medium
  {}
}
