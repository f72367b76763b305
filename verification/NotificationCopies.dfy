/** One notification sent from any number of copies, each loaded into a unit of work of its own, with the awaited
    steps of the sends interleaved (libs/domain/notification/application/src/lib/notification-orchestrator.ts). */
module NotificationCopies {
  import opened Wrappers
  import opened Notifications

  /** The awaited step a send stands before. */
  datatype Pc = Rendering | Queueing | Dispatching | Marking | Failing

  datatype Copy = Idle(memory: Notification) | InFlight(memory: Notification, lucks: Lucks, pc: Pc)

  datatype Shared = Shared(saved: Notification, copies: map<nat, Copy>, dispatches: nat)

  datatype Move =
    | Load(id: nat)
    | Begin(id: nat, lucks: Lucks)
    | Advance(id: nat)
    | Apply(id: nat, to: Status, luck: Luck, now: nat)

  /** A copy that waits can be loaded afresh, sent, or changed by a callback. */
  predicate IsIdle(s: Shared, id: nat) {
    id in s.copies && s.copies[id].Idle?
  }

  function Seen(s: Shared, id: nat): World
    requires id in s.copies
  {
    World(s.copies[id].memory, s.saved, s.dispatches)
  }

  /** Where a step ends that leads to `next`; in `catch` the send stands before the transition to FAILED_TERMINAL. */
  function Settle(s: Shared, id: nat, after: (World, Ending), next: Copy, catch: Copy): Shared {
    var copies := match after.1
      case Returned => s.copies[id := next]
      case Threw => s.copies[id := catch]
      case Died => s.copies - {id};
    Shared(after.0.saved, copies, after.0.dispatches)
  }

  /** One awaited step of a send. */
  function StepSend(s: Shared, id: nat): Shared
    requires id in s.copies && s.copies[id].InFlight?
  {
    var w, l := Seen(s, id), s.copies[id].lucks;
    match s.copies[id].pc
    case Rendering =>
      var after := Step(w, Rendered, l.flush1, l.now);
      Settle(s, id, after, InFlight(after.0.memory, l, Queueing), InFlight(after.0.memory, l, Failing))
    case Queueing =>
      var after := Step(w, QueuedProvider, l.flush2, l.now);
      Settle(s, id, after, InFlight(after.0.memory, l, Dispatching), InFlight(after.0.memory, l, Failing))
    case Dispatching =>
      var after := Dispatch(w, l.dispatch, l.channelKnown);
      Settle(s, id, after, InFlight(after.0.memory, l, Marking), InFlight(after.0.memory, l, Failing))
    case Marking =>
      var after := Step(w, SentProvider, l.flush3, l.now);
      Settle(s, id, after, Idle(after.0.memory), InFlight(after.0.memory, l, Failing))
    case Failing =>
      var after := Step(w, FailedTerminal, l.flush4, l.now);
      Settle(s, id, after, Idle(after.0.memory), Idle(after.0.memory))
  }

  function Do(s: Shared, move: Move): Shared {
    match move
    case Load(id) => if id in s.copies && s.copies[id].InFlight? then s else s.(copies := s.copies[id := Idle(s.saved)])
    case Begin(id, lucks) =>
      if !IsIdle(s, id) then s else s.(copies := s.copies[id := InFlight(s.copies[id].memory, lucks, Rendering)])
    case Advance(id) => if id in s.copies && s.copies[id].InFlight? then StepSend(s, id) else s
    case Apply(id, to, luck, now) =>
      if !IsIdle(s, id) then s
      else
        var after := Step(Seen(s, id), to, luck, now);
        Settle(s, id, after, Idle(after.0.memory), Idle(after.0.memory))
  }

  function DoAll(saved: Notification, moves: seq<Move>): Shared {
    if moves == [] then Shared(saved, map[], 0) else Do(DoAll(saved, moves[..|moves| - 1]), moves[|moves| - 1])
  }

  /** A send that will get its two flushes and a provider. */
  predicate IsLucky(lucks: Lucks) {
    lucks.flush1 == Works && lucks.flush2 == Works && lucks.channelKnown
  }

  predicate BeginsDispatch(s: Shared, move: Move) {
    move.Begin? && IsIdle(s, move.id) && s.copies[move.id].memory.status == Accepted && IsLucky(move.lucks)
  }

  /** The sends begun on a copy in ACCEPTED whose channel is known and whose two earlier flushes work. */
  function LuckySends(saved: Notification, moves: seq<Move>): nat {
    if moves == [] then 0
    else
      LuckySends(saved, moves[..|moves| - 1])
      + if BeginsDispatch(DoAll(saved, moves[..|moves| - 1]), moves[|moves| - 1]) then 1 else 0
  }

  /** The send has its call to a provider still before it. */
  predicate IsDue(copy: Copy) {
    copy.InFlight? &&
    match copy.pc
    case Rendering => copy.memory.status == Accepted && IsLucky(copy.lucks)
    case Queueing => copy.lucks.flush2 == Works && copy.lucks.channelKnown
    case Dispatching => copy.lucks.channelKnown
    case _ => false
  }

  function Due(s: Shared): set<nat> {
    set id | id in s.copies && IsDue(s.copies[id])
  }

  /** A send's own copy is where its steps left it, whatever the others saved. */
  predicate InStep(copy: Copy) {
    copy.InFlight? && copy.pc == Queueing ==> copy.memory.status == Rendered
  }

  ghost predicate AllInStep(s: Shared) {
    forall id :: id in s.copies ==> InStep(s.copies[id])
  }

  /** One step of a send keeps what is dispatched and due together. */
  lemma SendStepCounts(s: Shared, id: nat)
    requires AllInStep(s) && id in s.copies && s.copies[id].InFlight?
    ensures var after := StepSend(s, id);
      && AllInStep(after)
      && (forall other :: other != id ==> (other in Due(after) <==> other in Due(s)))
      && (id in Due(after) ==> id in Due(s))
      && after.dispatches == s.dispatches + if id in Due(s) && id !in Due(after) then 1 else 0
  {
  }

  lemma OneLeaves(a: set<nat>, b: set<nat>, id: nat)
    requires (forall other :: other != id ==> (other in b <==> other in a)) && (id in b ==> id in a)
    ensures |b| == |a| - if id in a && id !in b then 1 else 0
  {
    if id in a && id !in b { assert b == a - {id}; } else { assert b == a; }
  }

  lemma OthersAlike(s: Shared, after: Shared, id: nat)
    requires forall other :: other != id ==>
               (other in after.copies <==> other in s.copies)
                   && (other in s.copies ==> after.copies[other] == s.copies[other])
    requires id in s.copies ==> !s.copies[id].InFlight?
    ensures Due(after) == Due(s) + if id in after.copies && IsDue(after.copies[id]) then {id} else {}
    ensures id !in Due(s)
  {
  }

  lemma QuietMoveCounts(s: Shared, move: Move)
    requires AllInStep(s) && (move.Load? || move.Apply?)
    ensures AllInStep(Do(s, move)) && Due(Do(s, move)) == Due(s) && Do(s, move).dispatches == s.dispatches
  {
    if move.id !in s.copies || s.copies[move.id].Idle? { OthersAlike(s, Do(s, move), move.id); }
  }

  lemma MoveCounts(s: Shared, move: Move)
    requires AllInStep(s)
    ensures AllInStep(Do(s, move))
    ensures Do(s, move).dispatches + |Due(Do(s, move))| ==
            s.dispatches + |Due(s)| + if BeginsDispatch(s, move) then 1 else 0
  {
    match move
    case Advance(id) =>
      if id in s.copies && s.copies[id].InFlight? {
        SendStepCounts(s, id);
        OneLeaves(Due(s), Due(Do(s, move)), id);
      }
    case Begin(id, _) => if IsIdle(s, id) { OthersAlike(s, Do(s, move), id); }
    case Load(_) => QuietMoveCounts(s, move);
    case Apply(_, _, _, _) => QuietMoveCounts(s, move);
  }

  /** Over every interleaving of loads, callbacks and the steps of sends, with any of them failing or dying: the
      calls to a provider and those still due are together as many as the lucky sends begun on a copy in ACCEPTED. */
  lemma {:induction false} DispatchesAreLuckySends(saved: Notification, moves: seq<Move>)
    ensures var end := DoAll(saved, moves);
      AllInStep(end) && end.dispatches + |Due(end)| == LuckySends(saved, moves)
  {
    if moves == [] {
      assert Due(DoAll(saved, moves)) == {};
    } else {
      DispatchesAreLuckySends(saved, moves[..|moves| - 1]);
      MoveCounts(DoAll(saved, moves[..|moves| - 1]), moves[|moves| - 1]);
    }
  }

  /** So once no send is under way, a provider was called exactly once for each of them. */
  lemma DispatchesAtRest(saved: Notification, moves: seq<Move>)
    requires forall id :: id in DoAll(saved, moves).copies ==> DoAll(saved, moves).copies[id].Idle?
    ensures DoAll(saved, moves).dispatches == LuckySends(saved, moves)
  {
    DispatchesAreLuckySends(saved, moves);
    assert Due(DoAll(saved, moves)) == {};
  }

  /** The steps of one send with nothing in between. */
  function Finish(s: Shared, id: nat, n: nat): Shared
    decreases n
  {
    if n == 0 then s else Finish(Do(s, Advance(id)), id, n - 1)
  }

  function StepsLeft(pc: Pc): nat {
    match pc
    case Rendering => 5
    case Queueing => 4
    case Dispatching => 3
    case Marking => 2
    case Failing => 1
  }

  /** The rest of a send from one of its steps on. */
  function Rest(w: World, l: Lucks, pc: Pc): (World, Ending)
    decreases StepsLeft(pc), 0
  {
    match pc
    case Rendering => Onward(Step(w, Rendered, l.flush1, l.now), l, Queueing)
    case Queueing => Onward(Step(w, QueuedProvider, l.flush2, l.now), l, Dispatching)
    case Dispatching => Onward(Dispatch(w, l.dispatch, l.channelKnown), l, Marking)
    case Marking =>
      var after := Step(w, SentProvider, l.flush3, l.now);
      if after.1 == Threw then Rest(after.0, l, Failing) else after
    case Failing => Step(w, FailedTerminal, l.flush4, l.now)
  }

  function Onward(after: (World, Ending), l: Lucks, next: Pc): (World, Ending)
    requires StepsLeft(next) > 1
    decreases StepsLeft(next), 1
  {
    match after.1
    case Returned => Rest(after.0, l, next)
    case Threw => Rest(after.0, l, Failing)
    case Died => after
  }

  function Closed(s: Shared, id: nat, after: (World, Ending)): Shared {
    var copies := if after.1 == Died then s.copies - {id} else s.copies[id := Idle(after.0.memory)];
    Shared(after.0.saved, copies, after.0.dispatches)
  }

  lemma {:induction false} FinishIsRest(s: Shared, id: nat, n: nat)
    requires id in s.copies && s.copies[id].InFlight? && n >= StepsLeft(s.copies[id].pc)
    ensures Finish(s, id, n) == Closed(s, id, Rest(Seen(s, id), s.copies[id].lucks, s.copies[id].pc))
    decreases n
  {
    var next := Do(s, Advance(id));
    if id in next.copies && next.copies[id].InFlight? {
      FinishIsRest(next, id, n - 1);
      assert next.copies == s.copies[id := next.copies[id]];
    } else {
      FinishStops(next, id, n - 1);
    }
  }

  lemma {:induction false} FinishStops(s: Shared, id: nat, n: nat)
    requires id in s.copies ==> s.copies[id].Idle?
    ensures Finish(s, id, n) == s
    decreases n
  {
    if n > 0 { FinishStops(s, id, n - 1); }
  }

  /** Undisturbed, the steps do what the whole send does. */
  lemma UndisturbedSend(s: Shared, id: nat, l: Lucks)
    requires IsIdle(s, id)
    ensures Finish(Do(s, Begin(id, l)), id, 5) == Closed(s, id, Send(Seen(s, id), l))
  {
    FinishIsRest(Do(s, Begin(id, l)), id, 5);
    RestIsSend(Seen(s, id), l);
  }

  lemma RestIsSend(w: World, l: Lucks)
    ensures Rest(w, l, Rendering) == Send(w, l)
  {
  }
}
