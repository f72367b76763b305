/** The notification state machine and the orchestrator that drives it
    (libs/domain/notification/domain/src/lib/notification-state-machine.ts;
    libs/domain/notification/application/src/lib/notification-orchestrator.ts), with the provider callbacks of
    libs/domain/notification/infrastructure/src/lib/controllers/notification-callback.controller.ts. */
module Notifications {
  import opened Wrappers

  datatype Status =
    | Accepted | Rendered | QueuedProvider | SentProvider | Delivered | Opened | Bounced | Complained | FailedTerminal

  function AllowedNext(status: Status): set<Status> {
    match status
    case Accepted => {Rendered, FailedTerminal}
    case Rendered => {QueuedProvider, FailedTerminal}
    case QueuedProvider => {SentProvider, FailedTerminal, Bounced}
    case SentProvider => {Delivered, Bounced, Complained, FailedTerminal}
    case Delivered => {Opened, Complained}
    case _ => {}
  }

  predicate CanTransition(from: Status, to: Status) {
    to in AllowedNext(from)
  }

  /** `history` holds the status of every attempt added. */
  datatype Notification = Notification(status: Status, sentAt: Option<nat>, deliveredAt: Option<nat>,
                                       history: seq<Status>)

  const FRESH := Notification(Accepted, None, None, [])

  function Transition(n: Notification, to: Status, now: nat): Option<Notification> {
    if !CanTransition(n.status, to) then None
    else Some(n.(status := to, history := n.history + [to],
                 sentAt := if to == SentProvider then Some(now) else n.sentAt,
                 deliveredAt := if to == Delivered then Some(now) else n.deliveredAt))
  }

  /** How an awaited step goes; at `Dies` the process ends there, and the unit of work with it. */
  datatype Luck = Works | Fails | Dies

  datatype Lucks = Lucks(flush1: Luck, flush2: Luck, dispatch: Luck, flush3: Luck, flush4: Luck, channelKnown: bool,
                         now: nat)

  datatype Ending = Returned | Threw | Died

  /** The notification in the unit of work, its row, and the number of calls to a provider. */
  datatype World = World(memory: Notification, saved: Notification, dispatches: nat)

  function Flush(w: World, luck: Luck): (World, Ending) {
    match luck
    case Works => (w.(saved := w.memory), Returned)
    case Fails => (w, Threw)
    case Dies => (w, Died)
  }

  function Step(w: World, to: Status, luck: Luck, now: nat): (World, Ending) {
    match Transition(w.memory, to, now)
    case None => (w, Threw)
    case Some(n) => Flush(w.(memory := n), luck)
  }

  function Dispatch(w: World, luck: Luck, channelKnown: bool): (World, Ending) {
    if !channelKnown then (w, Threw)
    else (w.(dispatches := w.dispatches + 1), match luck case Works => Returned case Fails => Threw case Dies => Died)
  }

  /** The body of the `try`. */
  function Attempt(w: World, l: Lucks): (World, Ending) {
    var (rendered, e1) := Step(w, Rendered, l.flush1, l.now);
    if e1 != Returned then (rendered, e1)
    else
      var (queued, e2) := Step(rendered, QueuedProvider, l.flush2, l.now);
      if e2 != Returned then (queued, e2)
      else
        var (sent, e3) := Dispatch(queued, l.dispatch, l.channelKnown);
        if e3 != Returned then (sent, e3) else Step(sent, SentProvider, l.flush3, l.now)
  }

  function Send(w: World, l: Lucks): (World, Ending) {
    var (after, ending) := Attempt(w, l);
    if ending == Threw then Step(after, FailedTerminal, l.flush4, l.now) else (after, ending)
  }

  class NotificationOrchestrator {
    var memory: Notification
    var saved: Notification
    var dispatches: nat

    function State(): World
      reads this
    {
      World(memory, saved, dispatches)
    }

    method Advance(to: Status, luck: Luck, now: nat) returns (ending: Ending)
      modifies this
      ensures (State(), ending) == Step(old(State()), to, luck, now)
    {
      if !CanTransition(memory.status, to) { return Threw; }
      memory := memory.(status := to, history := memory.history + [to]);
      if to == SentProvider {
        memory := memory.(sentAt := Some(now));
      } else if to == Delivered {
        memory := memory.(deliveredAt := Some(now));
      }
      match luck
      case Works =>
        saved := memory;
        return Returned;
      case Fails => return Threw;
      case Dies => return Died;
    }

    method TrySend(l: Lucks) returns (ending: Ending)
      modifies this
      ensures (State(), ending) == Attempt(old(State()), l)
    {
      ending := Advance(Rendered, l.flush1, l.now);
      if ending != Returned { return; }
      ending := Advance(QueuedProvider, l.flush2, l.now);
      if ending != Returned { return; }
      if !l.channelKnown { return Threw; }
      dispatches := dispatches + 1;
      match l.dispatch
      case Fails => return Threw;
      case Dies => return Died;
      case Works =>
        ending := Advance(SentProvider, l.flush3, l.now);
    }

    method SendNotification(l: Lucks) returns (ending: Ending)
      modifies this
      ensures (State(), ending) == Send(old(State()), l)
    {
      ending := TrySend(l);
      if ending == Threw {
        ending := Advance(FailedTerminal, l.flush4, l.now);
      }
    }
  }

  /** The statuses of its messages a provider reports and what they ask for. */
  function Reported(providerStatus: string): Option<Status> {
    match providerStatus
    case "delivered" => Some(Delivered)
    case "failed" => Some(FailedTerminal)
    case "undelivered" => Some(FailedTerminal)
    case "sent" => Some(SentProvider)
    case _ => None
  }

  class NotificationCallbackController {
    var saved: Notification
    ghost var dispatches: nat

    ghost function State(): World
      reads this
    {
      World(saved, saved, dispatches)
    }

    /** The found row is changed if what is reported asks for a status that can follow, and its flush works. */
    method UpdateStatus(providerStatus: string, works: bool, now: nat) returns (threw: bool)
      modifies this`saved
      ensures var reported, luck := Reported(providerStatus), if works then Works else Fails;
              var taken := reported.Some? && CanTransition(old(saved).status, reported.value);
        && State().saved == (if taken then Step(old(State()), reported.value, luck, now).0.saved else old(saved))
        && (threw <==> taken && !works)
    {
      var target: Option<Status> := match providerStatus
        case "delivered" => Some(Delivered)
        case "failed" => Some(FailedTerminal)
        case "undelivered" => Some(FailedTerminal)
        case "sent" => Some(SentProvider)
        case _ => None;
      if target.None? || !CanTransition(saved.status, target.value) { return false; }
      if !works { return true; }
      saved := saved.(status := target.value, history := saved.history + [target.value]);
      if target.value == SentProvider {
        saved := saved.(sentAt := Some(now));
      } else if target.value == Delivered {
        saved := saved.(deliveredAt := Some(now));
      }
      return false;
    }
  }

  // ----- any number of sends and callbacks, one after the other -----

  datatype Event = Sending(lucks: Lucks) | Callback(to: Status, luck: Luck, now: nat) | Reload

  /** A callback for a status that cannot follow is ignored. */
  function Next(w: World, event: Event): World {
    match event
    case Sending(lucks) =>
      var (after, ending) := Send(w, lucks);
      if ending == Died then after.(memory := after.saved) else after
    case Callback(to, luck, now) =>
      var (after, ending) := Step(w, to, luck, now);
      if ending == Died then after.(memory := after.saved) else after
    case Reload => w.(memory := w.saved)
  }

  function After(events: seq<Event>): World {
    if events == [] then World(FRESH, FRESH, 0) else Next(After(events[..|events| - 1]), events[|events| - 1])
  }

  /** The longest way from a status. */
  function Left(status: Status): nat {
    match status
    case Accepted => 5
    case Rendered => 4
    case QueuedProvider => 3
    case SentProvider => 2
    case Delivered => 1
    case _ => 0
  }

  ghost predicate IsPath(path: seq<Status>) {
    forall k :: 0 < k < |path| ==> CanTransition(path[k - 1], path[k])
  }

  ghost predicate WellFormed(n: Notification) {
    && IsPath([Accepted] + n.history)
    && n.status == (if n.history == [] then Accepted else n.history[|n.history| - 1])
    && |n.history| + Left(n.status) <= 5
    && (n.sentAt.Some? <==> SentProvider in n.history)
    && (n.deliveredAt.Some? <==> Delivered in n.history)
  }

  lemma TransitionKeepsWellFormed(n: Notification, to: Status, now: nat)
    requires WellFormed(n) && Transition(n, to, now).Some?
    ensures WellFormed(Transition(n, to, now).value)
  {
    var path, longer := [Accepted] + n.history, [Accepted] + (n.history + [to]);
    assert longer == path + [to] && path[|path| - 1] == n.status;
    assert forall s :: s in n.history + [to] <==> s in n.history || s == to;
  }

  /** What every step keeps: both copies are well formed, the memory is ahead of the row, and a dispatch leaves the
      row beyond rendering. */
  ghost predicate Inv(w: World) {
    && WellFormed(w.memory) && WellFormed(w.saved) && w.saved.history <= w.memory.history
    && w.dispatches <= 1
    && (w.dispatches == 1 ==> Left(w.saved.status) <= Left(QueuedProvider))
    && Left(w.memory.status) <= Left(w.saved.status)
  }

  lemma StepKeepsInv(w: World, to: Status, luck: Luck, now: nat)
    requires Inv(w)
    ensures Inv(Step(w, to, luck, now).0)
    ensures var (after, ending) := Step(w, to, luck, now);
            && after.dispatches == w.dispatches
            && (ending == Returned ==>
                 after.saved == after.memory && after.memory.status == to && CanTransition(w.memory.status, to))
            && (ending == Died ==> Inv(after.(memory := after.saved)))
  {
    if Transition(w.memory, to, now).Some? {
      TransitionKeepsWellFormed(w.memory, to, now);
    }
  }

  lemma AttemptKeepsInv(w: World, l: Lucks)
    requires Inv(w)
    ensures Inv(Attempt(w, l).0)
    ensures Attempt(w, l).1 == Died ==> Inv(Attempt(w, l).0.(memory := Attempt(w, l).0.saved))
  {
    StepKeepsInv(w, Rendered, l.flush1, l.now);
    var (rendered, e1) := Step(w, Rendered, l.flush1, l.now);
    if e1 == Returned {
      StepKeepsInv(rendered, QueuedProvider, l.flush2, l.now);
      var (queued, e2) := Step(rendered, QueuedProvider, l.flush2, l.now);
      if e2 == Returned {
        var (sent, e3) := Dispatch(queued, l.dispatch, l.channelKnown);
        assert w.memory.status == Accepted && w.dispatches == 0;
        assert Inv(sent) && sent.memory == sent.saved;
        if e3 == Returned {
          StepKeepsInv(sent, SentProvider, l.flush3, l.now);
        }
      }
    }
  }

  lemma EventKeepsInv(w: World, event: Event)
    requires Inv(w)
    ensures Inv(Next(w, event))
  {
    match event
    case Sending(lucks) =>
      AttemptKeepsInv(w, lucks);
      var (after, ending) := Attempt(w, lucks);
      if ending == Threw {
        StepKeepsInv(after, FailedTerminal, lucks.flush4, lucks.now);
      }
    case Callback(to, luck, now) => StepKeepsInv(w, to, luck, now);
    case Reload =>
  }

  /** A process that dies leaves what its flushes have saved and nothing else; one that lives keeps its copy. */
  lemma DeathKeepsSavedOnly(w: World, l: Lucks, to: Status, luck: Luck, now: nat)
    ensures var (sent, after) := (Send(w, l), Next(w, Sending(l)));
      && after.saved == sent.0.saved && after.dispatches == sent.0.dispatches
      && after.memory == if sent.1 == Died then after.saved else sent.0.memory
    ensures var (taken, after) := (Step(w, to, luck, now), Next(w, Callback(to, luck, now)));
      && after.saved == taken.0.saved && after.dispatches == w.dispatches
      && after.memory == if luck == Dies && CanTransition(w.memory.status, to) then w.saved else taken.0.memory
  {
  }

  /** Over any sends, callbacks, failures, crashes and reloads: at most one call to a provider, and a history that is
      a path of at most five transitions ending in the status, with the timestamps set exactly when their status
      occurs in it. */
  lemma {:induction false} EveryRunKeepsInv(events: seq<Event>)
    ensures Inv(After(events))
  {
    if events != [] {
      EveryRunKeepsInv(events[..|events| - 1]);
      EventKeepsInv(After(events[..|events| - 1]), events[|events| - 1]);
    }
  }

  // ----------------------------------------------------------------- one send

  /** A send reaches a provider exactly from ACCEPTED, once both flushes before it have worked. */
  lemma SendDispatchesIff(w: World, l: Lucks)
    ensures Send(w, l).0.dispatches ==
            w.dispatches
            + if w.memory.status == Accepted && l.flush1 == Works && l.flush2 == Works && l.channelKnown then 1 else 0
  {}

  /** The first send: SENT_PROVIDER exactly when everything worked; otherwise FAILED_TERMINAL, if the process lives
      to save it. */
  lemma FirstSendOutcome(w: World, l: Lucks)
    requires w.memory == w.saved == FRESH
    ensures var (after, ending) := Send(w, l);
            && (after.saved.status == SentProvider <==>
                  l.channelKnown && l.flush1 == Works && l.flush2 == Works && l.dispatch == Works && l.flush3 == Works)
            && (ending == Returned ==>
                 after.memory == after.saved && after.saved.status in {SentProvider, FailedTerminal})
            && (ending == Threw ==> after.memory.status == FailedTerminal && l.flush4 == Fails)
  {}

  /** Sending again never helps: from a status that can still fail it turns the notification to FAILED_TERMINAL, even
      one already sent; from any other it throws and changes nothing. */
  lemma ResendOnlySpoils(w: World, l: Lucks)
    requires w.memory.status != Accepted
    ensures var (after, ending) := Send(w, l);
            && after.dispatches == w.dispatches
            && (CanTransition(w.memory.status, FailedTerminal) ==>
                 after.memory.status == FailedTerminal && after.memory.sentAt == w.memory.sentAt)
            && (!CanTransition(w.memory.status, FailedTerminal) ==> after == w && ending == Threw)
  {}

  /** The count is per row only while sends follow one another: two copies loaded before either is sent are both
      dispatched. */
  lemma TwoCopiesDispatchTwice(l: Lucks)
    requires l.channelKnown && l.flush1 == Works && l.flush2 == Works
    ensures var first := Send(World(FRESH, FRESH, 0), l).0;
            Send(first.(memory := FRESH), l).0.dispatches == 2
  {}

  // ----- which histories there are -----

  /** The longest histories: sent, delivered and then opened or complained of; sent and then bounced, complained of
      or failed; bounced or failed before being sent; failed before being queued; failed at once. */
  const LONGEST: set<seq<Status>> := {
    [Rendered, QueuedProvider, SentProvider, Delivered, Opened],
    [Rendered, QueuedProvider, SentProvider, Delivered, Complained],
    [Rendered, QueuedProvider, SentProvider, Bounced],
    [Rendered, QueuedProvider, SentProvider, Complained],
    [Rendered, QueuedProvider, SentProvider, FailedTerminal],
    [Rendered, QueuedProvider, Bounced],
    [Rendered, QueuedProvider, FailedTerminal],
    [Rendered, FailedTerminal],
    [FailedTerminal]}

  lemma PathStarts(path: seq<Status>, k: nat)
    requires IsPath([Accepted] + path) && k < |path|
    ensures CanTransition(if k == 0 then Accepted else path[k - 1], path[k])
  {
    var whole := [Accepted] + path;
    assert CanTransition(whole[k + 1 - 1], whole[k + 1]);
  }

  lemma PathIsPartOfOne(path: seq<Status>)
    requires IsPath([Accepted] + path) && |path| <= 5
    ensures exists whole :: whole in LONGEST && path <= whole
  {
    if |path| > 0 { PathStarts(path, 0); }
    if |path| > 1 { PathStarts(path, 1); }
    if |path| > 2 { PathStarts(path, 2); }
    if |path| > 3 { PathStarts(path, 3); }
    if |path| > 4 { PathStarts(path, 4); }
    var whole := Completed(path);
    assert path <= whole;
    if |path| == 1 && path[0] == Rendered { assert whole == [Rendered, FailedTerminal]; }
    if |path| == 2 && path[1] == QueuedProvider { assert whole == [Rendered, QueuedProvider, Bounced]; }
    if |path| == 3 && path[2] == SentProvider { assert whole == [Rendered, QueuedProvider, SentProvider, Bounced]; }
    if |path| == 4 && path[3] == Delivered {
      assert whole == [Rendered, QueuedProvider, SentProvider, Delivered, Opened];
    }
  }

  /** One of the longest histories that go on from here. */
  function Completed(path: seq<Status>): seq<Status> {
    if path == [] then [FailedTerminal]
    else
      match path[|path| - 1]
      case Rendered => path + [FailedTerminal]
      case QueuedProvider => path + [Bounced]
      case SentProvider => path + [Bounced]
      case Delivered => path + [Opened]
      case _ => path
  }

  /** Each of them follows the table to a status that nothing follows. */
  lemma LongestArePaths(whole: seq<Status>)
    requires whole in LONGEST
    ensures IsPath([Accepted] + whole)
    ensures whole[|whole| - 1] in {Opened, Complained, Bounced, FailedTerminal} && AllowedNext(whole[|whole| - 1]) == {}
  {
  }

  /** Every history, in memory and in the row, is one of these or a part of it from the start. */
  lemma HistoriesAre(events: seq<Event>)
    ensures exists whole :: whole in LONGEST && After(events).memory.history <= whole
    ensures exists whole :: whole in LONGEST && After(events).saved.history <= whole
  {
    EveryRunKeepsInv(events);
    PathIsPartOfOne(After(events).memory.history);
    PathIsPartOfOne(After(events).saved.history);
  }

  /** What a callback that can be saved does to a notification that was sent: a sent one takes delivery, bounce,
      complaint and failure, a delivered one opening and complaint, and every other callback changes nothing. */
  lemma CallbackTakenIff(w: World, to: Status, now: nat)
    requires w.memory.status !in {Accepted, Rendered, QueuedProvider}
    ensures var after := Next(w, Callback(to, Works, now));
            var taken := (w.memory.status == SentProvider && to in {Delivered, Bounced, Complained, FailedTerminal})
                         || (w.memory.status == Delivered && to in {Opened, Complained});
      && after.dispatches == w.dispatches
      && (!taken ==> after == w)
      && (taken ==>
            && after.saved == after.memory && after.memory.status == to
            && after.memory.history == w.memory.history + [to] && after.memory.sentAt == w.memory.sentAt
            && after.memory.deliveredAt == if to == Delivered then Some(now) else w.memory.deliveredAt)
  {
  }

  /** Every callback reports something of a message. */
  predicate OnlyReports(events: seq<Event>) {
    forall i :: 0 <= i < |events| && events[i].Callback? ==>
      events[i].to in {SentProvider, Delivered, FailedTerminal}
  }

  predicate Unreported(status: Status) {
    status == Opened || status == Bounced || status == Complained
  }

  lemma ReportStaysWithin(w: World, event: Event)
    requires !Unreported(w.memory.status) && !Unreported(w.saved.status)
    requires event.Callback? ==> !Unreported(event.to)
    ensures !Unreported(Next(w, event).memory.status) && !Unreported(Next(w, event).saved.status)
  {
  }

  /** So, with nothing but reports, no notification is ever opened, bounced or complained of. */
  lemma {:induction false} ReportsStayWithin(events: seq<Event>)
    requires OnlyReports(events)
    ensures !Unreported(After(events).memory.status) && !Unreported(After(events).saved.status)
  {
    if events != [] {
      ReportsStayWithin(events[..|events| - 1]);
      ReportStaysWithin(After(events[..|events| - 1]), events[|events| - 1]);
    }
  }

  /** What a provider reports: delivery and failure are taken by a notification that was sent, being sent by one that
      is queued, failure also by one not sent yet; nothing it reports ever opens, bounces or complains of one. */
  lemma ReportTakenIff(w: World, providerStatus: string, now: nat)
    requires w.memory == w.saved
    ensures Reported(providerStatus).Some? <==> providerStatus in {"delivered", "failed", "undelivered", "sent"}
    ensures Reported(providerStatus).Some? ==>
            var after := Next(w, Callback(Reported(providerStatus).value, Works, now)).saved;
      && (w.saved.status == SentProvider && providerStatus == "delivered" ==>
            after.status == Delivered && after.deliveredAt == Some(now))
      && (w.saved.status == SentProvider && providerStatus in {"failed", "undelivered"} ==>
           after.status == FailedTerminal)
      && (w.saved.status == QueuedProvider && providerStatus == "sent" ==>
            after.status == SentProvider && after.sentAt == Some(now))
      && (w.saved.status in {Delivered, Opened, Bounced, Complained, FailedTerminal} ==> after == w.saved)
      && after.status in {w.saved.status, SentProvider, Delivered, FailedTerminal}
  {
  }

  /** A first send in which everything works, delivery and opening give the whole longest history. */
  lemma SentDeliveredOpened(now: nat, later: nat, latest: nat)
    ensures var smooth := Lucks(Works, Works, Works, Works, Works, true, now);
            var read := Next(Next(Next(World(FRESH, FRESH, 0), Sending(smooth)), Callback(Delivered, Works, later)),
                             Callback(Opened, Works, latest));
      read.saved == Notification(Opened, Some(now), Some(later),
                                 [Rendered, QueuedProvider, SentProvider, Delivered, Opened])
  {
    var smooth := Lucks(Works, Works, Works, Works, Works, true, now);
    var sent := Next(World(FRESH, FRESH, 0), Sending(smooth));
    assert sent.memory == sent.saved && sent.memory.history == [Rendered, QueuedProvider, SentProvider];
    CallbackTakenIff(sent, Delivered, later);
    CallbackTakenIff(Next(sent, Callback(Delivered, Works, later)), Opened, latest);
  }
}
