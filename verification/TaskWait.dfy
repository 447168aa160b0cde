/**
 Waiting for a task to finish (`task_wait`, `register_watch` and `handle_event` in
 crates/mcp-server/src/relay_controller.rs) as a state machine: any interleaving of
 waiters, that arm, check and block, with events, that are recorded and then notified.
 */
module TaskWait {

  datatype Status = Queued | Running | Done | Failed | Cancelled

  predicate Terminal(s: Status) {
    s == Done || s == Failed
  }

  /** Where a waiter is. `woken`: whether a notification came since it armed. */
  datatype Waiter =
    | Idle
    | Armed(task: string, woken: bool)
    | Blocked(task: string, woken: bool)
    | Returned(task: string)

  /** What a handler of an event is about to do. */
  datatype Handler = Free | Recorded(task: string, status: Status) | Notified(task: string, status: Status)

  datatype World = World(events: map<string, Status>, waiters: map<nat, Waiter>, handlers: map<nat, Handler>,
                         watched: map<string, string>, removals: seq<Watch>, registered: seq<Watch>)

  /** A reminder that is to be removed when a task finishes. */
  datatype Watch = Watch(task: string, reminder: string)

  datatype Action =
    | Wait(w: nat, task: string)       // arm for a task
    | Check(w: nat)                    // look at the recorded status: return or block
    | Wake(w: nat)                     // a blocked waiter takes its notification, and arms again
    | Timeout(w: nat)                  // the deadline passes
    | Register(task: string, reminder: string)
    | Record(h: nat, event: string, status: Status)
    | Notify(h: nat)                   // wake everybody who is armed or blocked
    | Unwatch(h: nat)                  // take the watch of a finished task, send its removal

  function Woken(w: Waiter): Waiter {
    match w
    case Armed(task, _) => Armed(task, true)
    case Blocked(task, _) => Blocked(task, true)
    case _ => w
  }

  function WaiterOf(s: World, w: nat): Waiter {
    if w in s.waiters then s.waiters[w] else Idle
  }

  function HandlerOf(s: World, h: nat): Handler {
    if h in s.handlers then s.handlers[h] else Free
  }

  predicate Enabled(s: World, a: Action) {
    match a
    case Wait(w, _) => WaiterOf(s, w).Idle?
    case Check(w) => WaiterOf(s, w).Armed?
    case Wake(w) => WaiterOf(s, w).Blocked? && WaiterOf(s, w).woken
    case Timeout(w) => WaiterOf(s, w).Blocked?
    case Register(_, _) => true
    case Record(h, _, _) => HandlerOf(s, h).Free?
    case Notify(h) => HandlerOf(s, h).Recorded?
    case Unwatch(h) => HandlerOf(s, h).Notified?
  }

  function Step(s: World, a: Action): World
    requires Enabled(s, a)
  {
    match a
    case Wait(w, task) => s.(waiters := s.waiters[w := Armed(task, false)])
    case Check(w) =>
      var waiter := WaiterOf(s, w);
      s.(waiters := s.waiters[w := if waiter.task in s.events && Terminal(s.events[waiter.task]) then Returned(waiter.task)
                                   else Blocked(waiter.task, waiter.woken)])
    case Wake(w) => s.(waiters := s.waiters[w := Armed(WaiterOf(s, w).task, false)])
    case Timeout(w) => s.(waiters := s.waiters[w := Returned(WaiterOf(s, w).task)])
    case Register(task, reminder) =>
      s.(watched := s.watched[task := reminder], registered := s.registered + [Watch(task, reminder)])
    case Record(h, event, status) =>
      s.(events := s.events[event := status], handlers := s.handlers[h := Recorded(event, status)])
    case Notify(h) =>
      var handler := HandlerOf(s, h);
      s.(waiters := map w | w in s.waiters :: Woken(s.waiters[w]), handlers := s.handlers[h := Notified(handler.task, handler.status)])
    case Unwatch(h) =>
      var handler := HandlerOf(s, h);
      var freed := s.(handlers := s.handlers[h := Free]);
      if Terminal(handler.status) && handler.task in s.watched then
        freed.(watched := s.watched - {handler.task}, removals := s.removals + [Watch(handler.task, s.watched[handler.task])])
      else freed
  }

  const START := World(map[], map[], map[], map[], [], [])

  predicate Run(s: World, actions: seq<Action>)
    decreases |actions|
  {
    actions == [] || (Enabled(s, actions[0]) && Run(Step(s, actions[0]), actions[1..]))
  }

  function After(s: World, actions: seq<Action>): World
    requires Run(s, actions)
    decreases |actions|
  {
    if actions == [] then s else After(Step(s, actions[0]), actions[1..])
  }

  // --- no wake-up is lost -----------------------------------------------------------------

  /** Somebody recorded this task's status and is still going to notify. */
  ghost predicate Announcing(s: World, task: string) {
    exists h :: h in s.handlers && s.handlers[h].Recorded? && s.handlers[h].task == task
  }

  /** The task is recorded as done or as failed. */
  predicate IsFinished(s: World, task: string) {
    task in s.events && (s.events[task].Done? || s.events[task].Failed?)
  }

  /** A blocked waiter whose task is recorded as finished has been woken, or will be. */
  ghost predicate NoLostWakeup(s: World) {
    forall w :: w in s.waiters && s.waiters[w].Blocked? && !s.waiters[w].woken ==>
      IsFinished(s, s.waiters[w].task) ==> Announcing(s, s.waiters[w].task)
  }

  lemma StillAnnouncing(s: World, t: World, task: string)
    requires Announcing(s, task)
    requires forall h :: h in s.handlers && s.handlers[h].Recorded? ==> h in t.handlers && t.handlers[h] == s.handlers[h]
    ensures Announcing(t, task)
  {
    var h :| h in s.handlers && s.handlers[h].Recorded? && s.handlers[h].task == task;
    assert t.handlers[h] == s.handlers[h];
  }

  lemma StepKeepsWakeups(s: World, a: Action)
    requires NoLostWakeup(s) && Enabled(s, a)
    ensures NoLostWakeup(Step(s, a))
  {
    var t := Step(s, a);
    forall w | w in t.waiters && t.waiters[w].Blocked? && !t.waiters[w].woken && IsFinished(t, t.waiters[w].task)
      ensures Announcing(t, t.waiters[w].task)
    {
      var task := t.waiters[w].task;
      assert a.Notify? ==> t.waiters[w] == Woken(s.waiters[w]);
      match a {
        case Record(h, event, status) =>
          if event == task {
            assert t.handlers[h] == Recorded(task, status);
          } else {
            StillAnnouncing(s, t, task);
          }
        case Notify(h) =>
        case _ => StillAnnouncing(s, t, task);
      }
    }
  }

  lemma {:induction false} RunKeepsWakeups(s: World, actions: seq<Action>)
    requires NoLostWakeup(s) && Run(s, actions)
    ensures NoLostWakeup(After(s, actions))
    decreases |actions|
  {
    if actions != [] {
      StepKeepsWakeups(s, actions[0]);
      RunKeepsWakeups(Step(s, actions[0]), actions[1..]);
    }
  }

  /** In every reachable state a waiter that is still blocked on a finished task can move,
      unless the notification of that task is yet to come: its wake-up is there. */
  lemma FinishedTasksWakeTheirWaiters(actions: seq<Action>, w: nat)
    requires Run(START, actions)
    requires var s := After(START, actions);
             w in s.waiters && s.waiters[w].Blocked? && IsFinished(s, s.waiters[w].task) && !Announcing(s, s.waiters[w].task)
    ensures var s := After(START, actions);
            Enabled(s, Wake(w)) &&
            (Enabled(Step(s, Wake(w)), Check(w)) && WaiterOf(Step(Step(s, Wake(w)), Check(w)), w).Returned?)
  {
    RunKeepsWakeups(START, actions);
  }

  /** Who waits for a task returns at its first look if the task is finished, and blocks if not. */
  lemma WaitLooksFirst(s: World, w: nat, task: string)
    requires WaiterOf(s, w).Idle?
    ensures Enabled(s, Wait(w, task)) && Enabled(Step(s, Wait(w, task)), Check(w))
    ensures WaiterOf(Step(Step(s, Wait(w, task)), Check(w)), w) == if IsFinished(s, task) then Returned(task) else Blocked(task, false)
  {
    assert IsFinished(Step(s, Wait(w, task)), task) <==> IsFinished(s, task);
  }

  ghost predicate FinishedOnce(s: World, actions: seq<Action>, task: string)
    requires Run(s, actions)
    decreases |actions|
  {
    IsFinished(s, task) || (actions != [] && FinishedOnce(Step(s, actions[0]), actions[1..], task))
  }

  /** A waiter that has returned stays so. */
  lemma {:induction false} ReturnedStays(s: World, actions: seq<Action>, w: nat)
    requires Run(s, actions) && WaiterOf(s, w).Returned?
    ensures WaiterOf(After(s, actions), w) == WaiterOf(s, w)
    decreases |actions|
  {
    if actions != [] { ReturnedStays(Step(s, actions[0]), actions[1..], w); }
  }

  /** In any interleaving, a waiter whose deadline has not passed returns only for a task that was
      recorded as done or failed at some moment. */
  lemma {:induction false} ReturnsOnceFinished(s: World, actions: seq<Action>, w: nat)
    requires Run(s, actions) && !WaiterOf(s, w).Returned? && Timeout(w) !in actions
    ensures var end := WaiterOf(After(s, actions), w); end.Returned? ==> FinishedOnce(s, actions, end.task)
    decreases |actions|
  {
    if actions != [] {
      var t, rest := Step(s, actions[0]), actions[1..];
      assert actions[0] in actions;
      if WaiterOf(t, w).Returned? {
        ReturnedStays(t, rest, w);
      } else {
        assert Timeout(w) !in rest;
        ReturnsOnceFinished(t, rest, w);
      }
    }
  }

  /** One notification wakes a blocked waiter once: it arms again, for another one. */
  lemma NotificationIsTaken(s: World, w: nat)
    requires WaiterOf(s, w).Blocked?
    ensures Enabled(s, Wake(w)) <==> WaiterOf(s, w).woken
    ensures Enabled(s, Wake(w)) ==> WaiterOf(Step(s, Wake(w)), w) == Armed(WaiterOf(s, w).task, false)
  {}

  /** A deadline that passes lets a blocked waiter return as well, whatever is recorded. */
  lemma DeadlineReleases(s: World, w: nat)
    requires WaiterOf(s, w).Blocked?
    ensures Enabled(s, Timeout(w)) && WaiterOf(Step(s, Timeout(w)), w) == Returned(WaiterOf(s, w).task)
  {}

  // --- one removal per watch -----------------------------------------------------------------

  function Count(watches: seq<Watch>, task: string): nat {
    if watches == [] then 0
    else Count(watches[..|watches| - 1], task) + if watches[|watches| - 1].task == task then 1 else 0
  }

  /** Each removal uses up a registration, of the reminder that it removes; the watch that is
      still there is one not used up. */
  ghost predicate Balanced(s: World) {
    (forall task :: Count(s.removals, task) + (if task in s.watched then 1 else 0) <= Count(s.registered, task)) &&
    (forall task :: task in s.watched ==> Watch(task, s.watched[task]) in s.registered) &&
    forall watch :: watch in s.removals ==> watch in s.registered
  }

  lemma CountGrows(watches: seq<Watch>, more: Watch, task: string)
    ensures Count(watches + [more], task) == Count(watches, task) + if more.task == task then 1 else 0
  {
    assert (watches + [more])[..|watches|] == watches;
  }

  lemma StepKeepsBalance(s: World, a: Action)
    requires Balanced(s) && Enabled(s, a)
    ensures Balanced(Step(s, a))
  {
    var t := Step(s, a);
    forall task ensures Count(t.removals, task) + (if task in t.watched then 1 else 0) <= Count(t.registered, task) {
      assert Count(s.removals, task) + (if task in s.watched then 1 else 0) <= Count(s.registered, task);
      match a {
        case Register(watched, reminder) => CountGrows(s.registered, Watch(watched, reminder), task);
        case Unwatch(h) =>
          var finished := HandlerOf(s, h).task;
          if finished in s.watched { CountGrows(s.removals, Watch(finished, s.watched[finished]), task); }
        case _ =>
      }
    }
  }

  lemma {:induction false} RunKeepsBalance(s: World, actions: seq<Action>)
    requires Balanced(s) && Run(s, actions)
    ensures Balanced(After(s, actions))
    decreases |actions|
  {
    if actions != [] {
      StepKeepsBalance(s, actions[0]);
      RunKeepsBalance(Step(s, actions[0]), actions[1..]);
    }
  }

  /** However often a task is reported finished, reminders are removed for it at most once for
      each time one was registered, and each is one that was registered for it. */
  lemma RemovalsAreBounded(actions: seq<Action>, task: string)
    requires Run(START, actions)
    ensures var s := After(START, actions);
            Count(s.removals, task) <= Count(s.registered, task) && forall watch :: watch in s.removals ==> watch in s.registered
  {
    RunKeepsBalance(START, actions);
  }

  /** The handling of one report, from its recording to its end. */
  function Reported(h: nat, task: string, status: Status): seq<Action> {
    [Record(h, task, status), Notify(h), Unwatch(h)]
  }

  /** A report is recorded, wakes everybody who is armed or blocked, and if it says done or failed
      takes the task's watch and removes the reminder registered last. Nothing else changes. */
  lemma ReportIsHandled(s: World, h: nat, task: string, status: Status)
    requires HandlerOf(s, h).Free?
    ensures Run(s, Reported(h, task, status))
    ensures var t := After(s, Reported(h, task, status));
            t.events == s.events[task := status] && HandlerOf(t, h).Free? && t.registered == s.registered &&
            (forall w :: WaiterOf(t, w) == if WaiterOf(s, w).Armed? then Armed(WaiterOf(s, w).task, true)
                                           else if WaiterOf(s, w).Blocked? then Blocked(WaiterOf(s, w).task, true)
                                           else WaiterOf(s, w)) &&
            if (status.Done? || status.Failed?) && task in s.watched
            then t.watched == s.watched - {task} && t.removals == s.removals + [Watch(task, s.watched[task])]
            else t.watched == s.watched && t.removals == s.removals
  {
    var a, b, c := Record(h, task, status), Notify(h), Unwatch(h);
    assert Reported(h, task, status)[1..] == [b, c] && [b, c][1..] == [c] && [c][1..] == [];
    var s1 := Step(s, a);
    var s2 := Step(s1, b);
    var t := Step(s2, c);
    assert Run(t, []) && Run(s2, [c]) && Run(s1, [b, c]);
    assert After(s2, [c]) == t && After(s1, [b, c]) == t;
  }

  /** A registration is pending until such a report; a later one replaces it. */
  lemma RegistrationIsWatched(s: World, task: string, reminder: string)
    ensures Enabled(s, Register(task, reminder))
    ensures var t := Step(s, Register(task, reminder));
            t.watched == s.watched[task := reminder] && t.registered == s.registered + [Watch(task, reminder)] &&
            t.removals == s.removals && t.events == s.events && t.waiters == s.waiters
  {}
}
