/**
 The cron scheduler (crates/mcp-server/src/scheduler.rs): a tick fires every task that
 has an occurrence since its baseline, once, and moves the baseline to the tick.
 */
module Scheduler {
  import opened Wrappers

  /** A schedule: its instants, and the library's "first instant strictly after". */
  datatype Cron = Cron(occurs: nat -> bool, next: nat -> Option<nat>)

  ghost predicate HonestAt(c: Cron, after: nat) {
    match c.next(after)
    case Some(t) => t > after && c.occurs(t) && forall u :: after < u < t ==> !c.occurs(u)
    case None => forall u :: u > after ==> !c.occurs(u)
  }

  ghost predicate Honest(c: Cron) {
    forall after :: HonestAt(c, after)
  }

  type Parser = string -> Option<Cron>

  ghost predicate HonestParser(parse: Parser) {
    forall e :: parse(e).Some? ==> Honest(parse(e).value)
  }

  datatype Task = Task(cron: string, command: string, lastRun: Option<nat>, runCount: nat)

  datatype Sched = Sched(tasks: map<string, Task>, baseline: map<string, nat>)

  // --- one tick, as a function ----------------------------------------------------------

  /** Since when occurrences count for a task. */
  function Since(s: Sched, name: string, now: nat): nat
    requires name in s.tasks
  {
    if name in s.baseline then s.baseline[name]
    else if s.tasks[name].lastRun.Some? then s.tasks[name].lastRun.value
    else now
  }

  predicate IsDue(s: Sched, parse: Parser, name: string, now: nat)
    requires name in s.tasks
  {
    var cron := parse(s.tasks[name].cron);
    cron.Some? && var next := cron.value.next(Since(s, name, now)); next.Some? && next.value <= now
  }

  function Fired(t: Task, now: nat): Task {
    t.(lastRun := Some(now), runCount := t.runCount + 1)
  }

  function DueNames(s: Sched, parse: Parser, now: nat): set<string> {
    set name | name in s.tasks && IsDue(s, parse, name, now)
  }

  function FireAll(s: Sched, due: set<string>, now: nat): Sched {
    Sched(map name | name in s.tasks :: if name in due then Fired(s.tasks[name], now) else s.tasks[name],
          map name | name in s.baseline.Keys + due :: if name in due then now else s.baseline[name])
  }

  function Ticked(s: Sched, parse: Parser, now: nat): Sched {
    FireAll(s, DueNames(s, parse, now), now)
  }

  /** An instant of the schedule lies after `since` and no later than `now`. */
  ghost predicate Outstanding(c: Cron, since: nat, now: nat) {
    exists t :: since < t <= now && c.occurs(t)
  }

  /** What a tick does to one task: it fires, once, if its schedule can be read and has an instant since
      its baseline, or its last run, or since now if it has neither; else nothing changes. */
  lemma TickMeans(s: Sched, parse: Parser, now: nat, name: string)
    requires HonestParser(parse) && name in s.tasks
    ensures var after, task := Ticked(s, parse, now), s.tasks[name];
            var since := if name in s.baseline then s.baseline[name] else match task.lastRun { case Some(t) => t case None => now };
            name in after.tasks &&
            if parse(task.cron).Some? && Outstanding(parse(task.cron).value, since, now)
            then after.tasks[name] == Task(task.cron, task.command, Some(now), task.runCount + 1) &&
                 name in after.baseline && after.baseline[name] == now
            else after.tasks[name] == task && (name in after.baseline <==> name in s.baseline) &&
                 (name in s.baseline ==> after.baseline[name] == s.baseline[name])
  {
    var task := s.tasks[name];
    if parse(task.cron).Some? {
      assert HonestAt(parse(task.cron).value, Since(s, name, now));
    }
  }

  /** No task comes or goes by a tick, nor does a baseline but of a task that fires. */
  lemma TickKeepsTasks(s: Sched, parse: Parser, now: nat)
    ensures Ticked(s, parse, now).tasks.Keys == s.tasks.Keys
    ensures s.baseline.Keys <= Ticked(s, parse, now).baseline.Keys <= s.baseline.Keys + s.tasks.Keys
  {}

  // --- the code -----------------------------------------------------------------------------

  class CronScheduler {
    var tasks: map<string, Task>
    var baseline: map<string, nat>
    var db: map<string, Task>
    const parse: Parser

    ghost function Now(): Sched
      reads this
    {
      Sched(tasks, baseline)
    }

    /** Tasks come from the database, baselines do not. */
    constructor Load(stored: map<string, Task>, parser: Parser)
      ensures tasks == db == stored && baseline == map[] && parse == parser
    {
      tasks, baseline, db, parse := stored, map[], stored, parser;
    }

    method Add(name: string, cron: string, command: string, now: nat, stored: bool) returns (ok: bool)
      modifies this
      ensures ok == (parse(cron).Some? && stored)
      ensures !ok ==> Now() == old(Now()) && db == old(db)
      ensures ok ==> tasks == old(tasks)[name := Task(cron, command, None, 0)] && baseline == old(baseline)[name := now] &&
                     db == old(db)[name := Task(cron, command, None, 0)]
      ensures stored ==> Now() == Step(old(Now()), parse, AddAt(name, cron, command, now))
    {
      if parse(cron).None? || !stored {
        return false;
      }
      var task := Task(cron, command, None, 0);
      db := db[name := task];
      tasks := tasks[name := task];
      baseline := baseline[name := now];
      ok := true;
    }

    method Remove(name: string, stored: bool) returns (ok: bool)
      modifies this
      ensures ok == (name in old(tasks) && stored)
      ensures tasks == old(tasks) - {name}
      ensures baseline == if name in old(tasks) then old(baseline) - {name} else old(baseline)
      ensures db == if ok then old(db) - {name} else old(db)
      ensures Now() == Step(old(Now()), parse, RemoveName(name))
    {
      if name !in tasks {
        assert tasks - {name} == tasks;
        return false;
      }
      tasks := tasks - {name};
      baseline := baseline - {name};
      if !stored {
        return false;
      }
      db := db - {name};
      ok := true;
    }

    /** The start of the loop: loaded tasks count from now on. */
    method Seed(now: nat)
      modifies this`baseline
      ensures baseline == map name | name in old(baseline).Keys + tasks.Keys ::
                            if name in old(baseline) then old(baseline)[name] else now
    {
      var todo := tasks.Keys;
      while todo != {}
        invariant todo <= tasks.Keys
        invariant baseline == map name | name in old(baseline).Keys + (tasks.Keys - todo) ::
                                if name in old(baseline) then old(baseline)[name] else now
        decreases todo
      {
        var name :| name in todo;
        if name !in baseline {
          baseline := baseline[name := now];
        }
        todo := todo - {name};
      }
    }

    /** First the due tasks are collected, then each is run and recorded in turn; what the
        command does, and whether the database takes the new numbers, changes nothing else. */
    method Tick(now: nat, stored: string -> bool)
      modifies this
      ensures Now() == Ticked(old(Now()), parse, now) == Step(old(Now()), parse, TickAt(now))
      ensures db == map name | name in old(db) ::
                      if name in DueNames(old(Now()), parse, now) && stored(name)
                      then old(db)[name].(lastRun := Some(now), runCount := old(tasks)[name].runCount + 1) else old(db)[name]
    {
      var due := DueNames(Sched(tasks, baseline), parse, now);
      ghost var s0, db0 := Now(), db;
      var todo := due;
      assert FireAll(s0, {}, now) == s0;
      while todo != {}
        invariant todo <= due && Now() == FireAll(s0, due - todo, now)
        invariant db == RecordAll(db0, s0, due - todo, stored, now)
        decreases todo
      {
        var name :| name in todo;
        FireOne(s0, due - todo, name, now);
        RecordOne(db0, s0, due - todo, name, stored, now);
        assert due - (todo - {name}) == (due - todo) + {name};
        RunTask(name, now, stored(name));
        todo := todo - {name};
      }
      assert due - {} == due;
    }

    /** The body of that loop. */
    method RunTask(name: string, now: nat, stored: bool)
      requires name in tasks
      modifies this
      ensures tasks == old(tasks)[name := Fired(old(tasks)[name], now)] && baseline == old(baseline)[name := now]
      ensures db == if stored && name in old(db)
                    then old(db)[name := old(db)[name].(lastRun := Some(now), runCount := old(tasks)[name].runCount + 1)] else old(db)
    {
      baseline := baseline[name := now];
      tasks := tasks[name := Fired(tasks[name], now)];
      if stored && name in db {
        db := db[name := db[name].(lastRun := Some(now), runCount := tasks[name].runCount)];
      }
    }
  }

  lemma FireOne(s: Sched, done: set<string>, name: string, now: nat)
    requires name in s.tasks && name !in done
    ensures var r := FireAll(s, done, now);
            r.tasks[name] == s.tasks[name] &&
            FireAll(s, done + {name}, now) == Sched(r.tasks[name := Fired(s.tasks[name], now)], r.baseline[name := now])
  {
    var r, t := FireAll(s, done, now), FireAll(s, done + {name}, now);
    assert t.tasks == r.tasks[name := Fired(s.tasks[name], now)];
    assert t.baseline == r.baseline[name := now];
  }

  function RecordAll(db: map<string, Task>, s: Sched, done: set<string>, stored: string -> bool, now: nat): map<string, Task>
    requires done <= s.tasks.Keys
  {
    map name | name in db :: if name in done && stored(name)
      then db[name].(lastRun := Some(now), runCount := s.tasks[name].runCount + 1) else db[name]
  }

  lemma RecordOne(db: map<string, Task>, s: Sched, done: set<string>, name: string, stored: string -> bool, now: nat)
    requires done <= s.tasks.Keys && name in s.tasks && name !in done
    ensures RecordAll(db, s, done + {name}, stored, now) ==
            var r := RecordAll(db, s, done, stored, now);
            if stored(name) && name in db then r[name := r[name].(lastRun := Some(now), runCount := s.tasks[name].runCount + 1)] else r
  {}

  /** With a database that takes every write, memory and database stay the same. */
  lemma TickMirrors(s: Sched, db: map<string, Task>, parse: Parser, now: nat)
    requires db == s.tasks
    ensures (map name | name in db :: if name in DueNames(s, parse, now)
               then db[name].(lastRun := Some(now), runCount := Ticked(s, parse, now).tasks[name].runCount) else db[name])
         == Ticked(s, parse, now).tasks
  {}

  // --- windows tile time -------------------------------------------------------------------------

  /** What happens to a scheduler, in sequence. */
  datatype Event = TickAt(now: nat) | AddAt(name: string, cron: string, command: string, now: nat) | RemoveName(name: string)

  function Step(s: Sched, parse: Parser, e: Event): Sched {
    match e
    case TickAt(now) => Ticked(s, parse, now)
    case AddAt(name, cron, command, now) =>
      if parse(cron).Some? then Sched(s.tasks[name := Task(cron, command, None, 0)], s.baseline[name := now]) else s
    case RemoveName(name) => if name in s.tasks then Sched(s.tasks - {name}, s.baseline - {name}) else s
  }

  function After(s: Sched, parse: Parser, es: seq<Event>): Sched {
    if es == [] then s else Step(After(s, parse, es[..|es| - 1]), parse, es[|es| - 1])
  }

  /** A fired tick of one task: the instants after `from` up to `to` it stands for. */
  datatype Window = Window(from: nat, to: nat)

  predicate Within(w: Window, t: nat) {
    w.from < t <= w.to
  }

  /** The windows of a task over a run. */
  function Windows(s: Sched, parse: Parser, es: seq<Event>, name: string): seq<Window> {
    if es == [] then []
    else
      var init, last := es[..|es| - 1], es[|es| - 1];
      var before := After(s, parse, init);
      Windows(s, parse, init, name)
      + if last.TickAt? && name in before.tasks && IsDue(before, parse, name, last.now)
        then [Window(Since(before, name, last.now), last.now)] else []
  }

  /** Adding and removing concern other tasks. */
  predicate LeavesAlone(es: seq<Event>, name: string) {
    forall e :: e in es && !e.TickAt? ==> e.name != name
  }

  function Hits(ws: seq<Window>, t: nat): nat {
    if ws == [] then 0 else Hits(ws[..|ws| - 1], t) + if Within(ws[|ws| - 1], t) then 1 else 0
  }

  /** Windows from `start` on, each beginning where the one before ended. */
  predicate Tiles(ws: seq<Window>, start: nat, end: nat) {
    if ws == [] then end == start
    else
      var last := ws[|ws| - 1];
      last.from < last.to == end && Tiles(ws[..|ws| - 1], start, last.from)
  }

  lemma {:induction false} TilesHit(ws: seq<Window>, start: nat, end: nat, t: nat)
    requires Tiles(ws, start, end)
    ensures start <= end && Hits(ws, t) == if start < t <= end then 1 else 0
  {
    if ws != [] {
      TilesHit(ws[..|ws| - 1], start, ws[|ws| - 1].from, t);
    }
  }

  ghost predicate HasInstant(w: Window, c: Cron) {
    exists t :: Within(w, t) && c.occurs(t)
  }

  /** The latest tick of a run, if it is later than `start`. */
  function Latest(es: seq<Event>, start: nat): nat {
    if es == [] then start
    else
      var before, last := Latest(es[..|es| - 1], start), es[|es| - 1];
      if last.TickAt? && last.now > before then last.now else before
  }

  /** Where a task stands: its windows tile the time since `start`, each holds an instant,
      each is counted, and nothing is outstanding up to `latest`. */
  ghost predicate Accounted(baseline: nat, count: nat, ws: seq<Window>, latest: nat, start: nat, cron: Cron, runs: nat) {
    Tiles(ws, start, baseline) && (forall i :: 0 <= i < |ws| ==> HasInstant(ws[i], cron)) &&
    count == runs + |ws| && baseline <= latest && forall t :: baseline < t <= latest ==> !cron.occurs(t)
  }

  ghost predicate OnTime(s: Sched, parse: Parser, es: seq<Event>, name: string, start: nat, cron: Cron, runs: nat) {
    var after := After(s, parse, es);
    name in after.tasks && name in after.baseline && parse(after.tasks[name].cron) == Some(cron) &&
    Accounted(after.baseline[name], after.tasks[name].runCount, Windows(s, parse, es, name), Latest(es, start), start, cron, runs)
  }

  lemma {:induction false} RunIsOnTime(s: Sched, parse: Parser, es: seq<Event>, name: string, cron: Cron)
    requires HonestParser(parse) && LeavesAlone(es, name)
    requires name in s.tasks && name in s.baseline && parse(s.tasks[name].cron) == Some(cron)
    ensures OnTime(s, parse, es, name, s.baseline[name], cron, s.tasks[name].runCount)
  {
    if es != [] {
      var init, last := es[..|es| - 1], es[|es| - 1];
      assert es == init + [last] && last in es;
      RunIsOnTime(s, parse, init, name, cron);
      EventIsOnTime(s, parse, es, name, cron, s.baseline[name], s.tasks[name].runCount);
    }
  }

  /** One event more. */
  lemma EventIsOnTime(s: Sched, parse: Parser, es: seq<Event>, name: string, cron: Cron, start: nat, runs: nat)
    requires HonestParser(parse) && es != [] && (es[|es| - 1].TickAt? || es[|es| - 1].name != name)
    requires OnTime(s, parse, es[..|es| - 1], name, start, cron, runs)
    ensures OnTime(s, parse, es, name, start, cron, runs)
  {
    var init, last := es[..|es| - 1], es[|es| - 1];
    if last.TickAt? {
      LastTick(s, parse, es, name, start);
      TickAccounts(After(s, parse, init), parse, Windows(s, parse, init, name), Latest(init, start), name, cron, start, runs, last.now);
    } else {
      LastOther(s, parse, es, name, start);
    }
  }

  lemma LastOther(s: Sched, parse: Parser, es: seq<Event>, name: string, start: nat)
    requires es != [] && !es[|es| - 1].TickAt?
    ensures var init := es[..|es| - 1];
            After(s, parse, es) == Step(After(s, parse, init), parse, es[|es| - 1]) &&
            Windows(s, parse, es, name) == Windows(s, parse, init, name) && Latest(es, start) == Latest(init, start)
  {
    var ws := Windows(s, parse, es[..|es| - 1], name);
    assert ws + [] == ws;
  }

  lemma LastTick(s: Sched, parse: Parser, es: seq<Event>, name: string, start: nat)
    requires es != [] && es[|es| - 1].TickAt?
    requires var before := After(s, parse, es[..|es| - 1]); name in before.tasks && name in before.baseline
    ensures var init, now := es[..|es| - 1], es[|es| - 1].now;
            var before := After(s, parse, init);
            After(s, parse, es) == Ticked(before, parse, now) &&
            Windows(s, parse, es, name) == TickWindows(before, parse, Windows(s, parse, init, name), name, now) &&
            Latest(es, start) == if now > Latest(init, start) then now else Latest(init, start)
  {
    var ws := Windows(s, parse, es[..|es| - 1], name);
    assert ws + [] == ws;
  }

  function TickWindows(before: Sched, parse: Parser, ws: seq<Window>, name: string, now: nat): seq<Window>
    requires name in before.tasks && name in before.baseline
  {
    if IsDue(before, parse, name, now) then ws + [Window(before.baseline[name], now)] else ws
  }

  lemma TickAccounts(before: Sched, parse: Parser, ws: seq<Window>, latest: nat, name: string, cron: Cron, start: nat, runs: nat, now: nat)
    requires Honest(cron) && name in before.tasks && name in before.baseline && parse(before.tasks[name].cron) == Some(cron)
    requires Accounted(before.baseline[name], before.tasks[name].runCount, ws, latest, start, cron, runs)
    ensures var after := Ticked(before, parse, now);
            name in after.tasks && name in after.baseline && after.tasks[name].cron == before.tasks[name].cron &&
            Accounted(after.baseline[name], after.tasks[name].runCount, TickWindows(before, parse, ws, name, now),
                      if now > latest then now else latest, start, cron, runs)
  {
    assert HonestAt(cron, before.baseline[name]);
  }

  /** Over any sequence of events that leaves the task alone, whatever the clock does: each
      instant of its schedule after the baseline, up to the latest tick, falls into exactly
      one fired window, any other instant into none; and the run count grows by the number
      of windows, each of which holds an instant. */
  lemma EveryInstantFiresOnce(s: Sched, parse: Parser, es: seq<Event>, name: string, cron: Cron, t: nat)
    requires HonestParser(parse) && LeavesAlone(es, name)
    requires name in s.tasks && name in s.baseline && parse(s.tasks[name].cron) == Some(cron) && cron.occurs(t)
    ensures var ws := Windows(s, parse, es, name);
            Hits(ws, t) == (if s.baseline[name] < t <= Latest(es, s.baseline[name]) then 1 else 0) &&
            (forall i :: 0 <= i < |ws| ==> HasInstant(ws[i], cron)) &&
            name in After(s, parse, es).tasks &&
            After(s, parse, es).tasks[name].runCount == s.tasks[name].runCount + |ws|
  {
    RunIsOnTime(s, parse, es, name, cron);
    TilesHit(Windows(s, parse, es, name), s.baseline[name], After(s, parse, es).baseline[name], t);
  }
}
