/**
 The map/reduce coordinator (crates/mcp-server/src/mapreduce.rs): split the input, send
 every part out, retry what failed, reduce over all outputs.
 */
module MapReduce {
  import opened Wrappers

  // --- partitioning ------------------------------------------------------------------

  function Flatten<T>(parts: seq<seq<T>>): seq<T> {
    if parts == [] then [] else Flatten(parts[..|parts| - 1]) + parts[|parts| - 1]
  }

  function Least(a: nat, b: nat): nat {
    if a <= b then a else b
  }

  /** In order, nothing lost, none empty, sizes at most one apart, the longer ones first. */
  ghost predicate Balanced<T(!new)>(parts: seq<seq<T>>, items: seq<T>, workers: nat) {
    if workers == 0 || items == [] then parts == []
    else
      |parts| == Least(workers, |items|) && Flatten(parts) == items && (forall p :: p in parts ==> p != []) &&
      forall i, j :: 0 <= i <= j < |parts| ==> |parts[j]| <= |parts[i]| <= |parts[j]| + 1
  }

  method Partition<T(!new)>(items: seq<T>, workers: nat) returns (out: seq<seq<T>>)
    ensures Balanced(out, items, workers)
  {
    out := [];
    if items == [] || workers == 0 {
      return;
    }
    var n := Least(workers, |items|);
    var base, rem := |items| / n, |items| % n;
    BeforeAll(|items|, n);
    var start := 0;
    var i := 0;
    while i < n
      invariant 0 <= i <= n && |out| == i && start == Before(i, base, rem) <= |items|
      invariant Flatten(out) == items[..start]
      invariant forall k :: 0 <= k < i ==> |out[k]| == base + if k < rem then 1 else 0
    {
      var len := base + if i < rem then 1 else 0;
      BeforeGrows(i + 1, n, base, rem);
      out := out + [items[start..start + len]];
      start := start + len;
      i := i + 1;
    }
    assert items[..start] == items;
    assert forall p :: p in out ==> p != [];
  }

  /** How many items the first `i` parts take. */
  function Before(i: nat, base: nat, rem: nat): nat {
    if i == 0 then 0 else Before(i - 1, base, rem) + base + if i - 1 < rem then 1 else 0
  }

  lemma {:induction false} BeforeGrows(i: nat, n: nat, base: nat, rem: nat)
    requires i <= n
    ensures Before(i, base, rem) <= Before(n, base, rem)
  {
    if i < n { BeforeGrows(i, n - 1, base, rem); }
  }

  lemma {:induction false} BeforeIs(i: nat, base: nat, rem: nat)
    ensures Before(i, base, rem) == i * base + Least(i, rem)
  {
    if i > 0 {
      BeforeIs(i - 1, base, rem);
      assert i * base == (i - 1) * base + base;
    }
  }

  /** Quotient and remainder use the items up exactly. */
  lemma BeforeAll(len: nat, n: nat)
    requires 0 < n <= len
    ensures Before(n, len / n, len % n) == len && len / n >= 1
  {
    BeforeIs(n, len / n, len % n);
  }

  // --- results --------------------------------------------------------------------------

  datatype Outcome = Good(output: string) | Bad(error: string)

  datatype Answer =
    | MapAnswer(output: string, success: bool, error: Option<string>)
    | ReduceAnswer(output: string, success: bool, error: Option<string>)
    | OtherAnswer
    | TransportError(message: string)

  function OutcomeOf(a: Answer): Outcome {
    match a
    case TransportError(message) => Bad(message)
    case OtherAnswer => Bad("unexpected result type")
    case _ =>
      if a.success then Good(a.output)
      else Bad(if a.error.Some? then a.error.value else "map/reduce reported failure")
  }

  datatype Command =
    | MapTask(job: string, partition: nat, mapFn: string, data: seq<string>)
    | ReduceTask(job: string, reduceFn: string, inputs: seq<string>)

  datatype Sent = Sent(command: Command, answer: Answer)

  /** Whatever the fleet answers: any function of the command and of when it is sent. */
  type Fleet = (nat, Command) -> Answer

  /** The outcomes of one partition's dispatches, in order. */
  function Tries(log: seq<Sent>, k: nat): seq<Outcome> {
    if log == [] then []
    else
      var last := log[|log| - 1];
      Tries(log[..|log| - 1], k)
      + if last.command.MapTask? && last.command.partition == k then [OutcomeOf(last.answer)] else []
  }

  /** The worker said that it succeeded. */
  predicate Succeeded(a: Answer) {
    (a.MapAnswer? || a.ReduceAnswer?) && a.success
  }

  /** The answers about one partition, in order. */
  function AnswersOf(log: seq<Sent>, k: nat): seq<Answer> {
    if log == [] then []
    else
      var last := log[|log| - 1];
      AnswersOf(log[..|log| - 1], k) + if last.command.MapTask? && last.command.partition == k then [last.answer] else []
  }

  /** What the answer means for the job: its output if it reports success; else the error it names,
      if it names one. */
  predicate Reports(a: Answer, outcome: Outcome) {
    match outcome
    case Good(output) => Succeeded(a) && output == a.output
    case Bad(error) =>
      !Succeeded(a) && (a.TransportError? ==> error == a.message) &&
      ((a.MapAnswer? || a.ReduceAnswer?) && a.error.Some? ==> error == a.error.value)
  }

  lemma OutcomeReports(a: Answer)
    ensures Reports(a, OutcomeOf(a))
  {}

  lemma {:induction false} TriesAreAnswers(log: seq<Sent>, k: nat)
    ensures |Tries(log, k)| == |AnswersOf(log, k)|
    ensures forall i :: 0 <= i < |Tries(log, k)| ==> Reports(AnswersOf(log, k)[i], Tries(log, k)[i])
  {
    if log != [] {
      TriesAreAnswers(log[..|log| - 1], k);
      OutcomeReports(log[|log| - 1].answer);
    }
  }

  // --- the job ------------------------------------------------------------------------------

  datatype Status = Pending | Done(output: string) | Failed(error: string)

  class JobState {
    var partitions: seq<Status>
    var attempts: seq<nat>

    constructor (count: nat)
      ensures partitions == seq(count, _ => Pending) && attempts == seq(count, _ => 0)
    {
      partitions, attempts := seq(count, _ => Pending), seq(count, _ => 0);
    }

    ghost predicate Valid()
      reads this
    {
      |partitions| == |attempts|
    }

    method Record(id: nat, result: Outcome) returns (known: bool)
      requires Valid()
      modifies this
      ensures Valid() && |partitions| == |old(partitions)| && known == (id < |partitions|)
      ensures !known ==> partitions == old(partitions) && attempts == old(attempts)
      ensures known ==> partitions == old(partitions)[id := StatusOf(result)] &&
                        attempts == old(attempts)[id := old(attempts)[id] + if result.Bad? then 1 else 0]
    {
      known := id < |partitions|;
      if known {
        if result.Bad? {
          attempts := attempts[id := attempts[id] + 1];
        }
        partitions := partitions[id := StatusOf(result)];
      }
    }

    method FailedIds() returns (ids: seq<nat>)
      ensures Picks(ids, |partitions|) && forall k: nat :: k in ids <==> k < |partitions| && partitions[k].Failed?
    {
      ids := [];
      var i := 0;
      while i < |partitions|
        invariant 0 <= i <= |partitions| && Picks(ids, i)
        invariant forall k: nat :: k in ids <==> k < i && partitions[k].Failed?
      {
        if partitions[i].Failed? { ids := ids + [i]; }
        i := i + 1;
      }
    }

    method PendingIds() returns (ids: seq<nat>)
      ensures Picks(ids, |partitions|) && forall k: nat :: k in ids <==> k < |partitions| && partitions[k].Pending?
    {
      ids := [];
      var i := 0;
      while i < |partitions|
        invariant 0 <= i <= |partitions| && Picks(ids, i)
        invariant forall k: nat :: k in ids <==> k < i && partitions[k].Pending?
      {
        if partitions[i].Pending? { ids := ids + [i]; }
        i := i + 1;
      }
    }

    method Redispatchable(maxRetries: nat) returns (ids: seq<nat>)
      requires Valid()
      ensures Picks(ids, |partitions|)
      ensures forall k: nat :: k in ids <==> k < |partitions| && partitions[k].Failed? && attempts[k] <= maxRetries
    {
      var failed := FailedIds();
      ids := [];
      var i := 0;
      while i < |failed|
        invariant 0 <= i <= |failed| && Picks(ids, if i == 0 then 0 else failed[i - 1] + 1)
        invariant forall k: nat :: k in ids <==> k in failed[..i] && attempts[k] <= maxRetries
      {
        if attempts[failed[i]] <= maxRetries { ids := ids + [failed[i]]; }
        i := i + 1;
      }
      assert failed[..i] == failed;
    }

    method IsExhausted(maxRetries: nat) returns (yes: bool)
      requires Valid()
      ensures yes <==> exists k :: 0 <= k < |partitions| && partitions[k].Failed? && attempts[k] > maxRetries
    {
      var failed := FailedIds();
      var i := 0;
      yes := false;
      while i < |failed| && !yes
        invariant 0 <= i <= |failed|
        invariant yes ==> exists k :: 0 <= k < |partitions| && partitions[k].Failed? && attempts[k] > maxRetries
        invariant !yes ==> forall k: nat :: k in failed[..i] ==> attempts[k] <= maxRetries
      {
        yes := attempts[failed[i]] > maxRetries;
        i := i + 1;
      }
      assert !yes ==> failed[..i] == failed;
    }

    predicate IsComplete()
      reads this
    {
      partitions != [] && forall k :: 0 <= k < |partitions| ==> partitions[k].Done?
    }

    /** The map outputs in partition order, once they are all there. */
    function Outputs(): (outputs: Option<seq<string>>)
      reads this
      ensures outputs.Some? <==> IsComplete()
      ensures outputs.Some? <==> |partitions| > 0 && forall k :: 0 <= k < |partitions| ==> !partitions[k].Pending? && !partitions[k].Failed?
      ensures outputs.Some? ==>
                |outputs.value| == |partitions| && forall k :: 0 <= k < |partitions| ==> partitions[k] == Done(outputs.value[k])
    {
      if !IsComplete() then None
      else
        var ps := partitions;
        Some(seq(|ps|, k requires 0 <= k < |ps| && ps[k].Done? => ps[k].output))
    }
  }

  function StatusOf(result: Outcome): Status {
    match result
    case Good(output) => Done(output)
    case Bad(error) => Failed(error)
  }

  /** Ascending ids below a bound. */
  predicate Picks(ids: seq<nat>, bound: nat) {
    (forall i :: 0 <= i < |ids| ==> ids[i] < bound) && forall i, j :: 0 <= i < j < |ids| ==> ids[i] < ids[j]
  }

  // --- what state and log have to do with each other --------------------------------------------

  /** One partition: every try but the last failed, the status is the last try's outcome,
      and the counter counts the failed ones. */
  predicate TracksAt(status: Status, attempts: nat, tries: seq<Outcome>) {
    (forall i :: 0 <= i < |tries| - 1 ==> tries[i].Bad?) &&
    match status
    case Pending => tries == [] && attempts == 0
    case Done(output) => tries != [] && tries[|tries| - 1] == Good(output) && attempts == |tries| - 1
    case Failed(error) => tries != [] && tries[|tries| - 1] == Bad(error) && attempts == |tries|
  }

  ghost predicate Tracks(partitions: seq<Status>, attempts: seq<nat>, log: seq<Sent>) {
    |partitions| == |attempts| && forall k :: 0 <= k < |partitions| ==> TracksAt(partitions[k], attempts[k], Tries(log, k))
  }

  /** After `round` rounds: what failed has failed in each, and nothing is pending. */
  ghost predicate AfterRound(partitions: seq<Status>, attempts: seq<nat>, log: seq<Sent>, round: nat) {
    Tracks(partitions, attempts, log) &&
    forall k :: 0 <= k < |partitions| ==>
      !partitions[k].Pending? && |Tries(log, k)| <= round && (partitions[k].Failed? ==> |Tries(log, k)| == round)
  }

  lemma TriesStep(log: seq<Sent>, s: Sent, k: nat)
    ensures Tries(log + [s], k)
         == if s.command.MapTask? && s.command.partition == k then Tries(log, k) + [OutcomeOf(s.answer)] else Tries(log, k)
  {
    assert (log + [s])[..|log|] == log;
  }

  /** Everything sent in one round. */
  function Sends(tasks: seq<Command>, ids: seq<nat>, answers: seq<Answer>): seq<Sent>
    requires |ids| == |answers| && forall i :: 0 <= i < |ids| ==> ids[i] < |tasks|
  {
    seq(|ids|, i requires 0 <= i < |ids| => Sent(tasks[ids[i]], answers[i]))
  }

  ghost predicate Tasks(tasks: seq<Command>, job: string, mapFn: string, parts: seq<seq<string>>) {
    |tasks| == |parts| && forall k :: 0 <= k < |tasks| ==> tasks[k] == MapTask(job, k, mapFn, parts[k])
  }

  predicate IsFor(s: Sent, k: nat) {
    s.command.MapTask? && s.command.partition == k
  }

  lemma {:induction false} NotSent(log: seq<Sent>, sends: seq<Sent>, k: nat)
    requires forall i :: 0 <= i < |sends| ==> !IsFor(sends[i], k)
    ensures Tries(log + sends, k) == Tries(log, k)
  {
    if sends == [] {
      assert log + sends == log;
    } else {
      var n := |sends| - 1;
      assert log + sends == (log + sends[..n]) + [sends[n]];
      NotSent(log, sends[..n], k);
      TriesStep(log + sends[..n], sends[n], k);
    }
  }

  lemma SentOnce(log: seq<Sent>, sends: seq<Sent>, i: nat, k: nat)
    requires i < |sends| && forall j :: 0 <= j < |sends| ==> (IsFor(sends[j], k) <==> j == i)
    ensures Tries(log + sends, k) == Tries(log, k) + [OutcomeOf(sends[i].answer)]
  {
    var before := log + sends[..i];
    assert log + sends == (before + [sends[i]]) + sends[i + 1..];
    NotSent(log, sends[..i], k);
    TriesStep(before, sends[i], k);
    NotSent(before + [sends[i]], sends[i + 1..], k);
  }

  /** One try more for the ids of a round, none for the others. */
  lemma RoundTries(log: seq<Sent>, tasks: seq<Command>, job: string, mapFn: string, parts: seq<seq<string>>, ids: seq<nat>,
                   answers: seq<Answer>)
    requires Tasks(tasks, job, mapFn, parts) && Picks(ids, |tasks|) && |answers| == |ids|
    ensures var more := log + Sends(tasks, ids, answers);
            (forall i :: 0 <= i < |ids| ==> Tries(more, ids[i]) == Tries(log, ids[i]) + [OutcomeOf(answers[i])]) &&
            forall k: nat :: k !in ids ==> Tries(more, k) == Tries(log, k)
  {
    var sends := Sends(tasks, ids, answers);
    forall j, k: nat | 0 <= j < |sends| ensures IsFor(sends[j], k) <==> k == ids[j] {}
    forall i | 0 <= i < |ids| ensures Tries(log + sends, ids[i]) == Tries(log, ids[i]) + [OutcomeOf(answers[i])] {
      SentOnce(log, sends, i, ids[i]);
    }
    forall k: nat | k !in ids ensures Tries(log + sends, k) == Tries(log, k) {
      NotSent(log, sends, k);
    }
  }

  // --- running a job ---------------------------------------------------------------------------------

  datatype Ending = Reduced(outcome: Outcome) | Exhausted(failed: seq<nat>) | Stalled | Incomplete

  /** Send the given partitions out together, then record all answers. */
  method DispatchRound(job: JobState, tasks: seq<Command>, ids: seq<nat>, fleet: Fleet, log0: seq<Sent>, ghost jobId: string,
                       ghost mapFn: string, ghost parts: seq<seq<string>>, ghost round: nat)
    returns (log: seq<Sent>)
    requires Tasks(tasks, jobId, mapFn, parts) && |job.partitions| == |tasks| && Picks(ids, |tasks|)
    requires Tracks(job.partitions, job.attempts, log0)
    requires forall k :: 0 <= k < |job.partitions| ==>
               if k in ids then !job.partitions[k].Done? && |Tries(log0, k)| == round
               else job.partitions[k].Done? && |Tries(log0, k)| <= round
    modifies job
    ensures |job.partitions| == |tasks| && AfterRound(job.partitions, job.attempts, log, round + 1)
    ensures log0 <= log && forall s :: s in log ==> s in log0 || s.command in tasks
    ensures |log| == |log0| + |ids|
    ensures ids != [] ==> NoIdleRound(log, |tasks|, round + 1)
  {
    var answers: seq<Answer> := [];
    log := log0;
    var i := 0;
    while i < |ids|
      invariant 0 <= i <= |ids| && |answers| == i
      invariant log == log0 + Sends(tasks, ids[..i], answers)
    {
      var answer := fleet(|log|, tasks[ids[i]]);
      answers := answers + [answer];
      assert Sends(tasks, ids[..i + 1], answers) == Sends(tasks, ids[..i], answers[..i]) + [Sent(tasks[ids[i]], answer)];
      assert answers[..i] + [answer] == answers;
      log := log + [Sent(tasks[ids[i]], answer)];
      i := i + 1;
    }
    assert ids[..i] == ids;
    RoundTries(log0, tasks, jobId, mapFn, parts, ids, answers);
    RecordAnswers(job, ids, answers, log0, log, round);
    OnlyTasksAreSent(log0, tasks, ids, answers);
    if ids != [] {
      SentInRound(log, ids[0], |tasks|, round);
    }
  }

  lemma OnlyTasksAreSent(log0: seq<Sent>, tasks: seq<Command>, ids: seq<nat>, answers: seq<Answer>)
    requires |ids| == |answers| && forall i :: 0 <= i < |ids| ==> ids[i] < |tasks|
    ensures forall s :: s in log0 + Sends(tasks, ids, answers) ==> s in log0 || s.command in tasks
  {
    var sends := Sends(tasks, ids, answers);
    forall s | s in sends ensures s.command in tasks {
      var i :| 0 <= i < |sends| && sends[i] == s;
      assert s.command == tasks[ids[i]];
    }
  }

  lemma SentInRound(log: seq<Sent>, k: nat, count: nat, round: nat)
    requires k < count && |Tries(log, k)| == round + 1
    ensures NoIdleRound(log, count, round + 1)
  {
    AnswersTell(log, k);
  }

  method RecordAnswers(job: JobState, ids: seq<nat>, answers: seq<Answer>, ghost log0: seq<Sent>, ghost log: seq<Sent>, ghost round: nat)
    requires |ids| == |answers| && Picks(ids, |job.partitions|)
    requires Tracks(job.partitions, job.attempts, log0)
    requires forall k :: 0 <= k < |job.partitions| ==>
               if k in ids then !job.partitions[k].Done? && |Tries(log0, k)| == round
               else job.partitions[k].Done? && |Tries(log0, k)| <= round
    requires forall i :: 0 <= i < |ids| ==> Tries(log, ids[i]) == Tries(log0, ids[i]) + [OutcomeOf(answers[i])]
    requires forall k: nat :: k !in ids ==> Tries(log, k) == Tries(log0, k)
    modifies job
    ensures |job.partitions| == |old(job.partitions)| && AfterRound(job.partitions, job.attempts, log, round + 1)
  {
    ghost var p0, a0 := job.partitions, job.attempts;
    var i := 0;
    while i < |ids|
      invariant 0 <= i <= |ids| && Recorded(p0, a0, job.partitions, job.attempts, ids, i, log)
    {
      ghost var p, a := job.partitions, job.attempts;
      var known := job.Record(ids[i], OutcomeOf(answers[i]));
      RecordedStep(p0, a0, p, a, job.partitions, job.attempts, ids, i, answers[i], log0, log);
      i := i + 1;
    }
  }

  /** The first `i` answers of a round are recorded. */
  ghost predicate Recorded(p0: seq<Status>, a0: seq<nat>, p: seq<Status>, a: seq<nat>, ids: seq<nat>, i: nat, log: seq<Sent>) {
    |p| == |a| == |p0| == |a0| && i <= |ids| && Picks(ids, |p|) &&
    (forall j :: 0 <= j < i ==> TracksAt(p[ids[j]], a[ids[j]], Tries(log, ids[j])) && !p[ids[j]].Pending?) &&
    (forall j :: i <= j < |ids| ==> p[ids[j]] == p0[ids[j]] && a[ids[j]] == a0[ids[j]]) &&
    forall k :: 0 <= k < |p| && k !in ids ==> p[k] == p0[k] && a[k] == a0[k]
  }

  lemma RecordedStep(p0: seq<Status>, a0: seq<nat>, p: seq<Status>, a: seq<nat>, p': seq<Status>, a': seq<nat>, ids: seq<nat>, i: nat,
                     answer: Answer, log0: seq<Sent>, log: seq<Sent>)
    requires Recorded(p0, a0, p, a, ids, i, log) && i < |ids|
    requires p' == p[ids[i] := StatusOf(OutcomeOf(answer))] && a' == a[ids[i] := a[ids[i]] + if OutcomeOf(answer).Bad? then 1 else 0]
    requires TracksAt(p0[ids[i]], a0[ids[i]], Tries(log0, ids[i])) && !p0[ids[i]].Done?
    requires Tries(log, ids[i]) == Tries(log0, ids[i]) + [OutcomeOf(answer)]
    ensures Recorded(p0, a0, p', a', ids, i + 1, log)
  {
    NextTry(p0[ids[i]], a0[ids[i]], Tries(log0, ids[i]), OutcomeOf(answer));
    forall j | 0 <= j < |ids| && j != i ensures p'[ids[j]] == p[ids[j]] && a'[ids[j]] == a[ids[j]] {
      assert ids[j] != ids[i];
    }
  }

  lemma NextTry(status: Status, attempts: nat, tries: seq<Outcome>, o: Outcome)
    requires TracksAt(status, attempts, tries) && !status.Done?
    ensures TracksAt(StatusOf(o), attempts + if o.Bad? then 1 else 0, tries + [o])
  {
    forall i | 0 <= i < |tries| ensures tries[i].Bad? {
      assert i < |tries| - 1 || tries[i] == tries[|tries| - 1];
    }
  }

  /** What is promised of a whole run, whatever the fleet answers. */
  ghost predicate WellRun(log: seq<Sent>, ending: Ending, rounds: nat, job: string, mapFn: string, reduceFn: string,
                          parts: seq<seq<string>>, maxRetries: nat)
  {
    rounds <= maxRetries + 1 && NoIdleRound(log, |parts|, rounds) &&
    (forall s :: s in log && s.command.MapTask? ==>
       s.command.partition < |parts| && s.command == MapTask(job, s.command.partition, mapFn, parts[s.command.partition])) &&
    (forall k :: 0 <= k < |parts| ==> SentUntilDone(AnswersOf(log, k), rounds)) &&
    match ending
    case Reduced(outcome) => ReducedAll(log, outcome, job, reduceFn, parts)
    case Exhausted(failed) =>
      (forall s :: s in log ==> s.command.MapTask?) && failed != [] && Picks(failed, |parts|) &&
      forall k :: 0 <= k < |parts| ==> (k in failed <==> NeverDone(AnswersOf(log, k), maxRetries))
    case _ => false
  }

  /** Some partition was sent in every round. */
  predicate NoIdleRound(log: seq<Sent>, count: nat, rounds: nat) {
    if count == 0 then rounds == 0 else exists k :: 0 <= k < count && |AnswersOf(log, k)| == rounds
  }

  /** A partition is sent in every round until it succeeds, and never again. */
  predicate SentUntilDone(answers: seq<Answer>, rounds: nat) {
    1 <= |answers| <= rounds && forall i :: 0 <= i < |answers| - 1 ==> !Succeeded(answers[i])
  }

  /** It was sent as often as it may be, and never succeeded. */
  predicate NeverDone(answers: seq<Answer>, maxRetries: nat) {
    |answers| == maxRetries + 1 && forall i :: 0 <= i < |answers| ==> !Succeeded(answers[i])
  }

  /** The last command sent, and the only one of its kind, reduces all outputs in order. */
  ghost predicate ReducedAll(log: seq<Sent>, outcome: Outcome, job: string, reduceFn: string, parts: seq<seq<string>>) {
    log != [] && log[|log| - 1].command.ReduceTask? && (forall s :: s in log[..|log| - 1] ==> s.command.MapTask?) &&
    Reports(log[|log| - 1].answer, outcome) &&
    var reduce := log[|log| - 1].command;
    reduce.job == job && reduce.reduceFn == reduceFn && |reduce.inputs| == |parts| &&
    forall k :: 0 <= k < |parts| ==> EndedWith(AnswersOf(log, k), reduce.inputs[k])
  }

  predicate EndedWith(answers: seq<Answer>, output: string) {
    answers != [] && Succeeded(answers[|answers| - 1]) && answers[|answers| - 1].output == output
  }

  /** Tries, put in terms of the answers. */
  lemma AnswersTell(log: seq<Sent>, k: nat)
    ensures |Tries(log, k)| == |AnswersOf(log, k)|
    ensures forall i :: 0 <= i < |Tries(log, k)| ==> (Tries(log, k)[i].Good? <==> Succeeded(AnswersOf(log, k)[i]))
    ensures Tries(log, k) != [] && Tries(log, k)[|Tries(log, k)| - 1].Good? ==>
              EndedWith(AnswersOf(log, k), Tries(log, k)[|Tries(log, k)| - 1].output)
  {
    TriesAreAnswers(log, k);
    forall i | 0 <= i < |Tries(log, k)| ensures Tries(log, k)[i].Good? <==> Succeeded(AnswersOf(log, k)[i]) {
      assert Reports(AnswersOf(log, k)[i], Tries(log, k)[i]);
    }
  }

  method PlanMapTasks(jobId: string, items: seq<string>, mapFn: string, workers: nat)
    returns (job: JobState, tasks: seq<Command>, parts: seq<seq<string>>)
    ensures fresh(job) && Balanced(parts, items, workers) && Tasks(tasks, jobId, mapFn, parts)
    ensures job.partitions == seq(|parts|, _ => Pending) && job.attempts == seq(|parts|, _ => 0)
  {
    parts := Partition(items, workers);
    job := new JobState(|parts|);
    var ps := parts;
    tasks := seq(|ps|, k requires 0 <= k < |ps| => MapTask(jobId, k, mapFn, ps[k]));
  }

  /** The map phase is over: everything done, or somebody gave up. */
  ghost predicate MapsSent(log: seq<Sent>, rounds: nat, tasks: seq<Command>, parts: seq<seq<string>>, maxRetries: nat) {
    rounds <= maxRetries + 1 && NoIdleRound(log, |parts|, rounds) && (forall s :: s in log ==> s.command in tasks) &&
    forall k :: 0 <= k < |parts| ==> SentUntilDone(AnswersOf(log, k), rounds)
  }

  /** What the answers of `rounds` rounds have to do with the job's state. */
  lemma RoundTold(partitions: seq<Status>, attempts: seq<nat>, log: seq<Sent>, rounds: nat)
    requires AfterRound(partitions, attempts, log, rounds)
    ensures forall k :: 0 <= k < |partitions| ==> SentUntilDone(AnswersOf(log, k), rounds)
    ensures forall k :: 0 <= k < |partitions| && partitions[k].Done? ==> EndedWith(AnswersOf(log, k), partitions[k].output)
    ensures forall k :: 0 <= k < |partitions| && partitions[k].Failed? && attempts[k] == rounds ==> NeverDone(AnswersOf(log, k), rounds - 1)
  {
    forall k | 0 <= k < |partitions|
      ensures SentUntilDone(AnswersOf(log, k), rounds)
      ensures partitions[k].Done? ==> EndedWith(AnswersOf(log, k), partitions[k].output)
      ensures partitions[k].Failed? && attempts[k] == rounds ==> NeverDone(AnswersOf(log, k), rounds - 1)
    {
      assert TracksAt(partitions[k], attempts[k], Tries(log, k));
      AnswersTell(log, k);
    }
  }

  /** Once a partition has failed too often, those that failed are those that never succeeded. */
  lemma ExhaustionTold(partitions: seq<Status>, attempts: seq<nat>, log: seq<Sent>, rounds: nat, maxRetries: nat)
    requires AfterRound(partitions, attempts, log, rounds) && rounds <= maxRetries + 1
    requires exists k :: 0 <= k < |partitions| && partitions[k].Failed? && attempts[k] > maxRetries
    ensures forall k :: 0 <= k < |partitions| ==> (partitions[k].Failed? <==> NeverDone(AnswersOf(log, k), maxRetries))
  {
    RoundTold(partitions, attempts, log, rounds);
    var f :| 0 <= f < |partitions| && partitions[f].Failed? && attempts[f] > maxRetries;
    forall k | 0 <= k < |partitions| ensures partitions[k].Failed? <==> NeverDone(AnswersOf(log, k), maxRetries) {
      assert TracksAt(partitions[f], attempts[f], Tries(log, f)) && TracksAt(partitions[k], attempts[k], Tries(log, k));
    }
  }

  /** A reduction is no answer about a partition. */
  lemma ReduceAnswersNone(log: seq<Sent>, s: Sent)
    requires s.command.ReduceTask?
    ensures forall k :: AnswersOf(log + [s], k) == AnswersOf(log, k)
  {
    assert (log + [s])[..|log|] == log;
  }

  /** The rounds: `None` when every partition is done. */
  method MapPhase(job: JobState, tasks: seq<Command>, fleet: Fleet, maxRetries: nat, ghost jobId: string, ghost mapFn: string,
                  ghost parts: seq<seq<string>>)
    returns (ending: Option<Ending>, log: seq<Sent>, rounds: nat)
    requires Tasks(tasks, jobId, mapFn, parts) && parts != []
    requires job.partitions == seq(|parts|, _ => Pending) && job.attempts == seq(|parts|, _ => 0)
    modifies job
    ensures MapsSent(log, rounds, tasks, parts, maxRetries)
    ensures ending.None? ==>
              job.IsComplete() && |job.partitions| == |parts| &&
              forall k :: 0 <= k < |parts| ==> EndedWith(AnswersOf(log, k), job.partitions[k].output)
    ensures ending.Some? ==>
              ending.value.Exhausted? && ending.value.failed != [] && Picks(ending.value.failed, |parts|) &&
              forall k :: 0 <= k < |parts| ==> (k in ending.value.failed <==> NeverDone(AnswersOf(log, k), maxRetries))
  {
    var initial := job.PendingIds();
    assert 0 in initial;
    log := DispatchRound(job, tasks, initial, fleet, [], jobId, mapFn, parts, 0);
    rounds := 1;
    while !job.IsComplete()
      invariant 1 <= rounds <= maxRetries + 1 && |job.partitions| == |parts|
      invariant AfterRound(job.partitions, job.attempts, log, rounds) && NoIdleRound(log, |parts|, rounds)
      invariant forall s :: s in log ==> s.command in tasks
      decreases maxRetries + 1 - rounds
    {
      var exhausted := job.IsExhausted(maxRetries);
      RoundTold(job.partitions, job.attempts, log, rounds);
      if exhausted {
        ExhaustionTold(job.partitions, job.attempts, log, rounds, maxRetries);
        var failed := job.FailedIds();
        return Some(Exhausted(failed)), log, rounds;
      }
      var retry := job.Redispatchable(maxRetries);
      RetryIsAllFailed(job.partitions, job.attempts, log, rounds, maxRetries, retry);
      if retry == [] {
        return Some(Stalled), log, rounds;
      }
      log := DispatchRound(job, tasks, retry, fleet, log, jobId, mapFn, parts, rounds);
      rounds := rounds + 1;
    }
    RoundTold(job.partitions, job.attempts, log, rounds);
    ending := None;
  }

  /** The whole job. It ends after at most `maxRetries + 1` rounds, never stalls, and
      never reduces over a part of the outputs. */
  method RunJob(jobId: string, items: seq<string>, mapFn: string, reduceFn: string, workers: nat, maxRetries: nat, fleet: Fleet)
    returns (ending: Ending, log: seq<Sent>, rounds: nat, parts: seq<seq<string>>)
    ensures Balanced(parts, items, workers)
    ensures WellRun(log, ending, rounds, jobId, mapFn, reduceFn, parts, maxRetries)
  {
    var job: JobState, tasks: seq<Command>;
    job, tasks, parts := PlanMapTasks(jobId, items, mapFn, workers);
    log, rounds := [], 0;
    var inputs: seq<string> := [];
    if job.partitions != [] {
      var ended: Option<Ending>;
      ended, log, rounds := MapPhase(job, tasks, fleet, maxRetries, jobId, mapFn, parts);
      if ended.Some? {
        return ended.value, log, rounds, parts;
      }
      var outputs := job.Outputs();
      if outputs.None? {
        return Incomplete, log, rounds, parts;
      }
      inputs := outputs.value;
    }
    var reduce := ReduceTask(jobId, reduceFn, inputs);
    var answer := fleet(|log|, reduce);
    ending := Reduced(OutcomeOf(answer));
    OutcomeReports(answer);
    ReduceAnswersNone(log, Sent(reduce, answer));
    log := log + [Sent(reduce, answer)];
  }

  lemma RetryIsAllFailed(partitions: seq<Status>, attempts: seq<nat>, log: seq<Sent>, rounds: nat, maxRetries: nat, retry: seq<nat>)
    requires AfterRound(partitions, attempts, log, rounds)
    requires !exists k :: 0 <= k < |partitions| && partitions[k].Failed? && attempts[k] > maxRetries
    requires forall k: nat :: k in retry <==> k < |partitions| && partitions[k].Failed? && attempts[k] <= maxRetries
    requires exists k :: 0 <= k < |partitions| && !partitions[k].Done?
    ensures retry != [] && rounds <= maxRetries
    ensures forall k :: 0 <= k < |partitions| ==>
              if k in retry then !partitions[k].Done? && |Tries(log, k)| == rounds
              else partitions[k].Done? && |Tries(log, k)| <= rounds
  {
    var f :| 0 <= f < |partitions| && !partitions[f].Done?;
    assert TracksAt(partitions[f], attempts[f], Tries(log, f)) && f in retry;
    forall k | 0 <= k < |partitions|
      ensures if k in retry then !partitions[k].Done? && |Tries(log, k)| == rounds
              else partitions[k].Done? && |Tries(log, k)| <= rounds
    {
      assert TracksAt(partitions[k], attempts[k], Tries(log, k));
    }
  }

  // --- what the reduction sees --------------------------------------------------------------------------

  /** With workers that compute `f`, a reduction sees `f` of every part, and the parts are
      all of the input - unless there are no workers, when it sees nothing of it. */
  lemma ReductionSeesAll(log: seq<Sent>, outcome: Outcome, rounds: nat, job: string, mapFn: string, reduceFn: string, items: seq<string>,
                         workers: nat, parts: seq<seq<string>>, maxRetries: nat, f: seq<string> -> string)
    requires Balanced(parts, items, workers)
    requires WellRun(log, Reduced(outcome), rounds, job, mapFn, reduceFn, parts, maxRetries)
    requires forall s :: s in log && s.command.MapTask? && Succeeded(s.answer) ==> s.answer.output == f(s.command.data)
    ensures log != [] && log[|log| - 1].command.ReduceTask?
    ensures log[|log| - 1].command.inputs == seq(|parts|, k requires 0 <= k < |parts| => f(parts[k]))
    ensures Flatten(parts) == items <==> workers > 0 || items == []
  {
    var reduce := log[|log| - 1].command;
    assert ReducedAll(log, outcome, job, reduceFn, parts);
    forall k | 0 <= k < |parts| ensures reduce.inputs[k] == f(parts[k]) {
      assert EndedWith(AnswersOf(log, k), reduce.inputs[k]);
      var s := AnswerIsSent(log, k, |AnswersOf(log, k)| - 1);
    }
    assert items == [] ==> Flatten(parts) == [];
  }

  /** The exception: without workers every job, over whatever input, is one reduction of
      nothing, and ends as that does. */
  lemma WithoutWorkersNothingIsSeen(log: seq<Sent>, ending: Ending, rounds: nat, job: string, mapFn: string, reduceFn: string,
                                    items: seq<string>, parts: seq<seq<string>>, maxRetries: nat)
    requires Balanced(parts, items, 0)
    requires WellRun(log, ending, rounds, job, mapFn, reduceFn, parts, maxRetries)
    ensures |log| == 1 && log[0].command == ReduceTask(job, reduceFn, []) && ending.Reduced? &&
            Reports(log[0].answer, ending.outcome)
  {
    SomethingIsPicked(|parts|);
    SomethingIsMapped(log);
  }

  lemma SomethingIsPicked(bound: nat)
    ensures forall ids :: Picks(ids, bound) && ids != [] ==> bound > 0
  {
    forall ids | Picks(ids, bound) && ids != [] ensures bound > 0 {
      assert ids[0] < bound;
    }
  }

  lemma SomethingIsMapped(log: seq<Sent>)
    ensures |log| > 1 && (forall s :: s in log[..|log| - 1] ==> s.command.MapTask?) ==> exists s :: s in log && s.command.MapTask?
  {
    if |log| > 1 && forall s :: s in log[..|log| - 1] ==> s.command.MapTask? {
      assert log[0] in log[..|log| - 1] && log[0] in log;
    }
  }

  /** Every answer stands for a dispatch. */
  lemma {:induction false} AnswerIsSent(log: seq<Sent>, k: nat, i: nat) returns (s: Sent)
    requires i < |AnswersOf(log, k)|
    ensures s in log && s.command.MapTask? && s.command.partition == k && s.answer == AnswersOf(log, k)[i]
  {
    var init, last := log[..|log| - 1], log[|log| - 1];
    assert log == init + [last];
    if i < |AnswersOf(init, k)| {
      s := AnswerIsSent(init, k, i);
    } else {
      s := last;
    }
  }
}
