/**
 One lane of the forward coalescer: writes queue per destination, and while
 fewer than the allowed requests are out the next one takes what is queued, up
 to both limits. Each write gets its own parts' results back.
 */
module Coalescer {
  import opened Wrappers

  /** One part of a write: the body sent for one region. */
  datatype Part = Part(region: nat, bytes: nat)

  datatype PartResult = PartResult(region: nat, status: nat)

  /** One write's parts for this destination. */
  datatype Job = Job(id: nat, parts: seq<Part>)

  datatype Reply = Results(results: seq<PartResult>) | Unsupported | Capacity | Failed

  /** At least one of each, as the constructor makes them. */
  datatype Limits = Limits(maxInflight: nat, maxBytes: nat, maxParts: nat) {
    ghost predicate Valid() {
      maxInflight > 0 && maxBytes > 0 && maxParts > 0
    }
  }

  /** As asked for, but for zero. */
  ghost predicate Honours(asked: nat, got: nat) {
    got > 0 && (got == asked || (asked == 0 && got == 1))
  }

  function MakeLimits(maxInflight: nat, maxBytes: nat, maxParts: nat): (l: Limits)
    ensures l.Valid() && Honours(maxInflight, l.maxInflight) && Honours(maxBytes, l.maxBytes)
    ensures Honours(maxParts, l.maxParts)
  {
    Limits(if maxInflight == 0 then 1 else maxInflight,
           if maxBytes == 0 then 1 else maxBytes,
           if maxParts == 0 then 1 else maxParts)
  }

  /** Bytes a job counts for: each part's body and a fixed overhead. */
  function JobBytes(parts: seq<Part>): nat {
    if |parts| == 0 then 0 else JobBytes(parts[..|parts| - 1]) + parts[|parts| - 1].bytes + 64
  }

  function BytesOf(jobs: seq<Job>): nat {
    if |jobs| == 0 then 0 else BytesOf(jobs[..|jobs| - 1]) + JobBytes(jobs[|jobs| - 1].parts)
  }

  function PartsOf(jobs: seq<Job>): nat {
    if |jobs| == 0 then 0 else PartsOf(jobs[..|jobs| - 1]) + |jobs[|jobs| - 1].parts|
  }

  function AllParts(jobs: seq<Job>): (parts: seq<Part>)
    ensures |parts| == PartsOf(jobs)
  {
    if |jobs| == 0 then [] else AllParts(jobs[..|jobs| - 1]) + jobs[|jobs| - 1].parts
  }

  // -------------------------------------------------------------------- the lane

  /** What a write was told. */
  datatype Answer = Answer(job: Job, reply: Reply)

  /**
   What the lane holds: the queue, the job carried over from the last request,
   the requests out, and everything already answered, in order of answering.
   */
  datatype Lane = Lane(queue: seq<Job>, carried: Option<Job>, inflight: seq<seq<Job>>, answered: seq<Answer>)

  ghost function CarriedJobs(carried: Option<Job>): seq<Job> {
    match carried case None => [] case Some(j) => [j]
  }

  /** The jobs not yet in a request, in the order they will go out. */
  ghost function Pending(l: Lane): seq<Job> {
    CarriedJobs(l.carried) + l.queue
  }

  ghost predicate RequestWithin(limits: Limits, jobs: seq<Job>) {
    |jobs| == 1 || (|jobs| > 1 && BytesOf(jobs) <= limits.maxBytes && PartsOf(jobs) <= limits.maxParts)
  }

  /** Jobs still to arrive, group by group. */
  ghost function Flat(arrivals: seq<seq<Job>>): seq<Job> {
    if |arrivals| == 0 then [] else arrivals[0] + Flat(arrivals[1..])
  }

  /**
   Fill one request: the first job, then what is queued while both limits
   allow. One group of `arrivals` queues up before each look at the queue:
   `more` is what arrived during the call, `later` what has not arrived yet.
   Nothing is lost or reordered; a job that does not fit is carried, and the
   request stops short only at a limit, at such a job, or at an empty queue.
   */
  method FillRequest(limits: Limits, first: Job, queue: seq<Job>, arrivals: seq<seq<Job>>)
    returns (jobs: seq<Job>, carried: Option<Job>, queue': seq<Job>, later: seq<seq<Job>>, ghost more: seq<Job>)
    requires limits.Valid()
    ensures jobs + (CarriedJobs(carried) + queue') == ([first] + queue) + more
    ensures more + Flat(later) == Flat(arrivals)
    ensures |jobs| > 0 && jobs[0] == first && RequestWithin(limits, jobs)
    ensures carried.Some? ==>
            BytesOf(jobs + [carried.value]) > limits.maxBytes || PartsOf(jobs + [carried.value]) > limits.maxParts
    ensures carried.None? ==> queue' == [] || BytesOf(jobs) >= limits.maxBytes || PartsOf(jobs) >= limits.maxParts
  {
    jobs, carried, queue', later, more := [first], None, queue, arrivals, [];
    var bytes, nparts := JobBytes(first.parts), |first.parts|;
    AppendJob([], first);
    assert [] + [first] == [first];
    while bytes < limits.maxBytes && nparts < limits.maxParts
      invariant jobs + queue' == ([first] + queue) + more
      invariant more + Flat(later) == Flat(arrivals)
      invariant |jobs| > 0 && jobs[0] == first && carried.None?
      invariant bytes == BytesOf(jobs) && nparts == PartsOf(jobs) && RequestWithin(limits, jobs)
      decreases |queue'| + |Flat(later)|
    {
      if |later| > 0 {
        assert (more + later[0]) + Flat(later[1..]) == more + Flat(later);
        assert jobs + (queue' + later[0]) == (jobs + queue') + later[0] == ([first] + queue) + (more + later[0]);
        queue', later, more := queue' + later[0], later[1..], more + later[0];
      }
      if queue' == [] {
        return;
      }
      var job := queue'[0];
      AppendJob(jobs, job);
      assert jobs + queue' == (jobs + [job]) + queue'[1..];
      queue' := queue'[1..];
      if bytes + JobBytes(job.parts) > limits.maxBytes || nparts + |job.parts| > limits.maxParts {
        carried := Some(job);
        assert jobs + ([job] + queue') == (jobs + [job]) + queue';
        return;
      }
      bytes := bytes + JobBytes(job.parts);
      nparts := nparts + |job.parts|;
      jobs := jobs + [job];
    }
  }

  lemma AppendJob(jobs: seq<Job>, job: Job)
    ensures BytesOf(jobs + [job]) == BytesOf(jobs) + JobBytes(job.parts)
    ensures PartsOf(jobs + [job]) == PartsOf(jobs) + |job.parts|
  {
    assert (jobs + [job])[..|jobs|] == jobs;
  }

  // ------------------------------------------------------------------- the replies

  /** The results dealt out in order: each job as many as it has parts. */
  ghost function Dealt(jobs: seq<Job>, results: seq<PartResult>): (replies: seq<Reply>)
    requires |results| == PartsOf(jobs)
    ensures |replies| == |jobs|
  {
    if |jobs| == 0 then []
    else
      var n := |jobs| - 1;
      var cut := PartsOf(jobs[..n]);
      Dealt(jobs[..n], results[..cut]) + [Results(results[cut..])]
  }

  /** What each job of a request is told. */
  ghost function Replies(jobs: seq<Job>, outcome: Reply): (replies: seq<Reply>)
    ensures |replies| == |jobs|
  {
    match outcome
    case Results(rs) => if |rs| == PartsOf(jobs) then Dealt(jobs, rs) else seq(|jobs|, _ => Failed)
    case _ => seq(|jobs|, _ => outcome)
  }

  /** The results taken off the front, each job as many as it has parts. */
  method DealOut(jobs: seq<Job>, results: seq<PartResult>) returns (replies: seq<Reply>)
    requires |results| == PartsOf(jobs)
    ensures replies == Dealt(jobs, results)
  {
    replies := [];
    var rest := results;
    for i := 0 to |jobs|
      invariant PartsOf(jobs[..i]) <= |results| && rest == results[PartsOf(jobs[..i])..]
      invariant replies == Dealt(jobs[..i], results[..PartsOf(jobs[..i])])
    {
      assert jobs[..i + 1][..i] == jobs[..i];
      PartsGrow(jobs, i + 1);
      var n := |jobs[i].parts|;
      Cuts(results, PartsOf(jobs[..i]), n);
      replies := replies + [Results(rest[..n])];
      rest := rest[n..];
    }
    assert jobs[..|jobs|] == jobs;
    assert results[..|results|] == results;
  }

  lemma Cuts(results: seq<PartResult>, cut: nat, n: nat)
    requires cut + n <= |results|
    ensures results[..cut + n][..cut] == results[..cut] && results[..cut + n][cut..] == results[cut..][..n]
    ensures results[cut..][n..] == results[cut + n..]
  {
  }

  method SendJobs(jobs: seq<Job>, outcome: Reply) returns (replies: seq<Reply>)
    ensures replies == Replies(jobs, outcome)
  {
    if outcome.Results? {
      var total := 0;
      for i := 0 to |jobs|
        invariant total == PartsOf(jobs[..i])
      {
        assert jobs[..i + 1][..i] == jobs[..i];
        total := total + |jobs[i].parts|;
      }
      assert jobs[..|jobs|] == jobs;
      if |outcome.results| == total {
        replies := DealOut(jobs, outcome.results);
        return;
      }
    }
    var told := if outcome.Results? then Failed else outcome;
    replies := [];
    for i := 0 to |jobs|
      invariant replies == seq(i, _ => told)
    {
      replies := replies + [told];
    }
  }

  lemma {:induction false} PartsGrow(jobs: seq<Job>, n: nat)
    requires n <= |jobs|
    ensures PartsOf(jobs[..n]) <= PartsOf(jobs)
    decreases |jobs| - n
  {
    if n < |jobs| {
      assert jobs[..n + 1][..n] == jobs[..n];
      PartsGrow(jobs, n + 1);
    } else {
      assert jobs[..n] == jobs;
    }
  }

  lemma SliceOfPrefix<T>(s: seq<T>, cut: nat, lo: nat, hi: nat)
    requires lo <= hi <= cut <= |s|
    ensures s[..cut][lo..hi] == s[lo..hi]
  {
  }

  lemma SliceOfSum<T>(a: seq<T>, b: seq<T>, lo: nat, hi: nat)
    requires lo <= hi <= |a|
    ensures (a + b)[lo..hi] == a[lo..hi] && (a + b)[|a|..] == b
  {
  }

  /** Where the parts of job `j` are in the request. */
  ghost function Start(jobs: seq<Job>, j: nat): nat
    requires j < |jobs|
  {
    PartsOf(jobs[..j])
  }

  lemma {:induction false} PartsAt(jobs: seq<Job>, j: nat)
    requires j < |jobs|
    ensures Start(jobs, j) + |jobs[j].parts| <= PartsOf(jobs)
    ensures AllParts(jobs)[Start(jobs, j)..Start(jobs, j) + |jobs[j].parts|] == jobs[j].parts
  {
    var n := |jobs| - 1;
    if j < n {
      PartsAt(jobs[..n], j);
      assert jobs[..n][..j] == jobs[..j];
      SliceOfSum(AllParts(jobs[..n]), jobs[n].parts, Start(jobs, j), Start(jobs, j) + |jobs[j].parts|);
    } else {
      SliceOfSum(AllParts(jobs[..n]), jobs[n].parts, 0, 0);
    }
  }

  lemma {:induction false} DealtAt(jobs: seq<Job>, results: seq<PartResult>, j: nat)
    requires |results| == PartsOf(jobs) && j < |jobs| && Start(jobs, j) + |jobs[j].parts| <= |results|
    ensures Dealt(jobs, results)[j] == Results(results[Start(jobs, j)..Start(jobs, j) + |jobs[j].parts|])
  {
    var n := |jobs| - 1;
    if j < n {
      var cut := PartsOf(jobs[..n]);
      assert jobs[..n][..j] == jobs[..j];
      PartsAt(jobs[..n], j);
      DealtAt(jobs[..n], results[..cut], j);
      SliceOfPrefix(results, cut, Start(jobs, j), Start(jobs, j) + |jobs[j].parts|);
    }
  }

  /**
   Each write gets exactly its own slice: the results of job `j` are those at
   the positions its parts had in the request.
   */
  lemma OwnSlice(jobs: seq<Job>, results: seq<PartResult>, j: nat)
    requires |results| == PartsOf(jobs) && j < |jobs|
    ensures Start(jobs, j) + |jobs[j].parts| <= |results|
    ensures Dealt(jobs, results)[j] == Results(results[Start(jobs, j)..Start(jobs, j) + |jobs[j].parts|])
    ensures AllParts(jobs)[Start(jobs, j)..Start(jobs, j) + |jobs[j].parts|] == jobs[j].parts
  {
    PartsAt(jobs, j);
    DealtAt(jobs, results, j);
  }

  // ------------------------------------------------------------------ every run of a lane

  /** Jobs queue up. */
  ghost predicate Enqueues(l: Lane, l': Lane, more: seq<Job>) {
    l' == l.(queue := l.queue + more)
  }

  /** A free slot takes the next request; `more` queued up meanwhile. */
  ghost predicate Dispatches(limits: Limits, l: Lane, l': Lane, jobs: seq<Job>, more: seq<Job>) {
    && |l.inflight| < limits.maxInflight
    && |jobs| > 0 && RequestWithin(limits, jobs)
    && Pending(l) + more == jobs + Pending(l')
    && l'.inflight == l.inflight + [jobs] && l'.answered == l.answered
  }

  ghost function Answers(jobs: seq<Job>, outcome: Reply): (answers: seq<Answer>)
    ensures |answers| == |jobs|
    ensures forall i :: 0 <= i < |jobs| ==> answers[i] == Answer(jobs[i], Replies(jobs, outcome)[i])
  {
    seq(|jobs|, i requires 0 <= i < |jobs| => Answer(jobs[i], Replies(jobs, outcome)[i]))
  }

  /** Request `k` comes back and its slot is free again. */
  ghost predicate Completes(l: Lane, l': Lane, k: nat, outcome: Reply) {
    && k < |l.inflight|
    && l' == l.(inflight := l.inflight[..k] + l.inflight[k + 1..],
                answered := l.answered + Answers(l.inflight[k], outcome))
  }

  datatype Step =
    | Enqueue(more: seq<Job>)
    | Dispatch(jobs: seq<Job>, meanwhile: seq<Job>)
    | Complete(k: nat, outcome: Reply)

  ghost predicate Next(limits: Limits, l: Lane, l': Lane, step: Step) {
    match step
    case Enqueue(more) => Enqueues(l, l', more)
    case Dispatch(jobs, more) => Dispatches(limits, l, l', jobs, more)
    case Complete(k, outcome) => Completes(l, l', k, outcome)
  }

  const EMPTY_LANE := Lane([], None, [], [])

  ghost predicate IsRun(limits: Limits, lanes: seq<Lane>, steps: seq<Step>) {
    && |lanes| == |steps| + 1 && lanes[0] == EMPTY_LANE
    && forall i :: 0 <= i < |steps| ==> Next(limits, lanes[i], lanes[i + 1], steps[i])
  }

  /** Every job queued during a run, in order. */
  ghost function Submitted(steps: seq<Step>): seq<Job> {
    if |steps| == 0 then []
    else
      var before := Submitted(steps[..|steps| - 1]);
      match steps[|steps| - 1]
      case Enqueue(more) => before + more
      case Dispatch(_, more) => before + more
      case Complete(_, _) => before
  }

  /** Every request sent during a run, in order. */
  ghost function Sent(steps: seq<Step>): seq<seq<Job>> {
    if |steps| == 0 then []
    else
      var before := Sent(steps[..|steps| - 1]);
      match steps[|steps| - 1]
      case Dispatch(jobs, _) => before + [jobs]
      case _ => before
  }

  ghost function JobsOf(requests: seq<seq<Job>>): seq<Job> {
    if |requests| == 0 then [] else JobsOf(requests[..|requests| - 1]) + requests[|requests| - 1]
  }

  ghost function AnsweredJobs(answers: seq<Answer>): (jobs: seq<Job>)
    ensures |jobs| == |answers|
    ensures forall i :: 0 <= i < |jobs| ==> jobs[i] == answers[i].job
  {
    seq(|answers|, i requires 0 <= i < |answers| => answers[i].job)
  }

  lemma {:induction false} JobsOfSplit(a: seq<seq<Job>>, b: seq<seq<Job>>)
    ensures JobsOf(a + b) == JobsOf(a) + JobsOf(b)
  {
    if |b| == 0 {
      assert a + b == a;
    } else {
      var n := |b| - 1;
      assert (a + b)[..|a| + n] == a + b[..n];
      JobsOfSplit(a, b[..n]);
    }
  }

  /** A request that came back, and how. */
  datatype Completion = Completion(jobs: seq<Job>, outcome: Reply)

  /** Every request that came back during a run, in order. */
  ghost function Done(lanes: seq<Lane>, steps: seq<Step>): seq<Completion>
    requires |steps| < |lanes|
  {
    if |steps| == 0 then []
    else
      var n := |steps| - 1;
      var before := Done(lanes, steps[..n]);
      if steps[n].Complete? && steps[n].k < |lanes[n].inflight|
      then before + [Completion(lanes[n].inflight[steps[n].k], steps[n].outcome)]
      else before
  }

  ghost function AllAnswers(done: seq<Completion>): seq<Answer> {
    if |done| == 0 then []
    else AllAnswers(done[..|done| - 1]) + Answers(done[|done| - 1].jobs, done[|done| - 1].outcome)
  }

  ghost function Requests(done: seq<Completion>): seq<seq<Job>> {
    if |done| == 0 then [] else Requests(done[..|done| - 1]) + [done[|done| - 1].jobs]
  }

  /** The answers given are those of the requests that came back; every request sent is out or came back once. */
  ghost predicate Answered(l: Lane, sent: seq<seq<Job>>, done: seq<Completion>) {
    && l.answered == AllAnswers(done)
    && multiset(sent) == multiset(l.inflight) + multiset(Requests(done))
  }

  lemma DispatchAnswers(limits: Limits, l: Lane, l': Lane, sent: seq<seq<Job>>, done: seq<Completion>, jobs: seq<Job>,
                        more: seq<Job>)
    requires Dispatches(limits, l, l', jobs, more) && Answered(l, sent, done)
    ensures Answered(l', sent + [jobs], done)
  {
  }

  lemma CompleteAnswers(l: Lane, l': Lane, sent: seq<seq<Job>>, done: seq<Completion>, k: nat, outcome: Reply)
    requires Completes(l, l', k, outcome) && Answered(l, sent, done)
    ensures Answered(l', sent, done + [Completion(l.inflight[k], outcome)])
  {
    var done' := done + [Completion(l.inflight[k], outcome)];
    assert done'[..|done|] == done;
    assert l.inflight == l.inflight[..k] + [l.inflight[k]] + l.inflight[k + 1..];
  }

  lemma {:induction false} DoneIgnoresLater(lanes: seq<Lane>, m: nat, steps: seq<Step>)
    requires |steps| < m <= |lanes|
    ensures Done(lanes[..m], steps) == Done(lanes, steps)
  {
    if |steps| > 0 { DoneIgnoresLater(lanes, m, steps[..|steps| - 1]); }
  }

  /** Where an answer comes from. */
  lemma {:induction false} AnswerFrom(done: seq<Completion>, i: nat) returns (d: nat, j: nat)
    requires i < |AllAnswers(done)|
    ensures d < |done| && j < |done[d].jobs| && i == |AllAnswers(done[..d])| + j
    ensures AllAnswers(done)[i] == Answer(done[d].jobs[j], Replies(done[d].jobs, done[d].outcome)[j])
  {
    var n := |done| - 1;
    if i < |AllAnswers(done[..n])| {
      d, j := AnswerFrom(done[..n], i);
      assert done[..n][..d] == done[..d];
    } else {
      d, j := n, i - |AllAnswers(done[..n])|;
    }
  }

  lemma {:induction false} RequestAt(done: seq<Completion>, d: nat)
    requires d < |done|
    ensures done[d].jobs in Requests(done)
  {
    var n := |done| - 1;
    if d < n { RequestAt(done[..n], d); }
  }

  /** The jobs submitted are those sent, in the order queued, then those pending. */
  ghost predicate InOrder(l: Lane, sent: seq<seq<Job>>, submitted: seq<Job>) {
    JobsOf(sent) + Pending(l) == submitted
  }

  /** Every job sent is out or answered, exactly as often as it was sent. */
  ghost predicate Accounted(l: Lane, sent: seq<seq<Job>>) {
    multiset(JobsOf(sent)) == multiset(JobsOf(l.inflight)) + multiset(AnsweredJobs(l.answered))
  }

  ghost predicate Bounded(limits: Limits, l: Lane, sent: seq<seq<Job>>) {
    && |l.inflight| <= limits.maxInflight
    && forall i :: 0 <= i < |sent| ==> RequestWithin(limits, sent[i])
  }

  lemma TakenOut(a: seq<Job>, b: seq<Job>, c: seq<Job>)
    ensures multiset(a + (b + c)) == multiset(a + c) + multiset(b)
  {
  }

  lemma InflightWithout(inflight: seq<seq<Job>>, k: nat)
    requires k < |inflight|
    ensures multiset(JobsOf(inflight)) == multiset(JobsOf(inflight[..k] + inflight[k + 1..])) + multiset(inflight[k])
  {
    var before, jobs, after := inflight[..k], inflight[k], inflight[k + 1..];
    assert inflight == before + ([jobs] + after);
    JobsOfSplit(before, [jobs] + after);
    JobsOfSplit([jobs], after);
    JobsOfOne(jobs);
    JobsOfSplit(before, after);
    TakenOut(JobsOf(before), jobs, JobsOf(after));
  }

  lemma JobsOfOne(jobs: seq<Job>)
    ensures JobsOf([jobs]) == jobs
  {
    assert [jobs][..0] == [];
  }

  lemma EnqueueKeepsOrder(l: Lane, l': Lane, sent: seq<seq<Job>>, submitted: seq<Job>, more: seq<Job>)
    requires Enqueues(l, l', more) && InOrder(l, sent, submitted)
    ensures InOrder(l', sent, submitted + more)
  {
    var before := JobsOf(sent);
    assert Pending(l') == Pending(l) + more;
    assert (before + Pending(l)) + more == before + (Pending(l) + more);
  }

  lemma DispatchKeepsOrder(limits: Limits, l: Lane, l': Lane, sent: seq<seq<Job>>, submitted: seq<Job>, jobs: seq<Job>,
                           more: seq<Job>)
    requires Dispatches(limits, l, l', jobs, more) && InOrder(l, sent, submitted)
    ensures InOrder(l', sent + [jobs], submitted + more)
  {
    JobsOfSplit(sent, [jobs]);
    JobsOfOne(jobs);
    Reassociate(JobsOf(sent), Pending(l), more, jobs, Pending(l'));
  }

  lemma Reassociate(a: seq<Job>, b: seq<Job>, c: seq<Job>, d: seq<Job>, e: seq<Job>)
    requires b + c == d + e
    ensures (a + b) + c == (a + d) + e
  {
    assert (a + b) + c == a + (b + c);
    assert (a + d) + e == a + (d + e);
  }

  lemma DispatchAccounts(limits: Limits, l: Lane, l': Lane, sent: seq<seq<Job>>, jobs: seq<Job>, more: seq<Job>)
    requires Dispatches(limits, l, l', jobs, more) && Accounted(l, sent)
    ensures Accounted(l', sent + [jobs])
  {
    JobsOfSplit(sent, [jobs]);
    JobsOfSplit(l.inflight, [jobs]);
    JobsOfOne(jobs);
  }

  lemma CompleteAccounts(l: Lane, l': Lane, sent: seq<seq<Job>>, k: nat, outcome: Reply)
    requires Completes(l, l', k, outcome) && Accounted(l, sent)
    ensures Accounted(l', sent)
  {
    InflightWithout(l.inflight, k);
    AnsweredGrow(l.answered, l.inflight[k], outcome);
  }

  lemma AnsweredGrow(answers: seq<Answer>, jobs: seq<Job>, outcome: Reply)
    ensures multiset(AnsweredJobs(answers + Answers(jobs, outcome))) == multiset(AnsweredJobs(answers)) + multiset(jobs)
  {
    assert AnsweredJobs(answers + Answers(jobs, outcome)) == AnsweredJobs(answers) + jobs;
  }

  /**
   In every run of a lane, whatever queues up when and in whatever order and
   however requests end: jobs leave in the order they queued, none is lost or
   sent twice, each is answered as often as it came back, and no request and no
   number of requests out exceeds its limit.
   */
  lemma {:induction false} RunConserves(limits: Limits, lanes: seq<Lane>, steps: seq<Step>)
    requires IsRun(limits, lanes, steps)
    ensures InOrder(lanes[|steps|], Sent(steps), Submitted(steps))
    ensures Accounted(lanes[|steps|], Sent(steps))
    ensures Bounded(limits, lanes[|steps|], Sent(steps))
    decreases |steps|
  {
    if |steps| > 0 {
      var n := |steps| - 1;
      RunConserves(limits, lanes[..n + 1], steps[..n]);
      var l, l' := lanes[n], lanes[n + 1];
      var sent, submitted := Sent(steps[..n]), Submitted(steps[..n]);
      assert Next(limits, lanes[n], lanes[n + 1], steps[n]);
      match steps[n]
      case Enqueue(more) =>
        EnqueueKeepsOrder(l, l', sent, submitted, more);
      case Dispatch(jobs, more) =>
        DispatchKeepsOrder(limits, l, l', sent, submitted, jobs, more);
        DispatchAccounts(limits, l, l', sent, jobs, more);
      case Complete(k, outcome) =>
        CompleteAccounts(l, l', sent, k, outcome);
    }
  }

  /**
   In every run of a lane, every request sent is still out or came back once, and
   what was answered is what the requests that came back were told, in that order.
   */
  lemma {:induction false} RunAnswers(limits: Limits, lanes: seq<Lane>, steps: seq<Step>)
    requires IsRun(limits, lanes, steps)
    ensures Answered(lanes[|steps|], Sent(steps), Done(lanes, steps))
    decreases |steps|
  {
    if |steps| > 0 {
      var n := |steps| - 1;
      RunAnswers(limits, lanes[..n + 1], steps[..n]);
      DoneIgnoresLater(lanes, n + 1, steps[..n]);
      assert Next(limits, lanes[n], lanes[n + 1], steps[n]);
      match steps[n]
      case Enqueue(more) =>
      case Dispatch(jobs, more) =>
        DispatchAnswers(limits, lanes[n], lanes[n + 1], Sent(steps[..n]), Done(lanes, steps[..n]), jobs, more);
      case Complete(k, outcome) =>
        CompleteAnswers(lanes[n], lanes[n + 1], Sent(steps[..n]), Done(lanes, steps[..n]), k, outcome);
    }
  }

  /**
   Job `j` of the request is told what the outcome means for it: its own slice of the
   results when there is one for each part.
   */
  ghost predicate ToldItsOwn(c: Completion, j: nat, a: Answer) {
    && j < |c.jobs| && a == Answer(c.jobs[j], Replies(c.jobs, c.outcome)[j])
    && (c.outcome.Results? && |c.outcome.results| == PartsOf(c.jobs) ==>
          && Start(c.jobs, j) + |c.jobs[j].parts| <= |c.outcome.results|
          && a.reply == Results(c.outcome.results[Start(c.jobs, j)..Start(c.jobs, j) + |c.jobs[j].parts|]))
  }

  lemma RepliesAreOwn(c: Completion, j: nat)
    requires j < |c.jobs|
    ensures ToldItsOwn(c, j, Answer(c.jobs[j], Replies(c.jobs, c.outcome)[j]))
  {
    if c.outcome.Results? && |c.outcome.results| == PartsOf(c.jobs) {
      OwnSlice(c.jobs, c.outcome.results, j);
    }
  }

  /**
   Every answer of a run is that of one job of one request sent: the `j`th of the
   jobs of the `d`th request to come back, told its own.
   */
  lemma AnswersAreOwn(limits: Limits, lanes: seq<Lane>, steps: seq<Step>, i: nat) returns (d: nat, j: nat)
    requires IsRun(limits, lanes, steps) && i < |lanes[|steps|].answered|
    ensures var done := Done(lanes, steps);
            && d < |done| && done[d].jobs in Sent(steps) && i == |AllAnswers(done[..d])| + j
            && ToldItsOwn(done[d], j, lanes[|steps|].answered[i])
  {
    RunAnswers(limits, lanes, steps);
    var done := Done(lanes, steps);
    d, j := AnswerFrom(done, i);
    RequestAt(done, d);
    RepliesAreOwn(done[d], j);
    CameBackWasSent(lanes[|steps|], Sent(steps), done, done[d].jobs);
  }

  lemma CameBackWasSent(l: Lane, sent: seq<seq<Job>>, done: seq<Completion>, jobs: seq<Job>)
    requires Answered(l, sent, done) && jobs in Requests(done)
    ensures jobs in sent
  {
    assert jobs in multiset(Requests(done)) && jobs in multiset(sent);
  }

  /** A request comes back: each of its jobs is told its part and the slot is free again. */
  method CompleteRequest(l: Lane, k: nat, outcome: Reply) returns (l': Lane)
    requires k < |l.inflight|
    ensures Completes(l, l', k, outcome)
  {
    var jobs := l.inflight[k];
    var replies := SendJobs(jobs, outcome);
    var answers := [];
    for i := 0 to |jobs|
      invariant |answers| == i && forall j :: 0 <= j < i ==> answers[j] == Answer(jobs[j], replies[j])
    {
      answers := answers + [Answer(jobs[i], replies[i])];
    }
    assert answers == Answers(jobs, outcome);
    l' := l.(inflight := l.inflight[..k] + l.inflight[k + 1..], answered := l.answered + answers);
  }

  /** One turn of the lane's loop, once a slot is free and a job is there, is a dispatch. */
  method LaneTurn(limits: Limits, l: Lane, arrivals: seq<seq<Job>>)
    returns (l': Lane, later: seq<seq<Job>>, ghost more: seq<Job>)
    requires limits.Valid() && |l.inflight| < limits.maxInflight
    requires l.carried.Some? || |l.queue| > 0
    ensures |l'.inflight| == |l.inflight| + 1 && l'.inflight[..|l.inflight|] == l.inflight && l'.answered == l.answered
    ensures RequestWithin(limits, l'.inflight[|l.inflight|]) && l'.inflight[|l.inflight|][0] == Pending(l)[0]
    ensures Dispatches(limits, l, l', l'.inflight[|l.inflight|], more)
    ensures more + Flat(later) == Flat(arrivals)
  {
    var first := if l.carried.Some? then l.carried.value else l.queue[0];
    var rest := if l.carried.Some? then l.queue else l.queue[1..];
    var taken, carried, queue';
    taken, carried, queue', later, more := FillRequest(limits, first, rest, arrivals);
    l' := Lane(queue', carried, l.inflight + [taken], l.answered);
    assert Pending(l) == [first] + rest;
  }
}
