/** The in-process run queue: submitters hand jobs to several workers through a buffered
    channel, and each job carries its own reply channel of capacity one
    (pkg/harnessruntime/run_queue.go). */
module RunQueue {
  import opened Wrappers

  /** What comes back for a job: a result, an error, or both. */
  datatype Reply<R> = Reply(result: Option<R>, err: Option<string>)

  /** The parts the queue is built from: the request codec and the result codec. */
  datatype Codec<!E, !Q, !R, !P> = Codec(
    decode: E -> Result<Q, string>, encodeResult: Option<R> -> Result<P, string>, decodeResult: P -> Reply<R>)

  /** A finished execution sent through the result codec; a failed one is passed on as it is. */
  function Finish<E, Q, R, P>(c: Codec<E, Q, R, P>, executed: Reply<R>): Reply<R> {
    if executed.err.Some? then executed
    else
      match c.encodeResult(executed.result)
      case Err(e) => Reply(executed.result, Some(e))
      case Ok(payload) => c.decodeResult(payload)
  }

  /** A job is known by its reply channel. */
  datatype Job<E> = Job(id: nat, envelope: E)

  datatype Execution<E, R> = Execution(job: Job<E>, executed: Reply<R>)

  datatype Worker<E, R> = Idle | Working(job: Job<E>) | Replying(job: Job<E>, reply: Reply<R>)

  datatype Phase<R> = Submitting | Waiting | Got(reply: Reply<R>) | GaveUp

  datatype Submitter<E, R> = Submitter(envelope: E, phase: Phase<R>)

  datatype Channel<R> = Channel(content: seq<Reply<R>>, closed: bool)

  /** `accepted`, `answered` and `log` remember the jobs let into the buffer, the replies sent and
      the executions made. */
  datatype System<E(==), R> = System(
    capacity: nat, buffer: seq<Job<E>>, workers: seq<Worker<E, R>>,
    submitters: map<nat, Submitter<E, R>>, channels: map<nat, Channel<R>>,
    accepted: set<Job<E>>, answered: multiset<Job<E>>, log: seq<Execution<E, R>>)

  datatype Step<E, R> =
    | Submit(id: nat, envelope: E)
    | Enqueue(id: nat)
    | Receive(id: nat)
    | GiveUp(id: nat)
    | Take(w: nat)
    | Refuse(w: nat)
    | Execute(w: nat, executed: Reply<R>)
    | Send(w: nat)

  ghost predicate Enabled<E, Q, R, P>(s: System<E, R>, c: Codec<E, Q, R, P>, step: Step<E, R>) {
    match step
    case Submit(id, _) => id !in s.submitters && id !in s.channels
    case Enqueue(id) => id in s.submitters && s.submitters[id].phase == Submitting && |s.buffer| < s.capacity
    case Receive(id) =>
      id in s.submitters && s.submitters[id].phase == Waiting && id in s.channels && s.channels[id].content != []
    case GiveUp(id) => id in s.submitters && s.submitters[id].phase in {Submitting, Waiting}
    case Take(w) => w < |s.workers| && s.workers[w] == Idle && s.buffer != []
    case Refuse(w) => w < |s.workers| && s.workers[w].Working? && c.decode(s.workers[w].job.envelope).Err?
    case Execute(w, _) => w < |s.workers| && s.workers[w].Working? && c.decode(s.workers[w].job.envelope).Ok?
    case Send(w) => w < |s.workers| && s.workers[w].Replying? && CanSend(s, s.workers[w].job.id)
  }

  /** A send that neither blocks nor hits a closed channel. */
  ghost predicate CanSend<E, R>(s: System<E, R>, id: nat) {
    id in s.channels && s.channels[id] == Channel([], false)
  }

  ghost function Next<E, Q, R, P>(s: System<E, R>, c: Codec<E, Q, R, P>, step: Step<E, R>): System<E, R>
    requires Enabled(s, c, step)
  {
    match step
    case Submit(id, envelope) =>
      s.(submitters := s.submitters[id := Submitter(envelope, Submitting)],
         channels := s.channels[id := Channel([], false)])
    case Enqueue(id) =>
      var job := Job(id, s.submitters[id].envelope);
      s.(buffer := s.buffer + [job], accepted := s.accepted + {job},
         submitters := s.submitters[id := s.submitters[id].(phase := Waiting)])
    case Receive(id) =>
      var reply := s.channels[id].content[0];
      s.(submitters := s.submitters[id := s.submitters[id].(phase := Got(reply))],
         channels := s.channels[id := s.channels[id].(content := s.channels[id].content[1..])])
    case GiveUp(id) => s.(submitters := s.submitters[id := s.submitters[id].(phase := GaveUp)])
    case Take(w) => s.(workers := s.workers[w := Working(s.buffer[0])], buffer := s.buffer[1..])
    case Refuse(w) =>
      var job := s.workers[w].job;
      s.(workers := s.workers[w := Replying(job, Reply(None, Some(c.decode(job.envelope).error)))])
    case Execute(w, executed) =>
      var job := s.workers[w].job;
      s.(workers := s.workers[w := Replying(job, Finish(c, executed))], log := s.log + [Execution(job, executed)])
    case Send(w) =>
      var job, reply := s.workers[w].job, s.workers[w].reply;
      s.(workers := s.workers[w := Idle], answered := s.answered + multiset{job},
         channels := s.channels[job.id := Channel([reply], true)])
  }

  // ---- where a job is ---------------------------------------------------------------------

  ghost predicate Holds<E, R>(w: Worker<E, R>, job: Job<E>) {
    !w.Idle? && w.job == job
  }

  ghost predicate HoldsReply<E, R>(w: Worker<E, R>, job: Job<E>) {
    w.Replying? && w.job == job
  }

  ghost function Holders<E, R>(workers: seq<Worker<E, R>>, job: Job<E>): nat {
    if workers == [] then 0 else (if Holds(workers[0], job) then 1 else 0) + Holders(workers[1..], job)
  }

  ghost function ReplyHolders<E, R>(workers: seq<Worker<E, R>>, job: Job<E>): nat {
    if workers == [] then 0 else (if HoldsReply(workers[0], job) then 1 else 0) + ReplyHolders(workers[1..], job)
  }

  ghost function Executions<E, R>(log: seq<Execution<E, R>>, job: Job<E>): nat {
    if log == [] then 0 else Executions(log[..|log| - 1], job) + if log[|log| - 1].job == job then 1 else 0
  }

  /** In how many places the job is: buffered, with a worker, answered. */
  ghost function Places<E, R>(s: System<E, R>, job: Job<E>): nat {
    multiset(s.buffer)[job] + Holders(s.workers, job) + s.answered[job]
  }

  lemma {:induction false} HoldersUpdate<E, R>(workers: seq<Worker<E, R>>, i: nat, w: Worker<E, R>, job: Job<E>)
    requires i < |workers|
    ensures Holders(workers[i := w], job) + (if Holds(workers[i], job) then 1 else 0) ==
            Holders(workers, job) + if Holds(w, job) then 1 else 0
    ensures ReplyHolders(workers[i := w], job) + (if HoldsReply(workers[i], job) then 1 else 0) ==
            ReplyHolders(workers, job) + if HoldsReply(w, job) then 1 else 0
    ensures Holds(workers[i], job) ==> Holders(workers, job) >= 1
    ensures HoldsReply(workers[i], job) ==> ReplyHolders(workers, job) >= 1
  {
    if i > 0 {
      HoldersUpdate(workers[1..], i - 1, w, job);
      assert workers[i := w][1..] == workers[1..][i - 1 := w];
    } else {
      assert workers[i := w][1..] == workers[1..];
    }
  }

  lemma {:induction false} RepliesAreHeld<E, R>(workers: seq<Worker<E, R>>, job: Job<E>)
    ensures ReplyHolders(workers, job) <= Holders(workers, job)
  {
    if workers != [] {
      RepliesAreHeld(workers[1..], job);
    }
  }

  // ---- the invariant ----------------------------------------------------------------------

  /** Each accepted job is in exactly one place, and nothing else is in any. */
  ghost predicate OnePlaceEach<E(!new), R>(s: System<E, R>) {
    forall job :: Places(s, job) == if job in s.accepted then 1 else 0
  }

  /** A job whose envelope decodes has been executed exactly once when its reply is ready or
      sent; any other job never. */
  ghost predicate AccountedFor<E, Q, R, P>(s: System<E, R>, c: Codec<E, Q, R, P>, job: Job<E>) {
    Executions(s.log, job) ==
    if c.decode(job.envelope).Ok? then ReplyHolders(s.workers, job) + s.answered[job] else 0
  }

  ghost predicate ExecutedOnce<E(!new), Q, R, P>(s: System<E, R>, c: Codec<E, Q, R, P>) {
    forall job :: AccountedFor(s, c, job)
  }

  /** The reply is the one due for the job: the decoding error, or what an execution of this very
      job gave. */
  ghost predicate Due<E, Q, R, P>(log: seq<Execution<E, R>>, c: Codec<E, Q, R, P>, job: Job<E>, reply: Reply<R>) {
    match c.decode(job.envelope)
    case Err(e) => reply == Reply(None, Some(e))
    case Ok(_) => exists k :: 0 <= k < |log| && log[k].job == job && reply == Finish(c, log[k].executed)
  }

  ghost predicate WorkersOwe<E, Q, R, P>(s: System<E, R>, c: Codec<E, Q, R, P>) {
    forall w | 0 <= w < |s.workers| && s.workers[w].Replying? :: Due(s.log, c, s.workers[w].job, s.workers[w].reply)
  }

  /** An accepted job is its submitter's, who is past submitting. */
  ghost predicate AcceptedFromSubmitters<E, R>(s: System<E, R>) {
    forall job | job in s.accepted ::
      job.id in s.submitters && s.submitters[job.id].envelope == job.envelope &&
        s.submitters[job.id].phase != Submitting
  }

  /** A channel is empty and open until its job is answered; then it is closed, and it still
      holds the reply unless the submitter has received it. */
  ghost predicate ChannelInOrder<E, Q, R, P>(s: System<E, R>, c: Codec<E, Q, R, P>, id: nat) {
    id in s.submitters && id in s.channels &&
    var job, channel, phase := Job(id, s.submitters[id].envelope), s.channels[id], s.submitters[id].phase;
    if job in s.answered then
      channel.closed && |channel.content| <= 1 &&
      (channel.content == [] ==> phase.Got?) &&
      (forall reply | reply in channel.content :: Due(s.log, c, job, reply)) &&
      (phase.Got? ==> channel.content == [] && Due(s.log, c, job, phase.reply))
    else
      channel == Channel([], false) && !phase.Got?
  }

  ghost predicate ChannelsInOrder<E, Q, R, P>(s: System<E, R>, c: Codec<E, Q, R, P>) {
    s.channels.Keys == s.submitters.Keys && forall id | id in s.submitters :: ChannelInOrder(s, c, id)
  }

  ghost predicate Inv<E(!new), Q, R, P>(s: System<E, R>, c: Codec<E, Q, R, P>) {
    OnePlaceEach(s) && ExecutedOnce(s, c) && WorkersOwe(s, c) && AcceptedFromSubmitters(s) && ChannelsInOrder(s, c)
  }

  // ---- each step keeps it -----------------------------------------------------------------

  lemma PlaceOf<E(!new), R>(s: System<E, R>, job: Job<E>)
    requires OnePlaceEach(s)
    ensures Places(s, job) == if job in s.accepted then 1 else 0
    ensures job in s.buffer || job in s.answered ==> job in s.accepted
  {
  }

  /** A job with a worker is accepted and not answered yet. */
  lemma WorkersJob<E(!new), R>(s: System<E, R>, w: nat)
    requires OnePlaceEach(s) && w < |s.workers| && !s.workers[w].Idle?
    ensures s.workers[w].job in s.accepted && s.workers[w].job !in s.answered
  {
    PlaceOf(s, s.workers[w].job);
    HoldersUpdate(s.workers, w, Idle, s.workers[w].job);
  }

  /** A step in which one worker hands its job over: the buffer, the worker and the answers
      change together. */
  lemma WorkerStepPlaces<E(!new), Q, R, P>(s: System<E, R>, c: Codec<E, Q, R, P>, step: Step<E, R>, job: Job<E>)
    requires Enabled(s, c, step) && IsWorkerStep(step)
    ensures Places(Next(s, c, step), job) == Places(s, job)
  {
    hide Holders, ReplyHolders, CanSend, Finish;
    HoldersUpdate(s.workers, step.w, Next(s, c, step).workers[step.w], job);
    if step.Take? {
      assert s.buffer == [s.buffer[0]] + s.buffer[1..];
    }
  }

  lemma SubmitterStepPlaces<E(!new), Q, R, P>(s: System<E, R>, c: Codec<E, Q, R, P>, step: Step<E, R>, job: Job<E>)
    requires AcceptedFromSubmitters(s) && Enabled(s, c, step) && !IsWorkerStep(step)
    ensures Places(Next(s, c, step), job) + (if job in s.accepted then 1 else 0) ==
            Places(s, job) + if job in Next(s, c, step).accepted then 1 else 0
  {
    hide Holders, ReplyHolders, CanSend, Finish;
  }

  lemma StepKeepsPlaces<E(!new), Q, R, P>(s: System<E, R>, c: Codec<E, Q, R, P>, step: Step<E, R>)
    requires OnePlaceEach(s) && AcceptedFromSubmitters(s) && Enabled(s, c, step)
    ensures OnePlaceEach(Next(s, c, step))
  {
    hide OnePlaceEach, Places, CanSend, Finish, AcceptedFromSubmitters;
    var after := Next(s, c, step);
    forall job ensures Places(after, job) == if job in after.accepted then 1 else 0 {
      PlaceOf(s, job);
      if IsWorkerStep(step) {
        WorkerStepPlaces(s, c, step, job);
      } else {
        SubmitterStepPlaces(s, c, step, job);
      }
    }
    AllPlaces(after);
  }

  lemma AllPlaces<E(!new), R>(s: System<E, R>)
    requires forall job :: Places(s, job) == if job in s.accepted then 1 else 0
    ensures OnePlaceEach(s)
  {
  }

  lemma ExecutionsOf<E(!new), Q, R, P>(s: System<E, R>, c: Codec<E, Q, R, P>, job: Job<E>)
    requires ExecutedOnce(s, c)
    ensures Executions(s.log, job) ==
            if c.decode(job.envelope).Ok? then ReplyHolders(s.workers, job) + s.answered[job] else 0
  {
    assert AccountedFor(s, c, job);
  }

  lemma OneMoreExecution<E, R>(log: seq<Execution<E, R>>, e: Execution<E, R>, job: Job<E>)
    ensures Executions(log + [e], job) == Executions(log, job) + if e.job == job then 1 else 0
  {
    assert (log + [e])[..|log|] == log;
  }

  lemma StepKeepsExecutionsOf<E(!new), Q, R, P>(s: System<E, R>, c: Codec<E, Q, R, P>, step: Step<E, R>, job: Job<E>)
    requires Enabled(s, c, step) && AccountedFor(s, c, job)
    ensures AccountedFor(Next(s, c, step), c, job)
  {
    hide Holders, ReplyHolders, Executions, CanSend, Finish;
    if step.Take? || step.Refuse? || step.Execute? || step.Send? {
      HoldersUpdate(s.workers, step.w, Next(s, c, step).workers[step.w], job);
    }
    if step.Execute? {
      OneMoreExecution(s.log, Execution(s.workers[step.w].job, step.executed), job);
    }
  }

  lemma StepKeepsExecutions<E(!new), Q, R, P>(s: System<E, R>, c: Codec<E, Q, R, P>, step: Step<E, R>)
    requires ExecutedOnce(s, c) && Enabled(s, c, step)
    ensures ExecutedOnce(Next(s, c, step), c)
  {
    hide AccountedFor, Enabled, Next;
    forall job
      ensures AccountedFor(Next(s, c, step), c, job)
    {
      assert AccountedFor(s, c, job);
      StepKeepsExecutionsOf(s, c, step, job);
    }
  }

  /** A reply stays due as the log grows. */
  lemma DueStays<E, Q, R, P>(log: seq<Execution<E, R>>, more: seq<Execution<E, R>>, c: Codec<E, Q, R, P>, job: Job<E>,
                             reply: Reply<R>)
    requires Due(log, c, job, reply)
    ensures Due(log + more, c, job, reply)
  {
    if c.decode(job.envelope).Ok? {
      var k :| 0 <= k < |log| && log[k].job == job && reply == Finish(c, log[k].executed);
      assert (log + more)[k] == log[k];
    }
  }

  lemma LogGrows<E, Q, R, P>(s: System<E, R>, c: Codec<E, Q, R, P>, step: Step<E, R>, job: Job<E>, reply: Reply<R>)
    requires Enabled(s, c, step) && Due(s.log, c, job, reply)
    ensures Due(Next(s, c, step).log, c, job, reply)
  {
    hide Due, CanSend, Finish;
    if step.Execute? {
      DueStays(s.log, [Execution(s.workers[step.w].job, step.executed)], c, job, reply);
    }
  }

  lemma StepKeepsDebts<E, Q, R, P>(s: System<E, R>, c: Codec<E, Q, R, P>, step: Step<E, R>)
    requires WorkersOwe(s, c) && Enabled(s, c, step)
    ensures WorkersOwe(Next(s, c, step), c)
  {
    hide Due, CanSend, Finish;
    var after := Next(s, c, step);
    forall w | 0 <= w < |after.workers| && after.workers[w].Replying?
      ensures Due(after.log, c, after.workers[w].job, after.workers[w].reply)
    {
      if (step.Refuse? || step.Execute?) && step.w == w {
        NewReplyIsDue(s, c, step);
      } else {
        assert after.workers[w] == s.workers[w];
        LogGrows(s, c, step, s.workers[w].job, s.workers[w].reply);
      }
    }
  }

  lemma NewReplyIsDue<E, Q, R, P>(s: System<E, R>, c: Codec<E, Q, R, P>, step: Step<E, R>)
    requires Enabled(s, c, step) && (step.Refuse? || step.Execute?)
    ensures var after := Next(s, c, step);
            Due(after.log, c, after.workers[step.w].job, after.workers[step.w].reply)
  {
    hide Finish;
    if step.Execute? {
      var after := Next(s, c, step);
      assert after.log[|s.log|] == Execution(s.workers[step.w].job, step.executed);
    }
  }

  lemma ChannelStays<E, Q, R, P>(s: System<E, R>, c: Codec<E, Q, R, P>, step: Step<E, R>, id: nat)
    requires Enabled(s, c, step) && ChannelInOrder(s, c, id)
    requires var after := Next(s, c, step);
      && id in after.submitters && after.submitters[id].envelope == s.submitters[id].envelope
      && id in after.channels && after.channels[id] == s.channels[id]
      && (after.submitters[id].phase.Got? <==> s.submitters[id].phase.Got?)
      && (s.submitters[id].phase.Got? ==> after.submitters[id].phase == s.submitters[id].phase)
      && (Job(id, s.submitters[id].envelope) in after.answered <==> Job(id, s.submitters[id].envelope) in s.answered)
    ensures ChannelInOrder(Next(s, c, step), c, id)
  {
    hide Due, CanSend, Finish, Next, Enabled;
    var job := Job(id, s.submitters[id].envelope);
    if job in s.answered {
      forall reply | reply in s.channels[id].content ensures Due(Next(s, c, step).log, c, job, reply) {
        LogGrows(s, c, step, job, reply);
      }
      if s.submitters[id].phase.Got? {
        LogGrows(s, c, step, job, s.submitters[id].phase.reply);
      }
    }
  }

  /** The submitter's own steps: submit, enqueue, receive, give up. */
  lemma SubmitterKeepsItsChannel<E(!new), Q, R, P>(s: System<E, R>, c: Codec<E, Q, R, P>, step: Step<E, R>)
    requires Inv(s, c) && Enabled(s, c, step) && (step.Submit? || step.Enqueue? || step.Receive? || step.GiveUp?)
    ensures ChannelInOrder(Next(s, c, step), c, step.id)
  {
    hide Due, CanSend, Finish, OnePlaceEach, ExecutedOnce, WorkersOwe, Places;
    if step.Submit? {
      PlaceOf(s, Job(step.id, step.envelope));
      assert Job(step.id, step.envelope) !in s.accepted;
    } else {
      assert ChannelInOrder(s, c, step.id);
      PlaceOf(s, Job(step.id, s.submitters[step.id].envelope));
      if step.Receive? {
        ReceivedInOrder(s, c, step.id);
      }
    }
  }

  lemma SubmitterKeepsChannels<E(!new), Q, R, P>(s: System<E, R>, c: Codec<E, Q, R, P>, step: Step<E, R>)
    requires Inv(s, c) && Enabled(s, c, step) && (step.Submit? || step.Enqueue? || step.Receive? || step.GiveUp?)
    ensures ChannelsInOrder(Next(s, c, step), c)
  {
    hide Due, CanSend, Finish, OnePlaceEach, ExecutedOnce, WorkersOwe, Places, ChannelInOrder;
    SubmitterKeepsItsChannel(s, c, step);
    forall id | id in Next(s, c, step).submitters && id != step.id ensures ChannelInOrder(Next(s, c, step), c, id) {
      assert ChannelInOrder(s, c, id);
      ChannelStays(s, c, step, id);
    }
  }

  lemma ReceivedInOrder<E, Q, R, P>(s: System<E, R>, c: Codec<E, Q, R, P>, id: nat)
    requires ChannelInOrder(s, c, id) && Enabled(s, c, Receive(id))
    ensures ChannelInOrder(Next(s, c, Receive(id)), c, id)
  {
    hide Due, CanSend, Finish;
    assert s.channels[id].content[0] in s.channels[id].content;
  }

  lemma WorkerKeepsChannels<E(!new), Q, R, P>(s: System<E, R>, c: Codec<E, Q, R, P>, step: Step<E, R>)
    requires Inv(s, c) && Enabled(s, c, step) && (step.Take? || step.Refuse? || step.Execute?)
    ensures ChannelsInOrder(Next(s, c, step), c)
  {
    hide Due, CanSend, Finish, OnePlaceEach, ExecutedOnce, WorkersOwe, Places, ChannelInOrder;
    var after := Next(s, c, step);
    forall id | id in after.submitters ensures ChannelInOrder(after, c, id) {
      assert ChannelInOrder(s, c, id);
      ChannelHasSubmitter(s, c, id);
      ChannelStays(s, c, step, id);
    }
  }

  lemma ChannelHasSubmitter<E, Q, R, P>(s: System<E, R>, c: Codec<E, Q, R, P>, id: nat)
    requires ChannelInOrder(s, c, id)
    ensures id in s.submitters && id in s.channels
  {
  }

  lemma SendKeepsChannels<E(!new), Q, R, P>(s: System<E, R>, c: Codec<E, Q, R, P>, w: nat)
    requires Inv(s, c) && Enabled(s, c, Send(w))
    ensures ChannelsInOrder(Next(s, c, Send(w)), c)
  {
    hide Due, Finish, OnePlaceEach, ExecutedOnce, Places;
    var after := Next(s, c, Send(w));
    var job := s.workers[w].job;
    WorkersJob(s, w);
    forall id | id in after.submitters ensures ChannelInOrder(after, c, id) {
      assert ChannelInOrder(s, c, id);
      if id != job.id {
        ChannelStays(s, c, Send(w), id);
      }
    }
  }

  /** Every step keeps the invariant. */
  lemma StepKeepsInv<E(!new), Q, R, P>(s: System<E, R>, c: Codec<E, Q, R, P>, step: Step<E, R>)
    requires Inv(s, c) && Enabled(s, c, step)
    ensures Inv(Next(s, c, step), c)
  {
    hide OnePlaceEach, ExecutedOnce, WorkersOwe, ChannelsInOrder, Due, Finish, CanSend;
    StepKeepsPlaces(s, c, step);
    StepKeepsExecutions(s, c, step);
    StepKeepsDebts(s, c, step);
    if step.Send? {
      SendKeepsChannels(s, c, step.w);
    } else if step.Take? || step.Refuse? || step.Execute? {
      WorkerKeepsChannels(s, c, step);
    } else {
      SubmitterKeepsChannels(s, c, step);
    }
  }

  // ---- whole runs -------------------------------------------------------------------------

  ghost function Start<E, R>(capacity: nat, workers: nat): System<E, R> {
    System(capacity, [], seq(workers, _ => Idle), map[], map[], {}, multiset{}, [])
  }

  ghost function Last<E, R>(steps: seq<Step<E, R>>): Step<E, R>
    requires steps != []
  {
    steps[|steps| - 1]
  }

  ghost predicate Advances<E(!new), Q, R(!new), P>(
    c: Codec<E, Q, R, P>, before: System<E, R>, step: Step<E, R>, after: System<E, R>)
  {
    Enabled(before, c, step) && after == Next(before, c, step)
  }

  ghost predicate Reaches<E(!new), Q, R(!new), P>(
    c: Codec<E, Q, R, P>, start: System<E, R>, steps: seq<Step<E, R>>, s: System<E, R>)
    decreases |steps|
  {
    if steps == [] then s == start
    else exists before :: Advances(c, before, Last(steps), s) && Reaches(c, start, steps[..|steps| - 1], before)
  }

  lemma {:induction false} IdleHoldNothing<E, R>(workers: seq<Worker<E, R>>, job: Job<E>)
    requires forall w | 0 <= w < |workers| :: workers[w] == Idle
    ensures Holders(workers, job) == 0 && ReplyHolders(workers, job) == 0
  {
    if workers != [] {
      assert forall w | 0 <= w < |workers[1..]| :: workers[1..][w] == workers[w + 1];
      IdleHoldNothing(workers[1..], job);
    }
  }

  lemma StartInv<E(!new), Q, R, P>(c: Codec<E, Q, R, P>, capacity: nat, workers: nat)
    ensures Inv(Start<E, R>(capacity, workers), c)
  {
    var s := Start<E, R>(capacity, workers);
    forall job: Job<E> ensures Places(s, job) == 0 && ReplyHolders(s.workers, job) == 0 {
      IdleHoldNothing(s.workers, job);
    }
    assert forall job: Job<E> :: Executions(s.log, job) == 0;
  }

  lemma {:induction false} RunKeepsInv<E(!new), Q, R(!new), P>(
    c: Codec<E, Q, R, P>, capacity: nat, workers: nat, steps: seq<Step<E, R>>, s: System<E, R>)
    requires Reaches(c, Start(capacity, workers), steps, s)
    ensures Inv(s, c)
    decreases |steps|
  {
    hide Inv, Next, Enabled;
    if steps == [] {
      StartInv<E, Q, R, P>(c, capacity, workers);
    } else {
      var before :| Advances(c, before, Last(steps), s) &&
        Reaches(c, Start(capacity, workers), steps[..|steps| - 1], before);
      RunKeepsInv(c, capacity, workers, steps[..|steps| - 1], before);
      StepKeepsInv(before, c, Last(steps));
    }
  }

  /** Under every interleaving: a job is executed at most once and answered at most once; an
      answered job was executed exactly once when its envelope decodes and never when it does not;
      a worker with a reply can always send it. */
  lemma JobsAreServedOnce<E(!new), Q, R(!new), P>(
    c: Codec<E, Q, R, P>, capacity: nat, workers: nat, steps: seq<Step<E, R>>, s: System<E, R>, job: Job<E>)
    requires Reaches(c, Start(capacity, workers), steps, s)
    ensures Places(s, job) == (if job in s.accepted then 1 else 0)
    ensures Executions(s.log, job) <= 1 && s.answered[job] <= 1
    ensures job in s.answered ==> Executions(s.log, job) == if c.decode(job.envelope).Ok? then 1 else 0
    ensures Executions(s.log, job) == 1 ==> job in s.accepted && c.decode(job.envelope).Ok?
    ensures forall w | 0 <= w < |s.workers| && s.workers[w].Replying? :: Enabled(s, c, Send(w))
  {
    hide OnePlaceEach, ExecutedOnce, Reaches, Executions;
    RunKeepsInv(c, capacity, workers, steps, s);
    PlaceOf(s, job);
    ExecutionsOf(s, c, job);
    RepliesAreHeld(s.workers, job);
    forall w | 0 <= w < |s.workers| && s.workers[w].Replying? ensures Enabled(s, c, Send(w)) {
      ReadyReplyCanBeSent(s, c, w);
    }
  }

  lemma StepKeepsShape<E, Q, R, P>(s: System<E, R>, c: Codec<E, Q, R, P>, step: Step<E, R>)
    requires Enabled(s, c, step) && |s.buffer| <= s.capacity
    ensures var after := Next(s, c, step);
            |after.buffer| <= after.capacity == s.capacity && |after.workers| == |s.workers|
  {
    hide CanSend, Finish;
  }

  /** Under every interleaving the buffer never holds more jobs than it was made for; as long as it
      has room a waiting submitter can enqueue, and a new one can always submit. */
  lemma {:induction false} BufferHolds<E(!new), Q, R(!new), P>(
    c: Codec<E, Q, R, P>, capacity: nat, workers: nat, steps: seq<Step<E, R>>, s: System<E, R>)
    requires Reaches(c, Start(capacity, workers), steps, s)
    ensures |s.buffer| <= s.capacity == capacity && |s.workers| == workers
    ensures forall id | id in s.submitters && s.submitters[id].phase == Submitting ::
      Enabled(s, c, Enqueue(id)) <==> |s.buffer| < capacity
    ensures forall id, envelope | id !in s.submitters :: Enabled(s, c, Submit(id, envelope))
    decreases |steps|
  {
    hide Inv, Next, CanSend;
    RunKeepsInv(c, capacity, workers, steps, s);
    ChannelsOfSubmitters(s, c);
    if steps != [] {
      var before :| Advances(c, before, Last(steps), s) &&
        Reaches(c, Start(capacity, workers), steps[..|steps| - 1], before);
      BufferHolds(c, capacity, workers, steps[..|steps| - 1], before);
      StepKeepsShape(before, c, Last(steps));
    }
  }

  lemma ChannelsOfSubmitters<E(!new), Q, R, P>(s: System<E, R>, c: Codec<E, Q, R, P>)
    requires Inv(s, c)
    ensures s.channels.Keys == s.submitters.Keys
  {
  }

  /** A submitter that gave up or got its reply is done: no step changes that or its envelope. */
  lemma DoneSubmittersStay<E, Q, R, P>(s: System<E, R>, c: Codec<E, Q, R, P>, step: Step<E, R>, id: nat)
    requires Enabled(s, c, step) && id in s.submitters
    ensures var after := Next(s, c, step).submitters;
      && id in after && after[id].envelope == s.submitters[id].envelope
      && (s.submitters[id].phase == GaveUp || s.submitters[id].phase.Got? ==> after[id] == s.submitters[id])
      && (step == GiveUp(id) ==> after[id].phase == GaveUp)
      && (step == Receive(id) ==> after[id].phase.Got?)
  {
    hide CanSend, Finish;
  }

  lemma ReadyReplyCanBeSent<E(!new), Q, R, P>(s: System<E, R>, c: Codec<E, Q, R, P>, w: nat)
    requires Inv(s, c) && w < |s.workers| && s.workers[w].Replying?
    ensures Enabled(s, c, Send(w))
  {
    hide OnePlaceEach, ExecutedOnce, Due;
    WorkersJob(s, w);
    assert ChannelInOrder(s, c, s.workers[w].job.id);
  }

  /** A submitter that got a reply got the one due for the envelope it submitted: the decoding
      error, or the outcome of the one execution of its own job. */
  lemma SubmitterGetsItsOwnReply<E(!new), Q, R(!new), P>(
    c: Codec<E, Q, R, P>, capacity: nat, workers: nat, steps: seq<Step<E, R>>, s: System<E, R>, id: nat)
    requires Reaches(c, Start(capacity, workers), steps, s)
    requires id in s.submitters && s.submitters[id].phase.Got?
    ensures Due(s.log, c, Job(id, s.submitters[id].envelope), s.submitters[id].phase.reply)
    ensures Job(id, s.submitters[id].envelope) in s.answered
  {
    hide Reaches, Due;
    RunKeepsInv(c, capacity, workers, steps, s);
    assert ChannelInOrder(s, c, id);
  }

  /** What is delivered for an execution: a failed one as it is; a result that cannot be encoded,
      with the encoding error; otherwise what decoding the encoded result gives. */
  ghost predicate Delivers<E, Q, R, P>(c: Codec<E, Q, R, P>, executed: Reply<R>, reply: Reply<R>) {
    if executed.err.Some? then reply == executed
    else if c.encodeResult(executed.result).Err? then
      reply.result == executed.result && reply.err == Some(c.encodeResult(executed.result).error)
    else reply == c.decodeResult(c.encodeResult(executed.result).value)
  }

  /** The result codec gives back what it encoded. */
  ghost predicate GivesBack<E, Q, R(!new), P>(c: Codec<E, Q, R, P>) {
    forall result :: c.encodeResult(result).Ok? && c.decodeResult(c.encodeResult(result).value) == Reply(result, None)
  }

  lemma FinishDelivers<E, Q, R(!new), P>(c: Codec<E, Q, R, P>, executed: Reply<R>)
    ensures Delivers(c, executed, Finish(c, executed))
    ensures GivesBack(c) ==> Finish(c, executed) == executed
  {
  }

  /** A submitter whose envelope does not decode gets the decoding error alone; any other gets what
      is delivered for an execution of its own job, and with a result codec that gives back what it
      encoded exactly what that execution returned. */
  lemma ReplyIsTheExecutions<E(!new), Q, R(!new), P>(
    c: Codec<E, Q, R, P>, capacity: nat, workers: nat, steps: seq<Step<E, R>>, s: System<E, R>, id: nat)
    requires Reaches(c, Start(capacity, workers), steps, s)
    requires id in s.submitters && s.submitters[id].phase.Got?
    ensures var job, reply := Job(id, s.submitters[id].envelope), s.submitters[id].phase.reply;
      match c.decode(job.envelope)
      case Err(e) => reply == Reply(None, Some(e))
      case Ok(_) =>
        exists k :: 0 <= k < |s.log| && s.log[k].job == job && Delivers(c, s.log[k].executed, reply) &&
                    (GivesBack(c) ==> reply == s.log[k].executed)
  {
    hide Reaches, Finish, Delivers, GivesBack;
    SubmitterGetsItsOwnReply(c, capacity, workers, steps, s, id);
    var job, reply := Job(id, s.submitters[id].envelope), s.submitters[id].phase.reply;
    if c.decode(job.envelope).Ok? {
      var k :| 0 <= k < |s.log| && s.log[k].job == job && reply == Finish(c, s.log[k].executed);
      FinishDelivers(c, s.log[k].executed);
    }
  }

  // ---- progress ---------------------------------------------------------------------------

  ghost function Effort<E, R>(w: Worker<E, R>): nat {
    match w
    case Idle => 0
    case Working(_) => 2
    case Replying(_, _) => 1
  }

  ghost function TotalEffort<E, R>(workers: seq<Worker<E, R>>): nat {
    if workers == [] then 0 else Effort(workers[0]) + TotalEffort(workers[1..])
  }

  /** The worker steps still needed to answer everything accepted. */
  ghost function Pending<E, R>(s: System<E, R>): nat {
    3 * |s.buffer| + TotalEffort(s.workers)
  }

  lemma {:induction false} TotalEffortUpdate<E, R>(workers: seq<Worker<E, R>>, i: nat, w: Worker<E, R>)
    requires i < |workers|
    ensures TotalEffort(workers[i := w]) + Effort(workers[i]) == TotalEffort(workers) + Effort(w)
  {
    if i > 0 {
      TotalEffortUpdate(workers[1..], i - 1, w);
      assert workers[i := w][1..] == workers[1..][i - 1 := w];
    } else {
      assert workers[i := w][1..] == workers[1..];
    }
  }

  ghost predicate IsWorkerStep<E, R>(step: Step<E, R>) {
    step.Take? || step.Refuse? || step.Execute? || step.Send?
  }

  lemma {:induction false} BusyWorker<E, R>(workers: seq<Worker<E, R>>) returns (w: nat)
    requires TotalEffort(workers) > 0
    ensures w < |workers| && !workers[w].Idle?
  {
    if workers[0].Idle? {
      var v := BusyWorker(workers[1..]);
      w := v + 1;
    } else {
      w := 0;
    }
  }

  /** Nothing the submitters do can wedge the workers: each worker step brings the queue one step
      closer to having answered everything, and until then some worker step is possible. */
  lemma WorkersMakeProgress<E(!new), Q, R, P>(s: System<E, R>, c: Codec<E, Q, R, P>, executed: Reply<R>)
    requires Inv(s, c) && |s.workers| > 0
    ensures forall step | Enabled(s, c, step) && IsWorkerStep(step) :: Pending(Next(s, c, step)) == Pending(s) - 1
    ensures Pending(s) > 0 ==> exists step :: Enabled(s, c, step) && IsWorkerStep(step)
    ensures Pending(s) == 0 ==> forall job | job in s.accepted :: job in s.answered
  {
    hide Inv, CanSend, Finish, TotalEffort;
    forall step | Enabled(s, c, step) && IsWorkerStep(step) ensures Pending(Next(s, c, step)) == Pending(s) - 1 {
      TotalEffortUpdate(s.workers, step.w, Next(s, c, step).workers[step.w]);
    }
    if Pending(s) > 0 {
      var step := SomeWorkerStep(s, c, executed);
    } else {
      forall job | job in s.accepted ensures job in s.answered {
        NothingPending(s, c, job);
      }
    }
  }

  lemma SomeWorkerStep<E(!new), Q, R, P>(s: System<E, R>, c: Codec<E, Q, R, P>, executed: Reply<R>)
    returns (step: Step<E, R>)
    requires Inv(s, c) && |s.workers| > 0 && Pending(s) > 0
    ensures Enabled(s, c, step) && IsWorkerStep(step)
  {
    hide Inv, CanSend;
    if TotalEffort(s.workers) > 0 {
      var w := BusyWorker(s.workers);
      if s.workers[w].Replying? {
        ReadyReplyCanBeSent(s, c, w);
        step := Send(w);
      } else if c.decode(s.workers[w].job.envelope).Err? {
        step := Refuse(w);
      } else {
        step := Execute(w, executed);
      }
    } else {
      assert s.workers[0].Idle?;
      step := Take(0);
    }
  }

  lemma {:induction false} RestedHoldNothing<E, R>(workers: seq<Worker<E, R>>, job: Job<E>)
    requires TotalEffort(workers) == 0
    ensures Holders(workers, job) == 0
  {
    if workers != [] {
      RestedHoldNothing(workers[1..], job);
    }
  }

  lemma NothingPending<E(!new), Q, R, P>(s: System<E, R>, c: Codec<E, Q, R, P>, job: Job<E>)
    requires Inv(s, c) && Pending(s) == 0 && job in s.accepted
    ensures job in s.answered
  {
    PlaceOf(s, job);
    RestedHoldNothing(s.workers, job);
  }

  // ---- the queue as it is built -----------------------------------------------------------

  const DEFAULT_BUFFER := 32
  const DEFAULT_WORKERS := 1

  /** The reply a worker computes for an envelope. */
  function Outcome<E, Q, R, P>(c: Codec<E, Q, R, P>, execute: Q -> Reply<R>, envelope: E): Reply<R> {
    match c.decode(envelope)
    case Err(e) => Reply(None, Some(e))
    case Ok(request) => Finish(c, execute(request))
  }

  /** The channel is closed and holds one reply: the decoding error of the envelope, or what is
      delivered for the execution of the decoded request. */
  ghost predicate Answers<E, Q, R, P>(c: Codec<E, Q, R, P>, execute: Q -> Reply<R>, envelope: E, channel: Channel<R>) {
    channel.closed && |channel.content| == 1 &&
    match c.decode(envelope)
    case Err(e) => channel.content[0] == Reply(None, Some(e))
    case Ok(request) => Delivers(c, execute(request), channel.content[0])
  }

  lemma OutcomeAnswers<E, Q, R(!new), P>(c: Codec<E, Q, R, P>, execute: Q -> Reply<R>, envelope: E)
    ensures Answers(c, execute, envelope, Channel([Outcome(c, execute, envelope)], true))
    ensures GivesBack(c) && c.decode(envelope).Ok? ==>
            Outcome(c, execute, envelope) == execute(c.decode(envelope).value)
  {
    hide Finish, Delivers, GivesBack;
    if c.decode(envelope).Ok? {
      FinishDelivers(c, execute(c.decode(envelope).value));
    }
  }

  ghost predicate Open<E, R>(jobs: seq<Job<E>>, channels: map<nat, Channel<R>>) {
    && (forall i | 0 <= i < |jobs| :: jobs[i].id in channels && channels[jobs[i].id] == Channel([], false))
    && (forall i, j | 0 <= i < j < |jobs| :: jobs[i].id != jobs[j].id)
  }

  /** The channels after the first `done` of the jobs were answered. */
  ghost predicate Served<E(!new), Q, R, P>(
    c: Codec<E, Q, R, P>, execute: Q -> Reply<R>, all: seq<Job<E>>, before: map<nat, Channel<R>>, done: nat,
    channels: map<nat, Channel<R>>)
    requires done <= |all|
  {
    && Open(all, before) && channels.Keys == before.Keys
    && (forall i | 0 <= i < done ::
          all[i].id in channels && channels[all[i].id] == Channel([Outcome(c, execute, all[i].envelope)], true))
    && (forall id | id in before && (forall i | 0 <= i < done :: all[i].id != id) :: channels[id] == before[id])
  }

  lemma NothingServed<E(!new), Q, R, P>(
    c: Codec<E, Q, R, P>, execute: Q -> Reply<R>, all: seq<Job<E>>, before: map<nat, Channel<R>>)
    requires Open(all, before)
    ensures Served(c, execute, all, before, 0, before)
  {
    hide Outcome;
  }

  lemma ServeOne<E(!new), Q, R, P>(
    c: Codec<E, Q, R, P>, execute: Q -> Reply<R>, all: seq<Job<E>>, before: map<nat, Channel<R>>, done: nat,
    channels: map<nat, Channel<R>>)
    requires done < |all| && Served(c, execute, all, before, done, channels)
    ensures var reply := Outcome(c, execute, all[done].envelope);
            Served(c, execute, all, before, done + 1, channels[all[done].id := Channel([reply], true)])
  {
    hide Outcome;
    var after := channels[all[done].id := Channel([Outcome(c, execute, all[done].envelope)], true)];
    assert all[done].id in before;
    forall i | 0 <= i < done + 1
      ensures all[i].id in after && after[all[i].id] == Channel([Outcome(c, execute, all[i].envelope)], true)
    {
      assert i < done ==> all[i].id != all[done].id;
    }
    assert after.Keys == before.Keys;
    forall id | id in before && (forall i | 0 <= i < done + 1 :: all[i].id != id) ensures after[id] == before[id] {
      assert all[done].id != id;
    }
  }

  lemma AllServed<E(!new), Q, R, P>(
    c: Codec<E, Q, R, P>, execute: Q -> Reply<R>, all: seq<Job<E>>, before: map<nat, Channel<R>>, done: nat,
    channels: map<nat, Channel<R>>)
    requires done == |all| && Served(c, execute, all, before, done, channels)
    ensures channels.Keys == before.Keys
    ensures forall i | 0 <= i < |all| ::
      all[i].id in channels && channels[all[i].id] == Channel([Outcome(c, execute, all[i].envelope)], true)
    ensures forall id | id in before && (forall i | 0 <= i < |all| :: all[i].id != id) :: channels[id] == before[id]
  {
    hide Outcome, Open;
  }

  lemma AllAnswered<E(!new), Q, R(!new), P>(
    c: Codec<E, Q, R, P>, execute: Q -> Reply<R>, all: seq<Job<E>>, channels: map<nat, Channel<R>>)
    requires forall i | 0 <= i < |all| ::
      all[i].id in channels && channels[all[i].id] == Channel([Outcome(c, execute, all[i].envelope)], true)
    ensures forall i | 0 <= i < |all| :: Answers(c, execute, all[i].envelope, channels[all[i].id])
    ensures GivesBack(c) ==>
      forall i | 0 <= i < |all| && c.decode(all[i].envelope).Ok? ::
        channels[all[i].id] == Channel([execute(c.decode(all[i].envelope).value)], true)
  {
    hide Outcome, Answers, GivesBack;
    forall i | 0 <= i < |all|
      ensures Answers(c, execute, all[i].envelope, channels[all[i].id])
      ensures GivesBack(c) && c.decode(all[i].envelope).Ok? ==>
              Outcome(c, execute, all[i].envelope) == execute(c.decode(all[i].envelope).value)
    {
      OutcomeAnswers(c, execute, all[i].envelope);
    }
  }

  lemma IsOutcome<E, Q, R, P>(c: Codec<E, Q, R, P>, execute: Q -> Reply<R>, envelope: E, reply: Reply<R>)
    requires match c.decode(envelope)
             case Err(e) => reply == Reply(None, Some(e))
             case Ok(request) => reply == Finish(c, execute(request))
    ensures reply == Outcome(c, execute, envelope)
  {
    hide Finish;
  }

  /** The queue with one worker left to empty it, as `Close` leaves it. */
  class InProcessRunQueue<E(!new), Q, R(!new), P> {
    const codec: Codec<E, Q, R, P>
    const execute: Q -> Reply<R>
    const capacity: nat
    const workers: nat
    var jobs: seq<Job<E>>
    var channels: map<nat, Channel<R>>
    var next: nat

    constructor (codec: Codec<E, Q, R, P>, execute: Q -> Reply<R>, buffer: int, workers: int)
      ensures Valid() && this.codec == codec && this.execute == execute && jobs == []
      ensures capacity == (if buffer > 0 then buffer else DEFAULT_BUFFER)
      ensures this.workers == if workers > 0 then workers else DEFAULT_WORKERS
    {
      this.codec, this.execute := codec, execute;
      capacity := if buffer > 0 then buffer else DEFAULT_BUFFER;
      this.workers := if workers > 0 then workers else DEFAULT_WORKERS;
      jobs, channels, next := [], map[], 0;
    }

    ghost predicate Valid()
      reads this
    {
      && 0 < capacity && 0 < workers && |jobs| <= capacity
      && Open(jobs, channels) && forall id | id in channels :: id < next
    }

    /** The sending half of a submit: a full buffer makes the submitter wait. */
    method Submit(envelope: E) returns (id: nat, accepted: bool)
      requires Valid()
      modifies this
      ensures Valid() && accepted == (|old(jobs)| < capacity)
      ensures id !in old(channels) && channels == old(channels)[id := Channel([], false)]
      ensures jobs == if accepted then old(jobs) + [Job(id, envelope)] else old(jobs)
    {
      id := next;
      next := next + 1;
      channels := channels[id := Channel([], false)];
      if |jobs| == capacity {
        return id, false;
      }
      jobs := jobs + [Job(id, envelope)];
      accepted := true;
    }

    /** A worker's loop over a closed channel: it answers every job with the outcome of its own
        envelope, closes that job's channel and touches no other. */
    method Run()
      requires Valid()
      modifies this
      ensures Valid() && jobs == []
      ensures channels.Keys == old(channels).Keys
      ensures forall i | 0 <= i < |old(jobs)| ::
        old(jobs)[i].id in channels &&
        channels[old(jobs)[i].id] == Channel([Outcome(codec, execute, old(jobs)[i].envelope)], true)
      ensures forall i | 0 <= i < |old(jobs)| ::
        Answers(codec, execute, old(jobs)[i].envelope, channels[old(jobs)[i].id])
      ensures GivesBack(codec) ==>
        forall i | 0 <= i < |old(jobs)| && codec.decode(old(jobs)[i].envelope).Ok? ::
          channels[old(jobs)[i].id] == Channel([execute(codec.decode(old(jobs)[i].envelope).value)], true)
      ensures forall id | id in old(channels) && (forall i | 0 <= i < |old(jobs)| :: old(jobs)[i].id != id) ::
        channels[id] == old(channels)[id]
    {
      hide Finish, Outcome, Served, Answers, GivesBack, Delivers;
      ghost var all, before := jobs, channels;
      ghost var done := 0;
      NothingServed(codec, execute, all, before);
      while |jobs| > 0
        invariant done <= |all| && jobs == all[done..] && |jobs| <= capacity && next == old(next)
        invariant Served(codec, execute, all, before, done, channels)
        decreases |jobs|
      {
        var job := jobs[0];
        assert job == all[done];
        jobs := jobs[1..];
        ServeOne(codec, execute, all, before, done, channels);
        var reply := Reply(None, None);
        var decoded := codec.decode(job.envelope);
        match decoded {
          case Err(e) => reply := Reply(None, Some(e));
          case Ok(request) => reply := Finish(codec, execute(request));
        }
        IsOutcome(codec, execute, job.envelope, reply);
        channels := channels[job.id := Channel([reply], true)];
        done := done + 1;
      }
      AllServed(codec, execute, all, before, done, channels);
      AllAnswered(codec, execute, all, channels);
    }
  }
}
