/** Prefetching as a state machine: one worker, any number of reads and stops, every interleaving. */
module PrefetchMachine {
  import opened Results
  import opened DecoderPrefetch

  datatype Call =
    | Reading(asleep: bool)
    | Stopping
    | Testing
    | Joining
    | Discarding
    | Got(outcome: Outcome)
    | Refused
    | Stopped

  datatype Worker = Waiting(asleep: bool) | Decoding | Exited

  /**
   * The shared state and its threads, with the record of the run: what the backend answered, what
   * reads delivered, in order, and whether a stop has emptied the queue.
   */
  datatype State = State(
    prefetch: Prefetch,
    calls: seq<Call>,
    worker: Worker,
    answers: seq<Outcome>,
    delivered: seq<Outcome>,
    discarded: bool)

  /** `lucky` is the reader a single notification wakes. */
  datatype Event =
    | Start(entry: Call)
    | Advance(call: nat)
    | Admitting
    | Answering(outcome: Outcome, lucky: nat)
    | Throwing
    | Nudge(sleeper: nat)
    | NudgeWorker

  predicate IsEntry(c: Call) {
    c == Reading(false) || c == Stopping
  }

  predicate Asleep(c: Call) {
    c.Reading? && c.asleep
  }

  predicate Done(c: Call) {
    c.Got? || c.Refused? || c.Stopped?
  }

  /** A stop between its two locked regions. */
  predicate InJoin(c: Call) {
    c.Testing? || c.Joining?
  }

  /**
   * No two stops are in the unlocked part of a stop while the worker can be joined. Where they are,
   * their joins have no meaning in the source, and here none of them returns.
   */
  predicate JoinsAlone(s: State) {
    s.prefetch.joinable ==>
      forall j, k :: 0 <= j < k < |s.calls| ==> !InJoin(s.calls[j]) || !InJoin(s.calls[k])
  }

  predicate Ready(s: State, c: Call) {
    !Done(c) && !Asleep(c) && (c.Joining? ==> s.worker.Exited? && JoinsAlone(s))
  }

  predicate WorkerReady(s: State) {
    s.worker == Waiting(false) || s.worker == Decoding
  }

  function Woken(c: Call): Call {
    if Asleep(c) then Reading(false) else c
  }

  function WakeReaders(calls: seq<Call>): (r: seq<Call>)
    ensures |r| == |calls|
    ensures forall k :: 0 <= k < |calls| ==> r[k] == Woken(calls[k])
  {
    seq(|calls|, k requires 0 <= k < |calls| => Woken(calls[k]))
  }

  /** The calls after a notification; the worker is the only waiter on the other condition. */
  function Rouse(calls: seq<Call>, wake: Wake, lucky: nat): (r: seq<Call>)
    ensures |r| == |calls|
  {
    match wake
    case WakeAll(conditions) => if NotEmpty in conditions then WakeReaders(calls) else calls
    case WakeOne(on) => if on == NotEmpty && lucky < |calls| then calls[lucky := Woken(calls[lucky])] else calls
    case WakeNone => calls
  }

  function RouseWorker(w: Worker, wake: Wake): Worker {
    if w.Waiting? && ((wake.WakeOne? && wake.on == NotFull) || (wake.WakeAll? && NotFull in wake.conditions))
    then Waiting(false) else w
  }

  function Initial(capacity: nat): State {
    State(Fresh(capacity), [], Waiting(false), [], [], false)
  }

  /** A notification of one waiter reaches a sleeping reader if there is any. */
  predicate FairLuck(s: State, lucky: nat) {
    (exists k :: 0 <= k < |s.calls| && Asleep(s.calls[k])) ==> lucky < |s.calls| && Asleep(s.calls[lucky])
  }

  predicate Enabled(s: State, e: Event) {
    match e
    case Start(entry) => IsEntry(entry)
    case Advance(call) => call < |s.calls| && Ready(s, s.calls[call])
    case Admitting => s.worker == Waiting(false)
    case Answering(outcome, lucky) => s.worker == Decoding && outcome != Ended(OK) && FairLuck(s, lucky)
    case Throwing => s.worker == Decoding
    case Nudge(sleeper) => sleeper < |s.calls| && Asleep(s.calls[sleeper])
    case NudgeWorker => s.worker == Waiting(true)
  }

  /** A call's next section. */
  function Advanced(s: State, call: nat): State
    requires call < |s.calls|
  {
    match s.calls[call]
    case Reading(_) =>
      var o := Read(s.prefetch);
      var next := match o.verdict
                  case Deliver(outcome) => Got(outcome)
                  case Refuse => Refused
                  case _ => Reading(true);
      s.(prefetch := o.prefetch, calls := s.calls[call := next], worker := RouseWorker(s.worker, o.wake),
         delivered := s.delivered + if o.verdict.Deliver? then [o.verdict.outcome] else [])
    case Stopping =>
      var o := Stop(s.prefetch);
      s.(prefetch := o.prefetch, calls := Rouse(s.calls[call := Testing], o.wake, 0),
         worker := RouseWorker(s.worker, o.wake))
    case Testing =>
      s.(calls := s.calls[call := if TestJoin(s.prefetch).verdict == Proceed then Joining else Discarding])
    case Joining => s.(prefetch := Join(s.prefetch), calls := s.calls[call := Discarding])
    case Discarding =>
      s.(prefetch := Discard(s.prefetch), calls := s.calls[call := Stopped], discarded := true)
    case _ => s
  }

  function Admitted(s: State): State {
    var o := Admit(s.prefetch);
    s.(worker := match o.verdict
                 case Sleep => Waiting(true)
                 case Proceed => Decoding
                 case _ => Exited)
  }

  function Answered(s: State, outcome: Outcome, lucky: nat): State {
    var o := Store(s.prefetch, outcome);
    s.(prefetch := o.prefetch, calls := Rouse(s.calls, o.wake, lucky), answers := s.answers + [outcome],
       worker := if o.verdict == Proceed then Waiting(false) else Exited)
  }

  function Thrown(s: State): State {
    var o := Fail(s.prefetch);
    s.(prefetch := o.prefetch, calls := Rouse(s.calls, o.wake, 0), answers := s.answers + [Ended(INTERNAL)],
       worker := Exited)
  }

  /** One event; an event that is not enabled changes nothing. */
  function Next(s: State, e: Event): State {
    if !Enabled(s, e) then s
    else
      match e
      case Start(entry) => s.(calls := s.calls + [entry])
      case Advance(call) => Advanced(s, call)
      case Admitting => Admitted(s)
      case Answering(outcome, lucky) => Answered(s, outcome, lucky)
      case Throwing => Thrown(s)
      case Nudge(sleeper) => s.(calls := s.calls[sleeper := Reading(false)])
      case NudgeWorker => s.(worker := Waiting(false))
  }

  function Final(s: State, events: seq<Event>): State {
    if events == [] then s else Next(Final(s, events[..|events| - 1]), events[|events| - 1])
  }

  // ---------- What every step keeps ----------

  ghost predicate Bounds(p: Prefetch, w: Worker) {
    && 0 < p.capacity
    && |p.queue| <= p.capacity && p.peak <= p.capacity
    && (w == Decoding && !p.stopRequested ==> |p.queue| < p.capacity)
    && (w == Exited ==> p.stopRequested || p.workerFinished)
    && (p.workerFinished ==> w == Exited)
    && (w == Waiting(true) ==> !p.stopRequested && |p.queue| >= p.capacity)
    && (!p.joinable ==> w == Exited)
  }

  /** The answers are what was delivered, then what is queued, then at most one more. */
  ghost predicate Stream(s: State) {
    var p := s.prefetch;
    && (s.discarded ==> p.stopRequested && p.queue == [] && s.worker == Exited)
    && p.completed <= |s.delivered| && p.completed <= p.accepted <= |s.answers|
    && (!s.discarded ==> p.accepted == p.completed + |p.queue|)
    && (forall k :: 0 <= k < p.completed ==> s.delivered[k] == s.answers[k])
    && (forall k :: 0 <= k < p.accepted ==> s.answers[k].Frame?)
    && (!s.discarded ==> forall k :: p.completed <= k < p.accepted ==>
          s.answers[k] == Frame(p.queue[k - p.completed]))
    && (s.worker != Exited ==> |s.answers| == p.accepted)
    && (p.workerFinished ==> |s.answers| == p.accepted + 1 && s.answers[p.accepted] == Ended(p.workerResult))
    && (p.completed < |s.delivered| ==> p.workerFinished && p.completed == p.accepted)
    && (forall k :: p.completed <= k < |s.delivered| ==> s.delivered[k] == Ended(p.workerResult))
  }

  function AwakeRank(c: Call): nat {
    if c == Reading(false) then 1 else 0
  }

  function Awakes(calls: seq<Call>): nat {
    if calls == [] then 0 else Awakes(calls[..|calls| - 1]) + AwakeRank(calls[|calls| - 1])
  }

  ghost predicate SomeAsleep(calls: seq<Call>) {
    exists k :: 0 <= k < |calls| && Asleep(calls[k])
  }

  /** No wakeup is lost: while a reader sleeps, every queued frame has an awake reader coming for it. */
  ghost predicate Parked(p: Prefetch, calls: seq<Call>) {
    SomeAsleep(calls) ==> !p.stopRequested && !p.workerFinished && |p.queue| <= Awakes(calls)
  }

  /** Joining a worker comes after asking it to stop, and discarding the queue after the join. */
  ghost predicate Stops(s: State) {
    forall k :: 0 <= k < |s.calls| ==> StopOk(s, s.calls[k])
  }

  ghost predicate StopOk(s: State, c: Call) {
    && (InJoin(c) || c.Discarding? || c.Stopped? ==> s.prefetch.stopRequested)
    && (c.Discarding? ==> !s.prefetch.joinable)
    && (c.Stopped? ==> s.discarded)
  }

  ghost predicate Inv(s: State) {
    Bounds(s.prefetch, s.worker) && Stream(s) && Parked(s.prefetch, s.calls) && Stops(s)
  }

  lemma {:induction false} AwakesUpdate(calls: seq<Call>, k: nat, c: Call)
    requires k < |calls|
    ensures Awakes(calls[k := c]) == Awakes(calls) - AwakeRank(calls[k]) + AwakeRank(c)
  {
    var n := |calls| - 1;
    if k < n {
      AwakesUpdate(calls[..n], k, c);
      assert calls[k := c][..n] == calls[..n][k := c];
    } else {
      assert calls[k := c][..n] == calls[..n];
    }
  }

  lemma AwakesAppend(calls: seq<Call>, c: Call)
    ensures Awakes(calls + [c]) == Awakes(calls) + AwakeRank(c)
  {
    assert (calls + [c])[..|calls|] == calls;
  }

  lemma InvRead(s: State, call: nat)
    requires Inv(s) && call < |s.calls| && s.calls[call] == Reading(false)
    ensures Inv(Advanced(s, call))
  {
    hide Inv;
    ReadStream(s, call);
    ReadParked(s, call);
    ReadStops(s, call);
    hide Advanced;
    assert Inv(Advanced(s, call)) by {
      InvParts(Advanced(s, call));
    }
  }

  lemma InvParts(s: State)
    requires Bounds(s.prefetch, s.worker) && Stream(s) && Parked(s.prefetch, s.calls) && Stops(s)
    ensures Inv(s)
  {
  }

  lemma ReadStream(s: State, call: nat)
    requires Inv(s) && call < |s.calls| && s.calls[call] == Reading(false)
    ensures var t := Advanced(s, call); Bounds(t.prefetch, t.worker) && Stream(t)
  {
    hide Parked, Stops;
  }

  lemma ReadParked(s: State, call: nat)
    requires Inv(s) && call < |s.calls| && s.calls[call] == Reading(false)
    ensures Parked(Advanced(s, call).prefetch, Advanced(s, call).calls)
  {
    hide Bounds, Stream, Stops;
    var t := Advanced(s, call);
    AwakesUpdate(s.calls, call, t.calls[call]);
    assert SomeAsleep(t.calls) ==> SomeAsleep(s.calls) || !ReadReady(s.prefetch);
  }

  lemma ReadStops(s: State, call: nat)
    requires Inv(s) && call < |s.calls| && s.calls[call] == Reading(false)
    ensures Stops(Advanced(s, call))
  {
    hide Bounds, Stream, Parked;
  }

  lemma InvStopped(s: State, call: nat)
    requires Inv(s) && call < |s.calls| && !s.calls[call].Reading? && Ready(s, s.calls[call])
    ensures Inv(Advanced(s, call))
  {
    match s.calls[call]
    case Stopping => InvStopping(s, call);
    case Testing => InvTested(s, call);
    case _ => InvJoined(s, call);
  }

  lemma InvStopping(s: State, call: nat)
    requires Inv(s) && call < |s.calls| && s.calls[call].Stopping?
    ensures Inv(Advanced(s, call))
  {
  }

  lemma InvTested(s: State, call: nat)
    requires Inv(s) && call < |s.calls| && s.calls[call].Testing?
    ensures Inv(Advanced(s, call))
  {
    var t := Advanced(s, call);
    AwakesUpdate(s.calls, call, t.calls[call]);
    assert StopOk(s, s.calls[call]);
    assert SomeAsleep(t.calls) ==> SomeAsleep(s.calls);
    hide Stream, Bounds;
    InvCalls(s, t);
  }

  lemma InvJoined(s: State, call: nat)
    requires Inv(s) && call < |s.calls| && (s.calls[call].Joining? || s.calls[call].Discarding?)
    requires Ready(s, s.calls[call])
    ensures Inv(Advanced(s, call))
  {
    hide JoinsAlone;
  }

  lemma InvAnswered(s: State, outcome: Outcome, lucky: nat)
    requires Inv(s) && s.worker == Decoding && FairLuck(s, lucky)
    ensures Inv(Answered(s, outcome, lucky))
  {
    var t := Answered(s, outcome, lucky);
    if lucky < |s.calls| {
      AwakesUpdate(s.calls, lucky, Woken(s.calls[lucky]));
    }
    if outcome.Frame? && !s.prefetch.stopRequested {
      assert SomeAsleep(t.calls) ==> SomeAsleep(s.calls);
    }
  }

  lemma InvThrown(s: State)
    requires Inv(s) && s.worker == Decoding
    ensures Inv(Thrown(s))
  {
  }

  lemma SameStream(s: State, t: State)
    requires t == s.(calls := t.calls)
    ensures Stream(t) == Stream(s)
  {
  }

  /** A change of the calls alone. */
  lemma InvCalls(s: State, t: State)
    requires Inv(s) && t == s.(calls := t.calls)
    requires Parked(t.prefetch, t.calls) && Stops(t)
    ensures Inv(t)
  {
    hide Stream, Bounds, Parked, Stops;
    SameStream(s, t);
  }

  lemma ParkedStarted(p: Prefetch, calls: seq<Call>, entry: Call)
    requires Parked(p, calls) && !Asleep(entry)
    ensures Parked(p, calls + [entry])
  {
    AwakesAppend(calls, entry);
    if k :| 0 <= k < |calls + [entry]| && Asleep((calls + [entry])[k]) {
      assert Asleep(calls[k]);
    }
  }

  lemma InvStarted(s: State, entry: Call)
    requires Inv(s) && IsEntry(entry)
    ensures Inv(s.(calls := s.calls + [entry]))
  {
    var t := s.(calls := s.calls + [entry]);
    ParkedStarted(s.prefetch, s.calls, entry);
    hide Stream, Bounds, Parked;
    forall k | 0 <= k < |t.calls|
      ensures StopOk(t, t.calls[k])
    {
      assert k < |s.calls| ==> StopOk(s, s.calls[k]);
    }
    InvCalls(s, t);
  }

  lemma ParkedNudged(p: Prefetch, calls: seq<Call>, sleeper: nat)
    requires Parked(p, calls) && sleeper < |calls| && Asleep(calls[sleeper])
    ensures Parked(p, calls[sleeper := Reading(false)])
  {
    AwakesUpdate(calls, sleeper, Reading(false));
  }

  lemma InvNudged(s: State, sleeper: nat)
    requires Inv(s) && sleeper < |s.calls| && Asleep(s.calls[sleeper])
    ensures Inv(s.(calls := s.calls[sleeper := Reading(false)]))
  {
    var t := s.(calls := s.calls[sleeper := Reading(false)]);
    ParkedNudged(s.prefetch, s.calls, sleeper);
    hide Stream, Bounds, Parked;
    forall k | 0 <= k < |t.calls|
      ensures StopOk(t, t.calls[k])
    {
      assert StopOk(s, s.calls[k]);
    }
    InvCalls(s, t);
  }

  lemma InvWaited(s: State)
    requires Inv(s) && s.worker.Waiting?
    ensures Inv(s.(worker := Waiting(false)))
    ensures s.worker == Waiting(false) ==> Inv(Admitted(s))
  {
  }

  lemma InvNext(s: State, e: Event)
    requires Inv(s)
    ensures Inv(Next(s, e))
  {
    hide Inv, JoinsAlone;
    if Enabled(s, e) {
      match e
      case Start(entry) => InvStarted(s, entry);
      case Advance(call) =>
        if s.calls[call].Reading? {
          InvRead(s, call);
        } else {
          InvStopped(s, call);
        }
      case Admitting => InvWaited(s);
      case Answering(outcome, lucky) => InvAnswered(s, outcome, lucky);
      case Throwing => InvThrown(s);
      case Nudge(sleeper) => InvNudged(s, sleeper);
      case NudgeWorker => InvWaited(s);
    }
  }

  lemma {:induction false} InvFinal(capacity: nat, events: seq<Event>)
    requires 0 < capacity
    ensures Inv(Final(Initial(capacity), events))
  {
    if events != [] {
      InvFinal(capacity, events[..|events| - 1]);
      InvNext(Final(Initial(capacity), events[..|events| - 1]), events[|events| - 1]);
    }
  }

  // ---------- Prefetching against synchronous reading ----------

  /** What the backend answers to each read in turn; a read that throws answers an internal error. */
  type Backend = nat -> Outcome

  /** A synchronous read asks the backend once, whatever it answered before. */
  function SyncRead(backend: Backend, k: nat): Outcome {
    backend(k)
  }

  /** The backend read that the k-th prefetched read shows: none after the first that is not a frame. */
  function Shown(backend: Backend, k: nat): nat {
    if k == 0 then 0
    else
      var before := Shown(backend, k - 1);
      if backend(before).Frame? then k else before
  }

  ghost predicate Follows(answers: seq<Outcome>, backend: Backend) {
    forall k :: 0 <= k < |answers| ==> answers[k] == backend(k)
  }

  lemma {:induction false} ShownIs(backend: Backend, n: nat, k: nat)
    requires forall j: nat :: j < n ==> backend(j).Frame?
    ensures k <= n ==> Shown(backend, k) == k
    ensures n <= k && !backend(n).Frame? ==> Shown(backend, k) == n
  {
    if k != 0 {
      ShownIs(backend, n, k - 1);
    }
  }

  /**
   * In every interleaving the k-th delivered result is the backend's k-th answer, or its first one that
   * is not a frame if that came before; the queue stays within its capacity although the test and the
   * push are separate sections, and until a stop every accepted frame is delivered or queued.
   */
  lemma PrefetchDelivers(capacity: nat, events: seq<Event>, backend: Backend)
    requires 0 < capacity && Follows(Final(Initial(capacity), events).answers, backend)
    ensures var s := Final(Initial(capacity), events);
            && (forall k :: 0 <= k < |s.delivered| ==> s.delivered[k] == backend(Shown(backend, k)))
            && |s.prefetch.queue| <= s.prefetch.capacity
            && (!s.discarded ==> s.prefetch.accepted == s.prefetch.completed + |s.prefetch.queue|)
  {
    var s := Final(Initial(capacity), events);
    InvFinal(capacity, events);
    forall k | 0 <= k < |s.delivered|
      ensures s.delivered[k] == backend(Shown(backend, k))
    {
      ShownIs(backend, s.prefetch.accepted, k);
    }
  }

  /** The backend repeats its first answer that is not a frame. */
  ghost predicate Repeats(backend: Backend) {
    forall j: nat, k: nat :: j <= k && !backend(j).Frame? ==> backend(k) == backend(j)
  }

  /** No answer pretends to be a result without a frame. */
  ghost predicate Proper(backend: Backend) {
    forall k: nat :: backend(k) != Ended(OK)
  }

  ghost predicate LikeSync(delivered: seq<Outcome>, backend: Backend) {
    forall k :: 0 <= k < |delivered| ==> delivered[k] == SyncRead(backend, k)
  }

  ghost predicate AlwaysLikeSync(capacity: nat, backend: Backend) {
    forall events :: Follows(Final(Initial(capacity), events).answers, backend) ==>
      LikeSync(Final(Initial(capacity), events).delivered, backend)
  }

  /** Prefetched reads return what synchronous reads return exactly if the backend repeats its ending. */
  lemma RefinesSyncIff(capacity: nat, backend: Backend)
    requires 0 < capacity && Proper(backend)
    ensures AlwaysLikeSync(capacity, backend) <==> Repeats(backend)
  {
    if Repeats(backend) {
      forall events | Follows(Final(Initial(capacity), events).answers, backend)
        ensures LikeSync(Final(Initial(capacity), events).delivered, backend)
      {
        PrefetchDelivers(capacity, events, backend);
        forall k: nat
          ensures backend(Shown(backend, k)) == backend(k)
        {
          ShownStops(backend, k);
        }
      }
    }
    if AlwaysLikeSync(capacity, backend) {
      forall j: nat, k: nat | j <= k && !backend(j).Frame?
        ensures backend(k) == backend(j)
      {
        var events := Driven(capacity, backend, k + 1);
        PrefetchDelivers(capacity, events, backend);
        ShownFrom(backend, j, k);
      }
    }
  }

  lemma {:induction false} ShownStops(backend: Backend, k: nat)
    ensures Shown(backend, k) == k || (Shown(backend, k) < k && !backend(Shown(backend, k)).Frame?)
  {
    if k != 0 {
      ShownStops(backend, k - 1);
    }
  }

  lemma {:induction false} ShownFrom(backend: Backend, j: nat, k: nat)
    requires j <= k && !backend(j).Frame?
    ensures Shown(backend, k) == Shown(backend, j)
    decreases k
  {
    ShownStops(backend, j);
    if j < k {
      ShownFrom(backend, j, k - 1);
    }
  }

  // ---------- A run that delivers any number of results ----------

  /** After `n` reads that met no other thread. */
  ghost predicate Calm(s: State, n: nat, backend: Backend) {
    var p := s.prefetch;
    && 0 < p.capacity && p.queue == [] && !p.stopRequested
    && |s.calls| == n == |s.delivered| && (forall k :: 0 <= k < n ==> s.calls[k].Got?)
    && Follows(s.answers, backend)
    && (s.worker == Waiting(false) || (s.worker == Exited && p.workerFinished))
    && (s.worker == Waiting(false) ==> |s.answers| == n && !p.workerFinished)
  }

  /** The events of one more read. */
  function OneRead(s: State, n: nat, backend: Backend): seq<Event> {
    if s.worker == Exited then [Start(Reading(false)), Advance(n)]
    else [Start(Reading(false)), Admitting, Answering(backend(n), 0), Advance(n)]
  }

  function Run(s: State, events: seq<Event>): State
    decreases |events|
  {
    if events == [] then s else Run(Next(s, events[0]), events[1..])
  }

  lemma {:induction false} FinalThenRun(s: State, a: seq<Event>, b: seq<Event>)
    ensures Final(s, a + b) == Run(Final(s, a), b)
    decreases |b|
  {
    if b == [] {
      assert a + b == a;
    } else {
      assert a + b == (a + [b[0]]) + b[1..];
      assert (a + [b[0]])[..|a|] == a;
      FinalThenRun(s, a + [b[0]], b[1..]);
    }
  }

  lemma ReadAnswered(s: State, n: nat, backend: Backend)
    requires Calm(s, n, backend) && s.worker == Waiting(false) && Proper(backend)
    ensures Calm(Run(s, OneRead(s, n, backend)), n + 1, backend)
  {
    var s1 := Next(s, Start(Reading(false)));
    var s2 := Next(s1, Admitting);
    assert s2.worker == Decoding && s2.calls == s1.calls;
    var s3 := Next(s2, Answering(backend(n), 0));
    assert FairLuck(s2, 0);
    assert s3.calls[n] == Reading(false) && s3.answers == s.answers + [backend(n)];
    var s4 := Next(s3, Advance(n));
    RunFour(s, Start(Reading(false)), Admitting, Answering(backend(n), 0), Advance(n));
  }

  lemma RunFour(s: State, a: Event, b: Event, c: Event, d: Event)
    ensures Run(s, [a, b, c, d]) == Next(Next(Next(Next(s, a), b), c), d)
  {
    var s1, s2 := Next(s, a), Next(Next(s, a), b);
    assert [a, b, c, d][1..] == [b, c, d] && [b, c, d][1..] == [c, d] && [c, d][1..] == [d] && [d][1..] == [];
    hide Next;
    assert Run(s, [a, b, c, d]) == Run(s1, [b, c, d]);
    assert Run(s1, [b, c, d]) == Run(s2, [c, d]);
    RunTwo(s2, c, d);
  }

  lemma RunTwo(s: State, a: Event, b: Event)
    ensures Run(s, [a, b]) == Next(Next(s, a), b)
  {
    hide Next;
    assert [a, b][1..] == [b] && [b][1..] == [];
    assert Run(s, [a, b]) == Run(Next(s, a), [b]);
    assert Run(Next(s, a), [b]) == Run(Next(Next(s, a), b), []);
  }

  lemma ReadFinished(s: State, n: nat, backend: Backend)
    requires Calm(s, n, backend) && s.worker == Exited
    ensures Calm(Run(s, OneRead(s, n, backend)), n + 1, backend)
  {
    RunTwo(s, Start(Reading(false)), Advance(n));
  }

  lemma {:induction false} Driven(capacity: nat, backend: Backend, n: nat) returns (events: seq<Event>)
    requires 0 < capacity && Proper(backend)
    ensures Calm(Final(Initial(capacity), events), n, backend)
  {
    if n == 0 {
      events := [];
    } else {
      var before := Driven(capacity, backend, n - 1);
      var s := Final(Initial(capacity), before);
      events := before + OneRead(s, n - 1, backend);
      FinalThenRun(Initial(capacity), before, OneRead(s, n - 1, backend));
      if s.worker == Exited {
        ReadFinished(s, n - 1, backend);
      } else {
        ReadAnswered(s, n - 1, backend);
      }
    }
  }

  /** A backend whose second read fails and whose third would succeed. */
  function Stumbling(): Backend {
    (k: nat) => if k == 1 then Ended(IO) else Frame(k)
  }

  /** There the third synchronous read returns a frame, and the third prefetched one the old failure. */
  lemma StumblingDiffers(capacity: nat)
    requires 0 < capacity
    ensures exists events :: var s := Final(Initial(capacity), events);
              Follows(s.answers, Stumbling()) && s.delivered == [Frame(0), Ended(IO), Ended(IO)]
    ensures SyncRead(Stumbling(), 2) == Frame(2)
  {
    var events := Driven(capacity, Stumbling(), 3);
    var s := Final(Initial(capacity), events);
    PrefetchDelivers(capacity, events, Stumbling());
    ShownIs(Stumbling(), 1, 0);
    ShownIs(Stumbling(), 1, 1);
    ShownIs(Stumbling(), 1, 2);
    assert s.delivered == [Frame(0), Ended(IO), Ended(IO)];
  }

  /** After a stop has returned the worker is gone, the queue is empty, and every read is refused. */
  lemma StopTells(capacity: nat, events: seq<Event>, k: nat)
    requires 0 < capacity && k < |Final(Initial(capacity), events).calls|
    ensures var s := Final(Initial(capacity), events);
            && (s.calls[k].Stopped? ==> s.worker.Exited? && s.prefetch.queue == [])
            && (InJoin(s.calls[k]) || s.calls[k].Stopped? ==> Read(s.prefetch) == Step(s.prefetch, Refuse, WakeNone))
  {
    InvFinal(capacity, events);
    assert StopOk(Final(Initial(capacity), events), Final(Initial(capacity), events).calls[k]);
  }

  // ---------- Every read returns ----------

  ghost predicate AllDone(s: State) {
    forall k :: 0 <= k < |s.calls| ==> Done(s.calls[k])
  }

  ghost predicate CanProgress(s: State) {
    WorkerReady(s) || exists k :: 0 <= k < |s.calls| && Ready(s, s.calls[k])
  }

  lemma {:induction false} SomeAwake(calls: seq<Call>)
    requires 0 < Awakes(calls)
    ensures exists k :: 0 <= k < |calls| && calls[k] == Reading(false)
  {
    var n := |calls| - 1;
    if calls[n] != Reading(false) {
      SomeAwake(calls[..n]);
      var k :| 0 <= k < n && calls[..n][k] == Reading(false);
      assert calls[k] == Reading(false);
    }
  }

  lemma NoDeadlock(s: State)
    requires Inv(s) && JoinsAlone(s) && !AllDone(s)
    ensures CanProgress(s)
  {
    var k :| 0 <= k < |s.calls| && !Done(s.calls[k]);
    if !WorkerReady(s) && !Ready(s, s.calls[k]) {
      if s.calls[k].Reading? {
        assert SomeAsleep(s.calls);
        SomeAwake(s.calls);
        var j :| 0 <= j < |s.calls| && s.calls[j] == Reading(false);
        assert Ready(s, s.calls[j]);
      }
    }
  }

  function CallRank(c: Call): nat {
    match c
    case Reading(_) => 3
    case Stopping => 4
    case Testing => 3
    case Joining => 2
    case Discarding => 1
    case _ => 0
  }

  function Ranks(calls: seq<Call>): nat {
    if calls == [] then 0 else Ranks(calls[..|calls| - 1]) + CallRank(calls[|calls| - 1])
  }

  function WorkerRank(w: Worker): nat {
    match w
    case Waiting(_) => 2
    case Decoding => 1
    case Exited => 0
  }

  /** Room counts the frames the worker may still store; discarding a queue makes no room for a worker. */
  function Room(s: State): nat {
    if s.worker == Exited || |s.prefetch.queue| >= s.prefetch.capacity then 0
    else s.prefetch.capacity - |s.prefetch.queue|
  }

  function Ahead(s: State): nat {
    Ranks(s.calls) + WorkerRank(s.worker) + 2 * Room(s)
  }

  function Wakeful(s: State): nat {
    Awakes(s.calls) + if s.worker == Waiting(false) then 1 else 0
  }

  predicate Descends(s: State, t: State) {
    Ahead(t) < Ahead(s) || (Ahead(t) == Ahead(s) && Wakeful(t) < Wakeful(s))
  }

  lemma {:induction false} RanksUpdate(calls: seq<Call>, k: nat, c: Call)
    requires k < |calls|
    ensures Ranks(calls[k := c]) == Ranks(calls) - CallRank(calls[k]) + CallRank(c)
  {
    var n := |calls| - 1;
    if k < n {
      RanksUpdate(calls[..n], k, c);
      assert calls[k := c][..n] == calls[..n][k := c];
    } else {
      assert calls[k := c][..n] == calls[..n];
    }
  }

  lemma {:induction false} RanksWoken(calls: seq<Call>)
    ensures Ranks(WakeReaders(calls)) == Ranks(calls)
  {
    if calls != [] {
      var n := |calls| - 1;
      RanksWoken(calls[..n]);
      assert WakeReaders(calls)[..n] == WakeReaders(calls[..n]);
    }
  }

  lemma RanksRoused(calls: seq<Call>, wake: Wake, lucky: nat)
    ensures Ranks(Rouse(calls, wake, lucky)) == Ranks(calls)
  {
    RanksWoken(calls);
    if lucky < |calls| {
      RanksUpdate(calls, lucky, Woken(calls[lucky]));
    }
  }

  /** One section of one thread ran. */
  ghost predicate Progressed(s: State, t: State) {
    || (exists call: nat :: call < |s.calls| && Ready(s, s.calls[call]) && t == Advanced(s, call))
    || (s.worker == Waiting(false) && t == Admitted(s))
    || (s.worker == Decoding && exists outcome, lucky: nat ::
          outcome != Ended(OK) && FairLuck(s, lucky) && t == Answered(s, outcome, lucky))
    || (s.worker == Decoding && t == Thrown(s))
  }

  lemma AdvanceDescends(s: State, call: nat)
    requires Inv(s) && call < |s.calls| && Ready(s, s.calls[call])
    ensures Descends(s, Advanced(s, call))
  {
    if s.calls[call].Reading? {
      ReadDescends(s, call);
    } else {
      assert StopOk(s, s.calls[call]);
      StopDescends(s, call);
    }
  }

  lemma ReadDescends(s: State, call: nat)
    requires Bounds(s.prefetch, s.worker) && call < |s.calls| && s.calls[call] == Reading(false)
    ensures Descends(s, Advanced(s, call))
  {
    hide Ranks, Awakes;
    var t := Advanced(s, call);
    RanksUpdate(s.calls, call, t.calls[call]);
    AwakesUpdate(s.calls, call, t.calls[call]);
  }

  lemma StopDescends(s: State, call: nat)
    requires Bounds(s.prefetch, s.worker) && call < |s.calls|
    requires !s.calls[call].Reading? && Ready(s, s.calls[call]) && StopOk(s, s.calls[call])
    ensures Descends(s, Advanced(s, call))
  {
    hide Ranks, Awakes, JoinsAlone;
    if s.calls[call].Stopping? {
      RanksUpdate(s.calls, call, Testing);
      RanksRoused(s.calls[call := Testing], WakeAll({NotEmpty, NotFull}), 0);
    } else {
      RanksUpdate(s.calls, call, Advanced(s, call).calls[call]);
    }
  }

  lemma ProgressDescends(s: State, t: State)
    requires Inv(s) && Progressed(s, t)
    ensures Inv(t) && Descends(s, t)
  {
    hide Inv, Descends, Advanced, Thrown, Answered, Admitted, JoinsAlone;
    if call: nat :| call < |s.calls| && Ready(s, s.calls[call]) && t == Advanced(s, call) {
      InvNext(s, Advance(call));
      AdvanceDescends(s, call);
    } else if s.worker == Waiting(false) {
      InvNext(s, Admitting);
      AdmitDescends(s);
    } else if t == Thrown(s) {
      InvNext(s, Throwing);
      ThrowDescends(s);
    } else {
      var outcome, lucky: nat :| outcome != Ended(OK) && FairLuck(s, lucky) && t == Answered(s, outcome, lucky);
      InvNext(s, Answering(outcome, lucky));
      AnswerDescends(s, outcome, lucky);
    }
  }

  lemma AdmitDescends(s: State)
    requires s.worker == Waiting(false)
    ensures Descends(s, Admitted(s))
  {
  }

  lemma ThrowDescends(s: State)
    requires s.worker == Decoding
    ensures Descends(s, Thrown(s))
  {
    RanksRoused(s.calls, WakeAll({NotEmpty}), 0);
  }

  lemma AnswerDescends(s: State, outcome: Outcome, lucky: nat)
    requires Inv(s) && s.worker == Decoding
    ensures Descends(s, Answered(s, outcome, lucky))
  {
    hide Parked, Stops, Stream;
    RanksRoused(s.calls, Store(s.prefetch, outcome).wake, lucky);
  }

  /** A run in which no further call starts and threads move as long as any thread can. */
  ghost predicate Unhurried(run: nat -> State) {
    forall n: nat :: Progressed(run(n), run(n + 1)) || (!CanProgress(run(n)) && run(n + 1) == run(n))
  }

  lemma {:induction false} ReturnsFrom(run: nat -> State, n: nat)
    requires Unhurried(run) && Inv(run(n))
    requires forall m: nat :: JoinsAlone(run(m))
    ensures exists m: nat :: n <= m && Over(run(m))
    decreases Ahead(run(n)), Wakeful(run(n))
  {
    hide Inv, AllDone, CanProgress, Progressed, JoinsAlone, Ahead, Wakeful;
    if CanProgress(run(n)) {
      ProgressDescends(run(n), run(n + 1));
      ReturnsFrom(run, n + 1);
    } else if !AllDone(run(n)) {
      NoDeadlock(run(n));
    }
  }

  /** Every call has returned and no thread can move. */
  ghost predicate Over(s: State) {
    AllDone(s) && !CanProgress(s)
  }

  /** Joins that overlap go on overlapping. */
  lemma OverlapStays(s: State, t: State)
    requires Progressed(s, t) && !JoinsAlone(s)
    ensures !JoinsAlone(t)
  {
    var j, k :| 0 <= j < k < |s.calls| && InJoin(s.calls[j]) && InJoin(s.calls[k]);
    JoinerStays(s, t, j);
    JoinerStays(s, t, k);
  }

  lemma JoinerStays(s: State, t: State, k: nat)
    requires Progressed(s, t) && !JoinsAlone(s) && k < |s.calls| && InJoin(s.calls[k])
    ensures |t.calls| == |s.calls| && InJoin(t.calls[k]) && t.prefetch.joinable
  {
    if call: nat :| call < |s.calls| && Ready(s, s.calls[call]) && t == Advanced(s, call) {
      JoinerAdvanced(s, call, k);
    }
  }

  lemma JoinerAdvanced(s: State, call: nat, k: nat)
    requires call < |s.calls| && Ready(s, s.calls[call]) && !JoinsAlone(s) && k < |s.calls| && InJoin(s.calls[k])
    ensures var t := Advanced(s, call); |t.calls| == |s.calls| && InJoin(t.calls[k]) && t.prefetch.joinable
  {
  }

  lemma {:induction false} OverlapKept(run: nat -> State, n: nat, m: nat)
    requires Unhurried(run) && n <= m && !JoinsAlone(run(n))
    ensures !JoinsAlone(run(m))
  {
    hide CanProgress, Progressed, JoinsAlone;
    if n < m {
      OverlapKept(run, n, m - 1);
      if Progressed(run(m - 1), run(m - 1 + 1)) {
        OverlapStays(run(m - 1), run(m));
      }
    }
  }

  lemma {:induction false} OverStays(run: nat -> State, n: nat, m: nat)
    requires Unhurried(run) && Over(run(n)) && n <= m
    ensures run(m) == run(n)
  {
    hide AllDone, CanProgress, Progressed;
    if n < m {
      OverStays(run, n, m - 1);
      OverIdle(run(m - 1), run(m - 1 + 1));
    }
  }

  lemma OverIdle(s: State, t: State)
    requires Over(s)
    ensures !Progressed(s, t)
  {
  }

  lemma OverAlone(run: nat -> State, n: nat, m: nat)
    requires Unhurried(run) && Over(run(m))
    ensures JoinsAlone(run(n))
  {
    if n <= m {
      if !JoinsAlone(run(n)) {
        OverlapKept(run, n, m);
      }
    } else {
      OverStays(run, m, n);
    }
  }

  /** A run ends exactly when no two stops ever join the worker at once. */
  lemma OverIffAlone(run: nat -> State)
    requires Inv(run(0)) && Unhurried(run)
    ensures (exists m: nat :: Over(run(m))) <==> (forall n: nat :: JoinsAlone(run(n)))
  {
    if m: nat :| Over(run(m)) {
      forall n: nat
        ensures JoinsAlone(run(n))
      {
        OverAlone(run, n, m);
      }
    }
    if forall n: nat :: JoinsAlone(run(n)) {
      ReturnsFrom(run, 0);
    }
  }

  /** Two stops that start together do reach their joins together. */
  lemma TwoStopsOverlap(capacity: nat)
    requires 0 < capacity
    ensures exists events :: !JoinsAlone(Final(Initial(capacity), events))
  {
    var s := Initial(capacity);
    var events := [Start(Stopping), Start(Stopping), Advance(0), Advance(1)];
    RunFour(s, Start(Stopping), Start(Stopping), Advance(0), Advance(1));
    FinalThenRun(s, [], events);
    assert [] + events == events;
    var t := Run(s, events);
    assert Next(Next(s, Start(Stopping)), Start(Stopping)).calls == [Stopping, Stopping];
    assert InJoin(t.calls[0]) && InJoin(t.calls[1]) && t.prefetch.joinable;
  }
}
