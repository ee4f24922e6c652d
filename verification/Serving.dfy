/**
 The serving protocol: a bounded queue with one worker, coalescing of equal requests, and a response
 cache that the executor thread fills.  Each event is one step that no other code can interrupt.
 */
module Serving {
  import opened Wrappers
  import opened CacheKeys

  datatype Answer = Answer(text: string, citations: seq<string>, grounding: string)

  datatype Status = Pending | Done(answer: Answer) | Failed

  datatype Future = Future(key: Key, status: Status)

  /** An accepted request, by the number of its future. */
  datatype Request = Request(key: Key, id: nat)

  /** A queued request, or the shutdown sentinel. */
  datatype Item = Work(request: Request) | Stop

  /** What the executor thread is doing for the item the worker holds. */
  datatype Phase = Checking | Computing | Finished(status: Status)

  datatype Worker = Waiting | Running(request: Request, phase: Phase) | Stopped

  datatype State = State(
    capacity: nat,
    cache: map<Key, Answer>,
    inflight: map<Key, nat>,
    queue: seq<Item>,
    worker: Worker,
    futures: seq<Future>,
    hits: seq<(Key, Answer)>,
    stopAt: Option<nat>)

  /** A queue that starts on the answers a cache file holds. */
  function Init(capacity: nat, cache: map<Key, Answer>): State {
    State(capacity, cache, map[], [], Waiting, [], [], None)
  }

  // ----- The steps

  datatype Reply = Hit(answer: Answer) | Joined(id: nat) | Overloaded

  datatype Event =
    | Submit(key: Key)
    | Take
    | Check
    | Compute(outcome: Option<Answer>)
    | Resolve
    | Close

  function ReplyTo(s: State, key: Key): Reply {
    if key in s.cache then Hit(s.cache[key])
    else if key in s.inflight then Joined(s.inflight[key])
    else if |s.queue| >= s.capacity then Overloaded
    else Joined(|s.futures|)
  }

  /** submit: the cache, then the requests in flight, then the queue. */
  function SubmitStep(s: State, key: Key): State {
    match ReplyTo(s, key)
    case Hit(a) => s.(hits := s.hits + [(key, a)])
    case Overloaded => s
    case Joined(id) =>
      if key in s.inflight then s
      else s.(inflight := s.inflight[key := id],
              queue := s.queue + [Work(Request(key, id))],
              futures := s.futures + [Future(key, Pending)])
  }

  function TakeStep(s: State): State
    requires s.worker.Waiting? && s.queue != []
  {
    match s.queue[0]
    case Stop => s.(queue := s.queue[1..], worker := Stopped)
    case Work(r) => s.(queue := s.queue[1..], worker := Running(r, Checking))
  }

  /** The executor's own look at the cache. */
  function CheckStep(s: State): State
    requires s.worker.Running? && s.worker.phase.Checking?
  {
    var key := s.worker.request.key;
    s.(worker := s.worker.(phase := if key in s.cache then Finished(Done(s.cache[key])) else Computing))
  }

  /** The answer is computed and stored, or the computation raises an exception. */
  function ComputeStep(s: State, outcome: Option<Answer>): State
    requires s.worker.Running? && s.worker.phase.Computing?
  {
    match outcome
    case None => s.(worker := s.worker.(phase := Finished(Failed)))
    case Some(a) => s.(cache := s.cache[s.worker.request.key := a], worker := s.worker.(phase := Finished(Done(a))))
  }

  /** The worker settles the future and forgets the key. */
  function ResolveStep(s: State): State
    requires s.worker.Running? && s.worker.phase.Finished? && s.worker.request.id < |s.futures|
  {
    s.(futures := s.futures[s.worker.request.id := s.futures[s.worker.request.id].(status := s.worker.phase.status)],
       inflight := s.inflight - {s.worker.request.key},
       worker := Waiting)
  }

  function CloseStep(s: State): State {
    s.(queue := s.queue + [Stop], stopAt := Some(|s.futures|))
  }

  predicate Enabled(s: State, e: Event) {
    match e
    case Submit(_) => true
    case Take => s.worker.Waiting? && s.queue != []
    case Check => s.worker.Running? && s.worker.phase.Checking?
    case Compute(_) => s.worker.Running? && s.worker.phase.Computing?
    case Resolve => s.worker.Running? && s.worker.phase.Finished? && s.worker.request.id < |s.futures|
    case Close => s.stopAt.None? && |s.queue| < s.capacity
  }

  function Apply(s: State, e: Event): State
    requires Enabled(s, e)
  {
    match e
    case Submit(key) => SubmitStep(s, key)
    case Take => TakeStep(s)
    case Check => CheckStep(s)
    case Compute(outcome) => ComputeStep(s, outcome)
    case Resolve => ResolveStep(s)
    case Close => CloseStep(s)
  }

  // ----- The invariant

  /** The queue without the sentinel. */
  function Requests(queue: seq<Item>): (r: seq<Request>)
    ensures |r| <= |queue|
  {
    if queue == [] then []
    else (if queue[0].Stop? then [] else [queue[0].request]) + Requests(queue[1..])
  }

  function Held(worker: Worker): seq<Request> {
    if worker.Running? then [worker.request] else []
  }

  /** The requests not yet settled: the worker's, then the queued ones in order. */
  function Outstanding(s: State): seq<Request> {
    Held(s.worker) + Requests(s.queue)
  }

  /** How many futures are settled: they are the oldest ones. */
  function Settled(s: State): int {
    |s.futures| - |Outstanding(s)|
  }

  /** Requests are settled in the order they were accepted, each exactly once. */
  ghost predicate InOrder(out: seq<Request>, futures: seq<Future>) {
    var settled := |futures| - |out|;
    && 0 <= settled
    && (forall i :: 0 <= i < |out| ==> out[i].id == settled + i && futures[settled + i] == Future(out[i].key, Pending))
    && (forall id :: 0 <= id < settled ==> !futures[id].status.Pending?)
  }

  /** The keys in flight are the keys of the unsettled requests, without repetition. */
  ghost predicate SingleFlight(out: seq<Request>, inflight: map<Key, nat>) {
    && (forall i :: 0 <= i < |out| ==> out[i].key in inflight && inflight[out[i].key] == out[i].id)
    && (forall key :: key in inflight ==> exists i :: 0 <= i < |out| && out[i].key == key)
  }

  /** Everything ever answered is what the cache holds. */
  ghost predicate Memo(futures: seq<Future>, hits: seq<(Key, Answer)>, cache: map<Key, Answer>) {
    && (forall id :: 0 <= id < |futures| && futures[id].status.Done? ==>
          futures[id].key in cache && cache[futures[id].key] == futures[id].status.answer)
    && (forall i :: 0 <= i < |hits| ==> hits[i].0 in cache && cache[hits[i].0] == hits[i].1)
  }

  /** What the worker holds: it computes only what is not cached, and what it finished is cached. */
  ghost predicate WorkerMemo(worker: Worker, cache: map<Key, Answer>) {
    worker.Running? ==>
      && (worker.phase.Computing? ==> worker.request.key !in cache)
      && (worker.phase.Finished? ==>
            !worker.phase.status.Pending?
            && (worker.phase.status.Done? ==>
                worker.request.key in cache && cache[worker.request.key] == worker.phase.status.answer))
  }

  /** The sentinel separates the requests accepted before shutdown from those accepted after it. */
  ghost predicate Shutdown(queue: seq<Item>, worker: Worker, stopAt: Option<nat>, settled: int) {
    match stopAt
    case None => Stop !in queue && !worker.Stopped?
    case Some(n) =>
      if worker.Stopped? then Stop !in queue && n == settled
      else exists p :: SentinelAt(queue, p) && n == settled + |Held(worker)| + p
  }

  predicate SentinelAt(queue: seq<Item>, p: int) {
    0 <= p < |queue| && queue[p].Stop? && Stop !in queue[..p] && Stop !in queue[p + 1..]
  }

  ghost predicate Inv(s: State) {
    && |s.queue| <= s.capacity
    && InOrder(Outstanding(s), s.futures)
    && SingleFlight(Outstanding(s), s.inflight)
    && Memo(s.futures, s.hits, s.cache)
    && WorkerMemo(s.worker, s.cache)
    && Shutdown(s.queue, s.worker, s.stopAt, Settled(s))
  }

  lemma {:induction false} RequestsAppend(queue: seq<Item>, item: Item)
    ensures Requests(queue + [item]) == Requests(queue) + (if item.Stop? then [] else [item.request])
  {
    if queue == [] {
      assert [item][1..] == [];
    } else {
      assert (queue + [item])[1..] == queue[1..] + [item] && (queue + [item])[0] == queue[0];
      RequestsAppend(queue[1..], item);
      var first := if queue[0].Stop? then [] else [queue[0].request];
      var last := if item.Stop? then [] else [item.request];
      assert Requests(queue + [item]) == first + (Requests(queue[1..]) + last);
    }
  }

  lemma {:induction false} AllRequests(queue: seq<Item>)
    requires Stop !in queue
    ensures |Requests(queue)| == |queue|
  {
    if queue != [] {
      assert queue == [queue[0]] + queue[1..];
      AllRequests(queue[1..]);
    }
  }

  lemma AcceptInOrder(out: seq<Request>, futures: seq<Future>, key: Key)
    requires InOrder(out, futures)
    ensures InOrder(out + [Request(key, |futures|)], futures + [Future(key, Pending)])
  {
  }

  lemma AcceptSingleFlight(out: seq<Request>, inflight: map<Key, nat>, r: Request)
    requires SingleFlight(out, inflight) && r.key !in inflight
    ensures SingleFlight(out + [r], inflight[r.key := r.id])
  {
    var grown := out + [r];
    var m := inflight[r.key := r.id];
    forall k | k in m ensures exists i :: 0 <= i < |grown| && grown[i].key == k {
      if k == r.key {
        assert grown[|out|].key == k;
      } else {
        var i :| 0 <= i < |out| && out[i].key == k;
        assert grown[i].key == k;
      }
    }
  }

  lemma AcceptShutdown(queue: seq<Item>, worker: Worker, stopAt: Option<nat>, settled: int, r: Request)
    requires Shutdown(queue, worker, stopAt, settled)
    ensures Shutdown(queue + [Work(r)], worker, stopAt, settled)
  {
    if stopAt.Some? && !worker.Stopped? {
      var p :| SentinelAt(queue, p) && stopAt.value == settled + |Held(worker)| + p;
      assert (queue + [Work(r)])[..p] == queue[..p] && (queue + [Work(r)])[p + 1..] == queue[p + 1..] + [Work(r)];
      assert SentinelAt(queue + [Work(r)], p);
    }
  }

  lemma SubmitKeepsInv(s: State, key: Key)
    requires Inv(s)
    ensures Inv(SubmitStep(s, key))
  {
    hide InOrder, SingleFlight, Shutdown, Requests;
    var t := SubmitStep(s, key);
    if ReplyTo(s, key).Joined? && key !in s.inflight {
      var r := Request(key, |s.futures|);
      RequestsAppend(s.queue, Work(r));
      assert Outstanding(t) == Outstanding(s) + [r];
      AcceptInOrder(Outstanding(s), s.futures, key);
      AcceptSingleFlight(Outstanding(s), s.inflight, r);
      AcceptShutdown(s.queue, s.worker, s.stopAt, Settled(s), r);
    }
  }

  lemma TakeShutdown(queue: seq<Item>, stopAt: Option<nat>, settled: int)
    requires Shutdown(queue, Waiting, stopAt, settled) && queue != []
    ensures queue[0].Stop? ==> Shutdown(queue[1..], Stopped, stopAt, settled)
    ensures queue[0].Work? ==> Shutdown(queue[1..], Running(queue[0].request, Checking), stopAt, settled)
  {
    assert queue == [queue[0]] + queue[1..];
    if stopAt.Some? {
      var p :| SentinelAt(queue, p) && stopAt.value == settled + p;
      if p == 0 {
        assert queue[1..] == queue[0 + 1..];
      } else {
        assert queue[..p][0] == queue[0];
        assert queue[1..][..p - 1] == queue[..p][1..] && queue[1..][p..] == queue[p + 1..];
        assert SentinelAt(queue[1..], p - 1);
      }
    }
  }

  lemma TakeKeepsInv(s: State)
    requires Inv(s) && Enabled(s, Take)
    ensures Inv(TakeStep(s))
  {
    hide InOrder, SingleFlight, Shutdown, Memo;
    var t := TakeStep(s);
    assert Outstanding(t) == Outstanding(s);
    TakeShutdown(s.queue, s.stopAt, Settled(s));
  }

  lemma CloseKeepsInv(s: State)
    requires Inv(s) && Enabled(s, Close)
    ensures Inv(CloseStep(s))
  {
    hide InOrder, SingleFlight, Memo, Requests;
    var t := CloseStep(s);
    RequestsAppend(s.queue, Stop);
    AllRequests(s.queue);
    assert Outstanding(t) == Outstanding(s);
    assert t.queue[..|s.queue|] == s.queue && t.queue[|s.queue| + 1..] == [];
    assert SentinelAt(t.queue, |s.queue|);
  }

  lemma PhaseKeepsInv(s: State, e: Event)
    requires Inv(s) && Enabled(s, e) && (e.Check? || e.Compute?)
    ensures Inv(Apply(s, e))
  {
    hide InOrder, SingleFlight;
    var t := Apply(s, e);
    assert Outstanding(t) == Outstanding(s) && Held(t.worker) == [s.worker.request];
  }

  lemma SettleInOrder(out: seq<Request>, futures: seq<Future>, status: Status)
    requires InOrder(out, futures) && out != [] && !status.Pending?
    ensures out[0].id < |futures| && InOrder(out[1..], futures[out[0].id := futures[out[0].id].(status := status)])
    ensures futures[out[0].id].key == out[0].key
  {
  }

  lemma SettleSingleFlight(out: seq<Request>, futures: seq<Future>, inflight: map<Key, nat>)
    requires InOrder(out, futures) && SingleFlight(out, inflight) && out != []
    ensures SingleFlight(out[1..], inflight - {out[0].key})
  {
    var rest := out[1..];
    forall i | 0 <= i < |rest| ensures rest[i].key in inflight - {out[0].key} {
      assert out[i + 1].id != out[0].id;
    }
    forall k | k in inflight - {out[0].key} ensures exists i :: 0 <= i < |rest| && rest[i].key == k {
      var i :| 0 <= i < |out| && out[i].key == k;
      assert rest[i - 1] == out[i];
    }
  }

  lemma ResolveKeepsInv(s: State)
    requires Inv(s) && Enabled(s, Resolve)
    ensures Inv(ResolveStep(s))
  {
    hide InOrder, SingleFlight, Requests;
    var t := ResolveStep(s);
    var out := Outstanding(s);
    assert out[0] == s.worker.request && out[1..] == Outstanding(t);
    SettleInOrder(out, s.futures, s.worker.phase.status);
    SettleSingleFlight(out, s.futures, s.inflight);
    assert Settled(t) == Settled(s) + 1;
    assert s.stopAt.Some? ==> exists p :: SentinelAt(s.queue, p) && s.stopAt.value == Settled(s) + 1 + p;
  }

  /** Every step keeps the invariant. */
  lemma StepKeepsInv(s: State, e: Event)
    requires Inv(s) && Enabled(s, e)
    ensures Inv(Apply(s, e))
  {
    hide Inv;
    match e
    case Submit(key) => SubmitKeepsInv(s, key);
    case Take => TakeKeepsInv(s);
    case Close => CloseKeepsInv(s);
    case Resolve => ResolveKeepsInv(s);
    case Check => PhaseKeepsInv(s, e);
    case Compute(_) => PhaseKeepsInv(s, e);
  }

  // ----- Whole runs

  /** Every event of the run can happen when its turn comes. */
  predicate Feasible(s: State, events: seq<Event>)
    decreases |events|
  {
    events == [] || (Enabled(s, events[0]) && Feasible(Apply(s, events[0]), events[1..]))
  }

  function Run(s: State, events: seq<Event>): State
    requires Feasible(s, events)
    decreases |events|
  {
    if events == [] then s else Run(Apply(s, events[0]), events[1..])
  }

  lemma {:induction false} RunKeepsInv(s: State, events: seq<Event>)
    requires Inv(s) && Feasible(s, events)
    ensures Inv(Run(s, events))
    decreases |events|
  {
    hide Inv, Apply, Enabled;
    if events != [] {
      StepKeepsInv(s, events[0]);
      RunKeepsInv(Apply(s, events[0]), events[1..]);
    }
  }

  lemma InitInv(capacity: nat, cache: map<Key, Answer>)
    ensures Inv(Init(capacity, cache))
  {
  }

  /** Some request for `key` was answered with `a`, from the cache or through its future. */
  ghost predicate Answered(s: State, key: Key, a: Answer) {
    || (exists i :: 0 <= i < |s.hits| && s.hits[i] == (key, a))
    || (exists id :: 0 <= id < |s.futures| && s.futures[id] == Future(key, Done(a)))
  }

  /** Cached answers stay, settled futures keep their result, and nothing already answered is taken back. */
  ghost predicate Extends(s: State, t: State) {
    && (forall key :: key in s.cache ==> key in t.cache && t.cache[key] == s.cache[key])
    && |s.futures| <= |t.futures|
    && (forall id :: 0 <= id < |s.futures| ==>
          t.futures[id].key == s.futures[id].key
          && (!s.futures[id].status.Pending? ==> t.futures[id] == s.futures[id]))
    && s.hits <= t.hits
  }

  lemma StepExtends(s: State, e: Event)
    requires Inv(s) && Enabled(s, e)
    ensures Extends(s, Apply(s, e))
  {
    hide Inv;
    if s.worker.Running? {
      RunningRequest(s);
    }
  }

  /** What the invariant says of the request the worker holds. */
  lemma RunningRequest(s: State)
    requires Inv(s) && s.worker.Running?
    ensures var r := s.worker.request;
            && r.id == Settled(s) && 0 <= r.id < |s.futures| && s.futures[r.id] == Future(r.key, Pending)
            && (s.worker.phase.Computing? ==> r.key !in s.cache)
  {
    hide SingleFlight, Shutdown, Requests, Memo;
    assert Outstanding(s)[0] == s.worker.request;
  }

  lemma {:induction false} RunExtends(s: State, events: seq<Event>)
    requires Inv(s) && Feasible(s, events)
    ensures Extends(s, Run(s, events))
    decreases |events|
  {
    hide Inv, Apply, Enabled;
    if events != [] {
      StepKeepsInv(s, events[0]);
      StepExtends(s, events[0]);
      RunExtends(Apply(s, events[0]), events[1..]);
    }
  }

  lemma AnsweredIsCached(s: State, key: Key, a: Answer)
    requires Inv(s) && Answered(s, key, a)
    ensures key in s.cache && s.cache[key] == a
  {
  }

  /**
   Over all interleavings: once a request for a key was answered, every later or coalesced success for
   that key carries the same answer, citations and grounding.
   */
  lemma SameAnswerForever(capacity: nat, cache: map<Key, Answer>, first: seq<Event>, more: seq<Event>, key: Key,
      a: Answer, b: Answer)
    requires Feasible(Init(capacity, cache), first) && Feasible(Run(Init(capacity, cache), first), more)
    requires Answered(Run(Init(capacity, cache), first), key, a)
    requires Answered(Run(Run(Init(capacity, cache), first), more), key, b)
    ensures a == b
  {
    hide Inv, Answered, Feasible, Run;
    var s := Run(Init(capacity, cache), first);
    InitInv(capacity, cache);
    RunKeepsInv(Init(capacity, cache), first);
    RunKeepsInv(s, more);
    RunExtends(s, more);
    AnsweredIsCached(s, key, a);
    AnsweredIsCached(Run(s, more), key, b);
  }

  /** The memo table the protocol refines: it only ever gains the key being computed. */
  lemma RefinesMemoTable(s: State, e: Event)
    requires Inv(s) && Enabled(s, e)
    ensures var t := Apply(s, e);
            || t.cache == s.cache
            || (exists a ::
                  && e == Compute(Some(a)) && s.worker.request.key !in s.cache
                  && t.cache == s.cache[s.worker.request.key := a])
    ensures forall key, a :: Answered(Apply(s, e), key, a) && !Answered(s, key, a) ==>
              key in s.cache && s.cache[key] == a
  {
    hide Inv, Answered;
    if s.worker.Running? {
      RunningRequest(s);
    }
    forall key, a | Answered(Apply(s, e), key, a) && !Answered(s, key, a) ensures key in s.cache && s.cache[key] == a {
      NewAnswer(s, e, key, a);
    }
  }

  lemma NewAnswer(s: State, e: Event, key: Key, a: Answer)
    requires Inv(s) && Enabled(s, e) && Answered(Apply(s, e), key, a) && !Answered(s, key, a)
    ensures key in s.cache && s.cache[key] == a
  {
    StepKeepsInv(s, e);
    AnsweredIsCached(Apply(s, e), key, a);
    hide Inv;
    StepAnswers(s, e, key, a);
  }

  /** Only a cache hit and a settled future answer, and neither touches the cache. */
  lemma StepAnswers(s: State, e: Event, key: Key, a: Answer)
    requires Enabled(s, e) && Answered(Apply(s, e), key, a) && !Answered(s, key, a)
    ensures Apply(s, e).cache == s.cache
  {
  }

  // ----- Single flight, order and shutdown

  function Keys(out: seq<Request>): set<Key> {
    set i | 0 <= i < |out| :: out[i].key
  }

  lemma {:induction false} KeyCount(out: seq<Request>)
    ensures |Keys(out)| <= |out|
  {
    if out != [] {
      var last := |out| - 1;
      KeyCount(out[..last]);
      assert Keys(out) == Keys(out[..last]) + {out[last].key};
    }
  }

  /** In every reachable state at most one request per key is in flight, and at most capacity + 1 in all. */
  lemma InflightBounded(capacity: nat, cache: map<Key, Answer>, events: seq<Event>)
    requires Feasible(Init(capacity, cache), events)
    ensures var s := Run(Init(capacity, cache), events);
            && s.inflight.Keys == Keys(Outstanding(s))
            && (forall i, j :: 0 <= i < j < |Outstanding(s)| ==> Outstanding(s)[i].key != Outstanding(s)[j].key)
            && |s.inflight| <= capacity + 1
  {
    var s := Run(Init(capacity, cache), events);
    InitInv(capacity, cache);
    RunKeepsInv(Init(capacity, cache), events);
    RunKeepsCapacity(Init(capacity, cache), events);
    hide Run, Feasible, Memo, Shutdown;
    KeyCount(Outstanding(s));
    assert s.inflight.Keys == Keys(Outstanding(s));
    assert |s.inflight| == |s.inflight.Keys|;
  }

  lemma {:induction false} RunKeepsCapacity(s: State, events: seq<Event>)
    requires Feasible(s, events)
    ensures Run(s, events).capacity == s.capacity
    decreases |events|
  {
    if events != [] {
      RunKeepsCapacity(Apply(s, events[0]), events[1..]);
    }
  }

  /** The settled futures are exactly the oldest ones, and a step settles at most the next one in line. */
  lemma SettledInOrder(s: State, e: Event)
    requires Inv(s) && Enabled(s, e)
    ensures forall id :: 0 <= id < |s.futures| ==> (!s.futures[id].status.Pending? <==> id < Settled(s))
    ensures Settled(Apply(s, e)) == Settled(s) + (if e.Resolve? then 1 else 0)
    ensures e.Resolve? ==> s.worker.request.id == Settled(s)
  {
    SettledAreOldest(s);
    OutstandingAfter(s, e);
    hide Inv, Outstanding;
    if e.Resolve? {
      RunningRequest(s);
    }
  }

  lemma SettledAreOldest(s: State)
    requires Inv(s)
    ensures forall id :: 0 <= id < |s.futures| ==> (!s.futures[id].status.Pending? <==> id < Settled(s))
  {
    hide Requests, SingleFlight, Memo, Shutdown, WorkerMemo;
    forall id | 0 <= id < |s.futures| ensures !s.futures[id].status.Pending? <==> id < Settled(s) {
      if id >= Settled(s) {
        var i := id - Settled(s);
        assert Outstanding(s)[i].id == Settled(s) + i;
      }
    }
  }

  lemma OutstandingAfter(s: State, e: Event)
    requires Enabled(s, e)
    ensures Settled(Apply(s, e)) == Settled(s) + (if e.Resolve? then 1 else 0)
  {
    hide Requests;
    match e {
      case Submit(key) => RequestsAppend(s.queue, Work(Request(key, |s.futures|)));
      case Take => TakeKeepsOutstanding(s);
      case Close => RequestsAppend(s.queue, Stop);
      case Resolve =>
      case Check =>
      case Compute(_) =>
    }
  }

  lemma TakeKeepsOutstanding(s: State)
    requires Enabled(s, Take)
    ensures Outstanding(TakeStep(s)) == Outstanding(s)
  {
  }

  /**
   When the worker has exited, exactly the requests accepted before the shutdown sentinel are settled;
   one that was accepted after it is pending, and stays so whatever happens next.
   */
  lemma SettledAtExit(capacity: nat, cache: map<Key, Answer>, events: seq<Event>, more: seq<Event>, id: nat)
    requires Feasible(Init(capacity, cache), events) && Run(Init(capacity, cache), events).worker.Stopped?
    requires Feasible(Run(Init(capacity, cache), events), more)
    ensures var s, t := Run(Init(capacity, cache), events), Run(Run(Init(capacity, cache), events), more);
            && s.stopAt.Some? && t.worker.Stopped?
            && (id < |t.futures| ==> (!t.futures[id].status.Pending? <==> id < s.stopAt.value))
  {
    var s := Run(Init(capacity, cache), events);
    InitInv(capacity, cache);
    RunKeepsInv(Init(capacity, cache), events);
    RunKeepsInv(s, more);
    assert s.stopAt.Some?;
    StoppedForever(s, more);
    var t := Run(s, more);
    assert Enabled(t, Submit(Key("", [])));
    SettledInOrder(t, Submit(Key("", [])));
    hide Run, Feasible, InOrder, SingleFlight, Memo;
  }

  /** Such a request exists: once the worker took the sentinel, an uncached key is accepted and never settled. */
  lemma AcceptedAfterSentinel(capacity: nat, cache: map<Key, Answer>, key: Key, more: seq<Event>)
    requires capacity > 0 && key !in cache
    ensures var init, closing, events := Init(capacity, cache), [Close, Take], [Close, Take, Submit(key)];
            && Feasible(init, closing) && ReplyTo(Run(init, closing), key) == Joined(0)
            && Feasible(init, events) && Run(init, events).futures == [Future(key, Pending)]
            && (Feasible(Run(init, events), more) ==>
                  var t := Run(Run(init, events), more);
                  t.futures != [] && t.futures[0] == Future(key, Pending))
  {
    var init, events := Init(capacity, cache), [Close, Take, Submit(key)];
    SentinelTaken(capacity, cache, key);
    hide Apply, Enabled, Run, Feasible, Init, ReplyTo;
    if Feasible(Run(init, events), more) {
      SettledAtExit(capacity, cache, events, more, 0);
      InitInv(capacity, cache);
      RunKeepsInv(init, events);
      RunExtends(Run(init, events), more);
    }
  }

  lemma SentinelTaken(capacity: nat, cache: map<Key, Answer>, key: Key)
    requires capacity > 0 && key !in cache
    ensures var init, closing, events := Init(capacity, cache), [Close, Take], [Close, Take, Submit(key)];
            && Feasible(init, closing) && ReplyTo(Run(init, closing), key) == Joined(0)
            && Feasible(init, events) && Run(init, events).futures == [Future(key, Pending)]
            && Run(init, events).worker.Stopped? && Run(init, events).stopAt == Some(0)
  {
    var init := Init(capacity, cache);
    var closed := init.(queue := [Stop], stopAt := Some(0));
    var stopped := closed.(queue := [], worker := Stopped);
    assert [] + [Stop] == [Stop] && Apply(init, Close) == closed;
    assert [Stop][1..] == [] && Apply(closed, Take) == stopped;
    assert [] + [Future(key, Pending)] == Apply(stopped, Submit(key)).futures;
    ThreeEvents(init, closed, stopped, Close, Take, Submit(key));
  }

  lemma ThreeEvents(s: State, t: State, u: State, d: Event, e: Event, f: Event)
    requires Enabled(s, d) && Apply(s, d) == t && Enabled(t, e) && Apply(t, e) == u && Enabled(u, f)
    ensures Feasible(s, [d, e, f]) && Run(s, [d, e, f]) == Apply(u, f)
    ensures Feasible(s, [d, e]) && Run(s, [d, e]) == u
  {
    hide Apply, Enabled;
    assert [d, e, f][1..] == [e, f] && [e, f][1..] == [f] && [f][1..] == [];
    assert [d, e][1..] == [e] && [e][1..] == [];
    assert Feasible(Apply(u, f), []) && Run(Apply(u, f), []) == Apply(u, f);
    assert Feasible(u, [f]) && Run(u, [f]) == Apply(u, f);
    assert Feasible(t, [e, f]) && Run(t, [e, f]) == Apply(u, f);
    assert Feasible(u, []) && Run(u, []) == u;
    assert Feasible(t, [e]) && Run(t, [e]) == u;
  }

  lemma {:induction false} StoppedForever(s: State, events: seq<Event>)
    requires Feasible(s, events) && s.worker.Stopped? && s.stopAt.Some?
    ensures Run(s, events).worker.Stopped? && Run(s, events).stopAt == s.stopAt
    decreases |events|
  {
    if events != [] {
      StoppedForever(Apply(s, events[0]), events[1..]);
    }
  }

  // ----- Progress

  predicate WorkerEvent(e: Event) {
    !e.Submit? && !e.Close?
  }

  function PhaseWork(worker: Worker): nat {
    match worker
    case Running(_, Checking) => 3
    case Running(_, Computing) => 2
    case Running(_, Finished(_)) => 1
    case _ => 0
  }

  function Remaining(s: State): nat {
    4 * |s.queue| + PhaseWork(s.worker)
  }

  /** While a request is outstanding a running worker can move, and every move brings it closer to done. */
  lemma WorkerMoves(s: State)
    requires Inv(s)
    ensures Outstanding(s) != [] && !s.worker.Stopped? ==> exists e :: WorkerEvent(e) && Enabled(s, e)
    ensures forall e :: WorkerEvent(e) && Enabled(s, e) ==> Remaining(Apply(s, e)) < Remaining(s)
  {
    hide SingleFlight, Memo, Shutdown;
    if Outstanding(s) != [] && !s.worker.Stopped? {
      var e := match s.worker
        case Waiting => Take
        case Running(_, Checking) => Check
        case Running(_, Computing) => Compute(None)
        case _ => Resolve;
      if s.worker.Running? {
        assert Outstanding(s)[0] == s.worker.request;
      }
      assert WorkerEvent(e) && Enabled(s, e);
    }
  }

  lemma {:induction false} OneSentinel(queue: seq<Item>, p: int)
    requires SentinelAt(queue, p)
    ensures |Requests(queue)| == |queue| - 1
  {
    assert queue == [queue[0]] + queue[1..];
    if p == 0 {
      assert queue[p + 1..] == queue[1..];
      AllRequests(queue[1..]);
    } else {
      assert queue[..p][0] == queue[0];
      assert queue[1..][..p - 1] == queue[..p][1..] && queue[1..][p..] == queue[p + 1..];
      OneSentinel(queue[1..], p - 1);
    }
  }

  /**
   A request is refused exactly when it has no cached answer, no unsettled request has its key, and the queue is
   full; then as many requests are unsettled as the queue has room for, one less after shutdown began.
   */
  lemma RefusedExactly(s: State, key: Key)
    requires Inv(s)
    ensures ReplyTo(s, key).Overloaded? <==>
            && key !in s.cache && |s.queue| == s.capacity
            && forall i :: 0 <= i < |Outstanding(s)| ==> Outstanding(s)[i].key != key
    ensures ReplyTo(s, key).Overloaded? ==> |Outstanding(s)| >= s.capacity - (if s.stopAt.Some? then 1 else 0)
  {
    hide InOrder, Memo, WorkerMemo, Requests;
    if Stop !in s.queue {
      AllRequests(s.queue);
    } else if p :| SentinelAt(s.queue, p) {
      OneSentinel(s.queue, p);
    }
  }

  // ----- Whose answer a caller gets

  datatype Question = Question(text: string, policy: string)

  function KeyOf(q: Question): Key {
    CacheKey(q.text, q.policy)
  }

  /** The same words up to white space, and the same policy. */
  ghost predicate SameQuestion(p: Question, q: Question) {
    p.policy == q.policy && SameWords(p.text, q.text)
  }

  /** The answer is what the request's computation, or its look at the cache, ended with. */
  predicate GivenTo(s: State, id: nat, a: Answer) {
    && id < |s.futures|
    && (s.futures[id].status == Done(a)
        || (s.worker.Running? && s.worker.request.id == id && s.worker.phase == Finished(Done(a))))
  }

  predicate GivenFor(s: State, id: nat, key: Key, a: Answer) {
    GivenTo(s, id, a) && s.futures[id].key == key
  }

  /** Each future was made for a question, and each cached answer was given for one, or was in the file. */
  ghost predicate Traced(s: State, asked: seq<Question>, file: map<Key, Answer>) {
    && |asked| == |s.futures|
    && (forall id :: 0 <= id < |asked| ==> s.futures[id].key == KeyOf(asked[id]))
    && (forall key :: key in s.cache ==>
          (key, s.cache[key]) in file.Items || exists id :: GivenFor(s, id, key, s.cache[key]))
  }

  /** The questions futures were made for, with this one. */
  function AskedWith(s: State, asked: seq<Question>, q: Question): seq<Question> {
    if ReplyTo(s, KeyOf(q)).Joined? && KeyOf(q) !in s.inflight then asked + [q] else asked
  }

  /** What a reply has to do with the question. */
  ghost predicate Serves(s: State, asked: seq<Question>, file: map<Key, Answer>, q: Question, r: Reply) {
    match r
    case Hit(a) =>
      || (KeyOf(q), a) in file.Items
      || exists id :: 0 <= id < |asked| && GivenTo(s, id, a) && SameQuestion(asked[id], q)
    case Joined(id) => id < |asked| && SameQuestion(asked[id], q)
    case Overloaded => true
  }

  lemma SameKeySameQuestion(p: Question, q: Question)
    ensures KeyOf(p) == KeyOf(q) <==> SameQuestion(p, q)
  {
    SameKeyExactly(p.text, p.policy, q.text, q.policy);
    hide CacheKey, SameWords;
  }

  lemma AskTraced(s: State, asked: seq<Question>, file: map<Key, Answer>, q: Question)
    requires Inv(s) && Traced(s, asked, file)
    ensures Traced(SubmitStep(s, KeyOf(q)), AskedWith(s, asked, q), file)
  {
    hide Inv, KeyOf;
    var t := SubmitStep(s, KeyOf(q));
    forall key | key in t.cache && (key, t.cache[key]) !in file.Items
      ensures exists id :: GivenFor(t, id, key, t.cache[key])
    {
      var id: nat :| GivenFor(s, id, key, s.cache[key]);
      assert GivenFor(t, id, key, t.cache[key]);
    }
  }

  lemma StepTraced(s: State, e: Event, asked: seq<Question>, file: map<Key, Answer>)
    requires Inv(s) && Traced(s, asked, file) && Enabled(s, e) && !e.Submit?
    ensures Traced(Apply(s, e), asked, file)
  {
    hide Inv, KeyOf, Apply, Enabled, GivenFor;
    var t := Apply(s, e);
    StepKeepsKeys(s, e);
    forall key | key in t.cache && (key, t.cache[key]) !in file.Items
      ensures exists id :: GivenFor(t, id, key, t.cache[key])
    {
      NewlyCached(s, e, key);
      if key in s.cache && t.cache[key] == s.cache[key] {
        var id: nat :| GivenFor(s, id, key, s.cache[key]);
        StaysGiven(s, e, id, key, s.cache[key]);
      }
    }
  }

  lemma StepKeepsKeys(s: State, e: Event)
    requires Inv(s) && Enabled(s, e) && !e.Submit?
    ensures var t := Apply(s, e);
            |t.futures| == |s.futures| && forall id :: 0 <= id < |s.futures| ==> t.futures[id].key == s.futures[id].key
  {
    hide Inv;
  }

  lemma StaysGiven(s: State, e: Event, id: nat, key: Key, a: Answer)
    requires Inv(s) && Enabled(s, e) && !e.Submit? && GivenFor(s, id, key, a)
    ensures GivenFor(Apply(s, e), id, key, a)
  {
    HeldIsPending(s);
    hide Inv;
  }

  lemma NewlyCached(s: State, e: Event, key: Key)
    requires Inv(s) && Enabled(s, e) && !e.Submit? && key in Apply(s, e).cache
    ensures var t := Apply(s, e);
            (key in s.cache && t.cache[key] == s.cache[key]) || exists id :: GivenFor(t, id, key, t.cache[key])
  {
    HeldIsPending(s);
    hide Inv;
    if e.Compute? && e.outcome.Some? && key == s.worker.request.key {
      assert GivenFor(Apply(s, e), s.worker.request.id, key, e.outcome.value);
    }
  }

  /** The request the worker holds is not settled. */
  lemma HeldIsPending(s: State)
    requires Inv(s)
    ensures s.worker.Running? ==>
              var Request(key, id) := s.worker.request; id < |s.futures| && s.futures[id] == Future(key, Pending)
  {
    hide SingleFlight, Memo, WorkerMemo, Shutdown, Requests;
    if s.worker.Running? {
      assert Outstanding(s)[0] == s.worker.request;
    }
  }

  /** A hit or a join serves no question of other words or another policy. */
  lemma RepliesServe(s: State, asked: seq<Question>, file: map<Key, Answer>, q: Question)
    requires Inv(s) && Traced(s, asked, file)
    ensures Serves(s, AskedWith(s, asked, q), file, q, ReplyTo(s, KeyOf(q)))
  {
    hide Inv, Traced, KeyOf, SameQuestion, GivenTo;
    if KeyOf(q) in s.cache {
      HitServes(s, asked, file, q);
    } else {
      JoinServes(s, asked, file, q);
    }
  }

  lemma HitServes(s: State, asked: seq<Question>, file: map<Key, Answer>, q: Question)
    requires Traced(s, asked, file) && KeyOf(q) in s.cache
    ensures var a := s.cache[KeyOf(q)];
            || (KeyOf(q), a) in file.Items
            || exists id :: 0 <= id < |asked| && GivenTo(s, id, a) && SameQuestion(asked[id], q)
  {
    hide KeyOf, SameQuestion;
    var key := KeyOf(q);
    if (key, s.cache[key]) !in file.Items {
      var id: nat :| GivenFor(s, id, key, s.cache[key]);
      SameKeySameQuestion(asked[id], q);
    }
  }

  lemma JoinServes(s: State, asked: seq<Question>, file: map<Key, Answer>, q: Question)
    requires Inv(s) && Traced(s, asked, file) && KeyOf(q) !in s.cache
    ensures Serves(s, AskedWith(s, asked, q), file, q, ReplyTo(s, KeyOf(q)))
  {
    hide Inv, KeyOf, SameQuestion;
    InflightIsAccepted(s, KeyOf(q));
    SameKeySameQuestion(q, q);
    if KeyOf(q) in s.inflight {
      SameKeySameQuestion(asked[s.inflight[KeyOf(q)]], q);
    }
  }

  lemma InflightIsAccepted(s: State, key: Key)
    requires Inv(s)
    ensures key in s.inflight ==> s.inflight[key] < |s.futures| && s.futures[s.inflight[key]].key == key
  {
    hide Memo, WorkerMemo, Shutdown, Requests;
    if key in s.inflight {
      var i :| 0 <= i < |Outstanding(s)| && Outstanding(s)[i].key == key;
    }
  }

  /** What happens, with the questions that are asked. */
  datatype Act = Ask(question: Question) | Do(event: Event)

  function EventOf(act: Act): Event {
    match act
    case Ask(q) => Submit(KeyOf(q))
    case Do(e) => e
  }

  function Events(acts: seq<Act>): seq<Event> {
    if acts == [] then [] else [EventOf(acts[0])] + Events(acts[1..])
  }

  predicate AllAsked(acts: seq<Act>) {
    forall i :: 0 <= i < |acts| && acts[i].Do? ==> !acts[i].event.Submit?
  }

  /** The questions futures are made for in a run. */
  function AskedIn(s: State, asked: seq<Question>, acts: seq<Act>): seq<Question>
    requires Feasible(s, Events(acts))
    decreases |acts|
  {
    if acts == [] then asked
    else
      var e := EventOf(acts[0]);
      assert Events(acts)[0] == e && Events(acts)[1..] == Events(acts[1..]);
      AskedIn(Apply(s, e), if acts[0].Ask? then AskedWith(s, asked, acts[0].question) else asked, acts[1..])
  }

  lemma {:induction false} RunTraced(s: State, asked: seq<Question>, file: map<Key, Answer>, acts: seq<Act>)
    requires Inv(s) && Traced(s, asked, file) && Feasible(s, Events(acts)) && AllAsked(acts)
    ensures var t := Run(s, Events(acts)); Inv(t) && Traced(t, AskedIn(s, asked, acts), file)
    decreases |acts|
  {
    hide Inv, Traced, Apply, Enabled, KeyOf;
    if acts != [] {
      var e := EventOf(acts[0]);
      assert Events(acts)[0] == e && Events(acts)[1..] == Events(acts[1..]);
      StepKeepsInv(s, e);
      var asked' := if acts[0].Ask? then AskedWith(s, asked, acts[0].question) else asked;
      ActTraced(s, asked, file, acts[0]);
      RunTraced(Apply(s, e), asked', file, acts[1..]);
    }
  }

  lemma ActTraced(s: State, asked: seq<Question>, file: map<Key, Answer>, act: Act)
    requires Inv(s) && Traced(s, asked, file) && Enabled(s, EventOf(act)) && (act.Do? ==> !act.event.Submit?)
    ensures Traced(Apply(s, EventOf(act)), if act.Ask? then AskedWith(s, asked, act.question) else asked, file)
  {
    hide Inv, Traced, KeyOf, SubmitStep, AskedWith, ReplyTo;
    match act {
      case Ask(q) => AskTraced(s, asked, file, q);
      case Do(e) => StepTraced(s, e, asked, file);
    }
  }

  /**
   Over all runs and from whatever the cache file holds: a caller gets an answer that the file has for exactly
   its key, or that was given to a request for the same words and policy, or joins such a request.
   */
  lemma NoOtherQuestionServed(capacity: nat, file: map<Key, Answer>, acts: seq<Act>, q: Question)
    requires Feasible(Init(capacity, file), Events(acts)) && AllAsked(acts)
    ensures var s := Run(Init(capacity, file), Events(acts));
            var asked := AskedWith(s, AskedIn(Init(capacity, file), [], acts), q);
            Serves(s, asked, file, q, ReplyTo(s, KeyOf(q)))
  {
    var s := Init(capacity, file);
    InitInv(capacity, file);
    assert Traced(s, [], file);
    hide Inv, Traced, Serves, AskedWith, ReplyTo, KeyOf, Run;
    RunTraced(s, [], file, acts);
    RepliesServe(Run(s, Events(acts)), AskedIn(s, [], acts), file, q);
  }

  // ----- The queue as the program keeps it

  class InferenceQueue {
    const capacity: nat
    var cache: map<Key, Answer>
    var inflight: map<Key, nat>
    var queue: seq<Item>
    var worker: Worker
    var futures: seq<Future>
    ghost var hits: seq<(Key, Answer)>
    ghost var stopAt: Option<nat>
    ghost var asked: seq<Question>
    ghost const file: map<Key, Answer>

    ghost function View(): State
      reads this
    {
      State(capacity, cache, inflight, queue, worker, futures, hits, stopAt)
    }

    /** The protocol's invariant, and every answer and future belongs to a question asked. */
    ghost predicate Valid()
      reads this
    {
      Inv(View()) && Traced(View(), asked, file)
    }

    constructor (capacity: nat, cache: map<Key, Answer>)
      ensures View() == Init(capacity, cache) && asked == [] && file == cache && Valid()
    {
      this.capacity, this.cache := capacity, cache;
      inflight, queue, worker, futures, hits, stopAt, asked, file := map[], [], Waiting, [], [], None, [], cache;
    }

    /** submit, up to the point where it waits for the future. */
    method Submit(question: string, policy: string) returns (r: Reply)
      requires Valid()
      modifies this
      ensures Valid()
      ensures r == ReplyTo(old(View()), CacheKey(question, policy))
      ensures View() == SubmitStep(old(View()), CacheKey(question, policy))
      ensures asked == AskedWith(old(View()), old(asked), Question(question, policy))
      ensures Serves(old(View()), asked, file, Question(question, policy), r)
    {
      hide Inv, CacheKey, Traced, Serves;
      var key := CacheKey(question, policy);
      SubmitKeepsInv(View(), key);
      AskTraced(View(), asked, file, Question(question, policy));
      RepliesServe(View(), asked, file, Question(question, policy));
      if key in cache {
        hits := hits + [(key, cache[key])];
        return Hit(cache[key]);
      }
      if key in inflight {
        return Joined(inflight[key]);
      }
      if |queue| >= capacity {
        return Overloaded;
      }
      var id := |futures|;
      futures := futures + [Future(key, Pending)];
      inflight := inflight[key := id];
      queue := queue + [Work(Request(key, id))];
      asked := asked + [Question(question, policy)];
      return Joined(id);
    }

    /** The worker takes the next item; the sentinel ends it. */
    method TakeItem()
      requires Valid() && Enabled(View(), Take)
      modifies this
      ensures Valid() && asked == old(asked) && View() == TakeStep(old(View()))
    {
      TakeKeepsInv(View());
      StepTraced(View(), Take, asked, file);
      hide Inv, Traced;
      var item := queue[0];
      queue := queue[1..];
      match item {
        case Stop => worker := Stopped;
        case Work(request) => worker := Running(request, Checking);
      }
    }

    /** The engine looks for a cached answer before computing one. */
    method CheckCache()
      requires Valid() && Enabled(View(), Check)
      modifies this
      ensures Valid() && asked == old(asked) && View() == CheckStep(old(View()))
    {
      PhaseKeepsInv(View(), Check);
      StepTraced(View(), Check, asked, file);
      hide Inv, Traced;
      var key := worker.request.key;
      if key in cache {
        worker := Running(worker.request, Finished(Done(cache[key])));
      } else {
        worker := Running(worker.request, Computing);
      }
    }

    /** The engine's computation ends, with an answer it stores or with an exception. */
    method FinishComputing(outcome: Option<Answer>)
      requires Valid() && Enabled(View(), Compute(outcome))
      modifies this
      ensures Valid() && asked == old(asked) && View() == ComputeStep(old(View()), outcome)
    {
      PhaseKeepsInv(View(), Compute(outcome));
      StepTraced(View(), Compute(outcome), asked, file);
      hide Inv, Traced;
      match outcome {
        case None =>
          worker := Running(worker.request, Finished(Failed));
        case Some(a) =>
          cache := cache[worker.request.key := a];
          worker := Running(worker.request, Finished(Done(a)));
      }
    }

    /** The worker settles the future, then forgets the key. */
    method SettleFuture()
      requires Valid() && Enabled(View(), Resolve)
      modifies this
      ensures Valid() && asked == old(asked) && View() == ResolveStep(old(View()))
    {
      ResolveKeepsInv(View());
      StepTraced(View(), Resolve, asked, file);
      hide Inv, Traced;
      var Request(key, id) := worker.request;
      futures := futures[id := Future(futures[id].key, worker.phase.status)];
      inflight := inflight - {key};
      worker := Waiting;
    }

    /** close puts the sentinel as soon as the queue has room for it. */
    method PutSentinel()
      requires Valid() && Enabled(View(), Close)
      modifies this
      ensures Valid() && asked == old(asked) && View() == CloseStep(old(View()))
    {
      CloseKeepsInv(View());
      StepTraced(View(), Close, asked, file);
      hide Inv, Traced;
      queue := queue + [Stop];
      stopAt := Some(|futures|);
    }
  }
}
