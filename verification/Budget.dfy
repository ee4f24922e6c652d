/**
 The response cache and budget ledger around a language-model provider.  A call checks the cache and
 the budget under one lock, calls the provider without it, and commits under the lock again.
 */
module Budget {
  import opened Wrappers

  /** The cache key digests the namespace with everything else that determines the request. */
  datatype Key = Key(namespace: string, payload: string)

  datatype Usage = Usage(prompt: nat, completion: nat, total: Option<nat>)

  datatype Response = Response(content: string, usage: Usage, cacheHit: bool, cost: real)

  datatype Row = Row(namespace: string, key: Key, tokens: nat, cost: real)

  datatype Config = Config(maxRequests: nat, maxTokens: nat, inputPrice: real, outputPrice: real)

  /** The two tables, the calls between check and commit, and the responses paid for so far. */
  datatype State = State(cache: map<Key, Response>, ledger: seq<Row>, open: seq<Key>, paid: seq<(Key, Response)>)

  /** A provider that starts on the tables a file holds. */
  function Opened(cache: map<Key, Response>, ledger: seq<Row>): State {
    State(cache, ledger, [], [])
  }

  const EMPTY := Opened(map[], [])

  function TotalTokens(u: Usage): nat {
    match u.total
    case Some(n) => n
    case None => u.prompt + u.completion
  }

  function Priced(config: Config, r: Response): Response {
    r.(cacheHit := false,
       cost := (r.usage.prompt as real * config.inputPrice +
                r.usage.completion as real * config.outputPrice) / 1000000.0)
  }

  function RowOf(key: Key, r: Response): Row {
    Row(key.namespace, key, TotalTokens(r.usage), r.cost)
  }

  // ----- budget_snapshot

  function Requests(ledger: seq<Row>, ns: string): nat {
    if ledger == [] then 0
    else Requests(ledger[..|ledger| - 1], ns) + (if ledger[|ledger| - 1].namespace == ns then 1 else 0)
  }

  function Tokens(ledger: seq<Row>, ns: string): nat {
    if ledger == [] then 0
    else
      var last := ledger[|ledger| - 1];
      Tokens(ledger[..|ledger| - 1], ns) + (if last.namespace == ns then last.tokens else 0)
  }

  predicate HasRow(ledger: seq<Row>, key: Key) {
    exists i :: 0 <= i < |ledger| && ledger[i].namespace == key.namespace && ledger[i].key == key
  }

  // ----- The steps of complete

  datatype Verdict = Hit(response: Response) | RequestsExhausted | TokensExhausted | Admitted

  function VerdictOn(config: Config, cache: map<Key, Response>, ledger: seq<Row>, key: Key): Verdict {
    if key in cache then Hit(cache[key].(cacheHit := true, cost := 0.0))
    else if Requests(ledger, key.namespace) >= config.maxRequests then RequestsExhausted
    else if Tokens(ledger, key.namespace) >= config.maxTokens then TokensExhausted
    else Admitted
  }

  function CheckStep(config: Config, s: State, key: Key): State {
    if VerdictOn(config, s.cache, s.ledger, key).Admitted? then s.(open := s.open + [key]) else s
  }

  function Without(open: seq<Key>, i: nat): seq<Key>
    requires i < |open|
  {
    open[..i] + open[i + 1..]
  }

  /** Both inserts ignore a row whose primary key is already there. */
  function CommitStep(config: Config, s: State, i: nat, response: Response): State
    requires i < |s.open|
  {
    var key := s.open[i];
    var stored := Priced(config, response);
    State(if key in s.cache then s.cache else s.cache[key := stored],
          if HasRow(s.ledger, key) then s.ledger else s.ledger + [RowOf(key, stored)],
          Without(s.open, i),
          s.paid + [(key, stored)])
  }

  /** The provider raises an exception: nothing is written. */
  function FailStep(s: State, i: nat): State
    requires i < |s.open|
  {
    s.(open := Without(s.open, i))
  }

  datatype Event = Check(key: Key) | Commit(call: nat, response: Response) | Fail(call: nat)

  /** The configuration frozen for each namespace; namespaces share the tables. */
  type Frozen = map<string, Config>

  predicate Enabled(frozen: Frozen, s: State, e: Event) {
    match e
    case Check(key) => key.namespace in frozen
    case Commit(i, _) => i < |s.open| && s.open[i].namespace in frozen
    case Fail(i) => i < |s.open|
  }

  function Apply(frozen: Frozen, s: State, e: Event): State
    requires Enabled(frozen, s, e)
  {
    match e
    case Check(key) => CheckStep(frozen[key.namespace], s, key)
    case Commit(i, response) => CommitStep(frozen[s.open[i].namespace], s, i, response)
    case Fail(i) => FailStep(s, i)
  }

  predicate Feasible(frozen: Frozen, s: State, events: seq<Event>)
    decreases |events|
  {
    events == [] || (Enabled(frozen, s, events[0]) && Feasible(frozen, Apply(frozen, s, events[0]), events[1..]))
  }

  function Run(frozen: Frozen, s: State, events: seq<Event>): State
    requires Feasible(frozen, s, events)
    decreases |events|
  {
    if events == [] then s else Run(frozen, Apply(frozen, s, events[0]), events[1..])
  }

  // ----- Counting

  function OpenIn(open: seq<Key>, ns: string): nat {
    if open == [] then 0
    else OpenIn(open[..|open| - 1], ns) + (if open[|open| - 1].namespace == ns then 1 else 0)
  }

  lemma {:induction false} OpenInAppend(a: seq<Key>, b: seq<Key>, ns: string)
    ensures OpenIn(a + b, ns) == OpenIn(a, ns) + OpenIn(b, ns)
  {
    if b == [] {
      assert a + b == a;
    } else {
      var front := b[..|b| - 1];
      assert (a + b)[..|a + b| - 1] == a + front;
      OpenInAppend(a, front, ns);
    }
  }

  lemma OpenInWithout(open: seq<Key>, i: nat, ns: string)
    requires i < |open|
    ensures OpenIn(open, ns) == OpenIn(Without(open, i), ns) + (if open[i].namespace == ns then 1 else 0)
  {
    assert open == open[..i] + [open[i]] + open[i + 1..];
    OpenInAppend(open[..i] + [open[i]], open[i + 1..], ns);
    OpenInAppend(open[..i], [open[i]], ns);
    OpenInAppend(open[..i], open[i + 1..], ns);
    assert [open[i]][..0] == [];
  }

  lemma RowIsIn(key: Key, r: Response)
    ensures RowOf(key, r).namespace == key.namespace && RowOf(key, r).key == key
    ensures RowOf(key, r).tokens == TotalTokens(r.usage)
  {
  }

  lemma GrownLedger(ledger: seq<Row>, row: Row, ns: string)
    ensures Requests(ledger + [row], ns) == Requests(ledger, ns) + (if row.namespace == ns then 1 else 0)
    ensures Tokens(ledger + [row], ns) == Tokens(ledger, ns) + (if row.namespace == ns then row.tokens else 0)
  {
    assert (ledger + [row])[..|ledger|] == ledger;
  }

  // ----- How far a budget can be overshot

  /** At most k calls of the namespace are between check and commit, and each commit is worth at most T tokens. */
  predicate Limited(s: State, e: Event, ns: string, k: nat, T: nat) {
    && (e.Commit? && e.call < |s.open| && s.open[e.call].namespace == ns ==> TotalTokens(e.response.usage) <= T)
    && (e.Check? && e.key.namespace == ns ==> OpenIn(s.open, ns) < k)
  }

  predicate LimitedRun(frozen: Frozen, s: State, events: seq<Event>, ns: string, k: nat, T: nat)
    requires Feasible(frozen, s, events)
    decreases |events|
  {
    events == [] || (Limited(s, events[0], ns, k, T)
                     && LimitedRun(frozen, Apply(frozen, s, events[0]), events[1..], ns, k, T))
  }

  /** Recorded and open calls together stay within the given numbers of requests and tokens. */
  predicate Within(s: State, ns: string, T: nat, requests: int, tokens: int) {
    && Requests(s.ledger, ns) + OpenIn(s.open, ns) <= requests
    && Tokens(s.ledger, ns) + Each(T, OpenIn(s.open, ns)) <= tokens
  }

  /** The numbers leave room for k calls that were admitted just below the budget. */
  predicate RoomFor(config: Config, k: nat, T: nat, requests: int, tokens: int) {
    config.maxRequests + k - 1 <= requests && config.maxTokens - 1 + Each(T, k) <= tokens
  }

  /** n calls worth T tokens each. */
  function Each(T: nat, n: nat): nat {
    n * T
  }

  lemma EachGrows(T: nat, n: nat, k: nat)
    ensures Each(T, n + 1) == Each(T, n) + T && Each(T, 0) == 0
    ensures n <= k ==> Each(T, n) <= Each(T, k)
  {
    if n <= k {
      assert n * T <= k * T;
    }
  }

  lemma CheckStaysWithin(frozen: Frozen, s: State, key: Key, ns: string, k: nat, T: nat, requests: int, tokens: int)
    requires ns in frozen && key.namespace in frozen && Limited(s, Check(key), ns, k, T)
    requires RoomFor(frozen[ns], k, T, requests, tokens) && Within(s, ns, T, requests, tokens)
    ensures Within(CheckStep(frozen[key.namespace], s, key), ns, T, requests, tokens)
  {
    hide Each, OpenIn, Requests, Tokens;
    if VerdictOn(frozen[key.namespace], s.cache, s.ledger, key).Admitted? {
      OpenOneMore(s.open, key, ns);
      EachGrows(T, OpenIn(s.open, ns) + 1, k);
    }
  }

  lemma OpenOneMore(open: seq<Key>, key: Key, ns: string)
    ensures OpenIn(open + [key], ns) == OpenIn(open, ns) + (if key.namespace == ns then 1 else 0)
  {
    assert (open + [key])[..|open|] == open;
  }

  lemma CommitStaysWithin(config: Config, s: State, i: nat, response: Response, ns: string, k: nat, T: nat,
      requests: int, tokens: int)
    requires i < |s.open| && Limited(s, Commit(i, response), ns, k, T) && Within(s, ns, T, requests, tokens)
    ensures Within(CommitStep(config, s, i, response), ns, T, requests, tokens)
  {
    hide Each, OpenIn, Requests, Tokens, Without, HasRow, TotalTokens;
    var key := s.open[i];
    OpenInWithout(s.open, i, ns);
    GrownLedger(s.ledger, RowOf(key, Priced(config, response)), ns);
    EachGrows(T, OpenIn(Without(s.open, i), ns), k);
  }

  lemma FailStaysWithin(s: State, i: nat, ns: string, T: nat, requests: int, tokens: int)
    requires i < |s.open| && Within(s, ns, T, requests, tokens)
    ensures Within(FailStep(s, i), ns, T, requests, tokens)
  {
    hide Each, OpenIn, Requests, Tokens, Without;
    OpenInWithout(s.open, i, ns);
    EachGrows(T, OpenIn(Without(s.open, i), ns), 0);
  }

  lemma {:induction false} RunStaysWithin(frozen: Frozen, s: State, events: seq<Event>, ns: string, k: nat, T: nat,
      requests: int, tokens: int)
    requires ns in frozen && Feasible(frozen, s, events) && LimitedRun(frozen, s, events, ns, k, T)
    requires RoomFor(frozen[ns], k, T, requests, tokens) && Within(s, ns, T, requests, tokens)
    ensures Within(Run(frozen, s, events), ns, T, requests, tokens)
    decreases |events|
  {
    hide Within, RoomFor, CheckStep, CommitStep;
    if events != [] {
      var e := events[0];
      match e {
        case Check(key) => CheckStaysWithin(frozen, s, key, ns, k, T, requests, tokens);
        case Commit(i, response) =>
          CommitStaysWithin(frozen[s.open[i].namespace], s, i, response, ns, k, T, requests, tokens);
        case Fail(i) => FailStaysWithin(s, i, ns, T, requests, tokens);
      }
      RunStaysWithin(frozen, Apply(frozen, s, e), events[1..], ns, k, T, requests, tokens);
    }
  }

  function Larger(a: int, b: int): int {
    if a < b then b else a
  }

  /**
   Whatever the file already holds: with at most k callers between check and commit and at most T tokens a
   call, a namespace's ledger grows at most to k - 1 requests, and to k calls' tokens less one, beyond its
   budget; one caller keeps the request budget exactly.
   */
  lemma BudgetBound(frozen: Frozen, start: State, events: seq<Event>, ns: string, k: nat, T: nat)
    requires ns in frozen && frozen[ns].maxRequests > 0 && frozen[ns].maxTokens > 0 && k > 0
    requires start.open == []
    requires Feasible(frozen, start, events) && LimitedRun(frozen, start, events, ns, k, T)
    ensures var ledger := Run(frozen, start, events).ledger;
            && Requests(ledger, ns) <= Larger(Requests(start.ledger, ns), frozen[ns].maxRequests + k - 1)
            && Tokens(ledger, ns) <= Larger(Tokens(start.ledger, ns), frozen[ns].maxTokens - 1 + k * T)
            && (k == 1 && Requests(start.ledger, ns) <= frozen[ns].maxRequests ==>
                  Requests(ledger, ns) <= frozen[ns].maxRequests)
  {
    var requests := Larger(Requests(start.ledger, ns), frozen[ns].maxRequests + k - 1);
    var tokens := Larger(Tokens(start.ledger, ns), frozen[ns].maxTokens - 1 + k * T);
    EachGrows(T, 0, k);
    RunStaysWithin(frozen, start, events, ns, k, T, requests, tokens);
  }

  // ----- The two tables

  /** Each row of the ledger accounts for a cached response, and each cached response has its one row. */
  ghost predicate Accounted(s: State) {
    && (forall i :: 0 <= i < |s.ledger| ==>
        s.ledger[i].key in s.cache && s.ledger[i] == RowOf(s.ledger[i].key, s.cache[s.ledger[i].key]))
    && (forall i, j :: 0 <= i < j < |s.ledger| ==> s.ledger[i].key != s.ledger[j].key)
    && (forall key :: key in s.cache ==> HasRow(s.ledger, key))
  }

  lemma CachedIsRecorded(s: State, key: Key)
    requires Accounted(s)
    ensures key in s.cache <==> HasRow(s.ledger, key)
  {
  }

  lemma OpenIsFree(s: State, open: seq<Key>)
    requires Accounted(s)
    ensures Accounted(s.(open := open))
  {
  }

  lemma OneRowMore(s: State, key: Key, stored: Response, open: seq<Key>, paid: seq<(Key, Response)>)
    requires Accounted(s) && key !in s.cache
    ensures Accounted(State(s.cache[key := stored], s.ledger + [RowOf(key, stored)], open, paid))
  {
    hide TotalTokens;
    var ledger := s.ledger + [RowOf(key, stored)];
    forall other | other == key || other in s.cache ensures HasRow(ledger, other) {
      if other == key {
        assert ledger[|s.ledger|].key == key;
      } else {
        var i :| 0 <= i < |s.ledger| && s.ledger[i].key == other;
        assert ledger[i].key == other;
      }
    }
  }

  lemma StepAccounted(frozen: Frozen, s: State, e: Event)
    requires Accounted(s) && Enabled(frozen, s, e)
    ensures Accounted(Apply(frozen, s, e))
  {
    hide Requests, Tokens, Priced, RowOf, HasRow;
    if e.Commit? {
      var key := s.open[e.call];
      CachedIsRecorded(s, key);
      if key !in s.cache {
        OneRowMore(s, key, Priced(frozen[key.namespace], e.response), Without(s.open, e.call),
                   s.paid + [(key, Priced(frozen[key.namespace], e.response))]);
      }
    }
  }

  lemma {:induction false} RunAccounted(frozen: Frozen, s: State, events: seq<Event>)
    requires Accounted(s) && Feasible(frozen, s, events)
    ensures Accounted(Run(frozen, s, events))
    decreases |events|
  {
    hide Accounted, Apply, Enabled;
    if events != [] {
      StepAccounted(frozen, s, events[0]);
      RunAccounted(frozen, Apply(frozen, s, events[0]), events[1..]);
    }
  }

  function KeysOf(ledger: seq<Row>, ns: string): set<Key> {
    set i | 0 <= i < |ledger| && ledger[i].namespace == ns :: ledger[i].key
  }

  lemma {:induction false} DistinctRows(ledger: seq<Row>, ns: string)
    requires forall i, j :: 0 <= i < j < |ledger| ==> ledger[i].key != ledger[j].key
    ensures |KeysOf(ledger, ns)| == Requests(ledger, ns)
  {
    if ledger != [] {
      KeysOfFront(ledger, ns);
      hide KeysOf;
      DistinctRows(ledger[..|ledger| - 1], ns);
    }
  }

  lemma KeysOfFront(ledger: seq<Row>, ns: string)
    requires ledger != [] && forall i, j :: 0 <= i < j < |ledger| ==> ledger[i].key != ledger[j].key
    ensures var last := |ledger| - 1;
            && ledger[last].key !in KeysOf(ledger[..last], ns)
            && KeysOf(ledger, ns) == KeysOf(ledger[..last], ns) +
                 (if ledger[last].namespace == ns then {ledger[last].key} else {})
  {
    var last := |ledger| - 1;
    var front := ledger[..last];
    assert forall i :: 0 <= i < last ==> front[i] == ledger[i];
  }

  /** In every reachable state the namespace's ledger keys are its cached keys, and it counts each of them once. */
  lemma LedgerKeysAreCachedKeys(frozen: Frozen, start: State, events: seq<Event>, ns: string)
    requires Accounted(start) && Feasible(frozen, start, events)
    ensures var s := Run(frozen, start, events);
            && KeysOf(s.ledger, ns) == (set key | key in s.cache && key.namespace == ns)
            && Requests(s.ledger, ns) == |set key | key in s.cache && key.namespace == ns|
  {
    RunAccounted(frozen, start, events);
    hide Run, Feasible, Requests;
    var s := Run(frozen, start, events);
    DistinctRows(s.ledger, ns);
    forall key | key in s.cache && key.namespace == ns ensures key in KeysOf(s.ledger, ns) {
      assert HasRow(s.ledger, key);
    }
    assert KeysOf(s.ledger, ns) == (set key | key in s.cache && key.namespace == ns);
  }

  // ----- What the callers get and what they pay

  /** No call is open for a key that is cached or that another open call is for. */
  predicate Exclusive(s: State) {
    && (forall i :: 0 <= i < |s.open| ==> s.open[i] !in s.cache)
    && (forall i, j :: 0 <= i < j < |s.open| ==> s.open[i] != s.open[j])
  }

  /** The caller checks no key that another caller is waiting for. */
  predicate OneCallPerKey(frozen: Frozen, s: State, events: seq<Event>)
    requires Feasible(frozen, s, events)
    decreases |events|
  {
    events == []
    || ((events[0].Check? ==> events[0].key !in s.open)
        && OneCallPerKey(frozen, Apply(frozen, s, events[0]), events[1..]))
  }

  /** Since the ledger held `before`, it and the cache gained exactly what was paid for, row by row. */
  ghost predicate PaidOnce(before: seq<Row>, s: State) {
    && |s.ledger| == |before| + |s.paid| && s.ledger[..|before|] == before
    && (forall i :: 0 <= i < |s.paid| ==>
          && s.paid[i].0 in s.cache && s.cache[s.paid[i].0] == s.paid[i].1
          && s.ledger[|before| + i] == RowOf(s.paid[i].0, s.paid[i].1))
  }

  /** The inserts of a commit are ignored: its key is cached already. */
  predicate FindsCached(s: State, e: Event) {
    e.Commit? && e.call < |s.open| && s.open[e.call] in s.cache
  }

  /** How many commits of a run find their key cached. */
  function CachedCommits(frozen: Frozen, s: State, events: seq<Event>): nat
    requires Feasible(frozen, s, events)
    decreases |events|
  {
    if events == [] then 0
    else (if FindsCached(s, events[0]) then 1 else 0) + CachedCommits(frozen, Apply(frozen, s, events[0]), events[1..])
  }

  lemma StepUnrecorded(frozen: Frozen, s: State, e: Event)
    requires Accounted(s) && Enabled(frozen, s, e)
    ensures var t := Apply(frozen, s, e);
            |t.paid| - |t.ledger| == |s.paid| - |s.ledger| + (if FindsCached(s, e) then 1 else 0)
  {
    hide Accounted, HasRow, Priced, RowOf;
    if e.Commit? {
      CachedIsRecorded(s, s.open[e.call]);
    }
  }

  lemma StepPaidOnce(frozen: Frozen, before: seq<Row>, s: State, e: Event)
    requires Accounted(s) && PaidOnce(before, s) && Enabled(frozen, s, e) && !FindsCached(s, e)
    ensures PaidOnce(before, Apply(frozen, s, e))
  {
    hide Accounted, HasRow, Priced, RowOf;
    if e.Commit? {
      CachedIsRecorded(s, s.open[e.call]);
      assert s.ledger[..|before|] == before;
    }
  }

  lemma {:induction false} RunUnrecorded(frozen: Frozen, s: State, events: seq<Event>)
    requires Accounted(s) && Feasible(frozen, s, events)
    ensures var t := Run(frozen, s, events);
            |t.paid| - |t.ledger| == |s.paid| - |s.ledger| + CachedCommits(frozen, s, events)
    decreases |events|
  {
    hide Accounted, FindsCached, Apply, Enabled;
    if events != [] {
      StepAccounted(frozen, s, events[0]);
      StepUnrecorded(frozen, s, events[0]);
      RunUnrecorded(frozen, Apply(frozen, s, events[0]), events[1..]);
    }
  }

  lemma {:induction false} RunPaidOnce(frozen: Frozen, before: seq<Row>, s: State, events: seq<Event>)
    requires Accounted(s) && PaidOnce(before, s) && Feasible(frozen, s, events) && CachedCommits(frozen, s, events) == 0
    ensures PaidOnce(before, Run(frozen, s, events))
    decreases |events|
  {
    hide Accounted, PaidOnce, FindsCached, Apply, Enabled;
    if events != [] {
      StepAccounted(frozen, s, events[0]);
      StepPaidOnce(frozen, before, s, events[0]);
      RunPaidOnce(frozen, before, Apply(frozen, s, events[0]), events[1..]);
    }
  }

  /**
   Whatever the file already holds: as many payments are missing from the ledger as commits found their key
   cached, so ledger and cache gain exactly what was paid for if and only if no commit does.
   */
  lemma LedgerListsPaymentsExactly(frozen: Frozen, start: State, events: seq<Event>)
    requires Accounted(start) && start.open == [] && start.paid == [] && Feasible(frozen, start, events)
    ensures var t := Run(frozen, start, events);
            && |t.ledger| - |start.ledger| == |t.paid| - CachedCommits(frozen, start, events)
            && (PaidOnce(start.ledger, t) <==> CachedCommits(frozen, start, events) == 0)
  {
    hide Accounted, Run, CachedCommits;
    RunUnrecorded(frozen, start, events);
    if CachedCommits(frozen, start, events) == 0 {
      RunPaidOnce(frozen, start.ledger, start, events);
    }
  }

  lemma StepExclusive(frozen: Frozen, s: State, e: Event)
    requires Exclusive(s) && Enabled(frozen, s, e) && (e.Check? ==> e.key !in s.open)
    ensures !FindsCached(s, e) && Exclusive(Apply(frozen, s, e))
  {
    hide VerdictOn, Priced, HasRow, Without;
    match e {
      case Check(key) => VerdictUncached(frozen[key.namespace], s.cache, s.ledger, key);
      case Commit(i, _) => OthersOpen(s.open, i);
      case Fail(i) => OthersOpen(s.open, i);
    }
  }

  lemma VerdictUncached(config: Config, cache: map<Key, Response>, ledger: seq<Row>, key: Key)
    ensures VerdictOn(config, cache, ledger, key).Admitted? ==> key !in cache
  {
  }

  lemma OthersOpen(open: seq<Key>, i: nat)
    requires i < |open| && forall j, k :: 0 <= j < k < |open| ==> open[j] != open[k]
    ensures var rest := Without(open, i);
            && (forall j :: 0 <= j < |rest| ==> rest[j] in open && rest[j] != open[i])
            && (forall j, k :: 0 <= j < k < |rest| ==> rest[j] != rest[k])
  {
    var rest := Without(open, i);
    assert forall j :: 0 <= j < |rest| ==> rest[j] == if j < i then open[j] else open[j + 1];
  }

  /** What callers can arrange: no commit finds its key cached if no caller checks a key another one waits for. */
  lemma {:induction false} OneCallPerKeyPaysOnce(frozen: Frozen, s: State, events: seq<Event>)
    requires Exclusive(s) && Feasible(frozen, s, events) && OneCallPerKey(frozen, s, events)
    ensures CachedCommits(frozen, s, events) == 0
    decreases |events|
  {
    hide Exclusive, FindsCached, Apply, Enabled;
    if events != [] {
      StepExclusive(frozen, s, events[0]);
      OneCallPerKeyPaysOnce(frozen, Apply(frozen, s, events[0]), events[1..]);
    }
  }

  /** How many payments bought another response than the one the cache keeps. */
  function Unrepeated(cache: map<Key, Response>, paid: seq<(Key, Response)>): nat {
    if paid == [] then 0
    else
      var (key, response) := paid[|paid| - 1];
      Unrepeated(cache, paid[..|paid| - 1]) + (if key in cache && cache[key] == response then 0 else 1)
  }

  predicate PaidIsCached(s: State) {
    forall i :: 0 <= i < |s.paid| ==> s.paid[i].0 in s.cache
  }

  /** Another call has stored a different response since the check. */
  predicate FindsOther(frozen: Frozen, s: State, e: Event) {
    && FindsCached(s, e) && s.open[e.call].namespace in frozen
    && s.cache[s.open[e.call]] != Priced(frozen[s.open[e.call].namespace], e.response)
  }

  /** How many commits of a run find a different response under their key. */
  function OtherCommits(frozen: Frozen, s: State, events: seq<Event>): nat
    requires Feasible(frozen, s, events)
    decreases |events|
  {
    if events == [] then 0
    else
      (if FindsOther(frozen, s, events[0]) then 1 else 0)
      + OtherCommits(frozen, Apply(frozen, s, events[0]), events[1..])
  }

  lemma {:induction false} GrownCache(before: map<Key, Response>, after: map<Key, Response>, paid: seq<(Key, Response)>)
    requires forall i :: 0 <= i < |paid| ==> paid[i].0 in before
    requires forall key :: key in before ==> key in after && after[key] == before[key]
    ensures Unrepeated(after, paid) == Unrepeated(before, paid)
  {
    if paid != [] {
      GrownCache(before, after, paid[..|paid| - 1]);
    }
  }

  lemma StepUnrepeated(frozen: Frozen, s: State, e: Event)
    requires PaidIsCached(s) && Enabled(frozen, s, e)
    ensures var t := Apply(frozen, s, e);
            && PaidIsCached(t)
            && Unrepeated(t.cache, t.paid) == Unrepeated(s.cache, s.paid) + (if FindsOther(frozen, s, e) then 1 else 0)
  {
    hide HasRow, Priced, RowOf, VerdictOn;
    if e.Commit? {
      var t := Apply(frozen, s, e);
      GrownCache(s.cache, t.cache, s.paid);
      assert t.paid[..|s.paid|] == s.paid;
    }
  }

  lemma {:induction false} RunUnrepeated(frozen: Frozen, s: State, events: seq<Event>)
    requires PaidIsCached(s) && Feasible(frozen, s, events)
    ensures var t := Run(frozen, s, events);
            && PaidIsCached(t)
            && Unrepeated(t.cache, t.paid) == Unrepeated(s.cache, s.paid) + OtherCommits(frozen, s, events)
    decreases |events|
  {
    hide PaidIsCached, Unrepeated, FindsOther, Apply, Enabled;
    if events != [] {
      StepUnrepeated(frozen, s, events[0]);
      RunUnrepeated(frozen, Apply(frozen, s, events[0]), events[1..]);
    }
  }

  lemma {:induction false} AllRepeated(cache: map<Key, Response>, paid: seq<(Key, Response)>)
    ensures Unrepeated(cache, paid) == 0 <==> forall i :: 0 <= i < |paid| ==> paid[i] in cache.Items
  {
    if paid != [] {
      var front := paid[..|paid| - 1];
      AllRepeated(cache, front);
      assert forall i :: 0 <= i < |front| ==> front[i] == paid[i];
    }
  }

  /**
   Whatever the file already holds: as many callers were handed a response that later hits do not repeat as
   commits found a different one cached, so all are repeated for ever if and only if no commit does.
   */
  lemma PaidIsRepeatedExactly(frozen: Frozen, start: State, events: seq<Event>)
    requires start.paid == [] && Feasible(frozen, start, events)
    ensures var t := Run(frozen, start, events);
            && Unrepeated(t.cache, t.paid) == OtherCommits(frozen, start, events)
            && ((forall i :: 0 <= i < |t.paid| ==> t.paid[i] in t.cache.Items)
                <==> OtherCommits(frozen, start, events) == 0)
  {
    hide Run, OtherCommits, Feasible;
    RunUnrepeated(frozen, start, events);
    AllRepeated(Run(frozen, start, events).cache, Run(frozen, start, events).paid);
  }

  // ----- Prices

  /** The response was paid for at the namespace's prices, a million tokens each. */
  predicate PaidFor(config: Config, r: Response) {
    && !r.cacheHit
    && r.cost * 1000000.0
       == r.usage.prompt as real * config.inputPrice + r.usage.completion as real * config.outputPrice
  }

  ghost predicate AtPrices(frozen: Frozen, s: State) {
    && (forall key :: key in s.cache && key.namespace in frozen ==> PaidFor(frozen[key.namespace], s.cache[key]))
    && (forall i :: 0 <= i < |s.paid| && s.paid[i].0.namespace in frozen ==>
          PaidFor(frozen[s.paid[i].0.namespace], s.paid[i].1))
  }

  lemma PricedIsPaidFor(config: Config, r: Response)
    ensures PaidFor(config, Priced(config, r))
    ensures Priced(config, r).content == r.content && Priced(config, r).usage == r.usage
  {
    var total := r.usage.prompt as real * config.inputPrice + r.usage.completion as real * config.outputPrice;
    assert total / 1000000.0 * 1000000.0 == total;
  }

  lemma StepAtPrices(frozen: Frozen, s: State, e: Event)
    requires AtPrices(frozen, s) && Enabled(frozen, s, e)
    ensures AtPrices(frozen, Apply(frozen, s, e))
  {
    hide HasRow, Priced, RowOf, VerdictOn, PaidFor;
    if e.Commit? {
      PricedIsPaidFor(frozen[s.open[e.call].namespace], e.response);
    }
  }

  lemma {:induction false} RunAtPrices(frozen: Frozen, s: State, events: seq<Event>)
    requires AtPrices(frozen, s) && Feasible(frozen, s, events)
    ensures AtPrices(frozen, Run(frozen, s, events))
    decreases |events|
  {
    hide AtPrices, Apply, Enabled;
    if events != [] {
      StepAtPrices(frozen, s, events[0]);
      RunAtPrices(frozen, Apply(frozen, s, events[0]), events[1..]);
    }
  }

  /** Tokens as the provider totals them, or else prompt and completion together. */
  predicate IsTotal(u: Usage, tokens: nat) {
    tokens == if u.total.Some? then u.total.value else u.prompt + u.completion
  }

  /**
   In every reachable state each row of the ledger charges the tokens of the cached response it accounts for, at
   its namespace's prices.
   */
  lemma LedgerChargesPrices(frozen: Frozen, start: State, events: seq<Event>)
    requires Accounted(start) && AtPrices(frozen, start) && Feasible(frozen, start, events)
    ensures var s := Run(frozen, start, events);
            forall i :: 0 <= i < |s.ledger| ==>
              var row := s.ledger[i];
              && row.key in s.cache && row.namespace == row.key.namespace
              && IsTotal(s.cache[row.key].usage, row.tokens)
              && row.cost == s.cache[row.key].cost
              && (row.namespace in frozen ==> PaidFor(frozen[row.namespace], s.cache[row.key]))
  {
    hide Run, Feasible, HasRow, PaidFor;
    RunAccounted(frozen, start, events);
    RunAtPrices(frozen, start, events);
  }

  /** A hit costs nothing and repeats the cached content and usage; a payment that is cached is repeated so. */
  lemma HitRepeats(config: Config, s: State, key: Key)
    ensures key in s.cache <==> VerdictOn(config, s.cache, s.ledger, key).Hit?
    ensures key in s.cache ==>
              var hit := VerdictOn(config, s.cache, s.ledger, key).response;
              && hit.content == s.cache[key].content && hit.usage == s.cache[key].usage
              && hit.cost == 0.0 && hit.cacheHit
  {
    hide Requests, Tokens;
  }

  /** Two callers that miss on one key: both pay, one is recorded, and the second gets what no one gets again. */
  lemma SecondCallerUnrecorded(config: Config, a: Response, b: Response)
    requires config.maxRequests > 0 && config.maxTokens > 0
    requires Priced(config, a) != Priced(config, b)
    ensures var key := Key("n", "q");
            exists events, s :: Reaches(map["n" := config], s, events)
              && |s.paid| == 2 && s.paid[1].0 == key
              && Requests(s.ledger, "n") == 1 && Tokens(s.ledger, "n") == TotalTokens(a.usage)
              && key in s.cache && s.paid[1].1 != s.cache[key]
  {
    hide Priced, TotalTokens, RowOf, Reaches, Run, Feasible, Requests, Tokens;
    var key := Key("n", "q");
    var frozen := map["n" := config];
    var row := RowOf(key, Priced(config, a));
    var s2 := State(map[], [], [key, key], []);
    var s3 := State(map[key := Priced(config, a)], [row], [key], [(key, Priced(config, a))]);
    TwoChecks(config, key);
    var events := [] + [Check(key)] + [Check(key)];
    RowIsIn(key, Priced(config, a));
    assert Without(s2.open, 0) == [key] && Apply(frozen, s2, Commit(0, a)) == s3;
    ReachesOneMore(frozen, s2, events, Commit(0, a));
    assert s3.ledger[0].key == key && HasRow(s3.ledger, key);
    ReachesOneMore(frozen, s3, events + [Commit(0, a)], Commit(0, b));
    var s4 := Apply(frozen, s3, Commit(0, b));
    OneRow(row, "n");
    PricedKeepsUsage(config, a);
    assert s4.ledger == [row] && s4.paid[1] == (key, Priced(config, b));
  }

  lemma OneRow(row: Row, ns: string)
    requires row.namespace == ns
    ensures Requests([row], ns) == 1 && Tokens([row], ns) == row.tokens
  {
    GrownLedger([], row, ns);
    assert [] + [row] == [row];
  }

  lemma TwoChecks(config: Config, key: Key)
    requires config.maxRequests > 0 && config.maxTokens > 0 && key.namespace == "n"
    ensures Reaches(map["n" := config], State(map[], [], [key, key], []), [] + [Check(key)] + [Check(key)])
  {
    hide Reaches, Run, Feasible;
    var frozen := map["n" := config];
    var s1 := State(map[], [], [key], []);
    NothingReaches(frozen);
    assert Apply(frozen, EMPTY, Check(key)) == s1;
    ReachesOneMore(frozen, EMPTY, [], Check(key));
    assert Apply(frozen, s1, Check(key)) == State(map[], [], [key, key], []);
    ReachesOneMore(frozen, s1, [] + [Check(key)], Check(key));
  }

  lemma PricedKeepsUsage(config: Config, r: Response)
    ensures Priced(config, r).usage == r.usage
  {
  }

  ghost predicate Reaches(frozen: Frozen, s: State, events: seq<Event>) {
    Feasible(frozen, EMPTY, events) && Run(frozen, EMPTY, events) == s
  }

  lemma NothingReaches(frozen: Frozen)
    ensures Reaches(frozen, EMPTY, [])
  {
  }

  lemma {:induction false} RunOneMore(frozen: Frozen, s: State, events: seq<Event>, e: Event)
    requires Feasible(frozen, s, events) && Enabled(frozen, Run(frozen, s, events), e)
    ensures Feasible(frozen, s, events + [e])
    ensures Run(frozen, s, events + [e]) == Apply(frozen, Run(frozen, s, events), e)
    ensures forall ns, k, T ::
              LimitedRun(frozen, s, events, ns, k, T) && Limited(Run(frozen, s, events), e, ns, k, T) ==>
                LimitedRun(frozen, s, events + [e], ns, k, T)
    decreases |events|
  {
    hide Apply, Enabled, Limited;
    if events == [] {
      assert [e][1..] == [];
    } else {
      assert (events + [e])[1..] == events[1..] + [e];
      RunOneMore(frozen, Apply(frozen, s, events[0]), events[1..], e);
    }
  }

  lemma ReachesOneMore(frozen: Frozen, s: State, events: seq<Event>, e: Event)
    requires Reaches(frozen, s, events) && Enabled(frozen, s, e)
    ensures Reaches(frozen, Apply(frozen, s, e), events + [e])
  {
    hide Apply, Enabled, Run, Feasible;
    RunOneMore(frozen, EMPTY, events, e);
  }

  // ----- The bound is reached

  /** A run of at most k overlapping calls of at most T tokens each, and where it ends. */
  ghost predicate Leads(frozen: Frozen, s: State, events: seq<Event>, ns: string, k: nat, T: nat) {
    Feasible(frozen, EMPTY, events) && LimitedRun(frozen, EMPTY, events, ns, k, T) && Run(frozen, EMPTY, events) == s
  }

  lemma LeadsOneMore(frozen: Frozen, s: State, events: seq<Event>, ns: string, k: nat, T: nat, e: Event)
    requires Leads(frozen, s, events, ns, k, T) && Enabled(frozen, s, e) && Limited(s, e, ns, k, T)
    ensures Leads(frozen, Apply(frozen, s, e), events + [e], ns, k, T)
  {
    hide Apply, Enabled, Run, Feasible, LimitedRun, Limited;
    RunOneMore(frozen, EMPTY, events, e);
  }

  function Numbered(ns: string, n: nat): Key {
    Key(ns, seq(n, _ => 'q'))
  }

  function Costing(tokens: nat): Response {
    Response("", Usage(tokens, 0, None), false, 0.0)
  }

  /** Requests 0..done of the namespace are recorded with the tokens they spent, and the next ones are open. */
  ghost predicate Progressed(s: State, ns: string, done: nat, waiting: nat, spent: nat) {
    && Requests(s.ledger, ns) == done && Tokens(s.ledger, ns) == spent
    && |s.open| == waiting
    && (forall i :: 0 <= i < waiting ==> s.open[i] == Numbered(ns, done + i))
    && (forall key :: key in s.cache ==> |key.payload| < done)
    && (forall i :: 0 <= i < |s.ledger| ==> |s.ledger[i].key.payload| < done)
  }

  lemma {:induction false} AllOpenIn(open: seq<Key>, ns: string)
    requires forall i :: 0 <= i < |open| ==> open[i].namespace == ns
    ensures OpenIn(open, ns) == |open|
  {
    if open != [] {
      AllOpenIn(open[..|open| - 1], ns);
    }
  }

  lemma OneMoreWaiting(frozen: Frozen, s: State, events: seq<Event>, ns: string, k: nat, T: nat, done: nat,
      waiting: nat, spent: nat)
    returns (more: seq<Event>, t: State)
    requires ns in frozen && done < frozen[ns].maxRequests && spent < frozen[ns].maxTokens && waiting < k
    requires Leads(frozen, s, events, ns, k, T) && Progressed(s, ns, done, waiting, spent)
    ensures Leads(frozen, t, more, ns, k, T) && Progressed(t, ns, done, waiting + 1, spent)
  {
    hide Leads;
    var e := Check(Numbered(ns, done + waiting));
    AllOpenIn(s.open, ns);
    LeadsOneMore(frozen, s, events, ns, k, T, e);
    more, t := events + [e], Apply(frozen, s, e);
  }

  lemma OneMoreDone(frozen: Frozen, s: State, events: seq<Event>, ns: string, k: nat, T: nat, done: nat, waiting: nat,
      spent: nat, tokens: nat)
    returns (more: seq<Event>, t: State)
    requires ns in frozen && waiting > 0 && tokens <= T
    requires Leads(frozen, s, events, ns, k, T) && Progressed(s, ns, done, waiting, spent)
    ensures Leads(frozen, t, more, ns, k, T) && Progressed(t, ns, done + 1, waiting - 1, spent + tokens)
  {
    hide Leads, Progressed, Apply, Costing;
    var e := Commit(0, Costing(tokens));
    CommitProgresses(frozen, s, ns, done, waiting, spent, tokens);
    LeadsOneMore(frozen, s, events, ns, k, T, e);
    more, t := events + [e], Apply(frozen, s, e);
  }

  lemma CommitProgresses(frozen: Frozen, s: State, ns: string, done: nat, waiting: nat, spent: nat, tokens: nat)
    requires ns in frozen && waiting > 0 && Progressed(s, ns, done, waiting, spent)
    ensures var e := Commit(0, Costing(tokens));
            && Enabled(frozen, s, e) && TotalTokens(e.response.usage) == tokens
            && Progressed(Apply(frozen, s, e), ns, done + 1, waiting - 1, spent + tokens)
  {
    hide Requests, Tokens;
    var key := s.open[0];
    var stored := Priced(frozen[ns], Costing(tokens));
    assert |key.payload| == done && !HasRow(s.ledger, key);
    GrownLedger(s.ledger, RowOf(key, stored), ns);
    RowIsIn(key, stored);
    PricedKeepsUsage(frozen[ns], Costing(tokens));
    var rest := Without(s.open, 0);
    assert rest == s.open[1..];
    forall i | 0 <= i < waiting - 1 ensures rest[i] == Numbered(ns, done + 1 + i) {
      assert rest[i] == s.open[i + 1];
    }
  }

  function Smaller(a: nat, b: nat): nat {
    if a < b then a else b
  }

  /** The most tokens that calls of at most T tokens each can record while one more call is still admitted. */
  function Almost(config: Config, T: nat): nat
    requires config.maxRequests > 0 && config.maxTokens > 0
  {
    Smaller(config.maxTokens - 1, Each(T, config.maxRequests - 1))
  }

  /**
   The bound cannot be improved: from an empty file, k overlapping callers can leave maxRequests + k - 1 requests
   in the ledger, and in the same run as many tokens as requests below the budget can cost, and k times T more.
   */
  lemma BoundIsReached(config: Config, ns: string, k: nat, T: nat)
    requires config.maxRequests > 0 && config.maxTokens > 0 && k > 0
    ensures exists events, s ::
              && Leads(map[ns := config], s, events, ns, k, T)
              && Requests(s.ledger, ns) == config.maxRequests + k - 1
              && Tokens(s.ledger, ns) == Almost(config, T) + k * T
  {
    hide Leads, Requests, Tokens, Each;
    var frozen := map[ns := config];
    var last := config.maxRequests - 1;
    EachGrows(T, 0, 0);
    var events, s := FilledUp(config, ns, k, T);
    var spent := Almost(config, T);
    for waiting := 0 to k
      invariant Leads(frozen, s, events, ns, k, T) && Progressed(s, ns, last, waiting, spent)
    {
      events, s := OneMoreWaiting(frozen, s, events, ns, k, T, last, waiting, spent);
    }
    for extra := 0 to k
      invariant Leads(frozen, s, events, ns, k, T) && Progressed(s, ns, last + extra, k - extra, spent + Each(T, extra))
    {
      EachGrows(T, extra, extra);
      events, s := OneMoreDone(frozen, s, events, ns, k, T, last + extra, k - extra, spent + Each(T, extra), T);
    }
    assert Each(T, k) == k * T by { EachIsProduct(T, k); }
  }

  lemma EachIsProduct(T: nat, n: nat)
    ensures Each(T, n) == n * T
  {
  }

  /** One call after the other, up to the last request of the budget. */
  lemma FilledUp(config: Config, ns: string, k: nat, T: nat) returns (events: seq<Event>, s: State)
    requires config.maxRequests > 0 && config.maxTokens > 0 && k > 0
    ensures Leads(map[ns := config], s, events, ns, k, T)
    ensures Progressed(s, ns, config.maxRequests - 1, 0, Almost(config, T))
  {
    hide Leads, Progressed, Each;
    var frozen := map[ns := config];
    var spent := 0;
    events, s := [], EMPTY;
    StartsProgressed(frozen, ns, k, T);
    EachGrows(T, 0, 0);
    for done := 0 to config.maxRequests - 1
      invariant spent == Smaller(config.maxTokens - 1, Each(T, done))
      invariant Leads(frozen, s, events, ns, k, T) && Progressed(s, ns, done, 0, spent)
    {
      EachGrows(T, done, done);
      var tokens := Smaller(T, config.maxTokens - 1 - spent);
      events, s := OneMoreWaiting(frozen, s, events, ns, k, T, done, 0, spent);
      events, s := OneMoreDone(frozen, s, events, ns, k, T, done, 1, spent, tokens);
      spent := spent + tokens;
    }
  }

  lemma StartsProgressed(frozen: Frozen, ns: string, k: nat, T: nat)
    ensures Leads(frozen, EMPTY, [], ns, k, T) && Progressed(EMPTY, ns, 0, 0, 0)
  {
  }

  lemma StepCostsAtMost(frozen: Frozen, s: State, e: Event, ns: string, k: nat, T: nat)
    requires Enabled(frozen, s, e) && Limited(s, e, ns, k, T)
    requires Tokens(s.ledger, ns) <= Each(T, Requests(s.ledger, ns))
    ensures var t := Apply(frozen, s, e); Tokens(t.ledger, ns) <= Each(T, Requests(t.ledger, ns))
  {
    hide Each, Requests, Tokens, Without, HasRow, TotalTokens;
    if e.Commit? {
      var key, config := s.open[e.call], frozen[s.open[e.call].namespace];
      GrownLedger(s.ledger, RowOf(key, Priced(config, e.response)), ns);
      RowIsIn(key, Priced(config, e.response));
      PricedKeepsUsage(config, e.response);
      EachGrows(T, Requests(s.ledger, ns), 0);
    }
  }

  lemma {:induction false} RunCostsAtMost(frozen: Frozen, s: State, events: seq<Event>, ns: string, k: nat, T: nat)
    requires Feasible(frozen, s, events) && LimitedRun(frozen, s, events, ns, k, T)
    requires Tokens(s.ledger, ns) <= Each(T, Requests(s.ledger, ns))
    ensures var t := Run(frozen, s, events); Tokens(t.ledger, ns) <= Each(T, Requests(t.ledger, ns))
    decreases |events|
  {
    hide Each, Requests, Tokens, Limited, Apply, Enabled;
    if events != [] {
      StepCostsAtMost(frozen, s, events[0], ns, k, T);
      RunCostsAtMost(frozen, Apply(frozen, s, events[0]), events[1..], ns, k, T);
    }
  }

  /** From an empty file no run of k overlapping callers records more tokens than the one that reaches the bound. */
  lemma MostTokens(frozen: Frozen, s: State, events: seq<Event>, ns: string, k: nat, T: nat)
    requires ns in frozen && frozen[ns].maxRequests > 0 && frozen[ns].maxTokens > 0 && k > 0
    requires Leads(frozen, s, events, ns, k, T)
    ensures Tokens(s.ledger, ns) <= Almost(frozen[ns], T) + k * T
  {
    BudgetBound(frozen, EMPTY, events, ns, k, T);
    EachGrows(T, 0, 0);
    RunCostsAtMost(frozen, EMPTY, events, ns, k, T);
    hide Run, LimitedRun, Feasible, Tokens, Requests;
    var last := frozen[ns].maxRequests - 1;
    EachGrows(T, Requests(s.ledger, ns), last + k);
    EachAdds(T, last, k);
  }

  lemma EachAdds(T: nat, a: nat, b: nat)
    ensures Each(T, a + b) == Each(T, a) + b * T
  {
    assert (a + b) * T == a * T + b * T;
  }

  /** So k callers can use up the token bound if and only if the requests below the budget can use up its tokens. */
  lemma TokenBoundReachedExactly(config: Config, ns: string, k: nat, T: nat)
    requires config.maxRequests > 0 && config.maxTokens > 0 && k > 0
    ensures (exists events, s ::
               Leads(map[ns := config], s, events, ns, k, T) && Tokens(s.ledger, ns) == config.maxTokens - 1 + k * T)
            <==> config.maxTokens - 1 <= (config.maxRequests - 1) * T
  {
    hide Leads, Tokens, Requests;
    if events, s :| Leads(map[ns := config], s, events, ns, k, T)
                    && Tokens(s.ledger, ns) == config.maxTokens - 1 + k * T {
      MostTokens(map[ns := config], s, events, ns, k, T);
    }
    BoundIsReached(config, ns, k, T);
  }

  // ----- The provider as the program keeps it

  class CachedBudgetProvider {
    const namespace: string
    const config: Config
    var cache: map<Key, Response>
    var ledger: seq<Row>
    ghost var open: seq<Key>
    ghost var paid: seq<(Key, Response)>

    ghost function View(): State
      reads this
    {
      State(cache, ledger, open, paid)
    }

    constructor (namespace: string, config: Config, cache: map<Key, Response>, ledger: seq<Row>)
      requires config.maxRequests > 0 && config.maxTokens > 0 && Accounted(Opened(cache, ledger))
      ensures View() == Opened(cache, ledger) && this.namespace == namespace && this.config == config
    {
      this.namespace, this.config := namespace, config;
      this.cache, this.ledger, open, paid := cache, ledger, [], [];
    }

    method BudgetSnapshot() returns (requests: nat, tokens: nat)
      ensures requests == Requests(ledger, namespace) && tokens == Tokens(ledger, namespace)
    {
      requests, tokens := 0, 0;
      var i := 0;
      while i < |ledger|
        invariant 0 <= i <= |ledger|
        invariant requests == Requests(ledger[..i], namespace) && tokens == Tokens(ledger[..i], namespace)
      {
        GrownLedger(ledger[..i], ledger[i], namespace);
        assert ledger[..i + 1] == ledger[..i] + [ledger[i]];
        if ledger[i].namespace == namespace {
          requests := requests + 1;
          tokens := tokens + ledger[i].tokens;
        }
        i := i + 1;
      }
      assert ledger[..i] == ledger;
    }

    /** complete, before the provider is called. */
    method BeforeCall(payload: string) returns (verdict: Verdict)
      modifies this
      ensures verdict == VerdictOn(config, old(cache), old(ledger), Key(namespace, payload))
      ensures View() == CheckStep(config, old(View()), Key(namespace, payload))
    {
      var key := Key(namespace, payload);
      if key in cache {
        return Hit(cache[key].(cacheHit := true, cost := 0.0));
      }
      var requests, tokens := BudgetSnapshot();
      if requests >= config.maxRequests {
        return RequestsExhausted;
      }
      if tokens >= config.maxTokens {
        return TokensExhausted;
      }
      open := open + [key];
      return Admitted;
    }

    /** complete, after the provider has replied. */
    method AfterCall(payload: string, response: Response, ghost call: nat) returns (stored: Response)
      requires call < |open| && open[call] == Key(namespace, payload)
      requires Accounted(View())
      modifies this
      ensures stored == Priced(config, response)
      ensures View() == CommitStep(config, old(View()), call, response)
      ensures Accounted(View())
    {
      hide Accounted, HasRow, Priced, RowOf, Without;
      var key := Key(namespace, payload);
      StepAccounted(map[namespace := config], View(), Commit(call, response));
      stored := Priced(config, response);
      var recorded := HasRow(ledger, key);
      if key !in cache {
        cache := cache[key := stored];
      }
      if !recorded {
        ledger := ledger + [RowOf(key, stored)];
      }
      open := Without(open, call);
      paid := paid + [(key, stored)];
    }

    /**
     complete when no other call is under way: what it returns is what the cache then holds, and the budget is
     kept.
     */
    method Complete(payload: string, reply: Option<Response>) returns (r: Result<Response>)
      requires Accounted(View()) && open == []
      modifies this
      ensures Accounted(View()) && open == []
      ensures var key := Key(namespace, payload);
              match VerdictOn(config, old(cache), old(ledger), key)
              case Hit(hit) => r == Ok(hit) && View() == old(View())
              case Admitted =>
                if reply.None? then r.Raised? && View() == old(View())
                else r == Ok(Priced(config, reply.value)) && cache == old(cache)[key := r.value]
                     && ledger == old(ledger) + [RowOf(key, r.value)]
              case _ => r.Raised? && View() == old(View())
      ensures old(Requests(ledger, namespace)) <= config.maxRequests ==>
              Requests(ledger, namespace) <= config.maxRequests
    {
      hide Accounted, Priced, RowOf, HasRow, Tokens, Requests;
      var key := Key(namespace, payload);
      CachedIsRecorded(View(), key);
      OpenIsFree(View(), [key]);
      var verdict := BeforeCall(payload);
      match verdict {
        case Hit(hit) => return Ok(hit);
        case RequestsExhausted => return Raised("LLM request budget exhausted");
        case TokensExhausted => return Raised("LLM token budget exhausted");
        case Admitted =>
      }
      if reply.None? {
        open := open[..0];
        return Raised("provider error");
      }
      GrownLedger(ledger, RowOf(key, Priced(config, reply.value)), namespace);
      RowIsIn(key, Priced(config, reply.value));
      assert open == [key] && View() == old(View()).(open := [key]);
      var stored := AfterCall(payload, reply.value, 0);
      return Ok(stored);
    }
  }
}
