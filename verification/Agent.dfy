/**
 The bounded research loop: a planner node, a tools node and an answer node over one state, driven by
 a language model and services that may do anything.
 */
module Agent {
  import opened Wrappers
  import opened AgentTools
  import opened Numerals

  datatype Call = Call(id: string, name: string, arguments: Arguments)

  datatype Message = System | User(question: string) | Assistant(calls: seq<Call>) | Reply(callId: string, name: string)

  /** The limits frozen for a run. */
  datatype Limits = Limits(
    maxTurns: nat,
    maxRetrievals: nat,
    maxReranks: nat,
    maxFusions: nat,
    retries: nat,
    allowed: seq<string>)

  datatype State = State(
    question: string,
    messages: seq<Message>,
    registry: Registry,
    pending: seq<Call>,
    selected: Option<string>,
    stopReason: Option<string>,
    answer: string,
    turns: nat,
    retrievals: nat,
    reranks: nat,
    fusions: nat,
    toolCalls: nat,
    toolErrors: nat,
    exhaustions: nat,
    toolUsage: map<string, nat>,
    llmCalls: nat)

  function Start(question: string): State {
    State(question, [System, User(question)], Registry(map[], []), [], None, None, "", 0, 0, 0, 0, 0, 0, 0, map[], 0)
  }

  datatype Attempt = Replies(calls: seq<Call>) | ProviderError | NotImplemented

  /**
   Everything the program does not decide: the model's reaction to its n-th planner call, the services'
   to the n-th tool call, and the generated answer, or none when the provider fails.
   */
  datatype World = World(planner: nat -> Attempt, service: nat -> Service, generated: Option<string>)

  // ----- The nodes

  function ForceFinish(s: State, reason: string): State {
    var order := s.registry.order;
    s.(selected := if s.selected.None? && order != [] then Some(order[|order| - 1]) else s.selected,
       stopReason := Some(reason),
       pending := [])
  }

  /** The planner's reply, after as many attempts as a provider error needs and the retries permit. */
  function Ask(l: Limits, w: World, s: State, attempt: nat): (State, Attempt)
    requires attempt <= l.retries
    decreases l.retries - attempt
  {
    var reply := w.planner(s.llmCalls);
    var t := s.(llmCalls := s.llmCalls + 1);
    if reply.ProviderError? && attempt < l.retries then Ask(l, w, t, attempt + 1) else (t, reply)
  }

  function PlannerNode(l: Limits, w: World, s: State): State {
    if s.turns >= l.maxTurns then ForceFinish(s, "max_steps")
    else
      var (t, reply) := Ask(l, w, s, 0);
      match reply
      case Replies(calls) =>
        var u := t.(messages := t.messages + [Assistant(calls)], pending := calls, turns := t.turns + 1);
        if calls != [] then u
        else ForceFinish(u, if u.registry.order != [] then "model_finalize" else "model_stop_no_ranking")
      case _ => ForceFinish(t, "planner_error")
  }

  datatype Budget = NotAllowed | Exhausted | Permitted

  function CheckToolBudget(l: Limits, s: State, name: string): Budget {
    if name !in l.allowed then NotAllowed
    else if IsSearch(name) then if s.retrievals >= l.maxRetrievals then Exhausted else Permitted
    else if name == "rerank" && s.reranks >= l.maxReranks then Exhausted
    else if name == "fuse_rankings" && s.fusions >= l.maxFusions then Exhausted
    else Permitted
  }

  function CountTool(s: State, name: string): State {
    if IsSearch(name) then s.(retrievals := s.retrievals + 1)
    else if name == "rerank" then s.(reranks := s.reranks + 1)
    else if name == "fuse_rankings" then s.(fusions := s.fusions + 1)
    else s
  }

  function Started(s: State, name: string): State {
    s.(toolCalls := s.toolCalls + 1,
       toolUsage := s.toolUsage[name := (if name in s.toolUsage then s.toolUsage[name] else 0) + 1])
  }

  /** What the outcome of an executed tool changes. */
  function Settle(s: State, name: string, reg: Registry, outcome: Outcome): State {
    match outcome
    case Stored(_) => CountTool(s.(registry := reg), name)
    case Finished(id) => CountTool(s.(registry := reg), name).(selected := Some(id), stopReason := Some("finished"))
    case Error(_) => s.(registry := reg, toolErrors := s.toolErrors + 1)
  }

  function RunTool(l: Limits, w: World, s: State, call: Call): State {
    var t := Started(s, call.name);
    match CheckToolBudget(l, t, call.name)
    case NotAllowed => t.(toolErrors := t.toolErrors + 1)
    case Exhausted => t.(exhaustions := t.exhaustions + 1)
    case Permitted =>
      var (reg, outcome) := Execute(t.registry, call.name, call.arguments, t.question, w.service(s.toolCalls));
      Settle(t, call.name, reg, outcome)
  }

  function AnswerTool(s: State, call: Call): State {
    s.(messages := s.messages + [Reply(call.id, call.name)])
  }

  /** The calls of one turn, up to the one that finishes the research. */
  function RunTools(l: Limits, w: World, s: State, calls: seq<Call>): State
    decreases |calls|
  {
    if calls == [] then s
    else
      var t := AnswerTool(RunTool(l, w, s, calls[0]), calls[0]);
      if t.selected.Some? then t else RunTools(l, w, t, calls[1..])
  }

  function ToolNode(l: Limits, w: World, s: State): State {
    var t := RunTools(l, w, s.(pending := []), s.pending);
    if t.turns >= l.maxTurns && t.selected.None? then ForceFinish(t, "max_steps") else t
  }

  function AnswerNode(w: World, s: State): State {
    if s.selected.None? then
      s.(answer := "", stopReason := if s.stopReason.Some? then s.stopReason else Some("no_ranking"))
    else match w.generated
         case Some(text) => s.(answer := text, llmCalls := s.llmCalls + 1)
         case None => s.(answer := "", stopReason := Some("answer_error"))
  }

  // ----- The graph

  datatype Node = Planner | Tools | Answer | End

  function RouteAfterPlanner(s: State): Node {
    if s.pending != [] then Tools else Answer
  }

  function RouteAfterTools(s: State): Node {
    if s.selected.Some? || s.stopReason.Some? then Answer else Planner
  }

  function Step(l: Limits, w: World, at: (Node, State)): (Node, State) {
    match at.0
    case Planner => var t := PlannerNode(l, w, at.1); (RouteAfterPlanner(t), t)
    case Tools => var t := ToolNode(l, w, at.1); (RouteAfterTools(t), t)
    case Answer => (End, AnswerNode(w, at.1))
    case End => at
  }

  /** Where a run is after n node executions. */
  function After(l: Limits, w: World, question: string, n: nat): (Node, State) {
    if n == 0 then (Planner, Start(question)) else Step(l, w, After(l, w, question, n - 1))
  }

  // ----- The chat

  function RepliesTo(calls: seq<Call>): seq<Message> {
    seq(|calls|, i requires 0 <= i < |calls| => Reply(calls[i].id, calls[i].name))
  }

  /** Turns that each consist of a non-empty list of tool calls and one reply to each of them, in order. */
  function Turns(rounds: seq<seq<Call>>): seq<Message> {
    if rounds == [] then []
    else Turns(rounds[..|rounds| - 1]) + [Assistant(rounds[|rounds| - 1])] + RepliesTo(rounds[|rounds| - 1])
  }

  ghost predicate ChatOf(question: string, turns: int, messages: seq<Message>, rounds: seq<seq<Call>>) {
    && |rounds| == turns
    && (forall i :: 0 <= i < |rounds| ==> rounds[i] != [])
    && messages == [System, User(question)] + Turns(rounds)
  }

  /** A chat a provider accepts: every tool call of every earlier turn has exactly one reply, in order. */
  ghost predicate ChatValid(question: string, turns: int, messages: seq<Message>) {
    exists rounds :: ChatOf(question, turns, messages, rounds)
  }

  /** The chat when the tools node is entered: the last turn's calls are still to be answered. */
  ghost predicate ChatPending(s: State) {
    && |s.messages| > 0 && s.messages[|s.messages| - 1] == Assistant(s.pending)
    && ChatValid(s.question, s.turns - 1, s.messages[..|s.messages| - 1])
  }

  // ----- The ledger

  ghost function Total(m: map<string, nat>): nat {
    if m == map[] then 0
    else
      var key :| key in m;
      m[key] + Total(m - {key})
  }

  lemma {:induction false} TotalSplit(m: map<string, nat>, key: string)
    requires key in m
    ensures Total(m) == m[key] + Total(m - {key})
    decreases |m|
  {
    var first :| first in m && Total(m) == m[first] + Total(m - {first});
    if first != key {
      TotalSplit(m - {first}, key);
      TotalSplit(m - {key}, first);
      assert m - {first} - {key} == m - {key} - {first};
    }
  }

  lemma TotalPlusOne(m: map<string, nat>, key: string)
    ensures Total(m[key := (if key in m then m[key] else 0) + 1]) == Total(m) + 1
  {
    var n := m[key := (if key in m then m[key] else 0) + 1];
    TotalSplit(n, key);
    if key in m {
      TotalSplit(m, key);
      assert n - {key} == m - {key};
    } else {
      assert n - {key} == m;
    }
  }

  /** Every tool call is counted once: under its name, and as a success, an error or an exhausted budget. */
  ghost predicate Balanced(s: State, finished: bool) {
    && s.toolCalls == Total(s.toolUsage)
    && s.toolCalls == s.retrievals + s.reranks + s.fusions + (if finished then 1 else 0) + s.toolErrors + s.exhaustions
  }

  predicate WithinLimits(l: Limits, s: State) {
    s.retrievals <= l.maxRetrievals && s.reranks <= l.maxReranks && s.fusions <= l.maxFusions && s.turns <= l.maxTurns
  }

  predicate FinishedByTool(s: State) {
    s.stopReason == Some("finished")
  }

  ghost predicate Core(l: Limits, s: State, finished: bool) {
    && Registered(s.registry)
    && (s.selected.Some? ==> s.selected.value in s.registry.rankings)
    && WithinLimits(l, s)
    && Balanced(s, finished)
    && s.retrievals + s.reranks + s.fusions <= |s.registry.order| <= s.toolCalls
  }

  lemma StartedKeepsCore(l: Limits, s: State, name: string)
    requires Core(l, s, false)
    ensures var t := Started(s, name);
            && Core(l, t.(toolErrors := t.toolErrors + 1), false)
            && Core(l, t.(exhaustions := t.exhaustions + 1), false)
  {
    hide Registered, Total;
    TotalPlusOne(s.toolUsage, name);
  }

  /** One tool call, from a state in which nothing is selected yet. */
  lemma RunToolKeepsCore(l: Limits, w: World, s: State, call: Call)
    requires Core(l, s, false) && s.selected.None? && s.stopReason.None?
    ensures var t := RunTool(l, w, s, call);
            && Core(l, t, FinishedByTool(t))
            && (t.selected.Some? <==> FinishedByTool(t)) && (t.stopReason.Some? <==> FinishedByTool(t))
            && t.turns == s.turns && t.llmCalls == s.llmCalls && t.question == s.question
            && t.messages == s.messages && t.pending == s.pending
  {
    hide Registered, Grows, Total, Execute, RankingId;
    var t := Started(s, call.name);
    StartedKeepsCore(l, s, call.name);
    if CheckToolBudget(l, t, call.name).Permitted? {
      ExecuteKeepsRegistered(t.registry, call.name, call.arguments, t.question, w.service(s.toolCalls));
      var (reg, outcome) := Execute(t.registry, call.name, call.arguments, t.question, w.service(s.toolCalls));
      SettleKeepsCore(l, t, call.name, reg, outcome, w.service(s.toolCalls));
    }
  }

  lemma SettleKeepsCore(l: Limits, t: State, name: string, reg: Registry, outcome: Outcome, service: Service)
    requires Core(l, t.(toolErrors := t.toolErrors + 1), false) && t.selected.None? && t.stopReason.None?
    requires CheckToolBudget(l, t, name).Permitted? && |t.registry.order| < t.toolCalls
    requires Registered(reg)
    requires outcome.Stored? ==> |reg.order| == |t.registry.order| + 1 && name != "finish_research"
    requires outcome.Finished? ==> reg == t.registry && outcome.id in reg.rankings && name == "finish_research"
    requires outcome.Error? ==> reg == t.registry || |reg.order| == |t.registry.order| + 1
    requires !outcome.Error? ==>
               IsSearch(name) || name == "rerank" || name == "fuse_rankings" || name == "finish_research"
    ensures var u := Settle(t, name, reg, outcome); Core(l, u, FinishedByTool(u))
  {
    hide Registered, Total;
  }

  /** The calls answered in a turn are a prefix of the turn's calls: all of them unless one finished the research. */
  lemma {:induction false} RunToolsKeepsCore(l: Limits, w: World, s: State, calls: seq<Call>)
    requires Core(l, s, false) && s.selected.None? && s.stopReason.None?
    ensures var t := RunTools(l, w, s, calls);
            && Core(l, t, FinishedByTool(t))
            && (t.selected.Some? <==> FinishedByTool(t)) && (t.stopReason.Some? <==> FinishedByTool(t))
            && t.turns == s.turns && t.llmCalls == s.llmCalls && t.question == s.question && t.pending == s.pending
            && exists answered ::
                 && answered <= calls && (t.selected.None? ==> answered == calls)
                 && t.messages == s.messages + RepliesTo(answered)
    decreases |calls|
  {
    hide Core, RunTool, RepliesTo;
    if calls == [] {
      NoReplies(s.messages);
    } else {
      var u := RunTool(l, w, s, calls[0]);
      var t := AnswerTool(u, calls[0]);
      RunToolKeepsCore(l, w, s, calls[0]);
      MessagesAreFree(l, u, t.messages, FinishedByTool(u));
      if t.selected.Some? {
        OneMoreReply(calls, [], s.messages);
      } else {
        RunToolsKeepsCore(l, w, t, calls[1..]);
        var rest :| rest <= calls[1..] && (RunTools(l, w, t, calls[1..]).selected.None? ==> rest == calls[1..])
          && RunTools(l, w, t, calls[1..]).messages == t.messages + RepliesTo(rest);
        OneMoreReply(calls, rest, s.messages);
      }
    }
  }

  lemma NoReplies(messages: seq<Message>)
    ensures messages + RepliesTo([]) == messages
  {
  }

  lemma OneMoreReply(calls: seq<Call>, rest: seq<Call>, messages: seq<Message>)
    requires calls != [] && rest <= calls[1..]
    ensures [calls[0]] + rest <= calls && (rest == calls[1..] ==> [calls[0]] + rest == calls)
    ensures messages + [Reply(calls[0].id, calls[0].name)] + RepliesTo(rest) == messages + RepliesTo([calls[0]] + rest)
    ensures messages + [Reply(calls[0].id, calls[0].name)] == messages + RepliesTo([calls[0]])
  {
    assert calls == [calls[0]] + calls[1..];
    assert RepliesTo([calls[0]] + rest) == [Reply(calls[0].id, calls[0].name)] + RepliesTo(rest);
  }

  lemma MessagesAreFree(l: Limits, s: State, messages: seq<Message>, finished: bool)
    requires Core(l, s, finished)
    ensures Core(l, s.(messages := messages), finished)
    ensures Core(l, s.(pending := []), finished)
  {
  }

  // ----- The invariant at each node

  /** The ranking the answer is based on: the one research finished with, or else the last one stored. */
  predicate SelectedFrom(s: State) {
    && (s.selected.None? <==> s.registry.order == [])
    && (FinishedByTool(s) ==> s.selected.Some?)
    && (!FinishedByTool(s) && s.selected.Some? ==> s.selected.value == s.registry.order[|s.registry.order| - 1])
  }

  ghost predicate NodeInv(l: Limits, node: Node, s: State) {
    match node
    case Planner =>
      && Core(l, s, false) && s.selected.None? && s.stopReason.None? && s.pending == []
      && s.turns < l.maxTurns && s.llmCalls <= s.turns * (l.retries + 1)
      && ChatValid(s.question, s.turns, s.messages)
    case Tools =>
      && Core(l, s, false) && s.selected.None? && s.stopReason.None? && s.pending != []
      && 0 < s.turns && s.llmCalls <= s.turns * (l.retries + 1)
      && ChatPending(s)
    case Answer =>
      && Core(l, s, FinishedByTool(s)) && s.stopReason.Some?
      && SelectedFrom(s)
      && s.llmCalls <= l.maxTurns * (l.retries + 1)
    case End =>
      && (exists finished :: Core(l, s, finished)
            && (FinishedByTool(s) ==> finished)
            && (finished ==> FinishedByTool(s) || s.stopReason == Some("answer_error")))
      && s.stopReason.Some?
      && (s.selected.None? <==> s.registry.order == [])
      && s.llmCalls <= l.maxTurns * (l.retries + 1) + 1
  }

  lemma {:induction false} AskCounts(l: Limits, w: World, s: State, attempt: nat)
    requires attempt <= l.retries
    ensures var (t, reply) := Ask(l, w, s, attempt);
            && s.llmCalls < t.llmCalls <= s.llmCalls + (l.retries - attempt) + 1
            && t == s.(llmCalls := t.llmCalls)
    decreases l.retries - attempt
  {
    var t := s.(llmCalls := s.llmCalls + 1);
    if w.planner(s.llmCalls).ProviderError? && attempt < l.retries {
      AskCounts(l, w, t, attempt + 1);
    }
  }

  lemma CoreOfCounters(l: Limits, s: State, t: State, finished: bool)
    requires Core(l, s, finished) && t.turns <= l.maxTurns
    requires t.registry == s.registry
             && (t.selected == s.selected || (t.selected.Some? && t.selected.value in s.registry.order))
    requires t.retrievals == s.retrievals && t.reranks == s.reranks && t.fusions == s.fusions
    requires t.toolCalls == s.toolCalls && t.toolErrors == s.toolErrors && t.exhaustions == s.exhaustions
             && t.toolUsage == s.toolUsage
    ensures Core(l, t, finished)
  {
  }

  /** A forced finish selects the last ranking stored, if there is one. */
  lemma ForceFinishAnswers(l: Limits, s: State, reason: string)
    requires Core(l, s, false) && s.selected.None? && reason != "finished" && s.llmCalls <= l.maxTurns * (l.retries + 1)
    ensures NodeInv(l, Answer, ForceFinish(s, reason))
  {
    var t := ForceFinish(s, reason);
    CoreOfCounters(l, s, t, false);
    hide Core;
    assert reason != "finished" ==> !FinishedByTool(t);
  }

  lemma PlannerKeepsInv(l: Limits, w: World, s: State)
    requires NodeInv(l, Planner, s)
    ensures var t := PlannerNode(l, w, s); NodeInv(l, RouteAfterPlanner(t), t)
  {
    hide Core, ChatOf, ForceFinish, Ask;
    AskCounts(l, w, s, 0);
    var (t, reply) := Ask(l, w, s, 0);
    CallsStayBounded(s.turns, l.maxTurns, l.retries + 1);
    CoreOfCounters(l, s, t, false);
    if reply.Replies? {
      var u := t.(messages := t.messages + [Assistant(reply.calls)], pending := reply.calls, turns := t.turns + 1);
      CoreOfCounters(l, s, u, false);
      if reply.calls != [] {
        assert u.messages[..|u.messages| - 1] == s.messages;
      } else {
        ForceFinishAnswers(l, u, if u.registry.order != [] then "model_finalize" else "model_stop_no_ranking");
        ForceFinishClears(u, if u.registry.order != [] then "model_finalize" else "model_stop_no_ranking");
      }
    } else {
      ForceFinishAnswers(l, t, "planner_error");
      ForceFinishClears(t, "planner_error");
    }
  }

  lemma CallsStayBounded(turns: nat, maxTurns: nat, each: nat)
    requires turns < maxTurns
    ensures turns * each + each == (turns + 1) * each <= maxTurns * each
  {
    assert (turns + 1) * each <= maxTurns * each;
  }

  lemma ForceFinishClears(s: State, reason: string)
    ensures ForceFinish(s, reason).pending == []
  {
  }

  /** Answering all calls of the pending turn completes the chat. */
  lemma AnsweredTurnIsValid(s: State)
    requires ChatPending(s) && s.pending != []
    ensures ChatValid(s.question, s.turns, s.messages + RepliesTo(s.pending))
  {
    var before := s.messages[..|s.messages| - 1];
    var rounds :| ChatOf(s.question, s.turns - 1, before, rounds);
    var all := rounds + [s.pending];
    assert all[..|all| - 1] == rounds;
    assert s.messages == before + [Assistant(s.pending)];
    assert s.messages + RepliesTo(s.pending) == [System, User(s.question)] + Turns(all);
    assert ChatOf(s.question, s.turns, s.messages + RepliesTo(s.pending), all);
  }

  lemma ToolsKeepsInv(l: Limits, w: World, s: State)
    requires NodeInv(l, Tools, s)
    ensures var t := ToolNode(l, w, s); NodeInv(l, RouteAfterTools(t), t)
  {
    hide Core, ChatPending, ChatValid, RunTools, ForceFinish;
    var u := s.(pending := []);
    MessagesAreFree(l, s, s.messages, false);
    RunToolsKeepsCore(l, w, u, s.pending);
    var t := RunTools(l, w, u, s.pending);
    TurnsWithin(l, t, FinishedByTool(t));
    if t.selected.None? {
      if t.turns >= l.maxTurns {
        ForceFinishAnswers(l, t, "max_steps");
        ForceFinishStops(t, "max_steps");
      } else {
        AnsweredTurnIsValid(s);
      }
    } else {
      SelectedIsStored(l, t, FinishedByTool(t));
    }
  }

  lemma ForceFinishStops(s: State, reason: string)
    ensures ForceFinish(s, reason).stopReason == Some(reason)
  {
  }

  lemma TurnsWithin(l: Limits, s: State, finished: bool)
    requires Core(l, s, finished)
    ensures s.turns <= l.maxTurns && s.turns * (l.retries + 1) <= l.maxTurns * (l.retries + 1)
  {
    assert s.turns <= l.maxTurns;
  }

  lemma SelectedIsStored(l: Limits, s: State, finished: bool)
    requires Core(l, s, finished) && s.selected.Some?
    ensures s.registry.order != []
  {
    assert s.selected.value in s.registry.order;
  }

  lemma AnswerKeepsInv(l: Limits, w: World, s: State)
    requires NodeInv(l, Answer, s)
    ensures NodeInv(l, End, AnswerNode(w, s))
  {
    var t := AnswerNode(w, s);
    CoreOfCounters(l, s, t, FinishedByTool(s));
    hide Core;
  }

  lemma StepKeepsInv(l: Limits, w: World, at: (Node, State))
    requires NodeInv(l, at.0, at.1)
    ensures NodeInv(l, Step(l, w, at).0, Step(l, w, at).1)
  {
    hide NodeInv, PlannerNode, ToolNode, AnswerNode, RouteAfterPlanner, RouteAfterTools;
    match at.0 {
      case Planner => PlannerKeepsInv(l, w, at.1);
      case Tools => ToolsKeepsInv(l, w, at.1);
      case Answer => AnswerKeepsInv(l, w, at.1);
      case End =>
    }
  }

  lemma StartInv(l: Limits, w: World, question: string)
    requires l.maxTurns > 0
    ensures NodeInv(l, Planner, Start(question))
  {
    var s := Start(question);
    assert ChatOf(s.question, 0, s.messages, []);
    assert Total(map[]) == 0;
  }

  lemma {:induction false} AfterKeepsInv(l: Limits, w: World, question: string, n: nat)
    requires l.maxTurns > 0
    ensures NodeInv(l, After(l, w, question, n).0, After(l, w, question, n).1)
  {
    hide NodeInv, Step;
    if n == 0 {
      StartInv(l, w, question);
    } else {
      AfterKeepsInv(l, w, question, n - 1);
      StepKeepsInv(l, w, After(l, w, question, n - 1));
    }
  }

  // ----- What every run keeps

  /** No counter passes its limit, at any point of any run. */
  lemma RunBounded(l: Limits, w: World, question: string, n: nat)
    requires l.maxTurns > 0
    ensures var s := After(l, w, question, n).1;
            && s.turns <= l.maxTurns && s.retrievals <= l.maxRetrievals && s.reranks <= l.maxReranks
            && s.fusions <= l.maxFusions
            && s.llmCalls <= l.maxTurns * (l.retries + 1) + 1
  {
    AfterKeepsInv(l, w, question, n);
    hide Registered, Balanced, ChatValid, ChatPending, After;
    var (node, s) := After(l, w, question, n);
    if node.Planner? || node.Tools? {
      TurnsWithin(l, s, false);
    }
  }

  /** Whenever the planner is asked, it has a turn left, and the chat it is sent answers every earlier tool call. */
  lemma PlannerSeesValidChat(l: Limits, w: World, question: string, n: nat)
    requires l.maxTurns > 0 && After(l, w, question, n).0.Planner?
    ensures var s := After(l, w, question, n).1;
            s.turns < l.maxTurns && s.question == question && ChatValid(question, s.turns, s.messages)
  {
    AfterKeepsInv(l, w, question, n);
    QuestionStays(l, w, question, n);
    hide Core, After;
  }

  lemma {:induction false} QuestionStays(l: Limits, w: World, question: string, n: nat)
    requires l.maxTurns > 0
    ensures After(l, w, question, n).1.question == question
  {
    hide NodeInv, Step;
    if n > 0 {
      QuestionStays(l, w, question, n - 1);
      AfterKeepsInv(l, w, question, n - 1);
      StepKeepsQuestion(l, w, After(l, w, question, n - 1).0, After(l, w, question, n - 1).1);
    }
  }

  lemma StepKeepsQuestion(l: Limits, w: World, node: Node, s: State)
    requires NodeInv(l, node, s)
    ensures Step(l, w, (node, s)).1.question == s.question
  {
    hide Core, RunTools, Ask, ChatValid, ChatPending;
    if node.Planner? {
      AskCounts(l, w, s, 0);
    } else if node.Tools? {
      MessagesAreFree(l, s, s.messages, false);
      RunToolsKeepsCore(l, w, s.(pending := []), s.pending);
    }
  }

  /** Planner and tools alternate: the n-th node is determined up to where the run leaves the cycle. */
  lemma {:induction false} NodeAt(l: Limits, w: World, question: string, n: nat)
    requires l.maxTurns > 0
    ensures var (node, s) := After(l, w, question, n);
            && (node.Planner? ==> n == 2 * s.turns)
            && (node.Tools? ==> n == 2 * s.turns - 1)
            && (node.Answer? ==> n <= 2 * l.maxTurns)
  {
    hide NodeInv, Step;
    if n > 0 {
      NodeAt(l, w, question, n - 1);
      AfterKeepsInv(l, w, question, n - 1);
      var (node, s) := After(l, w, question, n - 1);
      StepAdvances(l, w, node, s);
      RunBounded(l, w, question, n - 1);
    }
  }

  lemma StepAdvances(l: Limits, w: World, node: Node, s: State)
    requires NodeInv(l, node, s)
    ensures var (next, t) := Step(l, w, (node, s));
            && (next.Planner? ==> node.Tools? && t.turns == s.turns)
            && (next.Tools? ==> node.Planner? && t.turns == s.turns + 1)
            && (next.Answer? ==> node.Planner? || node.Tools?)
            && (node.Planner? ==> s.turns < l.maxTurns)
  {
    hide Core, RunTools, Ask, ChatValid, ChatPending;
    if node.Planner? {
      AskCounts(l, w, s, 0);
    } else if node.Tools? {
      MessagesAreFree(l, s, s.messages, false);
      RunToolsKeepsCore(l, w, s.(pending := []), s.pending);
    }
  }

  /** Whatever model and services do, the run ends after at most two node executions a turn and one for the answer. */
  lemma RunEnds(l: Limits, w: World, question: string)
    requires l.maxTurns > 0
    ensures After(l, w, question, 2 * l.maxTurns + 1).0.End?
  {
    hide After;
    NodeAt(l, w, question, 2 * l.maxTurns + 1);
    RunBounded(l, w, question, 2 * l.maxTurns + 1);
  }

  /**
   A finished run: the registry is r1 to rk; no ranking is selected exactly when none was stored; a selected
   one is in the registry; and every tool call is accounted for.
   */
  lemma RunEndsAccounted(l: Limits, w: World, question: string, n: nat)
    requires l.maxTurns > 0 && After(l, w, question, n).0.End?
    ensures var s := After(l, w, question, n).1;
            && Registered(s.registry)
            && (s.selected.None? <==> s.registry.order == [])
            && (s.selected.Some? ==> s.selected.value in s.registry.rankings)
            && s.stopReason.Some?
            && (Balanced(s, FinishedByTool(s)) || (s.stopReason == Some("answer_error") && Balanced(s, true)))
            && s.retrievals + s.reranks + s.fusions <= |s.registry.order| <= s.toolCalls
  {
    AfterKeepsInv(l, w, question, n);
    hide After, Registered, Total;
  }

  // ----- Rankings that no counter counts

  function Counted(s: State): nat {
    s.retrievals + s.reranks + s.fusions
  }

  predicate StoredAreCounted(s: State) {
    |s.registry.order| == Counted(s)
  }

  /** The call is permitted and its arguments are fine, but selecting evidence fails: its ranking is stored by then. */
  predicate FailsLate(l: Limits, w: World, s: State, call: Call) {
    && CheckToolBudget(l, s, call.name).Permitted?
    && Retrieves(s.registry, call.name, call.arguments)
    && w.service(s.toolCalls).EvidenceFails?
  }

  /** How many of the calls executed in a turn fail late. */
  function LateInTurn(l: Limits, w: World, s: State, calls: seq<Call>): nat
    decreases |calls|
  {
    if calls == [] then 0
    else
      var t := AnswerTool(RunTool(l, w, s, calls[0]), calls[0]);
      (if FailsLate(l, w, s, calls[0]) then 1 else 0) + if t.selected.Some? then 0 else LateInTurn(l, w, t, calls[1..])
  }

  /** How many of the calls executed in a run have failed late. */
  function Late(l: Limits, w: World, question: string, n: nat): nat {
    if n == 0 then 0
    else
      var (node, s) := After(l, w, question, n - 1);
      Late(l, w, question, n - 1) + if node.Tools? then LateInTurn(l, w, s.(pending := []), s.pending) else 0
  }

  /** A call adds one more ranking than it counts exactly when it fails late. */
  lemma RunToolStores(l: Limits, w: World, s: State, call: Call)
    ensures var t := RunTool(l, w, s, call);
            |t.registry.order| - Counted(t)
              == |s.registry.order| - Counted(s) + (if FailsLate(l, w, s, call) then 1 else 0)
  {
    hide Execute, Retrieves;
    ExecuteStores(s.registry, call.name, call.arguments, s.question, w.service(s.toolCalls));
    RetrievesByName(s.registry, call.name, call.arguments);
  }

  lemma {:induction false} RunToolsStore(l: Limits, w: World, s: State, calls: seq<Call>)
    ensures var t := RunTools(l, w, s, calls);
            |t.registry.order| - Counted(t) == |s.registry.order| - Counted(s) + LateInTurn(l, w, s, calls)
    decreases |calls|
  {
    hide RunTool, FailsLate;
    if calls != [] {
      RunToolStores(l, w, s, calls[0]);
      var t := AnswerTool(RunTool(l, w, s, calls[0]), calls[0]);
      if t.selected.None? {
        RunToolsStore(l, w, t, calls[1..]);
      }
    }
  }

  lemma StepStores(l: Limits, w: World, node: Node, s: State)
    ensures var t := Step(l, w, (node, s)).1;
            |t.registry.order| - Counted(t) == |s.registry.order| - Counted(s)
              + (if node.Tools? then LateInTurn(l, w, s.(pending := []), s.pending) else 0)
  {
    hide RunTools, LateInTurn, Ask;
    if node.Planner? {
      AskCounts(l, w, s, 0);
    } else if node.Tools? {
      RunToolsStore(l, w, s.(pending := []), s.pending);
    }
  }

  /**
   In every run the registry holds as many rankings as the counters say and one more for each executed call
   that failed late: the counters, and with them the limits, bound it if and only if there is no such call.
   */
  lemma {:induction false} RegistryExceedsCounters(l: Limits, w: World, question: string, n: nat)
    ensures var s := After(l, w, question, n).1;
            && |s.registry.order| == Counted(s) + Late(l, w, question, n)
            && (StoredAreCounted(s) <==> Late(l, w, question, n) == 0)
  {
    hide Step, LateInTurn;
    if n > 0 {
      RegistryExceedsCounters(l, w, question, n - 1);
      StepStores(l, w, After(l, w, question, n - 1).0, After(l, w, question, n - 1).1);
    }
  }

  /** The stored rankings exceed the limits by no more than the calls that failed late. */
  lemma LimitsBoundRegistry(l: Limits, w: World, question: string, n: nat)
    requires l.maxTurns > 0
    ensures |After(l, w, question, n).1.registry.order|
            <= l.maxRetrievals + l.maxReranks + l.maxFusions + Late(l, w, question, n)
  {
    hide After, Late;
    RunBounded(l, w, question, n);
    RegistryExceedsCounters(l, w, question, n);
  }

  /** Services that fail do so before a ranking is stored. */
  ghost predicate FailsEarly(w: World) {
    forall i :: !w.service(i).EvidenceFails?
  }

  lemma {:induction false} NoneLateInTurn(l: Limits, w: World, s: State, calls: seq<Call>)
    requires FailsEarly(w)
    ensures LateInTurn(l, w, s, calls) == 0
    decreases |calls|
  {
    hide RunTool;
    if calls != [] {
      NoneLateInTurn(l, w, AnswerTool(RunTool(l, w, s, calls[0]), calls[0]), calls[1..]);
    }
  }

  /** Services that only fail early leave every ranking counted, so the limits bound the registry. */
  lemma {:induction false} EarlyFailuresBoundRegistry(l: Limits, w: World, question: string, n: nat)
    requires l.maxTurns > 0 && FailsEarly(w)
    ensures Late(l, w, question, n) == 0
    ensures |After(l, w, question, n).1.registry.order| <= l.maxRetrievals + l.maxReranks + l.maxFusions
  {
    hide After, LateInTurn, FailsEarly;
    if n > 0 {
      EarlyFailuresBoundRegistry(l, w, question, n - 1);
      var (node, s) := After(l, w, question, n - 1);
      NoneLateInTurn(l, w, s.(pending := []), s.pending);
    }
    LimitsBoundRegistry(l, w, question, n);
  }

  /**
   The reported counters balance with the reported stop reason unless research finished and generation then
   failed: the stop reason no longer tells that finish_research was one of the calls.
   */
  lemma ReportBalancesExactly(l: Limits, w: World, s: State)
    requires NodeInv(l, Answer, s)
    ensures var t := AnswerNode(w, s);
            Balanced(t, FinishedByTool(t)) <==> !(FinishedByTool(s) && w.generated.None?)
  {
    hide Registered, Total;
  }

  /**
   A search whose evidence fails is an error, so it costs no retrieval, but its ranking is stored and may be
   selected.
   */
  lemma LateFailureOverspends(question: string)
    ensures var w := World(_ => Replies([SEARCH, SEARCH]), _ => EvidenceFails([]), Some("answer"));
            var (node, s) := After(Limits(1, 1, 0, 0, 0, ["search_bm25", "finish_research"]), w, question, 2);
            && node.Answer? && |s.registry.order| == 2 && s.retrievals == 0 && s.toolErrors == 2
            && s.selected == Some(s.registry.order[1])
  {
    var l := Limits(1, 1, 0, 0, 0, ["search_bm25", "finish_research"]);
    var w := World(_ => Replies([SEARCH, SEARCH]), _ => EvidenceFails([]), Some("answer"));
    var s := Start(question);
    assert Ask(l, w, s, 0) == (s.(llmCalls := 1), Replies([SEARCH, SEARCH]));
    var t := PlannerNode(l, w, s);
    assert After(l, w, question, 0) == (Planner, s);
    assert After(l, w, question, 1) == (Tools, t);
    var u := t.(pending := []);
    hide RunTool;
    FailedSearch(l, w, u);
    var v := AnswerTool(RunTool(l, w, u, SEARCH), SEARCH);
    FailedSearch(l, w, v);
    assert [SEARCH, SEARCH][1..] == [SEARCH] && [SEARCH][1..] == [];
    assert RunTools(l, w, u, [SEARCH, SEARCH]) == RunTools(l, w, v, [SEARCH]);
    assert RunTools(l, w, v, [SEARCH]) == AnswerTool(RunTool(l, w, v, SEARCH), SEARCH);
  }

  lemma FailedSearch(l: Limits, w: World, s: State)
    requires "search_bm25" in l.allowed && s.retrievals < l.maxRetrievals && w.service(s.toolCalls) == EvidenceFails([])
    ensures var t := Started(s, "search_bm25");
            RunTool(l, w, s, SEARCH) == t.(registry := StoreRanking(t.registry, Record("bm25", "q", [])),
                                           toolErrors := t.toolErrors + 1)
  {
    assert SearchArgs(SEARCH.arguments);
  }

  const SEARCH := Call("c", "search_bm25", Arguments(Some("q"), None, None, false))

  const FINISH := Call("d", "finish_research", Arguments(None, Some("r1"), None, false))

  /** A run that finished its research but whose answer fails: two calls, one retrieval, and nothing for the other. */
  lemma FailedAnswerHidesFinish(question: string)
    ensures var w := World(_ => Replies([SEARCH, FINISH]), _ => Delivers([]), None);
            var (node, s) := After(Limits(1, 1, 0, 0, 0, ["search_bm25", "finish_research"]), w, question, 3);
            && node.End? && s.stopReason == Some("answer_error") && s.selected == Some("r1")
            && s.toolCalls == 2 && s.retrievals == 1 && s.toolErrors == 0 && s.exhaustions == 0
            && !Balanced(s, FinishedByTool(s))
  {
    var l := Limits(1, 1, 0, 0, 0, ["search_bm25", "finish_research"]);
    var w := World(_ => Replies([SEARCH, FINISH]), _ => Delivers([]), None);
    var s := Start(question);
    assert Ask(l, w, s, 0) == (s.(llmCalls := 1), Replies([SEARCH, FINISH]));
    var t := PlannerNode(l, w, s);
    assert After(l, w, question, 0) == (Planner, s);
    assert After(l, w, question, 1) == (Tools, t);
    var u := t.(pending := []);
    hide RunTool, Balanced;
    DeliveredSearch(l, w, u);
    var v := AnswerTool(RunTool(l, w, u, SEARCH), SEARCH);
    assert RankingId(1) == "r1" by { assert Decimal(1) == "1"; }
    FinishAccepted(l, w, v);
    assert [SEARCH, FINISH][1..] == [FINISH];
    assert RunTools(l, w, u, [SEARCH, FINISH]) == RunTools(l, w, v, [FINISH]);
    var x := AnswerTool(RunTool(l, w, v, FINISH), FINISH);
    assert RunTools(l, w, v, [FINISH]) == x;
    assert After(l, w, question, 2) == (Answer, x);
    assert After(l, w, question, 3) == (End, AnswerNode(w, x));
    AfterKeepsInv(l, w, question, 2);
    ReportBalancesExactly(l, w, x);
  }

  lemma DeliveredSearch(l: Limits, w: World, s: State)
    requires "search_bm25" in l.allowed && s.retrievals < l.maxRetrievals && w.service(s.toolCalls) == Delivers([])
    ensures var t := Started(s, "search_bm25");
            RunTool(l, w, s, SEARCH) == t.(registry := StoreRanking(t.registry, Record("bm25", "q", [])),
                                           retrievals := t.retrievals + 1)
  {
    assert SearchArgs(SEARCH.arguments);
  }

  lemma FinishAccepted(l: Limits, w: World, s: State)
    requires "finish_research" in l.allowed && "r1" in s.registry.rankings
    ensures RunTool(l, w, s, FINISH)
            == Started(s, "finish_research").(selected := Some("r1"), stopReason := Some("finished"))
  {
    assert FinishArgs(FINISH.arguments);
  }

  // ----- The run as the program performs it

  class AgentRun {
    const limits: Limits
    const question: string
    var messages: seq<Message>
    var registry: Registry
    var pending: seq<Call>
    var selected: Option<string>
    var stopReason: Option<string>
    var answer: string
    var turns: nat
    var retrievals: nat
    var reranks: nat
    var fusions: nat
    var toolCalls: nat
    var toolErrors: nat
    var exhaustions: nat
    var toolUsage: map<string, nat>
    var llmCalls: nat

    function View(): State
      reads this
    {
      State(question, messages, registry, pending, selected, stopReason, answer, turns, retrievals, reranks, fusions,
            toolCalls, toolErrors, exhaustions, toolUsage, llmCalls)
    }

    constructor (limits: Limits, question: string)
      ensures View() == Start(question) && this.limits == limits
    {
      this.limits, this.question := limits, question;
      messages, registry, pending := [System, User(question)], Registry(map[], []), [];
      selected, stopReason, answer := None, None, "";
      turns, retrievals, reranks, fusions, toolCalls, toolErrors, exhaustions, llmCalls := 0, 0, 0, 0, 0, 0, 0, 0;
      toolUsage := map[];
    }

    method CompletePlanner(w: World) returns (reply: Attempt)
      modifies this
      ensures (View(), reply) == Ask(limits, w, old(View()), 0)
    {
      var attempt := 0;
      while true
        invariant 0 <= attempt <= limits.retries
        invariant Ask(limits, w, View(), attempt) == Ask(limits, w, old(View()), 0)
        decreases limits.retries - attempt
      {
        reply := w.planner(llmCalls);
        llmCalls := llmCalls + 1;
        if !reply.ProviderError? || attempt >= limits.retries {
          return reply;
        }
        attempt := attempt + 1;
      }
    }

    method Stop(reason: string)
      modifies this
      ensures View() == ForceFinish(old(View()), reason)
    {
      if selected.None? && registry.order != [] {
        selected := Some(registry.order[|registry.order| - 1]);
      }
      stopReason := Some(reason);
      pending := [];
    }

    method Plan(w: World)
      modifies this
      ensures View() == PlannerNode(limits, w, old(View()))
    {
      hide Ask, ForceFinish;
      if turns >= limits.maxTurns {
        Stop("max_steps");
        return;
      }
      var reply := CompletePlanner(w);
      match reply {
        case Replies(calls) =>
          messages := messages + [Assistant(calls)];
          pending := calls;
          turns := turns + 1;
          if calls == [] {
            if registry.order != [] {
              Stop("model_finalize");
            } else {
              Stop("model_stop_no_ranking");
            }
          }
        case _ => Stop("planner_error");
      }
    }

    method CallTool(w: World, call: Call)
      modifies this
      ensures View() == RunTool(limits, w, old(View()), call)
    {
      hide Execute, Settle;
      var service := w.service(toolCalls);
      toolCalls := toolCalls + 1;
      toolUsage := toolUsage[call.name := (if call.name in toolUsage then toolUsage[call.name] else 0) + 1];
      var budget := CheckToolBudget(limits, View(), call.name);
      match budget {
        case NotAllowed => toolErrors := toolErrors + 1;
        case Exhausted => exhaustions := exhaustions + 1;
        case Permitted =>
          var (reg, outcome) := Execute(registry, call.name, call.arguments, question, service);
          TakeOutcome(call.name, reg, outcome);
      }
    }

    method TakeOutcome(name: string, reg: Registry, outcome: Outcome)
      modifies this
      ensures View() == Settle(old(View()), name, reg, outcome)
    {
      registry := reg;
      if outcome.Error? {
        toolErrors := toolErrors + 1;
        return;
      }
      Count(name);
      if outcome.Finished? {
        selected := Some(outcome.id);
        stopReason := Some("finished");
      }
    }

    method Count(name: string)
      modifies this
      ensures View() == CountTool(old(View()), name)
    {
      if IsSearch(name) {
        retrievals := retrievals + 1;
      } else if name == "rerank" {
        reranks := reranks + 1;
      } else if name == "fuse_rankings" {
        fusions := fusions + 1;
      }
    }

    method UseTools(w: World)
      requires selected.None?
      modifies this
      ensures View() == ToolNode(limits, w, old(View()))
    {
      hide RunTool, ForceFinish;
      var calls := pending;
      pending := [];
      ghost var start := View();
      assert start == old(View()).(pending := []) && calls[0..] == calls;
      var i := 0;
      while i < |calls|
        invariant 0 <= i <= |calls|
        invariant selected.None? && RunTools(limits, w, View(), calls[i..]) == RunTools(limits, w, start, calls)
      {
        ghost var before := View();
        NextTool(limits, w, before, calls, i);
        CallTool(w, calls[i]);
        messages := messages + [Reply(calls[i].id, calls[i].name)];
        assert View() == AnswerTool(RunTool(limits, w, before, calls[i]), calls[i]);
        i := i + 1;
        if selected.Some? {
          break;
        }
      }
      assert selected.None? ==> calls[i..] == [] && View() == RunTools(limits, w, View(), []);
      if turns >= limits.maxTurns && selected.None? {
        Stop("max_steps");
      }
    }

    method GiveAnswer(w: World)
      modifies this
      ensures View() == AnswerNode(w, old(View()))
    {
      if selected.None? {
        answer := "";
        if stopReason.None? {
          stopReason := Some("no_ranking");
        }
        return;
      }
      match w.generated {
        case Some(text) =>
          answer := text;
          llmCalls := llmCalls + 1;
        case None =>
          answer := "";
          stopReason := Some("answer_error");
      }
    }

    /** The graph, from the planner to the answer. */
    method Invoke(w: World)
      requires limits.maxTurns > 0 && View() == Start(question)
      modifies this
      ensures (End, View()) == After(limits, w, question, 2 * limits.maxTurns + 1)
    {
      hide Step, NodeInv;
      var node := Planner;
      ghost var n := 0;
      AtStart(limits, w, question);
      while node != End
        invariant n <= 2 * limits.maxTurns + 1
        invariant (node, View()) == After(limits, w, question, n)
        decreases 2 * limits.maxTurns + 1 - n
      {
        AfterKeepsInv(limits, w, question, n);
        if n == 2 * limits.maxTurns + 1 {
          RunEnds(limits, w, question);
        }
        node := RunNode(w, node);
        n := n + 1;
      }
      StaysAtEnd(limits, w, question, n, 2 * limits.maxTurns + 1);
    }

    method RunNode(w: World, node: Node) returns (next: Node)
      requires NodeInv(limits, node, View())
      modifies this
      ensures (next, View()) == Step(limits, w, (node, old(View())))
    {
      hide PlannerNode, ToolNode, AnswerNode, Core, ChatValid, ChatPending;
      next := End;
      match node {
        case Planner =>
          Plan(w);
          next := if pending != [] then Tools else Answer;
        case Tools =>
          UseTools(w);
          next := if selected.Some? || stopReason.Some? then Answer else Planner;
        case Answer => GiveAnswer(w);
        case End =>
      }
    }
  }

  lemma NextTool(l: Limits, w: World, s: State, calls: seq<Call>, i: nat)
    requires i < |calls|
    ensures var t := AnswerTool(RunTool(l, w, s, calls[i]), calls[i]);
            RunTools(l, w, s, calls[i..]) == if t.selected.Some? then t else RunTools(l, w, t, calls[i + 1..])
  {
    assert calls[i..][0] == calls[i] && calls[i..][1..] == calls[i + 1..];
  }

  lemma AtStart(l: Limits, w: World, question: string)
    ensures After(l, w, question, 0) == (Planner, Start(question))
  {
  }

  lemma {:induction false} StaysAtEnd(l: Limits, w: World, question: string, n: nat, m: nat)
    requires n <= m && After(l, w, question, n).0.End?
    ensures After(l, w, question, m) == After(l, w, question, n)
    decreases m - n
  {
    if n < m {
      StaysAtEnd(l, w, question, n, m - 1);
    }
  }
}
