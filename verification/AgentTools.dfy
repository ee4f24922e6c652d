/**
 The research tools of the agent: argument validation, dispatch, and the registry of rankings r1, r2, ...
 What retrieval, reranking and passage selection themselves do is the outcome of a service.
 */
module AgentTools {
  import opened Wrappers
  import opened Numerals

  /** The arguments of a tool call; `other` says that some further field is present. */
  datatype Arguments = Arguments(
    query: Option<string>,
    rankingId: Option<string>,
    rankingIds: Option<seq<string>>,
    other: bool)

  type Ranking = seq<(real, string)>

  datatype Record = Record(source: string, query: string, ranking: Ranking)

  datatype Registry = Registry(rankings: map<string, Record>, order: seq<string>)

  /** A service may fail before there is a ranking, or later while passages are selected for a stored one. */
  datatype Service = RankingFails | EvidenceFails(ranking: Ranking) | Delivers(ranking: Ranking)

  datatype Outcome = Stored(id: string) | Finished(id: string) | Error(message: string)

  predicate IsSearch(name: string) {
    name == "search_bm25" || name == "search_dense"
  }

  predicate IsQuery(query: Option<string>) {
    query.Some? && 1 <= |query.value| <= 500
  }

  predicate SearchArgs(a: Arguments) {
    IsQuery(a.query) && a.rankingId.None? && a.rankingIds.None? && !a.other
  }

  predicate RerankArgs(a: Arguments) {
    IsQuery(a.query) && a.rankingId.Some? && |a.rankingId.value| >= 1 && a.rankingIds.None? && !a.other
  }

  predicate FuseArgs(a: Arguments) {
    a.query.None? && a.rankingId.None? && a.rankingIds.Some? && 2 <= |a.rankingIds.value| <= 4 && !a.other
  }

  predicate FinishArgs(a: Arguments) {
    a.query.None? && a.rankingId.Some? && |a.rankingId.value| >= 1 && a.rankingIds.None? && !a.other
  }

  function RankingId(n: nat): string {
    "r" + Decimal(n)
  }

  function StoreRanking(reg: Registry, record: Record): Registry {
    var id := RankingId(|reg.order| + 1);
    Registry(reg.rankings[id := record], reg.order + [id])
  }

  /** The ranking is stored before its passages are selected. */
  function Retrieve(reg: Registry, source: string, query: string, service: Service): (Registry, Outcome) {
    match service
    case RankingFails => (reg, Error("retrieval failed"))
    case EvidenceFails(ranking) => (StoreRanking(reg, Record(source, query, ranking)), Error("evidence failed"))
    case Delivers(ranking) => (StoreRanking(reg, Record(source, query, ranking)), Stored(RankingId(|reg.order| + 1)))
  }

  function Execute(reg: Registry, name: string, a: Arguments, question: string, service: Service): (Registry, Outcome) {
    if name == "search_bm25" then
      if SearchArgs(a) then Retrieve(reg, "bm25", a.query.value, service) else (reg, Error("invalid arguments"))
    else if name == "search_dense" then
      if SearchArgs(a) then Retrieve(reg, "dense", a.query.value, service) else (reg, Error("invalid arguments"))
    else if name == "rerank" then
      if !RerankArgs(a) then (reg, Error("invalid arguments"))
      else if a.rankingId.value !in reg.rankings then (reg, Error("Unknown ranking_id"))
      else Retrieve(reg, "rerank", a.query.value, service)
    else if name == "fuse_rankings" then
      if !FuseArgs(a) then (reg, Error("invalid arguments"))
      else if exists id :: id in a.rankingIds.value && id !in reg.rankings then (reg, Error("Unknown ranking_id"))
      else Retrieve(reg, "rrf", question, service)
    else if name == "finish_research" then
      if !FinishArgs(a) then (reg, Error("invalid arguments"))
      else if a.rankingId.value !in reg.rankings then (reg, Error("Unknown ranking_id"))
      else (reg, Finished(a.rankingId.value))
    else (reg, Error("Unknown tool"))
  }

  /** The tool is one that stores a ranking, and its arguments are valid and name stored rankings only. */
  predicate Retrieves(reg: Registry, name: string, a: Arguments) {
    || (IsSearch(name) && SearchArgs(a))
    || (name == "rerank" && RerankArgs(a) && a.rankingId.value in reg.rankings)
    || (name == "fuse_rankings" && FuseArgs(a) && forall id :: id in a.rankingIds.value ==> id in reg.rankings)
  }

  lemma RetrievesByName(reg: Registry, name: string, a: Arguments)
    ensures Retrieves(reg, name, a) ==> IsSearch(name) || name == "rerank" || name == "fuse_rankings"
  {
  }

  /** What a tool call stores and when it succeeds in storing, by its arguments and the service. */
  lemma ExecuteStores(reg: Registry, name: string, a: Arguments, question: string, service: Service)
    ensures var (after, outcome) := Execute(reg, name, a, question, service);
            && |after.order| == |reg.order| + (if Retrieves(reg, name, a) && !service.RankingFails? then 1 else 0)
            && (outcome.Stored? <==> Retrieves(reg, name, a) && service.Delivers?)
            && (outcome.Finished? ==> name == "finish_research")
  {
    hide SearchArgs, RerankArgs, FuseArgs, FinishArgs, RankingId;
    ArgumentsGiven(a);
  }

  lemma ArgumentsGiven(a: Arguments)
    ensures SearchArgs(a) ==> a.query.Some?
    ensures RerankArgs(a) ==> a.query.Some? && a.rankingId.Some?
    ensures FuseArgs(a) ==> a.rankingIds.Some?
    ensures FinishArgs(a) ==> a.rankingId.Some?
  {
  }

  // ----- The registry

  lemma RankingIdInjective(m: nat, n: nat)
    requires RankingId(m) == RankingId(n)
    ensures m == n
  {
    assert RankingId(m)[1..] == Decimal(m) && RankingId(n)[1..] == Decimal(n);
    DecimalValue(m);
    DecimalValue(n);
  }

  /** The registry holds exactly r1 to rk, in this order. */
  ghost predicate Registered(reg: Registry) {
    && (forall i :: 0 <= i < |reg.order| ==> reg.order[i] == RankingId(i + 1))
    && (forall id :: id in reg.rankings <==> id in reg.order)
  }

  ghost predicate Grows(reg: Registry, after: Registry) {
    && reg.order <= after.order
    && (forall id :: id in reg.rankings ==> id in after.rankings && after.rankings[id] == reg.rankings[id])
  }

  /** A new ranking gets an id of its own: no stored ranking is overwritten. */
  lemma StoreKeepsRegistered(reg: Registry, record: Record)
    requires Registered(reg)
    ensures Registered(StoreRanking(reg, record)) && Grows(reg, StoreRanking(reg, record))
    ensures RankingId(|reg.order| + 1) !in reg.rankings
  {
    hide RankingId;
    var id := RankingId(|reg.order| + 1);
    if id in reg.order {
      var i :| 0 <= i < |reg.order| && reg.order[i] == id;
      RankingIdInjective(i + 1, |reg.order| + 1);
    }
  }

  /**
   A tool call keeps every stored ranking and stores at most one.  A call that succeeds names a stored
   ranking; one that fails stores nothing unless it failed while passages were selected.
   */
  lemma ExecuteKeepsRegistered(reg: Registry, name: string, a: Arguments, question: string, service: Service)
    requires Registered(reg)
    ensures var (after, outcome) := Execute(reg, name, a, question, service);
            && Registered(after) && Grows(reg, after)
            && (outcome.Stored? ==>
                  && |after.order| == |reg.order| + 1 && after.order[|reg.order|] == outcome.id
                  && name != "finish_research")
            && (outcome.Finished? ==> after == reg && outcome.id in reg.rankings && name == "finish_research")
            && (outcome.Error? ==> after == reg || (service.EvidenceFails? && |after.order| == |reg.order| + 1))
            && (!outcome.Error? ==>
                  IsSearch(name) || name == "rerank" || name == "fuse_rankings" || name == "finish_research")
  {
    hide Registered, Grows, IsSearch, RankingId, Retrieve;
    GrowsReflexive(reg);
    NamesOfTools(name);
    var query := if a.query.Some? then a.query.value else "";
    RetrieveKeepsRegistered(reg, "bm25", query, service);
    RetrieveKeepsRegistered(reg, "dense", query, service);
    RetrieveKeepsRegistered(reg, "rerank", query, service);
    RetrieveKeepsRegistered(reg, "rrf", question, service);
  }

  lemma RetrieveKeepsRegistered(reg: Registry, source: string, query: string, service: Service)
    requires Registered(reg)
    ensures var (after, outcome) := Retrieve(reg, source, query, service);
            && Registered(after) && Grows(reg, after) && !outcome.Finished?
            && (outcome.Stored? ==> |after.order| == |reg.order| + 1 && after.order[|reg.order|] == outcome.id)
            && (outcome.Error? ==> after == reg || (service.EvidenceFails? && |after.order| == |reg.order| + 1))
  {
    hide Registered, Grows, RankingId;
    GrowsReflexive(reg);
    if !service.RankingFails? {
      StoreKeepsRegistered(reg, Record(source, query, service.ranking));
    }
  }

  lemma GrowsReflexive(reg: Registry)
    ensures Grows(reg, reg)
  {
  }

  lemma NamesOfTools(name: string)
    ensures IsSearch(name) <==> name == "search_bm25" || name == "search_dense"
  {
  }
}
