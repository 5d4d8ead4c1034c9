/** Retrieval evaluation (search/evaluation_utils.py): Recall@k and MRR for
    one ranked list, decoding a document id into the key of its target
    chunk, scoring one query, and the run over every query. The search
    engine and the database are parameters: a query's search outcome is
    given, and the stored chunks are a sequence in primary-key order. */
module Retrieval {
  import opened Common
  import opened Strings
  import opened DocBuild

  // ---------------------------------------------------------------------------
  // Recall@k and MRR
  // ---------------------------------------------------------------------------

  /** `list.index(x)`: the position of the first occurrence, if any. */
  function IndexOf(s: seq<string>, x: string): (r: Option<nat>)
    ensures r.None? <==> x !in s
    ensures r.Some? ==> r.value < |s| && s[r.value] == x && forall j :: 0 <= j < r.value ==> s[j] != x
  {
    if s == [] then None
    else if s[0] == x then Some(0)
    else
      match IndexOf(s[1..], x)
      case None => assert s == [s[0]] + s[1..]; None
      case Some(i) => Some(i + 1)
  }

  /** `compute_recall_at_k`. */
  function RecallAtK(retrieved: seq<string>, target: string, k: int): (r: real)
    ensures r == 0.0 || r == 1.0
  {
    if retrieved == [] || target == [] then 0.0
    else if target in PyPrefix(retrieved, k) then 1.0
    else 0.0
  }

  /** For `k >= 0`, Recall@k is 1 exactly when the target is one of the
      first `k` ids (and neither input is empty), 0 otherwise. */
  lemma RecallIff(retrieved: seq<string>, target: string, k: int)
    requires k >= 0
    ensures RecallAtK(retrieved, target, k) == 1.0 <==>
      retrieved != [] && target != [] && exists i :: 0 <= i < k && i < |retrieved| && retrieved[i] == target
  {
    var p := PyPrefix(retrieved, k);
    assert forall i :: 0 <= i < |p| ==> p[i] == retrieved[i];
  }

  /** For `k < 0`, `retrieved[:k]` drops the last `-k` ids: Recall@k is 1
      exactly when the target is one of the ids before them. */
  lemma RecallIffNegative(retrieved: seq<string>, target: string, k: int)
    requires k < 0
    ensures RecallAtK(retrieved, target, k) == 1.0 <==>
      retrieved != [] && target != [] && exists i :: 0 <= i < |retrieved| + k && retrieved[i] == target
  {
    var p := PyPrefix(retrieved, k);
    assert forall i :: 0 <= i < |p| ==> p[i] == retrieved[i];
  }

  /** Recall@k is 1 exactly when the target's first position is below `k`. */
  lemma RecallByRank(retrieved: seq<string>, target: string, k: int)
    requires k >= 0
    ensures RecallAtK(retrieved, target, k) == 1.0 <==>
      retrieved != [] && target != [] && IndexOf(retrieved, target).Some? && IndexOf(retrieved, target).value < k
  {
    RecallIff(retrieved, target, k);
  }

  /** A longer cut-off never lowers Recall@k. */
  lemma RecallMonotone(retrieved: seq<string>, target: string, k1: int, k2: int)
    requires 0 <= k1 <= k2
    ensures RecallAtK(retrieved, target, k1) <= RecallAtK(retrieved, target, k2)
  {
    RecallIff(retrieved, target, k1);
    RecallIff(retrieved, target, k2);
  }

  /** `compute_mrr`: one over the 1-based position of the first occurrence. */
  function Mrr(retrieved: seq<string>, target: string): (r: real)
    ensures 0.0 <= r <= 1.0
  {
    if retrieved == [] || target == [] then 0.0
    else
      match IndexOf(retrieved, target)
      case None => 0.0
      case Some(i) => Reciprocal(i + 1)
  }

  function Reciprocal(n: nat): (r: real)
    requires n >= 1
    ensures 0.0 < r <= 1.0
  {
    1.0 / n as real
  }

  /** The reciprocal rank is `1/(i+1)` for the first position `i` of the
      target, and 0 when the target is missing or an input is empty. */
  lemma MrrAtFirst(retrieved: seq<string>, target: string, i: nat)
    requires target != [] && i < |retrieved| && retrieved[i] == target
    requires forall j :: 0 <= j < i ==> retrieved[j] != target
    ensures Mrr(retrieved, target) == 1.0 / (i + 1) as real
  {
    FirstIndex(retrieved, target, i);
  }

  lemma MrrZero(retrieved: seq<string>, target: string)
    ensures Mrr(retrieved, target) == 0.0 <==> retrieved == [] || target == [] || target !in retrieved
  {
  }

  /** A hit within the first `k` gives a reciprocal rank of at least `1/k`;
      in particular Recall@1 never exceeds MRR. */
  lemma MrrAboveRecall(retrieved: seq<string>, target: string, k: int)
    requires k >= 1 && RecallAtK(retrieved, target, k) == 1.0
    ensures Mrr(retrieved, target) >= 1.0 / k as real
  {
    RecallByRank(retrieved, target, k);
    var i := IndexOf(retrieved, target).value;
    ReciprocalAntitone(i + 1, k);
  }

  lemma ReciprocalAntitone(m: nat, n: nat)
    requires 1 <= m <= n
    ensures 1.0 / n as real <= 1.0 / m as real
  {
  }

  // ---------------------------------------------------------------------------
  // the target chunk of a query
  // ---------------------------------------------------------------------------

  /** The fields a document id names: the version, the page name and the
      section. */
  datatype TargetKey = TargetKey(version: string, name: string, section: string)

  /** The id decoding of `find_target_chunk`: split at `:` and read parts
      1, 2 and 3 when there are at least four parts. */
  function ParseDocumentId(documentId: string): (r: Option<TargetKey>)
  {
    var parts := Split(documentId, ':');
    if |parts| >= 4 then Some(TargetKey(parts[1], parts[2], parts[3])) else None
  }

  /** An id built by the ingester decodes back to its version, page name
      and section. */
  lemma ParseBuiltId(pageName: string, section: string)
    requires ':' !in pageName && ':' !in section
    ensures ParseDocumentId(DocumentId(pageName, section)) == Some(TargetKey(Version, pageName, section))
  {
    DocumentIdSplit(pageName, section);
  }

  /** An id decodes exactly when it holds at least three colons. */
  lemma ParseNeedsThreeColons(documentId: string)
    ensures ParseDocumentId(documentId).Some? <==> Occurrences(documentId, ':') >= 3
  {
    SplitCount(documentId, ':');
  }

  lemma {:induction false} OccurrencesFront(x: char, s: string, c: char)
    ensures Occurrences([x] + s, c) == (if x == c then 1 else 0) + Occurrences(s, c)
  {
    var t := [x] + s;
    if s == [] {
      assert t[..|t| - 1] == [];
    } else {
      assert t[..|t| - 1] == [x] + s[..|s| - 1];
      OccurrencesFront(x, s[..|s| - 1], c);
    }
  }

  /** There is one more part than there are separators. */
  lemma {:induction false} SplitCount(s: string, c: char)
    ensures |Split(s, c)| == Occurrences(s, c) + 1
  {
    if s != [] {
      SplitCount(s[1..], c);
      OccurrencesFront(s[0], s[1..], c);
      assert [s[0]] + s[1..] == s;
    }
  }

  /** A stored chunk with the fields the lookup filters on. */
  datatype StoredChunk = StoredChunk(id: string, name: string, section: string, versionTag: string, anchor: string)

  /** `EvaluationQuery`: the question, its document id and target anchor. */
  datatype EvalQuery = EvalQuery(query: string, documentId: string, targetAnchor: string)

  predicate Matches(c: StoredChunk, key: TargetKey, anchor: string) {
    c.name == key.name && c.section == key.section && c.versionTag == key.version && c.anchor == anchor
  }

  /** `.filter(...).first()` over chunks in primary-key order. */
  function FirstMatch(stored: seq<StoredChunk>, key: TargetKey, anchor: string): (r: Option<StoredChunk>)
    ensures r.Some? ==> r.value in stored && Matches(r.value, key, anchor)
    ensures r.None? ==> forall c :: c in stored ==> !Matches(c, key, anchor)
  {
    if stored == [] then None
    else if Matches(stored[0], key, anchor) then Some(stored[0])
    else
      var r := FirstMatch(stored[1..], key, anchor);
      assert stored == [stored[0]] + stored[1..];
      r
  }

  /** `find_target_chunk`: found exactly when the id decodes and some stored
      chunk of that page, section and version carries the target anchor. */
  function FindTargetChunk(q: EvalQuery, stored: seq<StoredChunk>): (r: Option<StoredChunk>)
    ensures r.Some? ==> (ParseDocumentId(q.documentId).Some?
      && r.value in stored && Matches(r.value, ParseDocumentId(q.documentId).value, q.targetAnchor))
    ensures r.None? <==> (ParseDocumentId(q.documentId).None?
      || forall c :: c in stored ==> !Matches(c, ParseDocumentId(q.documentId).value, q.targetAnchor))
  {
    match ParseDocumentId(q.documentId)
    case None => None
    case Some(key) => FirstMatch(stored, key, q.targetAnchor)
  }

  // ---------------------------------------------------------------------------
  // one query
  // ---------------------------------------------------------------------------

  /** What the search returns: the ranked chunks with their similarity, or
      the message of the exception it raised. */
  datatype SearchOutcome = Hits(hits: seq<(string, Option<real>)>) | Raised(message: string)

  /** One entry of `retrieved_chunks`. */
  datatype Retrieved = Retrieved(id: string, rank: nat, score: Option<real>)

  /** The metrics kept for a query (nDCG is not part of this model). */
  datatype Scores = Scores(recall1: real, recall5: real, recall10: real, recall20: real, mrr: real)

  /** The result dictionary of `evaluate_single_query`. */
  datatype QueryResult = QueryResult(
    success: bool, targetFound: bool, targetRank: Option<nat>, targetScore: Option<real>,
    retrieved: seq<Retrieved>, scores: Option<Scores>, error: Option<string>)

  function HitIds(hits: seq<(string, Option<real>)>): (r: seq<string>)
    ensures |r| == |hits| && forall i :: 0 <= i < |hits| ==> r[i] == hits[i].0
  {
    seq(|hits|, i requires 0 <= i < |hits| => hits[i].0)
  }

  function RetrievedOf(hits: seq<(string, Option<real>)>): (r: seq<Retrieved>)
    ensures |r| == |hits| && forall i :: 0 <= i < |hits| ==> r[i] == Retrieved(hits[i].0, i + 1, hits[i].1)
  {
    seq(|hits|, i requires 0 <= i < |hits| => Retrieved(hits[i].0, i + 1, hits[i].1))
  }

  function ScoresOf(ids: seq<string>, target: string): Scores {
    Scores(RecallAtK(ids, target, 1), RecallAtK(ids, target, 5), RecallAtK(ids, target, 10),
           RecallAtK(ids, target, 20), Mrr(ids, target))
  }

  /** The outcome of one query, given the stored chunks and what the search
      returned for it. */
  function Evaluate(q: EvalQuery, stored: seq<StoredChunk>, search: SearchOutcome): QueryResult {
    match FindTargetChunk(q, stored)
    case None =>
      QueryResult(false, false, None, None, [], None, Some("Target chunk not found for query: " + q.query))
    case Some(target) =>
      match search
      case Raised(message) => QueryResult(false, false, None, None, [], None, Some(message))
      case Hits(hits) => HitsResult(target.id, hits)
  }

  /** The outcome once the target chunk is known and the search returned. */
  function HitsResult(targetId: string, hits: seq<(string, Option<real>)>): QueryResult {
    var ids := HitIds(hits);
    var at := IndexOf(ids, targetId);
    QueryResult(true, at.Some?,
      if at.Some? then Some(at.value + 1) else None,
      if at.Some? then hits[at.value].1 else None,
      RetrievedOf(hits), Some(ScoresOf(ids, targetId)), None)
  }

  /** `evaluate_single_query`, with its two loops: collecting the ids and
      entries, and looking up the target's score. */
  method EvaluateSingleQuery(q: EvalQuery, stored: seq<StoredChunk>, search: SearchOutcome) returns (r: QueryResult)
    ensures r == Evaluate(q, stored, search)
  {
    var target := FindTargetChunk(q, stored);
    if target.None? {
      return QueryResult(false, false, None, None, [], None, Some("Target chunk not found for query: " + q.query));
    }
    if search.Raised? {
      return QueryResult(false, false, None, None, [], None, Some(search.message));
    }
    var ids, data := CollectHits(search.hits);
    assert RetrievedIds(data) == ids;
    var targetId := target.value.id;
    var found := false;
    var rank: Option<nat> := None;
    var score: Option<real> := None;
    if targetId in ids {
      found := true;
      var at := IndexOf(ids, targetId);
      rank := Some(at.value + 1);
      score := ScoreOfFirst(data, targetId);
    }
    r := QueryResult(true, found, rank, score, data, Some(ScoresOf(ids, targetId)), None);
  }

  /** The loop that lists the retrieved ids and entries, ranked from 1. */
  method CollectHits(hits: seq<(string, Option<real>)>) returns (ids: seq<string>, data: seq<Retrieved>)
    ensures ids == HitIds(hits) && data == RetrievedOf(hits)
  {
    ids := [];
    data := [];
    var i := 0;
    while i < |hits|
      invariant i <= |hits| && |ids| == i && |data| == i
      invariant forall j :: 0 <= j < i ==> ids[j] == hits[j].0
      invariant forall j :: 0 <= j < i ==> data[j] == Retrieved(hits[j].0, j + 1, hits[j].1)
    {
      ids := ids + [hits[i].0];
      data := data + [Retrieved(hits[i].0, i + 1, hits[i].1)];
      i := i + 1;
    }
  }

  function RetrievedIds(data: seq<Retrieved>): (r: seq<string>)
    ensures |r| == |data| && forall i :: 0 <= i < |data| ==> r[i] == data[i].id
  {
    seq(|data|, i requires 0 <= i < |data| => data[i].id)
  }

  /** The loop that looks up the score of the first entry with the id. */
  method ScoreOfFirst(data: seq<Retrieved>, id: string) returns (score: Option<real>)
    requires id in RetrievedIds(data)
    ensures IndexOf(RetrievedIds(data), id).Some? && score == data[IndexOf(RetrievedIds(data), id).value].score
  {
    var j := 0;
    while data[j].id != id
      invariant j < |data| && forall m :: 0 <= m < j ==> data[m].id != id
      invariant exists i :: j <= i < |data| && data[i].id == id
      decreases |data| - j
    {
      j := j + 1;
    }
    FirstIndex(RetrievedIds(data), id, j);
    score := data[j].score;
  }

  lemma FirstIndex(s: seq<string>, x: string, j: nat)
    requires j < |s| && s[j] == x && forall m :: 0 <= m < j ==> s[m] != x
    ensures IndexOf(s, x) == Some(j)
  {
  }

  /** Scores of one query: recall can only grow with the cut-off, each
      recall is 0 or 1, MRR lies in [0, 1] and is never below Recall@1. */
  predicate Coherent(s: Scores) {
    && (s.recall1 == 0.0 || s.recall1 == 1.0)
    && (s.recall20 == 0.0 || s.recall20 == 1.0)
    && s.recall1 <= s.recall5 <= s.recall10 <= s.recall20
    && s.recall1 <= s.mrr <= 1.0 && 0.0 <= s.mrr
  }

  /** A query succeeds exactly when its target chunk exists and the search
      did not raise; the target is found exactly when its id was retrieved,
      at rank one more than its first position, with the score of that
      entry; MRR is then one over the rank, and Recall@k is 1 exactly when
      the rank is at most k. */
  lemma EvaluateShape(q: EvalQuery, stored: seq<StoredChunk>, search: SearchOutcome)
    ensures var r := Evaluate(q, stored, search);
      && (r.success <==> FindTargetChunk(q, stored).Some? && search.Hits?)
      && (r.success <==> r.scores.Some?)
      && (r.success <==> r.error.None?)
      && (!r.success ==> !r.targetFound && r.retrieved == [])
  {
  }

  /** When the target's id was retrieved, it is found at rank one more
      than its first position, with that entry's score, and MRR is one over
      the rank. */
  lemma HitsFound(targetId: string, hits: seq<(string, Option<real>)>, i: nat)
    requires targetId != [] && i < |hits| && hits[i].0 == targetId
    requires forall j :: 0 <= j < i ==> hits[j].0 != targetId
    ensures var r := HitsResult(targetId, hits);
      && r.targetFound && r.targetRank == Some(i + 1) && r.targetScore == hits[i].1
      && r.scores.value.mrr == 1.0 / (i + 1) as real
  {
    var ids := HitIds(hits);
    FirstIndex(ids, targetId, i);
    MrrAtFirst(ids, targetId, i);
  }

  /** When the target's id was not retrieved, nothing is found and every
      metric is 0. */
  lemma HitsMissed(targetId: string, hits: seq<(string, Option<real>)>)
    requires forall j :: 0 <= j < |hits| ==> hits[j].0 != targetId
    ensures var r := HitsResult(targetId, hits);
      && !r.targetFound && r.targetRank.None? && r.targetScore.None?
      && r.scores.value.mrr == 0.0 && r.scores.value.recall20 == 0.0
  {
    var ids := HitIds(hits);
    assert targetId !in ids;
    MrrZero(ids, targetId);
    RecallIff(ids, targetId, 20);
  }

  /** Recall@k of a query is 1 exactly when its rank is at most k. */
  lemma HitsRecall(targetId: string, hits: seq<(string, Option<real>)>)
    requires targetId != []
    ensures var r := HitsResult(targetId, hits);
      && (r.scores.value.recall1 == 1.0 <==> r.targetFound && r.targetRank.value <= 1)
      && (r.scores.value.recall5 == 1.0 <==> r.targetFound && r.targetRank.value <= 5)
      && (r.scores.value.recall10 == 1.0 <==> r.targetFound && r.targetRank.value <= 10)
      && (r.scores.value.recall20 == 1.0 <==> r.targetFound && r.targetRank.value <= 20)
  {
    var ids := HitIds(hits);
    RecallByRank(ids, targetId, 1);
    RecallByRank(ids, targetId, 5);
    RecallByRank(ids, targetId, 10);
    RecallByRank(ids, targetId, 20);
  }

  lemma EvaluateCoherent(q: EvalQuery, stored: seq<StoredChunk>, search: SearchOutcome)
    ensures Evaluate(q, stored, search).scores.Some? ==> Coherent(Evaluate(q, stored, search).scores.value)
  {
    match FindTargetChunk(q, stored)
    case None =>
    case Some(target) =>
      match search
      case Raised(_) =>
      case Hits(hits) => HitsCoherent(target.id, hits);
  }

  lemma HitsCoherent(targetId: string, hits: seq<(string, Option<real>)>)
    ensures Coherent(HitsResult(targetId, hits).scores.value)
  {
    var ids := HitIds(hits);
    RecallMonotone(ids, targetId, 1, 5);
    RecallMonotone(ids, targetId, 5, 10);
    RecallMonotone(ids, targetId, 10, 20);
    if RecallAtK(ids, targetId, 1) == 1.0 {
      MrrAboveRecall(ids, targetId, 1);
    }
  }

  // ---------------------------------------------------------------------------
  // the run
  // ---------------------------------------------------------------------------

  /** An `EvaluationRun` once the loop is over (status `completed`). */
  datatype RunSummary = RunSummary(
    total: nat, successful: nat, failed: nat, averages: Option<Scores>, results: seq<QueryResult>)

  /** The results of the queries in order; `search` stands for the search
      engine's answer to each query. */
  function Results(queries: seq<EvalQuery>, stored: seq<StoredChunk>, search: EvalQuery -> SearchOutcome): (r: seq<QueryResult>)
    ensures |r| == |queries|
  {
    if queries == [] then []
    else
      var q := queries[|queries| - 1];
      Results(queries[..|queries| - 1], stored, search) + [Evaluate(q, stored, search(q))]
  }

  predicate Succeeded(r: QueryResult) { r.success && r.scores.Some? }
  predicate Failed(r: QueryResult) { !Succeeded(r) }

  /** The metrics of the successful queries, in order. */
  function SuccessScores(results: seq<QueryResult>): (r: seq<Scores>)
    ensures |r| == CountWhere(results, Succeeded)
  {
    if results == [] then []
    else
      var last := results[|results| - 1];
      SuccessScores(results[..|results| - 1]) + (if Succeeded(last) then [last.scores.value] else [])
  }

  function SumOf(ss: seq<Scores>, f: Scores -> real): real {
    if ss == [] then 0.0 else SumOf(ss[..|ss| - 1], f) + f(ss[|ss| - 1])
  }

  function Average(ss: seq<Scores>, f: Scores -> real): real
    requires ss != []
  {
    SumOf(ss, f) / |ss| as real
  }

  /** `sum(all_x) / len(all_x)` for every metric. */
  function Averages(ss: seq<Scores>): Scores
    requires ss != []
  {
    Scores(Average(ss, (s: Scores) => s.recall1), Average(ss, (s: Scores) => s.recall5), Average(ss, (s: Scores) => s.recall10),
           Average(ss, (s: Scores) => s.recall20), Average(ss, (s: Scores) => s.mrr))
  }

  function Summary(queries: seq<EvalQuery>, stored: seq<StoredChunk>, search: EvalQuery -> SearchOutcome): RunSummary {
    var results := Results(queries, stored, search);
    var ss := SuccessScores(results);
    RunSummary(|queries|, CountWhere(results, Succeeded), CountWhere(results, Failed),
               if ss == [] then None else Some(Averages(ss)), results)
  }

  /** `run_evaluation`'s loop over the queries. */
  method RunEvaluation(queries: seq<EvalQuery>, stored: seq<StoredChunk>, search: EvalQuery -> SearchOutcome)
    returns (run: RunSummary)
    ensures run == Summary(queries, stored, search)
  {
    var results: seq<QueryResult> := [];
    var successful := 0;
    var failed := 0;
    var collected: seq<Scores> := [];
    var i := 0;
    while i < |queries|
      invariant i <= |queries|
      invariant results == Results(queries[..i], stored, search)
      invariant successful == CountWhere(results, Succeeded)
      invariant failed == CountWhere(results, Failed)
      invariant collected == SuccessScores(results)
    {
      var q := queries[i];
      var r := EvaluateSingleQuery(q, stored, search(q));
      EvaluateShape(q, stored, search(q));
      TakeOneMore(queries, i);
      results := results + [r];
      if r.success {
        successful := successful + 1;
        collected := collected + [r.scores.value];
      } else {
        failed := failed + 1;
      }
      i := i + 1;
    }
    TakeAll(queries, i);
    var averages := if collected != [] then Some(Averages(collected)) else None;
    run := RunSummary(|queries|, successful, failed, averages, results);
  }

  /** Every query is counted once, as a success or a failure. */
  lemma {:induction false} SuccessPlusFailure(results: seq<QueryResult>)
    ensures CountWhere(results, Succeeded) + CountWhere(results, Failed) == |results|
  {
    if results != [] {
      SuccessPlusFailure(results[..|results| - 1]);
    }
  }

  lemma {:induction false} ResultsAt(queries: seq<EvalQuery>, stored: seq<StoredChunk>, search: EvalQuery -> SearchOutcome, i: nat)
    requires i < |queries|
    ensures Results(queries, stored, search)[i] == Evaluate(queries[i], stored, search(queries[i]))
  {
    var init := queries[..|queries| - 1];
    if i < |init| {
      ResultsAt(init, stored, search, i);
    }
  }

  /** Every collected score set comes from a successful result. */
  lemma {:induction false} SuccessScoresFrom(results: seq<QueryResult>, k: nat)
    requires k < |SuccessScores(results)|
    ensures exists i :: 0 <= i < |results| && Succeeded(results[i]) && results[i].scores.value == SuccessScores(results)[k]
  {
    var init := results[..|results| - 1];
    if k < |SuccessScores(init)| {
      SuccessScoresFrom(init, k);
      var i :| 0 <= i < |init| && Succeeded(init[i]) && init[i].scores.value == SuccessScores(init)[k];
      assert results[i] == init[i];
    } else {
      assert Succeeded(results[|results| - 1]);
    }
  }

  /** Summing a pointwise smaller metric gives a smaller sum. */
  lemma {:induction false} SumOfLeq(ss: seq<Scores>, f: Scores -> real, g: Scores -> real)
    requires forall i :: 0 <= i < |ss| ==> f(ss[i]) <= g(ss[i])
    ensures SumOf(ss, f) <= SumOf(ss, g)
  {
    if ss != [] {
      SumOfLeq(ss[..|ss| - 1], f, g);
    }
  }

  lemma {:induction false} SumOfBounds(ss: seq<Scores>, f: Scores -> real)
    requires forall i :: 0 <= i < |ss| ==> 0.0 <= f(ss[i]) <= 1.0
    ensures 0.0 <= SumOf(ss, f) <= |ss| as real
  {
    if ss != [] {
      SumOfBounds(ss[..|ss| - 1], f);
    }
  }

  lemma DivideLeq(a: real, b: real, n: real)
    requires n > 0.0 && a <= b
    ensures a / n <= b / n
  {
  }

  lemma DivideBounds(a: real, n: real)
    requires n > 0.0 && 0.0 <= a <= n
    ensures 0.0 <= a / n <= 1.0
  {
  }

  /** The run counts every query once, as a success or a failure, and the
      successes are the queries whose target chunk exists and whose search
      did not raise; averages are given exactly when some query succeeded,
      lie in [0, 1], grow with the cut-off, and mean MRR is never below mean
      Recall@1. */
  lemma RunShape(queries: seq<EvalQuery>, stored: seq<StoredChunk>, search: EvalQuery -> SearchOutcome)
    ensures var run := Summary(queries, stored, search);
      && run.total == |queries| == run.successful + run.failed
      && (run.averages.None? <==> run.successful == 0)
      && (forall i :: 0 <= i < |queries| ==> (run.results[i].success <==>
            FindTargetChunk(queries[i], stored).Some? && search(queries[i]).Hits?))
      && (run.averages.Some? ==> var a := run.averages.value;
            0.0 <= a.recall1 <= a.recall5 <= a.recall10 <= a.recall20 <= 1.0
            && a.recall1 <= a.mrr <= 1.0)
  {
    var results := Results(queries, stored, search);
    var ss := SuccessScores(results);
    SuccessPlusFailure(results);
    forall i | 0 <= i < |queries|
      ensures results[i].success <==> FindTargetChunk(queries[i], stored).Some? && search(queries[i]).Hits?
    {
      ResultsAt(queries, stored, search, i);
      EvaluateShape(queries[i], stored, search(queries[i]));
    }
    if ss != [] {
      forall k | 0 <= k < |ss|
        ensures Coherent(ss[k])
      {
        SuccessScoresFrom(results, k);
        var i :| 0 <= i < |results| && Succeeded(results[i]) && results[i].scores.value == ss[k];
        ResultsAt(queries, stored, search, i);
        EvaluateCoherent(queries[i], stored, search(queries[i]));
      }
      AveragesOrdered(ss);
    }
  }

  lemma AveragesOrdered(ss: seq<Scores>)
    requires ss != [] && forall k :: 0 <= k < |ss| ==> Coherent(ss[k])
    ensures var a := Averages(ss);
      0.0 <= a.recall1 <= a.recall5 <= a.recall10 <= a.recall20 <= 1.0 && a.recall1 <= a.mrr <= 1.0
  {
    var n := |ss| as real;
    SumOfLeq(ss, (s: Scores) => s.recall1, (s: Scores) => s.recall5);
    SumOfLeq(ss, (s: Scores) => s.recall5, (s: Scores) => s.recall10);
    SumOfLeq(ss, (s: Scores) => s.recall10, (s: Scores) => s.recall20);
    SumOfLeq(ss, (s: Scores) => s.recall1, (s: Scores) => s.mrr);
    SumOfBounds(ss, (s: Scores) => s.recall1);
    SumOfBounds(ss, (s: Scores) => s.recall20);
    SumOfBounds(ss, (s: Scores) => s.mrr);
    DivideLeq(SumOf(ss, (s: Scores) => s.recall1), SumOf(ss, (s: Scores) => s.recall5), n);
    DivideLeq(SumOf(ss, (s: Scores) => s.recall5), SumOf(ss, (s: Scores) => s.recall10), n);
    DivideLeq(SumOf(ss, (s: Scores) => s.recall10), SumOf(ss, (s: Scores) => s.recall20), n);
    DivideLeq(SumOf(ss, (s: Scores) => s.recall1), SumOf(ss, (s: Scores) => s.mrr), n);
    DivideBounds(SumOf(ss, (s: Scores) => s.recall1), n);
    DivideBounds(SumOf(ss, (s: Scores) => s.recall20), n);
    DivideBounds(SumOf(ss, (s: Scores) => s.mrr), n);
  }
}
