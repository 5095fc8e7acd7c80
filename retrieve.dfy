/**
 * Retrieval shaping for the session-start hook: which queries are put to the
 * vector collection (limit clamping, an optional recency window and a global
 * fallback), how the returned documents are fitted into a character budget,
 * and when the hook emits anything at all.
 *
 * The similarity search itself is an oracle `respond` from a request to the
 * backend's answer; the wall clock behind the recency cutoff is not modelled,
 * only the window in days that a request carries.
 */
module Retrieve {
  import opened Wrappers
  import opened Text
  import opened Values
  import Config
  import Storage

  const DefaultRetrievalQuery := "project conventions decisions gotchas architecture"

  /** The separator placed between documents in the assembled context. */
  const Separator := "\n\n---\n\n"

  /** One call of the collection's query: the text, how many results, and an optional recency window in days. */
  datatype QueryRequest = QueryRequest(text: string, limit: nat, window: Option<nat>)

  /**
   * What the backend gives back: a failure, or a response whose "documents"
   * entry is missing or None (`None`), or a list of per-query result lists, each
   * possibly None.
   */
  datatype QueryResponse = Raised | Results(documents: Option<seq<Option<seq<string>>>>)

  /** The documents a query sequence ends with, and the queries it issued, in order. */
  datatype QueryOutcome = QueryOutcome(documents: seq<string>, issued: seq<QueryRequest>)

  /** The first result list of a response, or nothing when it is absent, empty or None. */
  function ExtractDocuments(documents: Option<seq<Option<seq<string>>>>): (r: seq<string>)
    ensures documents.None? ==> r == []
    ensures documents == Some([]) ==> r == []
    ensures documents.Some? && documents.value != [] && documents.value[0].None? ==> r == []
    ensures documents.Some? && documents.value != [] && documents.value[0].Some? ==> r == documents.value[0].value
  {
    match documents
    case None => []
    case Some(lists) =>
      if lists == [] then []
      else match lists[0]
        case None => []
        case Some(first) => first
  }

  /** The documents a single query yields; a failing backend yields none. */
  function Answer(response: QueryResponse): seq<string> {
    match response
    case Raised => []
    case Results(documents) => ExtractDocuments(documents)
  }

  /** A backend never returns more documents than a request asks for. */
  ghost predicate Bounded(respond: QueryRequest -> QueryResponse) {
    forall q :: |Answer(respond(q))| <= q.limit
  }

  /** The number of results requested from a collection of `count` entries. */
  function ClampLimit(nResults: int, count: nat): (n: nat)
    requires count > 0
    ensures 1 <= n <= count
    ensures 1 <= nResults <= count ==> n == nResults
    ensures nResults < 1 ==> n == 1
    ensures nResults > count ==> n == count
  {
    if nResults < 1 then 1 else if nResults > count then count else nResults
  }

  /**
   * The query sequence of `query_sessions` against a collection that exists
   * (`present`) with `count` entries.
   */
  function QueryPlan(present: bool, count: nat, text: string, nResults: int, recencyDays: int,
                     fallback: bool, respond: QueryRequest -> QueryResponse): (r: QueryOutcome)
    // A missing or empty collection is never queried and yields nothing.
    ensures !present || count == 0 ==> r == QueryOutcome([], [])
    // Otherwise one or two queries are made, all for the query text and the clamped limit.
    ensures present && count > 0 ==>
      1 <= |r.issued| <= 2 &&
      forall i :: 0 <= i < |r.issued| ==>
        r.issued[i].text == text && r.issued[i].limit == ClampLimit(nResults, count)
    // The result is what the last query answered.
    ensures r.issued != [] ==> r.documents == Answer(respond(r.issued[|r.issued| - 1]))
    // Without a positive recency window there is exactly one unfiltered query.
    ensures present && count > 0 && recencyDays <= 0 ==>
      r.issued == [QueryRequest(text, ClampLimit(nResults, count), None)]
    // With one, the first query is filtered to that window.
    ensures present && count > 0 && recencyDays > 0 ==> r.issued[0].window == Some(recencyDays as nat)
    // A second, unfiltered query follows exactly when the filtered one answered
    // without failing, found nothing, and the global fallback is on.
    ensures |r.issued| == 2 <==>
      present && count > 0 && recencyDays > 0 && fallback &&
      respond(r.issued[0]).Results? && Answer(respond(r.issued[0])) == []
    ensures |r.issued| == 2 ==> r.issued[1].window == None
    ensures Bounded(respond) ==> |r.documents| <= count
  {
    if !present || count == 0 then QueryOutcome([], [])
    else
      var n := ClampLimit(nResults, count);
      var global := QueryRequest(text, n, None);
      if recencyDays <= 0 then QueryOutcome(Answer(respond(global)), [global])
      else
        var filtered := QueryRequest(text, n, Some(recencyDays as nat));
        var first := respond(filtered);
        if first.Raised? then QueryOutcome([], [filtered])
        else if Answer(first) != [] || !fallback then QueryOutcome(Answer(first), [filtered])
        else QueryOutcome(Answer(respond(global)), [filtered, global])
  }

  /** `query_sessions`: the early-return sequence of calls against the collection. */
  method QuerySessions(c: Storage.Collection, text: string, nResults: int, recencyDays: int,
                       fallback: bool, respond: QueryRequest -> QueryResponse)
    returns (documents: seq<string>, issued: seq<QueryRequest>)
    ensures QueryOutcome(documents, issued) == QueryPlan(c.present, |c.entries|, text, nResults, recencyDays, fallback, respond)
  {
    issued := [];
    if !c.present {
      return [], issued;
    }
    var count := |c.entries|;
    if count == 0 {
      return [], issued;
    }
    var actualN := ClampLimit(nResults, count);
    if recencyDays > 0 {
      var filtered := QueryRequest(text, actualN, Some(recencyDays as nat));
      issued := issued + [filtered];
      var filteredResults := respond(filtered);
      if filteredResults.Raised? {
        return [], issued;
      }
      var filteredDocs := ExtractDocuments(filteredResults.documents);
      if filteredDocs != [] || !fallback {
        return filteredDocs, issued;
      }
    }
    var global := QueryRequest(text, actualN, None);
    issued := issued + [global];
    var results := respond(global);
    if results.Raised? {
      return [], issued;
    }
    documents := ExtractDocuments(results.documents);
  }

  /** The combined length of some documents, separators excluded. */
  function TotalLength(docs: seq<string>): nat {
    if docs == [] then 0 else |docs[0]| + TotalLength(docs[1..])
  }

  /**
   * The documents that fit into `allowance` characters, in order: each whole
   * document that still fits, then the first one that does not, cut to what is
   * left when anything is left, and nothing after it.
   */
  function Fit(docs: seq<string>, allowance: int): (r: seq<string>)
    ensures |r| <= |docs|
  {
    if docs == [] then []
    else if |docs[0]| > allowance then (if allowance > 0 then [docs[0][..allowance]] else [])
    else [docs[0]] + Fit(docs[1..], allowance - |docs[0]|)
  }

  /** The fitted documents never exceed the allowance. */
  lemma {:induction false} FitWithinAllowance(docs: seq<string>, allowance: int)
    ensures TotalLength(Fit(docs, allowance)) <= if allowance > 0 then allowance else 0
    decreases docs
  {
    if docs != [] && |docs[0]| <= allowance {
      FitWithinAllowance(docs[1..], allowance - |docs[0]|);
      assert Fit(docs, allowance)[1..] == Fit(docs[1..], allowance - |docs[0]|);
    }
  }

  /**
   * The fitted documents are a prefix of the inputs, except that the last one
   * may be a non-empty prefix of its document, cut exactly at the allowance.
   */
  lemma {:induction false} FitIsPrefix(docs: seq<string>, allowance: int)
    ensures var r := Fit(docs, allowance);
      forall i :: 0 <= i < |r| - 1 ==> r[i] == docs[i]
    ensures var r := Fit(docs, allowance);
      r != [] ==>
        r[|r| - 1] == docs[|r| - 1] ||
        (0 < |r[|r| - 1]| < |docs[|r| - 1]| &&
         r[|r| - 1] == docs[|r| - 1][..|r[|r| - 1]|] &&
         TotalLength(r) == allowance)
    decreases docs
  {
    var r := Fit(docs, allowance);
    if docs != [] && |docs[0]| <= allowance {
      var rest := Fit(docs[1..], allowance - |docs[0]|);
      FitIsPrefix(docs[1..], allowance - |docs[0]|);
      assert r == [docs[0]] + rest;
      assert r[1..] == rest;
      forall i | 0 <= i < |r| - 1 ensures r[i] == docs[i] {
        if i > 0 { assert r[i] == rest[i - 1]; }
      }
      if rest != [] {
        assert r[|r| - 1] == rest[|rest| - 1];
      }
    }
  }

  /** When everything fits, nothing is cut or dropped. */
  lemma {:induction false} FitAllWhenWithin(docs: seq<string>, allowance: int)
    requires TotalLength(docs) <= allowance
    ensures Fit(docs, allowance) == docs
    decreases docs
  {
    if docs != [] {
      FitAllWhenWithin(docs[1..], allowance - |docs[0]|);
      assert [docs[0]] + docs[1..] == docs;
    }
  }

  /**
   * When the documents do not all fit, the document that overflows is cut to
   * the space left rather than dropped: the fitted total is the whole allowance.
   */
  lemma {:induction false} FitFillsAllowance(docs: seq<string>, allowance: int)
    requires TotalLength(docs) > allowance
    ensures TotalLength(Fit(docs, allowance)) == if allowance > 0 then allowance else 0
    decreases docs
  {
    if docs == [] {
    } else if |docs[0]| > allowance {
      if allowance > 0 {
        var piece := docs[0][..allowance];
        assert Fit(docs, allowance) == [piece];
        assert [piece][1..] == [];
        assert TotalLength([piece]) == |piece| + TotalLength([]);
      }
    } else {
      var rest := Fit(docs[1..], allowance - |docs[0]|);
      FitFillsAllowance(docs[1..], allowance - |docs[0]|);
      assert Fit(docs, allowance) == [docs[0]] + rest;
      assert ([docs[0]] + rest)[1..] == rest;
    }
  }

  /** `format_context`: the budget loop over the documents, then the join. */
  method FormatContext(documents: seq<string>, tokenBudget: int) returns (context: string)
    ensures context == Join(Fit(documents, tokenBudget * 4), Separator)
  {
    var maxChars := tokenBudget * 4;
    var parts: seq<string> := [];
    var total := 0;
    var i := 0;
    while i < |documents|
      invariant 0 <= i <= |documents|
      invariant parts + Fit(documents[i..], maxChars - total) == Fit(documents, maxChars)
    {
      var doc := documents[i];
      assert documents[i..][1..] == documents[i + 1..];
      if total + |doc| > maxChars {
        var remaining := maxChars - total;
        assert Fit(documents[i..], remaining) == if remaining > 0 then [doc[..remaining]] else [];
        if remaining > 0 {
          parts := parts + [doc[..remaining]];
        }
        assert parts == Fit(documents, maxChars);
        break;
      }
      parts := parts + [doc];
      total := total + |doc|;
      i := i + 1;
    }
    if i == |documents| {
      assert documents[i..] == [];
    }
    assert parts == Fit(documents, maxChars);
    context := Join(parts, Separator);
  }

  /** No documents give the empty context. */
  lemma EmptyContext(tokenBudget: int)
    ensures Join(Fit([], tokenBudget * 4), Separator) == ""
  {
  }

  /** The query text: the prompt of the hook payload, stripped, or the generic query when that is blank. */
  function QueryFromHookInput(hook: map<string, Value>): (q: string)
    ensures q != []
    ensures var prompt := Render(Get(hook, "prompt", Str("")));
      if IsBlank(prompt) then q == DefaultRetrievalQuery else q == Strip(prompt)
  {
    var prompt := Strip(Render(Get(hook, "prompt", Str(""))));
    if prompt != [] then prompt else DefaultRetrievalQuery
  }

  /** Events without a prompt get the generic project-memory query. */
  lemma NoPromptGivesDefaultQuery(hook: map<string, Value>)
    requires "prompt" !in hook
    ensures QueryFromHookInput(hook) == DefaultRetrievalQuery
  {
    assert IsBlank("");
  }

  /**
   * The project directory named by a hook payload: `cwd` when truthy, else
   * the first workspace root, else ".". `None` stands for a value that is
   * not a path (`Path` raises), which ends the hook silently.
   */
  function ProjectDir(hook: map<string, Value>): (r: Option<string>)
    ensures "cwd" in hook && hook["cwd"].Str? && hook["cwd"].s != "" ==> r == Some(hook["cwd"].s)
    ensures !Truthy(Get(hook, "cwd", Null)) && !Truthy(Get(hook, "workspace_roots", List([]))) ==> r == Some(".")
    ensures (!Truthy(Get(hook, "cwd", Null)) && "workspace_roots" in hook &&
             hook["workspace_roots"].List? && hook["workspace_roots"].items != [] &&
             hook["workspace_roots"].items[0].Str?) ==> r == Some(hook["workspace_roots"].items[0].s)
    ensures (!Truthy(Get(hook, "cwd", Null)) && "workspace_roots" in hook &&
             hook["workspace_roots"].Str? && hook["workspace_roots"].s != "") ==>
      r == Some([hook["workspace_roots"].s[0]])
    ensures var cwd := Get(hook, "cwd", Null);
      var roots := Get(hook, "workspace_roots", List([]));
      r.None? <==> (Truthy(cwd) && !cwd.Str?) ||
                   (!Truthy(cwd) && Truthy(roots) && !roots.Str? &&
                    !(roots.List? && roots.items != [] && roots.items[0].Str?))
  {
    var cwd := Get(hook, "cwd", Null);
    if Truthy(cwd) then
      (if cwd.Str? then Some(cwd.s) else None)
    else
      var roots := Get(hook, "workspace_roots", List([]));
      if !Truthy(roots) then Some(".")
      else match roots
        case List(items) => if items[0].Str? then Some(items[0].s) else None
        case Str(s) => Some([s[0]])
        case _ => None
  }

  /** The retrieval settings read from the merged config. */
  datatype Knobs = Knobs(tokenBudget: int, nResults: int, recencyDays: int, fallback: bool)

  /**
   * The settings `run_retrieve` reads, with their defaults; `None` when one of
   * them is not a number (`int()` or the budget arithmetic raises).
   */
  function ReadKnobs(config: map<string, Value>): (r: Option<Knobs>)
    ensures r.Some? ==> r.value.nResults >= 1 && r.value.recencyDays >= 0
    ensures r.Some? <==> AsInt(Get(config, "token_budget", Int(2000))).Some?
                         && AsInt(Get(config, "retrieval_n_results", Int(5))).Some?
                         && AsInt(Get(config, "retrieval_recency_days", Int(0))).Some?
    ensures r.Some? ==>
      var n := AsInt(Get(config, "retrieval_n_results", Int(5))).value;
      var days := AsInt(Get(config, "retrieval_recency_days", Int(0))).value;
      r.value.tokenBudget == AsInt(Get(config, "token_budget", Int(2000))).value &&
      r.value.nResults == (if n < 1 then 1 else n) &&
      r.value.recencyDays == (if days < 0 then 0 else days)
    ensures ("token_budget" !in config && "retrieval_n_results" !in config &&
             "retrieval_recency_days" !in config && "retrieval_recency_fallback_global" !in config) ==>
      r == Some(Knobs(2000, 5, 0, true))
    ensures r.Some? ==> r.value.fallback == Truthy(Get(config, "retrieval_recency_fallback_global", Bool(true)))
  {
    var budget := AsInt(Get(config, "token_budget", Int(2000)));
    var n := AsInt(Get(config, "retrieval_n_results", Int(5)));
    var days := AsInt(Get(config, "retrieval_recency_days", Int(0)));
    if budget.None? || n.None? || days.None? then None
    else
      Some(Knobs(budget.value,
                 if n.value < 1 then 1 else n.value,
                 if days.value < 0 then 0 else days.value,
                 Truthy(Get(config, "retrieval_recency_fallback_global", Bool(true)))))
  }

  /** The defaults of the shipped configuration give the documented knobs. */
  lemma DefaultKnobs()
    ensures ReadKnobs(Config.DefaultConfig) == Some(Knobs(2000, 5, 0, true))
  {
  }

  /** Configured values are forwarded as they are; out-of-range counts are raised to their floor. */
  lemma ConfiguredKnobsForwarded()
    ensures ReadKnobs(map["token_budget" := Int(500), "retrieval_n_results" := Int(2),
                          "retrieval_recency_days" := Int(14),
                          "retrieval_recency_fallback_global" := Bool(false)]) == Some(Knobs(500, 2, 14, false))
    ensures ReadKnobs(map["retrieval_n_results" := Int(0), "retrieval_recency_days" := Int(-3)])
            == Some(Knobs(2000, 1, 0, true))
  {
  }

  /** The object the hook prints: its event name and the context to add. */
  datatype HookOutput = HookOutput(hookEventName: Value, additionalContext: string)

  /**
   * What the hook prints for a payload, given its loaded config (`None` when
   * loading raised) and the state of the collection of its project.
   */
  function Respond(hook: map<string, Value>, config: Option<map<string, Value>>, present: bool, count: nat,
                   respond: QueryRequest -> QueryResponse): (r: Option<HookOutput>)
    ensures r.Some? ==> r.value.additionalContext != ""
    ensures r.Some? ==> r.value.hookEventName == Get(hook, "hook_event_name", Str("SessionStart"))
    ensures r.Some? ==> config.Some? && ReadKnobs(config.value).Some?
    // Whenever the settings are read and the fitted context is non-empty, it is emitted.
    ensures config.Some? && ReadKnobs(config.value).Some? ==>
      var k := ReadKnobs(config.value).value;
      var plan := QueryPlan(present, count, QueryFromHookInput(hook), k.nResults, k.recencyDays, k.fallback, respond);
      var context := Join(Fit(plan.documents, k.tokenBudget * 4), Separator);
      context != "" ==> r == Some(HookOutput(Get(hook, "hook_event_name", Str("SessionStart")), context))
  {
    if config.None? then None
    else
      var knobs := ReadKnobs(config.value);
      if knobs.None? then None
      else
        var k := knobs.value;
        var documents := QueryPlan(present, count, QueryFromHookInput(hook), k.nResults, k.recencyDays,
                                   k.fallback, respond).documents;
        var context := Join(Fit(documents, k.tokenBudget * 4), Separator);
        if context == "" then None
        else Some(HookOutput(Get(hook, "hook_event_name", Str("SessionStart")), context))
  }

  /** A missing or empty collection means the hook prints nothing. */
  lemma EmptyIndexPrintsNothing(hook: map<string, Value>, config: Option<map<string, Value>>,
                                present: bool, count: nat, respond: QueryRequest -> QueryResponse)
    requires !present || count == 0
    ensures Respond(hook, config, present, count, respond) == None
  {
  }

  /**
   * When the hook prints, its context is the fitted answer to the query
   * sequence made with the clamped settings, and it stays within the budget.
   */
  lemma PrintedContextIsFittedAnswer(hook: map<string, Value>, config: Option<map<string, Value>>,
                                     present: bool, count: nat, respond: QueryRequest -> QueryResponse)
    requires Respond(hook, config, present, count, respond).Some?
    ensures var k := ReadKnobs(config.value).value;
      var plan := QueryPlan(present, count, QueryFromHookInput(hook), k.nResults, k.recencyDays, k.fallback, respond);
      var pieces := Fit(plan.documents, k.tokenBudget * 4);
      Respond(hook, config, present, count, respond).value.additionalContext == Join(pieces, Separator) &&
      TotalLength(pieces) <= (if k.tokenBudget > 0 then k.tokenBudget * 4 else 0) &&
      k.nResults >= 1 && k.recencyDays >= 0 && present && count > 0
  {
    var k := ReadKnobs(config.value).value;
    var plan := QueryPlan(present, count, QueryFromHookInput(hook), k.nResults, k.recencyDays, k.fallback, respond);
    FitWithinAllowance(plan.documents, k.tokenBudget * 4);
  }

  /** `Respond` once the config has loaded, the settings `k` have been read and the context assembled. */
  lemma RespondWithSettings(hook: map<string, Value>, config: Option<map<string, Value>>, present: bool, count: nat,
                            respond: QueryRequest -> QueryResponse, k: Knobs, queryText: string, context: string)
    requires config.Some? && ReadKnobs(config.value) == Some(k)
    requires queryText == QueryFromHookInput(hook)
    requires context == Join(Fit(QueryPlan(present, count, queryText, k.nResults, k.recencyDays,
                                           k.fallback, respond).documents, k.tokenBudget * 4), Separator)
    ensures Respond(hook, config, present, count, respond) ==
      if context == "" then None else Some(HookOutput(Get(hook, "hook_event_name", Str("SessionStart")), context))
  {
  }

  /**
   * `run_retrieve`: the hook pipeline, from payload to the printed object.
   * `configAt` gives the config file found in a project directory and
   * `stores` the vector collection kept there, if one has been created.
   */
  method RunRetrieve(hook: map<string, Value>, configAt: string -> Config.ConfigFile,
                     stores: map<string, Storage.Collection>, respond: QueryRequest -> QueryResponse)
    returns (output: Option<HookOutput>)
    ensures hook == map[] || ProjectDir(hook).None? ==> output == None
    ensures hook != map[] && ProjectDir(hook).Some? ==>
      var dir := ProjectDir(hook).value;
      output == Respond(hook, Config.LoadConfig(configAt(dir)), dir in stores && stores[dir].present,
                        if dir in stores then |stores[dir].entries| else 0, respond)
  {
    if hook == map[] {
      return None;
    }
    var dir := ProjectDir(hook);
    if dir.None? {
      return None;
    }
    var config := Config.LoadConfig(configAt(dir.value));
    if config.None? {
      return None;
    }
    var knobs := ReadKnobs(config.value);
    if knobs.None? {
      return None;
    }
    var hookEventName := Get(hook, "hook_event_name", Str("SessionStart"));
    var queryText := QueryFromHookInput(hook);
    var k := knobs.value;
    var documents: seq<string> := [];
    if dir.value in stores {
      var c := stores[dir.value];
      var issued;
      documents, issued := QuerySessions(c, queryText, k.nResults, k.recencyDays, k.fallback, respond);
    }
    var context := FormatContext(documents, k.tokenBudget);
    RespondWithSettings(hook, config, dir.value in stores && stores[dir.value].present,
                        if dir.value in stores then |stores[dir.value].entries| else 0,
                        respond, k, queryText, context);
    if context != "" {
      output := Some(HookOutput(hookEventName, context));
    } else {
      output := None;
    }
  }
}
