/**
 * The web application's own logic around the agents: the chat intent router with its
 * guards, and the input checks of the configuration, feedback and analysis endpoints.
 * Sessions, the configuration file, the database and the paper fetch are parameters.
 */
module Routes {
  import opened Options
  import opened Strings
  import opened Counter
  import opened Analysis
  import Innovation
  import ProposalFormat

  // ---------------------------------------------------------------------------------
  // Intent routing
  // ---------------------------------------------------------------------------------

  const PaperKeywords: seq<string> :=
    ["research", "papers", "find", "article", "paper", "about", "ai", "ml", "deep learning", "gen ai"]
  const ProposalKeywords: seq<string> := ["idea", "proposal", "generate", "innovation"]
  const AnalysisKeywords: seq<string> := ["analyze", "trends", "trend", "pattern", "analysis"]

  /** `any(keyword in message for keyword in keywords)`, tried left to right. */
  function AnyKeyword(message: string, keywords: seq<string>): bool
    decreases |keywords|
  {
    if keywords == [] then false
    else Contains(message, keywords[0]) || AnyKeyword(message, keywords[1..])
  }

  /** Some keyword of the list occurs as a substring of the message. */
  predicate Mentions(message: string, keywords: seq<string>) {
    exists k :: 0 <= k < |keywords| && Contains(message, keywords[k])
  }

  /** The left-to-right scan answers exactly whether some keyword occurs. */
  lemma {:induction false} AnyKeywordIff(message: string, keywords: seq<string>)
    ensures AnyKeyword(message, keywords) <==> Mentions(message, keywords)
    decreases |keywords|
  {
    if keywords != [] {
      var tail := keywords[1..];
      AnyKeywordIff(message, tail);
      if Mentions(message, tail) {
        var k :| 0 <= k < |tail| && Contains(message, tail[k]);
        assert tail[k] == keywords[k + 1];
      }
      if Mentions(message, keywords) && !Contains(message, keywords[0]) {
        var k :| 0 <= k < |keywords| && Contains(message, keywords[k]);
        assert k != 0 && tail[k - 1] == keywords[k];
      }
    }
  }

  /** The branch of `process_with_agents` a message takes. */
  datatype Intent = ListPapers | Propose | AnalyzeTrends | Help

  /** The branch chosen for a message: the first keyword list, in priority order, that the lower-cased message mentions. */
  function Classify(message: string): Intent {
    var m := Lower(message);
    if AnyKeyword(m, PaperKeywords) then ListPapers
    else if AnyKeyword(m, ProposalKeywords) then Propose
    else if AnyKeyword(m, AnalysisKeywords) then AnalyzeTrends
    else Help
  }

  /**
   * Papers win over proposals, proposals over analysis, and only a message that
   * mentions no keyword at all, ignoring case, gets the help text.
   */
  lemma ClassifyPriority(message: string)
    ensures var m := Lower(message);
      Classify(message) == ListPapers <==> Mentions(m, PaperKeywords)
    ensures var m := Lower(message);
      Classify(message) == Propose <==> !Mentions(m, PaperKeywords) && Mentions(m, ProposalKeywords)
    ensures var m := Lower(message);
      Classify(message) == AnalyzeTrends <==>
        !Mentions(m, PaperKeywords) && !Mentions(m, ProposalKeywords) && Mentions(m, AnalysisKeywords)
    ensures var m := Lower(message);
      Classify(message) == Help <==>
        !Mentions(m, PaperKeywords) && !Mentions(m, ProposalKeywords) && !Mentions(m, AnalysisKeywords)
  {
    var m := Lower(message);
    AnyKeywordIff(m, PaperKeywords);
    AnyKeywordIff(m, ProposalKeywords);
    AnyKeywordIff(m, AnalysisKeywords);
  }

  /** Routing ignores case: a message and its lower-cased form take the same branch. */
  lemma ClassifyIgnoresCase(message: string)
    ensures Classify(Lower(message)) == Classify(message)
  {
    LowerIdempotent(message);
  }

  /**
   * Matching is on substrings, not words: "explain trends" asks for an analysis but
   * contains "ai", so it takes the paper-listing branch.
   */
  lemma ExplainTrendsListsPapers()
    ensures Classify("explain trends") == ListPapers
  {
    var s := "explain trends";
    assert Lower(s) == s;
    assert OccursAt(s, "ai", 4);
    assert PaperKeywords[6] == "ai";
    AnyKeywordIff(s, PaperKeywords);
  }

  // ---------------------------------------------------------------------------------
  // process_with_agents
  // ---------------------------------------------------------------------------------

  /** The loaded configuration: the keys of the JSON object, each possibly missing. */
  datatype Config = Config(topic: Option<string>, maxResults: Option<int>)

  const DefaultMaxResults: int := 5

  /** `config.get("max_results", 5)`. */
  function MaxResultsOf(config: Config): int {
    if config.maxResults.Some? then config.maxResults.value else DefaultMaxResults
  }

  /** How a chat turn ends: a reply with an optional stored proposal id, or an exception raised to the caller. */
  datatype ChatOutcome = Answered(response: string, proposalId: Option<nat>) | Raised

  const NoPapersMessage: string := "\U{274C} No papers found to generate a proposal."
  const FewKeywordsMessage: string := "\U{274C} Not enough keywords extracted to generate a meaningful proposal."
  const GenerationFailedMessage: string := "\U{274C} Failed to generate proposal. Please try again with a broader topic."
  const HelpText: string :=
    "I'm a research assistant. You can ask me to:\n- Find recent research papers\n- Generate research proposals\n- Analyze trends in a field"

  /** The titles of the fetched papers, in order. */
  function Titles(papers: seq<Paper>): (r: seq<string>)
    ensures |r| == |papers| && forall i :: 0 <= i < |papers| ==> r[i] == papers[i].title
  {
    seq(|papers|, i requires 0 <= i < |papers| => papers[i].title)
  }

  /** The first line of the paper listing. */
  function ListingHeader(n: nat): string {
    "I found " + NatToString(n) + " recent papers:"
  }

  /** The paper-listing reply: the count line, then one `- title` line per paper. */
  function PaperListing(papers: seq<Paper>): string {
    ListingHeader(|papers|) + "\n" + Join("\n", Innovation.Bullets(Titles(papers)))
  }

  /** One line of the trend reply: `- term (count)`. */
  function TrendLines(keywords: seq<KeywordEntry>): (r: seq<string>)
    ensures |r| == |keywords|
    ensures forall i :: 0 <= i < |keywords| ==>
      r[i] == "- " + keywords[i].term + " (" + NatToString(keywords[i].count) + ")"
  {
    seq(|keywords|, i requires 0 <= i < |keywords| =>
      "- " + keywords[i].term + " (" + NatToString(keywords[i].count) + ")")
  }

  const TrendHeading: string := "Top keywords and trends:"

  /** The trend reply: a heading line, then one line per keyword. */
  function TrendReport(keywords: seq<KeywordEntry>): string {
    TrendHeading + "\n" + Join("\n", TrendLines(keywords))
  }

  /**
   * The routing skeleton shared by the corrected and the as-written proposal branch:
   * help needs nothing; every other branch reads `config["topic"]`, which raises when
   * the key is missing, and fetches papers, which may raise.
   */
  function Route(message: string, config: Config, fetch: (string, int) -> Option<seq<Paper>>,
                 propose: seq<Paper> -> ChatOutcome): ChatOutcome
  {
    var intent := Classify(message);
    if intent == Help then Answered(HelpText, None)
    else if config.topic.None? then Raised
    else
      var fetched := fetch(config.topic.value, MaxResultsOf(config));
      if fetched.None? then Raised
      else
        var papers := fetched.value;
        match intent
        case ListPapers => Answered(PaperListing(papers), None)
        case Propose => propose(papers)
        case AnalyzeTrends => Answered(TrendReport(TopKeywords(papers)), None)
  }

  /**
   * The proposal branch: refuse without papers, refuse with fewer than two keywords,
   * otherwise generate from the keyword terms, format, and store under `rowId`.
   */
  function ProposalBranch(papers: seq<Paper>, llm: string -> Innovation.Reply, rowId: nat): (r: ChatOutcome)
    ensures papers == [] ==> r == Answered(NoPapersMessage, None)
    ensures papers != [] && |TopKeywords(papers)| < 2 ==> r == Answered(FewKeywordsMessage, None)
    ensures papers != [] && |TopKeywords(papers)| >= 2 ==>
      r == Answered(ProposalFormat.FormatSpec(Innovation.GenerateResearchIdea(Terms(TopKeywords(papers)), llm)), Some(rowId))
  {
    if papers == [] then Answered(NoPapersMessage, None)
    else
      var keywords := TopKeywords(papers);
      if |keywords| < 2 then Answered(FewKeywordsMessage, None)
      else
        var proposal := Innovation.GenerateResearchIdea(Terms(keywords), llm);
        Answered(ProposalFormat.FormatSpec(proposal), Some(rowId))
  }

  /** `process_with_agents`, with the keyword terms (not the `(term, count)` pairs) handed to generation. */
  function ProcessWithAgents(message: string, config: Config, fetch: (string, int) -> Option<seq<Paper>>,
                             llm: string -> Innovation.Reply, rowId: nat): ChatOutcome
  {
    Route(message, config, fetch, papers => ProposalBranch(papers, llm, rowId))
  }

  /**
   * `generate_research_idea` applied to the `(term, count)` pairs themselves: the empty
   * list gets the refusal, any other list makes `", ".join` raise a TypeError before the
   * model is reached (`None` here).
   */
  function GenerateFromPairs(keywords: seq<KeywordEntry>): (r: Option<string>)
    ensures r.Some? <==> keywords == []
  {
    if |keywords| == 0 then Some(Innovation.NoKeywordsMessage) else None
  }

  /** The proposal branch as written: the pairs go to generation and the caught TypeError becomes the failure reply. */
  function ProposalBranchAsWritten(papers: seq<Paper>, rowId: nat): ChatOutcome {
    if papers == [] then Answered(NoPapersMessage, None)
    else
      var keywords := TopKeywords(papers);
      if |keywords| < 2 then Answered(FewKeywordsMessage, None)
      else
        var proposal := GenerateFromPairs(keywords);
        if proposal.None? then Answered(GenerationFailedMessage, None)
        else Answered(ProposalFormat.FormatSpec(proposal.value), Some(rowId))
  }

  /** `process_with_agents` as written. */
  function ProcessWithAgentsAsWritten(message: string, config: Config, fetch: (string, int) -> Option<seq<Paper>>,
                                      rowId: nat): ChatOutcome
  {
    Route(message, config, fetch, papers => ProposalBranchAsWritten(papers, rowId))
  }

  /** The chat can only fetch, and so only propose, when the configuration names a topic and the fetch succeeds. */
  predicate FetchesPapers(config: Config, fetch: (string, int) -> Option<seq<Paper>>, papers: seq<Paper>) {
    config.topic.Some? && fetch(config.topic.value, MaxResultsOf(config)) == Some(papers)
  }

  /** A proposal request whose fetch succeeds is answered by the proposal branch on the fetched papers. */
  lemma RouteProposes(message: string, config: Config, fetch: (string, int) -> Option<seq<Paper>>,
                      propose: seq<Paper> -> ChatOutcome, papers: seq<Paper>)
    requires Classify(message) == Propose && FetchesPapers(config, fetch, papers)
    ensures Route(message, config, fetch, propose) == propose(papers)
  {
  }

  /** A message that mentions no keyword gets the help text, whatever the configuration and the services do. */
  lemma HelpNeedsNothing(message: string, config: Config, fetch: (string, int) -> Option<seq<Paper>>,
                         llm: string -> Innovation.Reply, rowId: nat)
    requires !Mentions(Lower(message), PaperKeywords) && !Mentions(Lower(message), ProposalKeywords)
    requires !Mentions(Lower(message), AnalysisKeywords)
    ensures ProcessWithAgents(message, config, fetch, llm, rowId) == Answered(HelpText, None)
  {
    ClassifyPriority(message);
  }

  /** The paper-listing branch answers with the listing of exactly the fetched papers and stores nothing. */
  lemma ListingBranch(message: string, config: Config, fetch: (string, int) -> Option<seq<Paper>>,
                      llm: string -> Innovation.Reply, rowId: nat, papers: seq<Paper>)
    requires Mentions(Lower(message), PaperKeywords) && FetchesPapers(config, fetch, papers)
    ensures ProcessWithAgents(message, config, fetch, llm, rowId) == Answered(PaperListing(papers), None)
  {
    ClassifyPriority(message);
  }

  /** Fetching fails, or the topic key is missing: every branch but help raises. */
  lemma FetchFailureRaises(message: string, config: Config, fetch: (string, int) -> Option<seq<Paper>>,
                           llm: string -> Innovation.Reply, rowId: nat)
    requires Classify(message) != Help
    requires config.topic.None? || fetch(config.topic.value, MaxResultsOf(config)).None?
    ensures ProcessWithAgents(message, config, fetch, llm, rowId) == Raised
  {
  }

  /** The two guards of the proposal branch answer without consulting the model. */
  lemma ProposalGuardsSkipModel(message: string, config: Config, fetch: (string, int) -> Option<seq<Paper>>,
                                llm: string -> Innovation.Reply, other: string -> Innovation.Reply, rowId: nat, papers: seq<Paper>)
    requires Classify(message) == Propose && FetchesPapers(config, fetch, papers)
    requires papers == [] || |TopKeywords(papers)| < 2
    ensures var r := ProcessWithAgents(message, config, fetch, llm, rowId);
      r == ProcessWithAgents(message, config, fetch, other, rowId)
      && r.Answered? && r.proposalId == None
      && r.response == (if papers == [] then NoPapersMessage else FewKeywordsMessage)
  {
  }

  /**
   * A proposal id comes back exactly when the message asks for a proposal, papers were
   * fetched, and at least two keywords were extracted; it is then the stored row's id.
   */
  lemma ProposalIdIff(message: string, config: Config, fetch: (string, int) -> Option<seq<Paper>>,
                      llm: string -> Innovation.Reply, rowId: nat)
    ensures var r := ProcessWithAgents(message, config, fetch, llm, rowId);
      (r.Answered? && r.proposalId.Some?) <==>
        && Classify(message) == Propose
        && config.topic.Some?
        && var fetched := fetch(config.topic.value, MaxResultsOf(config));
           fetched.Some? && fetched.value != [] && |TopKeywords(fetched.value)| >= 2
    ensures var r := ProcessWithAgents(message, config, fetch, llm, rowId);
      r.Answered? && r.proposalId.Some? ==> r.proposalId == Some(rowId)
  {
    var r := ProcessWithAgents(message, config, fetch, llm, rowId);
    var intent := Classify(message);
    if intent != Help && config.topic.Some? {
      var fetched := fetch(config.topic.value, MaxResultsOf(config));
      if fetched.Some? && intent == Propose {
        assert r == ProposalBranch(fetched.value, llm, rowId);
      }
    }
  }

  /** When both guards pass, the reply is the formatted proposal generated from the keyword terms. */
  lemma ProposalSucceeds(message: string, config: Config, fetch: (string, int) -> Option<seq<Paper>>,
                         llm: string -> Innovation.Reply, rowId: nat, papers: seq<Paper>)
    requires Classify(message) == Propose && FetchesPapers(config, fetch, papers)
    requires papers != [] && |TopKeywords(papers)| >= 2
    ensures ProcessWithAgents(message, config, fetch, llm, rowId) ==
      Answered(ProposalFormat.FormatSpec(Innovation.GenerateResearchIdea(Terms(TopKeywords(papers)), llm)), Some(rowId))
  {
    var propose := ps => ProposalBranch(ps, llm, rowId);
    RouteProposes(message, config, fetch, propose, papers);
    assert propose(papers) == ProposalBranch(papers, llm, rowId);
  }

  /**
   * As written, the chat never produces a proposal: whenever both guards pass, the
   * pairs reach `", ".join`, which raises, and the reply is the failure message.
   */
  lemma AsWrittenNeverProposes(message: string, config: Config, fetch: (string, int) -> Option<seq<Paper>>,
                               rowId: nat)
    ensures var r := ProcessWithAgentsAsWritten(message, config, fetch, rowId);
      r.Answered? ==> r.proposalId == None
    ensures forall papers ::
      (FetchesPapers(config, fetch, papers) && Classify(message) == Propose
       && papers != [] && |TopKeywords(papers)| >= 2) ==>
      ProcessWithAgentsAsWritten(message, config, fetch, rowId) == Answered(GenerationFailedMessage, None)
  {
    var intent := Classify(message);
    if intent == Propose && config.topic.Some? {
      var fetched := fetch(config.topic.value, MaxResultsOf(config));
      if fetched.Some? {
        assert ProcessWithAgentsAsWritten(message, config, fetch, rowId) == ProposalBranchAsWritten(fetched.value, rowId);
      }
    }
  }

  /** The header line of the listing holds no line break. */
  lemma ListingHeaderOneLine(n: nat)
    ensures '\n' !in ListingHeader(n)
  {
    var digits := NatToString(n);
    assert forall i :: 0 <= i < |digits| ==> digits[i] != '\n';
    assert ListingHeader(n) == "I found " + digits + " recent papers:";
  }

  /** The paper listing splits back into its header line and one bullet per paper title. */
  lemma PaperListingLines(papers: seq<Paper>)
    requires papers != []
    requires forall i :: 0 <= i < |papers| ==> '\n' !in papers[i].title
    ensures Split(PaperListing(papers), '\n') == [ListingHeader(|papers|)] + Innovation.Bullets(Titles(papers))
  {
    var bullets := Innovation.Bullets(Titles(papers));
    var parts := [ListingHeader(|papers|)] + bullets;
    assert parts[0] == ListingHeader(|papers|) && parts[1..] == bullets;
    assert Join("\n", parts) == PaperListing(papers);
    ListingHeaderOneLine(|papers|);
    forall k | 0 <= k < |parts| ensures '\n' !in parts[k] {
      if k > 0 {
        assert parts[k] == "- " + papers[k - 1].title;
      }
    }
    SplitJoin(parts, '\n');
  }

  /** A trend line holds no line break when its term holds none. */
  lemma TrendLineOneLine(e: KeywordEntry)
    requires '\n' !in e.term
    ensures '\n' !in "- " + e.term + " (" + NatToString(e.count) + ")"
  {
    var digits := NatToString(e.count);
    assert forall i :: 0 <= i < |digits| ==> digits[i] != '\n';
  }

  /** The trend reply splits back into its heading and one `- term (count)` line per keyword. */
  lemma TrendReportLines(keywords: seq<KeywordEntry>)
    requires keywords != []
    requires forall i :: 0 <= i < |keywords| ==> '\n' !in keywords[i].term
    ensures Split(TrendReport(keywords), '\n') == [TrendHeading] + TrendLines(keywords)
  {
    var lines := TrendLines(keywords);
    var parts := [TrendHeading] + lines;
    assert parts[0] == TrendHeading && parts[1..] == lines;
    assert Join("\n", parts) == TrendReport(keywords);
    forall k | 0 <= k < |parts| ensures '\n' !in parts[k] {
      if k > 0 {
        TrendLineOneLine(keywords[k - 1]);
        assert parts[k] == lines[k - 1];
      }
    }
    SplitJoin(parts, '\n');
  }

  /** For the keyword table of a paper batch, whose terms are lower-case letters, the trend reply has one line per keyword after its heading. */
  lemma TrendReplyLines(papers: seq<Paper>)
    requires TopKeywords(papers) != []
    ensures Split(TrendReport(TopKeywords(papers)), '\n') == [TrendHeading] + TrendLines(TopKeywords(papers))
  {
    var keywords := TopKeywords(papers);
    TopKeywordsCorrect(papers);
    forall i | 0 <= i < |keywords| ensures '\n' !in keywords[i].term {
      var term := keywords[i].term;
      assert keywords[i] in keywords;
      assert forall j :: 0 <= j < |term| ==> IsLowerLetter(term[j]);
    }
    TrendReportLines(keywords);
  }

  // ---------------------------------------------------------------------------------
  // Endpoint validation
  // ---------------------------------------------------------------------------------

  /** The status code and detail text of an `HTTPException`. */
  datatype HttpError = HttpError(status: nat, detail: string)

  const MaxResultsLimit: int := 100

  /**
   * `set_config`: without a session user, 401; above 100 results, 400; otherwise the
   * configuration saved and echoed.
   */
  function SetConfig(sessionUser: Option<string>, topic: string, maxResults: int): (r: Result<Config, HttpError>)
    ensures r.Success? <==> sessionUser.Some? && maxResults <= MaxResultsLimit
    ensures sessionUser.None? ==> r == Failure(HttpError(401, "Unauthorized"))
    ensures sessionUser.Some? && maxResults > MaxResultsLimit ==>
      r == Failure(HttpError(400, "Max results cannot exceed 100"))
    ensures r.Success? ==> r.value == Config(Some(topic), Some(maxResults))
  {
    if sessionUser.None? then Failure(HttpError(401, "Unauthorized"))
    else if maxResults > MaxResultsLimit then Failure(HttpError(400, "Max results cannot exceed 100"))
    else Success(Config(Some(topic), Some(maxResults)))
  }

  /**
   * A configuration `set_config` accepted, once loaded by the chat, asks the fetch for
   * that topic and that many results, never more than 100.
   */
  lemma AcceptedConfigBoundsFetch(sessionUser: Option<string>, topic: string, maxResults: int)
    requires SetConfig(sessionUser, topic, maxResults).Success?
    ensures var config := SetConfig(sessionUser, topic, maxResults).value;
      config.topic == Some(topic) && MaxResultsOf(config) == maxResults <= MaxResultsLimit
  {
  }

  /** The JSON values a request body can hold (floating-point numbers aside). */
  datatype Json =
    | JNull
    | JBool(b: bool)
    | JInt(i: int)
    | JString(s: string)
    | JArray(items: seq<Json>)
    | JObject(fields: map<string, Json>)

  /** `data.get(key)`. */
  function Get(data: map<string, Json>, key: string): Option<Json> {
    if key in data then Some(data[key]) else None
  }

  /** Python truthiness of a value read from the body (`None` when the key is missing). */
  predicate TruthyJson(v: Option<Json>) {
    match v
    case None => false
    case Some(JNull) => false
    case Some(JBool(b)) => b
    case Some(JInt(i)) => i != 0
    case Some(JString(s)) => s != []
    case Some(JArray(items)) => items != []
    case Some(JObject(fields)) => fields != map[]
  }

  /** Python's `v == n` for an integer `n`: booleans compare as 0 and 1, other kinds never equal. */
  predicate EqualsInt(v: Option<Json>, n: int) {
    match v
    case Some(JInt(i)) => i == n
    case Some(JBool(b)) => (if b then 1 else 0) == n
    case _ => false
  }

  /** `rating in (1, -1)`. */
  predicate IsRating(v: Option<Json>) {
    EqualsInt(v, 1) || EqualsInt(v, -1)
  }

  /** What an accepted feedback writes: the rating for the proposal with that id. */
  datatype RatingUpdate = RatingUpdate(rating: Json, proposalId: Json)

  /**
   * `handle_feedback`: an empty or missing session user gets 401; a falsy proposal id or
   * a rating other than 1 or -1 gets 400; otherwise the rating update.
   */
  function HandleFeedback(sessionUser: Option<string>, data: map<string, Json>): (r: Result<RatingUpdate, HttpError>)
    ensures r.Success? <==>
      sessionUser.Some? && sessionUser.value != [] && TruthyJson(Get(data, "proposal_id")) && IsRating(Get(data, "rating"))
    ensures (sessionUser.None? || sessionUser.value == []) ==> r == Failure(HttpError(401, "Not authenticated"))
    ensures sessionUser.Some? && sessionUser.value != [] && !r.Success? ==> r == Failure(HttpError(400, "Invalid feedback data"))
    ensures r.Success? ==> Some(r.value.rating) == Get(data, "rating") && Some(r.value.proposalId) == Get(data, "proposal_id")
  {
    if sessionUser.None? || sessionUser.value == [] then Failure(HttpError(401, "Not authenticated"))
    else
      var proposalId := Get(data, "proposal_id");
      var rating := Get(data, "rating");
      if !TruthyJson(proposalId) || !IsRating(rating) then Failure(HttpError(400, "Invalid feedback data"))
      else Success(RatingUpdate(rating.value, proposalId.value))
  }

  /** Neutral and out-of-range ratings are turned away with 400, and so is `false`, which equals 0. */
  lemma RatingZeroRejected(user: string, data: map<string, Json>)
    requires user != []
    requires Get(data, "rating") in {Some(JInt(0)), Some(JInt(2)), Some(JBool(false)), Some(JNull), None}
    ensures HandleFeedback(Some(user), data) == Failure(HttpError(400, "Invalid feedback data"))
  {
  }

  /** A JSON `true` passes as the rating 1. */
  lemma RatingTrueAccepted(user: string, data: map<string, Json>)
    requires user != [] && TruthyJson(Get(data, "proposal_id"))
    requires Get(data, "rating") == Some(JBool(true))
    ensures HandleFeedback(Some(user), data) == Success(RatingUpdate(JBool(true), data["proposal_id"]))
  {
  }

  /** The papers `/analyze` keeps: the first twenty. */
  const MaxAnalyzed: nat := 20

  /** The `/analyze` reply: the topic and its keyword table. */
  datatype TopicKeywords = TopicKeywords(topic: string, keywords: seq<KeywordEntry>)

  /**
   * `/analyze`: without a session user, 401; a failing fetch, 500; otherwise the keyword
   * table of at most the first twenty fetched papers.
   */
  method Analyze(sessionUser: Option<string>, topic: string, maxResults: int,
                 fetch: (string, int) -> Option<seq<Paper>>) returns (r: Result<TopicKeywords, HttpError>)
    ensures sessionUser.None? ==> r == Failure(HttpError(401, "Unauthorized"))
    ensures sessionUser.Some? && fetch(topic, maxResults).None? ==>
      r == Failure(HttpError(500, "Error during keyword analysis"))
    ensures sessionUser.Some? && fetch(topic, maxResults).Some? ==>
      var all := fetch(topic, maxResults).value;
      var kept := all[..Min(|all|, MaxAnalyzed)];
      && r == Success(TopicKeywords(topic, TopKeywords(kept)))
      && IsTopKeywords(r.value.keywords, AllWords(kept))
  {
    if sessionUser.None? {
      return Failure(HttpError(401, "Unauthorized"));
    }
    var fetched := fetch(topic, maxResults);
    if fetched.None? {
      return Failure(HttpError(500, "Error during keyword analysis"));
    }
    var papers := fetched.value;
    if |papers| > MaxAnalyzed {
      papers := papers[..MaxAnalyzed];
    }
    assert papers == fetched.value[..Min(|fetched.value|, MaxAnalyzed)];
    var keywords := AnalyzePapers(papers);
    r := Success(TopicKeywords(topic, keywords));
  }
}
