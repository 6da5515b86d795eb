# Adaptive research agent: a verified model of its core

The adaptive research agent is a small web application. It fetches recent papers from arXiv, extracts
keywords from them, asks a language model for a research proposal built on those keywords, and
formats the proposal as Markdown. A chat endpoint routes free-text messages to these agents. This
project models the logic between those services and proves what it does:

- `message_bus.dfy`, module `Messaging`: the topic store the agents share. It is a class whose `state` map
  holds, per topic, the value last published. Publish overwrites one entry, and consume reads it
  without changing anything.
- `tokenizer.dfy`, module `Tokenizer`: the keyword regex `\b[a-zA-Z]{5,}\b` over ASCII text. A token is a
  maximal run of word characters that is made of letters and is at least five long. The module
  proves soundness, completeness and that a non-word character separates the token stream.
- `counter.dfy`, module `Counter`: `collections.Counter` over a word list, and its `most_common(k)`.
  Entries follow first-insertion order. `most_common` is a stable descending sort by count,
  truncated to `k`. It is modelled as repeated selection of the first entry with the largest count.
- `analysis.dfy`, module `Analysis`: `analyze_papers`, as a loop method proved against
  `TopKeywords`, and `analyze_from_bus` with its guard on the bus.
- `innovation.dfy`, module `Innovation`: the empty-keywords guard of `generate_research_idea`, its
  `", "`-joined prompt, the normalisation of the model's reply, and the text that
  `save_proposal_as_markdown` writes.
- `proposal_format.dfy`, module `ProposalFormat`: `format_innovation_proposal`. It is a loop method
  over the lines, proved equal to the specification function `FormatSpec`. The two regexes
  become explicit matchers, and the module has lemmas for each kind of line.
- `routes.dfy`, module `Routes`: the chat router `process_with_agents`, with its priority order and
  its guards, plus the checks in `set_config`, `handle_feedback` and `/analyze`.
- `strings.dfy` and `options.dfy`: Python's string operations (`strip`, `lower`, `split`, `join`,
  `in`, `find`, `replace`, `str(n)`), and the `Option`/`Result` values.

The model has no I/O. The paper fetch, the language model, the configuration file, the session
user and the database row id are all parameters of the functions that use them.

Two proved facts about the router are worth knowing:

- Keyword matching is substring containment. So `"explain trends"` contains `"ai"` and lists papers
  instead of analysing trends (`Routes.ExplainTrendsListsPapers`).
- As written, the chat's proposal branch can never succeed (see Findings).

## Model

| member | source | states |
|---|---|---|
| Messaging.MessageBus.constructor | adaptive_agent/agents/message_bus.py:2-3 | a new bus has an empty state, so every topic reads as absent |
| Messaging.MessageBus.Lookup | adaptive_agent/agents/message_bus.py:11 | `state.get(topic)`: present exactly when the topic was published, and then its value |
| Messaging.MessageBus.Publish | adaptive_agent/agents/message_bus.py:5-7 | the new state is the old one with `topic` mapped to `data`; reading `topic` gives `data`; every other topic reads as before |
| Messaging.MessageBus.Consume | adaptive_agent/agents/message_bus.py:9-11 | returns the stored value or None; the method modifies nothing |
| Messaging.ConsumeFromNewBus | adaptive_agent/agents/message_bus.py:2-11 | consuming any topic on a new bus yields None |
| Messaging.PublishThenConsume | adaptive_agent/agents/message_bus.py:5-11 | after publish(t, d), consume(t) returns d |
| Messaging.LastWriteWins | adaptive_agent/agents/message_bus.py:7 | two publishes to one topic leave only the second value |
| Messaging.PublishTwice | adaptive_agent/agents/message_bus.py:7 | publishing the same value twice leaves the state one publish leaves |
| Strings.Lower | adaptive_agent/agents/analysis_agent.py:11 | `str.lower()` on ASCII: same length, each character lower-cased |
| Strings.LowerIdempotent | adaptive_agent/main.py:291 | lower-casing twice is lower-casing once |
| Strings.LStrip | adaptive_agent/agents/innovation_agent.py:59 | the suffix left after dropping leading white space, which does not start with white space |
| Strings.RStrip | adaptive_agent/agents/innovation_agent.py:59 | the prefix left after dropping trailing white space, which does not end with white space |
| Strings.Strip | adaptive_agent/agents/innovation_agent.py:59 | the result is stripped and is a window of the input with only white space around it |
| Strings.StripEmptyIff | adaptive_agent/agents/innovation_agent.py:59-61 | a line strips to empty exactly when it holds only white space |
| Strings.StripIdempotent | adaptive_agent/agents/innovation_agent.py:59 | stripping twice is stripping once |
| Strings.Find | adaptive_agent/agents/innovation_agent.py:62 | the first offset at or after `from` where the pattern occurs, or None when there is none |
| Strings.FindFirst | adaptive_agent/agents/innovation_agent.py:62 | a first occurrence at or after `from` is what `Find` returns |
| Strings.ReplaceAllAbsent | adaptive_agent/agents/innovation_agent.py:67 | replacing a pattern that does not occur leaves the string unchanged |
| Strings.ReplaceAll | adaptive_agent/agents/innovation_agent.py:67 | `str.replace` with a non-empty pattern: occurrences are replaced left to right without overlap; `Strings.ReplaceAllAbsent` and `ProposalFormat.TitleLine` state what it does |
| Strings.Split | adaptive_agent/agents/innovation_agent.py:56 | `split` on one character: at least one piece, none containing the separator |
| Strings.JoinSplit | adaptive_agent/agents/innovation_agent.py:56-88 | joining the pieces of a split with the separator gives the original string |
| Strings.SplitJoin | adaptive_agent/agents/innovation_agent.py:56-92 | splitting a join of separator-free pieces gives the pieces back |
| Strings.Join | adaptive_agent/agents/innovation_agent.py:29 | `sep.join(parts)`: the parts with one separator between neighbours; `Strings.JoinSplit` and `Strings.SplitJoin` make it the inverse of `Split` |
| Strings.NatToString | adaptive_agent/main.py:297 | `str(n)` is a non-empty string of decimal digits |
| Strings.DecimalRoundTrip | adaptive_agent/main.py:297 | reading the digits of `str(n)` back gives `n` |
| Tokenizer.WordRunLength | adaptive_agent/agents/analysis_agent.py:11 | the longest prefix of word characters, stopping at a non-word character |
| Tokenizer.Tokens | adaptive_agent/agents/analysis_agent.py:11 | `re.findall` of the keyword regex, scanning maximal word runs left to right; `Tokenizer.TokensSound` and `Tokenizer.TokensComplete` prove it finds exactly the regex matches |
| Tokenizer.TokensSound | adaptive_agent/agents/analysis_agent.py:11 | every token is a keyword of five or more letters and stands in the text as a maximal word run (`\b` at both ends) |
| Tokenizer.TokensComplete | adaptive_agent/agents/analysis_agent.py:11 | every maximal word run that is a keyword is among the tokens |
| Tokenizer.TokensSeparated | adaptive_agent/agents/analysis_agent.py:10-11 | no token spans a non-word character: the tokens of `a + [c] + b` are those of `a` followed by those of `b` |
| Tokenizer.LowerTokens | adaptive_agent/agents/analysis_agent.py:11 | the tokens of lower-cased text are lower-case keywords |
| Tokenizer.SingleKeyword | adaptive_agent/agents/analysis_agent.py:11 | a lone keyword is exactly one token |
| Counter.Terms | adaptive_agent/agents/analysis_agent.py:14 | the terms of the entries, position by position |
| Counter.FirstIndex | adaptive_agent/agents/analysis_agent.py:14 | the first position of a word in the list |
| Counter.Tally | adaptive_agent/agents/analysis_agent.py:14 | `Counter(all_words)`, counting word by word; `Counter.TallyCorrect` proves it has one exact count per distinct word, in first-occurrence order |
| Counter.Bump | adaptive_agent/agents/analysis_agent.py:14 | counting a new word appends `(w, 1)`; counting a seen word keeps every term in its place |
| Counter.BumpCounts | adaptive_agent/agents/analysis_agent.py:14 | counting a seen word adds one to its count and to no other |
| Counter.TallyCorrect | adaptive_agent/agents/analysis_agent.py:14 | `Counter(words)` has one entry per distinct word, with its number of occurrences, in first-occurrence order |
| Counter.BumpExisting | adaptive_agent/agents/analysis_agent.py:14 | counting a seen word preserves the tally invariant |
| Counter.BumpNew | adaptive_agent/agents/analysis_agent.py:14 | counting a new word preserves the tally invariant |
| Counter.FirstIndexPrefix | adaptive_agent/agents/analysis_agent.py:14 | appending words does not move a word's first occurrence |
| Counter.ArgMax | adaptive_agent/agents/analysis_agent.py:15 | the first entry with the largest count |
| Counter.MostCommon | adaptive_agent/agents/analysis_agent.py:15 | `most_common(k)` has `min(k, n)` entries |
| Counter.MostCommonFrom | adaptive_agent/agents/analysis_agent.py:15 | every entry of `most_common(k)` is an entry of the tally |
| Counter.MostCommonDistinct | adaptive_agent/agents/analysis_agent.py:15 | `most_common(k)` repeats no term |
| Counter.MostCommonAll | adaptive_agent/agents/analysis_agent.py:15 | when `k` covers the tally, every entry is returned |
| Counter.MostCommonSorted | adaptive_agent/agents/analysis_agent.py:15 | each returned entry outranks the later ones: a higher count, or an equal count and an earlier rank |
| Counter.MostCommonOutranksRest | adaptive_agent/agents/analysis_agent.py:15 | every returned entry outranks every entry left out (top-k) |
| Counter.MostCommonIsTop | adaptive_agent/agents/analysis_agent.py:15 | all of the above together for a distinct, rank-ordered tally |
| Analysis.PaperText | adaptive_agent/agents/analysis_agent.py:10-11 | the lower-cased title, a space and the lower-cased summary; `Analysis.PaperTokens` proves the space keeps their words apart |
| Analysis.AllWords | adaptive_agent/agents/analysis_agent.py:9-12 | the tokens of each paper in paper order, extended paper by paper; `Analysis.AllWordsLower` and `Analysis.AllWordsEmpty` state what it holds |
| Analysis.TopKeywords | adaptive_agent/agents/analysis_agent.py:14-15 | `Counter(all_words).most_common(5)`; `Analysis.TopKeywordsCorrect` proves it meets the `most_common(5)` specification |
| Analysis.PaperTokens | adaptive_agent/agents/analysis_agent.py:10-11 | the space between title and summary keeps their words apart |
| Analysis.AllWordsLower | adaptive_agent/agents/analysis_agent.py:9-12 | every collected word is lower-case letters only, at least five long |
| Analysis.AllWordsEmpty | adaptive_agent/agents/analysis_agent.py:9-12 | no word is collected exactly when no paper's text has a token |
| Analysis.TallyTop | adaptive_agent/agents/analysis_agent.py:14-15 | the tally is correct and ordered by first occurrence, and its `most_common(5)` is distinct, sorted and outranks the rest |
| Analysis.TallyEntry | adaptive_agent/agents/analysis_agent.py:14 | every counted word has its exact `(word, count)` entry in the tally |
| Analysis.MostCommonSpec | adaptive_agent/agents/analysis_agent.py:14-15 | `Counter(words).most_common(5)`: at most five distinct words with exact counts; all words when fewer than five; empty exactly for no words; non-increasing counts with ties in first-occurrence order; no omitted word ranks higher |
| Analysis.TopKeywordsCorrect | adaptive_agent/agents/analysis_agent.py:6-15 | the keyword table of a paper batch meets that specification, over lower-case keyword terms |
| Analysis.AnalyzePapers | adaptive_agent/agents/analysis_agent.py:6-15 | the loop over papers returns `TopKeywords(papers)`, which meets the specification above |
| Analysis.AnalyzeFromBus | adaptive_agent/agents/analysis_agent.py:17-24 | an absent or empty "papers" topic returns `[]` and leaves the bus unchanged; a paper batch publishes its keyword table under "keywords", returns it, and changes no other topic; a non-empty non-paper value raises |
| Innovation.NormalizeReply | adaptive_agent/agents/innovation_agent.py:33-45 | an exception gives the reason message; an unknown shape gives the fixed message; a message reply, or a list whose first item is a message, gives that content stripped; a non-blank text reply gives itself stripped and a blank one the fixed message |
| Innovation.GenerateResearchIdea | adaptive_agent/agents/innovation_agent.py:25-30 | no keywords gives the fixed refusal |
| Innovation.NoKeywordsSkipsModel | adaptive_agent/agents/innovation_agent.py:26-27 | with no keywords the result does not depend on the model |
| Innovation.KeywordsReachModel | adaptive_agent/agents/innovation_agent.py:29-33 | with keywords, the model gets the prompt for the `", "`-joined list, and its reply is normalised |
| Innovation.Prompt | adaptive_agent/agents/innovation_agent.py:18-24 | the template with `{keywords}` filled in; `Innovation.PromptMentionsKeywords` proves every keyword reaches it |
| Innovation.JoinHasParts | adaptive_agent/agents/innovation_agent.py:29 | every part of a join occurs in it |
| Innovation.PromptMentionsKeywords | adaptive_agent/agents/innovation_agent.py:18-30 | the prompt the model receives contains every keyword |
| Innovation.Bullets | adaptive_agent/agents/innovation_agent.py:92 | one `- item` per item, in order |
| Innovation.ProposalMarkdown | adaptive_agent/agents/innovation_agent.py:89-94 | the content accumulated by `+=` is the title line, the keyword heading and bullets, then the proposal heading and text; it starts with the title and ends with the proposal text |
| Innovation.KeywordSectionRoundTrip | adaptive_agent/agents/innovation_agent.py:92 | the keyword section splits back into one bullet per keyword |
| ProposalFormat.SectionEmoji | adaptive_agent/agents/innovation_agent.py:50-65 | a known section gets its emoji from the table; an unknown one gets `""` |
| ProposalFormat.NumberMarker | adaptive_agent/agents/innovation_agent.py:76-79 | a number outside the table is rendered as `N.` |
| ProposalFormat.KeycapMarker | adaptive_agent/agents/innovation_agent.py:76-78 | the digits 1 to 9 get their keycap emoji |
| ProposalFormat.MarkerShape | adaptive_agent/agents/innovation_agent.py:76-79 | a keycap is exactly a one-digit number in the table; any other number keeps its digits and gains a dot |
| ProposalFormat.NumberMarkerInjective | adaptive_agent/agents/innovation_agent.py:76-79 | different numbers get different markers |
| ProposalFormat.SectionNameEnd | adaptive_agent/agents/innovation_agent.py:62 | `\*\*(.+?):\*\*` at the line start: the first `:**` at offset 3 or later, or no match |
| ProposalFormat.MatchSection | adaptive_agent/agents/innovation_agent.py:62-64 | the header name is the text between `**` and that first `:**` |
| ProposalFormat.TitleHeaderIff | adaptive_agent/agents/innovation_agent.py:62-66 | a line's header is `Title` exactly when it starts with `**Title:**` |
| ProposalFormat.DigitRunLength | adaptive_agent/agents/innovation_agent.py:73 | the maximal run of digits at the start of the line |
| ProposalFormat.BoldCloseAt | adaptive_agent/agents/innovation_agent.py:73 | the lazy `\*\*(.*?)\*\*:`: the first `**:` at offset 2 or later |
| ProposalFormat.SplitBold | adaptive_agent/agents/innovation_agent.py:73 | the part after `N.` splits into a label only when a `**:` closes it and text follows; the text is never empty and is stripped |
| ProposalFormat.SplitBoldLabel | adaptive_agent/agents/innovation_agent.py:73 | the label lies between `**` and the first `**:`; the text is what follows, stripped |
| ProposalFormat.MatchNumbered | adaptive_agent/agents/innovation_agent.py:73-75 | `(\d+)\.\s*(...)?\s*(.+)` matches exactly when the line is a digit run, a dot and at least one more character; the groups are that number and a non-empty stripped text |
| ProposalFormat.RenderNumbered | adaptive_agent/agents/innovation_agent.py:76-83 | a numbered item with a non-empty label is `marker **label**: text`, otherwise `marker text`; `ProposalFormat.NumberedBoldLine` and `ProposalFormat.NumberedPlainLine` state both forms |
| ProposalFormat.RenderLine | adaptive_agent/agents/innovation_agent.py:60-86 | the entries of one stripped line, trying header, then numbered, then bullet; the lemmas below state each case |
| ProposalFormat.Entry | adaptive_agent/agents/innovation_agent.py:58-60 | one raw line is stripped before it is rendered |
| ProposalFormat.FormatSpec | adaptive_agent/agents/innovation_agent.py:56-88 | the entries of every line, in order, joined by newlines; `ProposalFormat.FormatInnovationProposal` is proved equal to it |
| ProposalFormat.FormatInnovationProposal | adaptive_agent/agents/innovation_agent.py:49-88 | the loop appending entries line by line returns `FormatSpec(rawText)`: the entries of the stripped lines, joined by newlines |
| ProposalFormat.FormatEmpty | adaptive_agent/agents/innovation_agent.py:56-88 | an empty input formats to `""` |
| ProposalFormat.FormattedEntriesAppend | adaptive_agent/agents/innovation_agent.py:58-86 | formatting is line-local: the entries of two blocks of lines are those of each, in order |
| ProposalFormat.FlatMapAppend | adaptive_agent/agents/innovation_agent.py:58-86 | the per-line outputs of a concatenation are the outputs of its halves |
| ProposalFormat.RenderLineLength | adaptive_agent/agents/innovation_agent.py:60-86 | a blank line gives no entry, a `Title` header two, every other line one |
| ProposalFormat.EntryCount | adaptive_agent/agents/innovation_agent.py:58-86 | the entry count is the number of non-blank lines plus the number of title headers |
| ProposalFormat.RenderedHeader | adaptive_agent/agents/innovation_agent.py:63-71 | a header line becomes the title line and `---`, or `\n## emoji name` |
| ProposalFormat.RenderedNumbered | adaptive_agent/agents/innovation_agent.py:73-84 | a numbered line that is not a header becomes its single numbered entry |
| ProposalFormat.RenderedBullet | adaptive_agent/agents/innovation_agent.py:86 | a line that is neither becomes `- line` |
| ProposalFormat.HeaderLine | adaptive_agent/agents/innovation_agent.py:62-71 | `**Name:**rest` for a name other than `Title` that holds no `:**` becomes `\n## emoji Name`; the rest of the line is dropped |
| ProposalFormat.RenderTitle | adaptive_agent/agents/innovation_agent.py:66-68 | a `**Title:**` line becomes `# 💡 Innovation Proposal: ` followed by the line with every `**Title:**` removed and stripped, then `---` |
| ProposalFormat.TitleLine | adaptive_agent/agents/innovation_agent.py:66-68 | with a single `**Title:**`, the title is the stripped rest of the line |
| ProposalFormat.DigitLine | adaptive_agent/agents/innovation_agent.py:62-86 | a line starting with a digit is never a header: it is numbered when it parses, otherwise a bullet |
| ProposalFormat.ParseNumbered | adaptive_agent/agents/innovation_agent.py:73-75 | `N. text` parses as number N, with the label and text of `text` |
| ProposalFormat.ParseLabelled | adaptive_agent/agents/innovation_agent.py:73-75 | `N. **label**: text` parses with that label and text |
| ProposalFormat.LabelSplit | adaptive_agent/agents/innovation_agent.py:73 | `**label**: text` splits into the label and the text |
| ProposalFormat.NumberedBoldLine | adaptive_agent/agents/innovation_agent.py:73-81 | `N. **label**: text` renders as `marker **label**: text` |
| ProposalFormat.NumberedPlainLine | adaptive_agent/agents/innovation_agent.py:73-83 | `N. text` without a label renders as `marker text` |
| ProposalFormat.BulletLine | adaptive_agent/agents/innovation_agent.py:86 | a line that starts with neither `**` nor a digit becomes a bullet |
| Routes.AnyKeywordIff | adaptive_agent/main.py:295 | the left-to-right `any(...)` holds exactly when some keyword occurs in the message |
| Routes.AnyKeyword | adaptive_agent/main.py:295 | `any(keyword in message for keyword in keywords)`, evaluated left to right; `Routes.AnyKeywordIff` states its meaning |
| Routes.ClassifyPriority | adaptive_agent/main.py:291-345 | on the lower-cased message, a paper keyword wins, then a proposal keyword, then an analysis keyword; help exactly when none occurs |
| Routes.ClassifyIgnoresCase | adaptive_agent/main.py:291 | a message and its lower-cased form are routed alike |
| Routes.ExplainTrendsListsPapers | adaptive_agent/main.py:295 | `"explain trends"` lists papers, because it contains `"ai"` |
| Routes.Classify | adaptive_agent/main.py:291-345 | the branch a message takes, on its lower-cased text; `Routes.ClassifyPriority` proves the priority order |
| Routes.MaxResultsOf | adaptive_agent/main.py:293 | `config.get("max_results", 5)`: the configured value, or 5 when the key is missing |
| Routes.Titles | adaptive_agent/main.py:298 | the paper titles, in order |
| Routes.TrendLines | adaptive_agent/main.py:336 | one `- term (count)` line per keyword |
| Routes.PaperListing | adaptive_agent/main.py:297-298 | the count line and one `- title` line per paper; `Routes.PaperListingLines` proves it splits back into them |
| Routes.TrendReport | adaptive_agent/main.py:336 | the heading and one `- term (count)` line per keyword; `Routes.TrendReportLines` proves it splits back into them |
| Routes.Route | adaptive_agent/main.py:290-345 | the routing shared by both proposal branches: help first, then the topic key and the fetch, then the branch; the chat lemmas below state each case |
| Routes.ProposalBranch | adaptive_agent/main.py:304-330 | no papers gives the no-papers reply; fewer than two keywords gives the not-enough-keywords reply; otherwise the formatted proposal from the keyword terms, with the new row's id |
| Routes.ProcessWithAgents | adaptive_agent/main.py:290-345 | `process_with_agents` with the keyword terms handed to generation; `Routes.ProposalIdIff` and `Routes.ProposalSucceeds` state its proposal branch |
| Routes.GenerateFromPairs | adaptive_agent/agents/innovation_agent.py:26-29 | `generate_research_idea` on `(term, count)` pairs returns only for the empty list; otherwise the join raises |
| Routes.ProposalBranchAsWritten | adaptive_agent/main.py:304-330 | the proposal branch with the `(term, count)` pairs handed to generation, as written |
| Routes.ProcessWithAgentsAsWritten | adaptive_agent/main.py:290-345 | `process_with_agents` as written; `Routes.AsWrittenNeverProposes` proves it never returns an id |
| Routes.RouteProposes | adaptive_agent/main.py:301-302 | a proposal request whose fetch succeeds is answered by the proposal branch |
| Routes.HelpNeedsNothing | adaptive_agent/main.py:339-345 | a message with no keyword gets the help text and no id, whatever the configuration and services do |
| Routes.ListingBranch | adaptive_agent/main.py:295-299 | a paper request answers with the listing of the fetched papers and no id |
| Routes.FetchFailureRaises | adaptive_agent/main.py:290-337 | outside help, a missing `topic` key or a failing fetch propagates as an exception |
| Routes.ProposalGuardsSkipModel | adaptive_agent/main.py:304-310 | both guards answer without the model: the reply is the same for any model and carries no id |
| Routes.ProposalIdIff | adaptive_agent/main.py:290-345 | an id comes back exactly for a proposal request with fetched papers and at least two keywords, and it is the stored row's id |
| Routes.ProposalSucceeds | adaptive_agent/main.py:307-330 | past both guards, the reply is the formatted proposal generated from the keyword terms |
| Routes.AsWrittenNeverProposes | adaptive_agent/main.py:312-317 | as written, no chat reply ever carries an id, and past both guards the reply is the failure message |
| Routes.ListingHeaderOneLine | adaptive_agent/main.py:297 | the `I found N recent papers:` line holds no line break |
| Routes.PaperListingLines | adaptive_agent/main.py:297-298 | the listing splits back into its count line and one `- title` per paper |
| Routes.TrendLineOneLine | adaptive_agent/main.py:336 | a trend line holds no line break when its term holds none |
| Routes.TrendReportLines | adaptive_agent/main.py:336 | a non-empty trend reply whose terms hold no line break splits back into its heading and one `- term (count)` line per keyword |
| Routes.TrendReplyLines | adaptive_agent/main.py:333-337 | for the keyword table of any paper batch, the trend reply splits into its heading and one line per keyword |
| Routes.SetConfig | adaptive_agent/main.py:121-131 | accepted exactly for a session user and at most 100 results; no session gives 401 `Unauthorized`, even above 100; above 100 gives 400; an accepted call returns the configuration with that topic and that result count |
| Routes.AcceptedConfigBoundsFetch | adaptive_agent/main.py:121-131 | an accepted configuration makes the chat fetch that topic with at most 100 results |
| Routes.HandleFeedback | adaptive_agent/main.py:264-287 | accepted exactly for a non-empty session user, a truthy proposal id and a rating equal to 1 or -1; without a user, 401 `Not authenticated`; with a user, any other request gets 400 `Invalid feedback data`; the update carries the given rating and id |
| Routes.RatingZeroRejected | adaptive_agent/main.py:274-275 | ratings 0, 2, `false`, `null` or missing are rejected with 400 |
| Routes.RatingTrueAccepted | adaptive_agent/main.py:274 | a JSON `true` passes as the rating 1 |
| Routes.Analyze | adaptive_agent/main.py:183-196 | no session user gives 401; a failing fetch gives 500; otherwise the keyword table of the first twenty fetched papers, which meets the `most_common(5)` specification |

## Left out

- Unicode: `\b`, `\w`, `\s`, `\d`, `lower()` and `strip()` are modelled over ASCII only. Python's
  versions are Unicode-aware.
- `fetch_arxiv_papers` (adaptive_agent/agents/research_agent.py) is not part of this model. It does
  HTTP and XML parsing. Where it is called, its result is a parameter, and `None` stands for an
  exception. It publishes to its own bus instance, so the model does not assume papers reach
  `analyze_from_bus` through the bus.
- The language model is a parameter from prompt to reply. `ChatPromptTemplate` is modelled as
  substitution into the template text.
- The database (adaptive_agent/agents/database.py), the SQL statements and `cursor.lastrowid`: the
  row id is a parameter, and a failing insert is not modelled.
- `load_config`/`save_config` file I/O: the loaded configuration is a parameter. `set_config`
  returns the configuration it would save.
- `save_proposal_as_markdown`'s file write and returned filename: only the content is modelled.
- `print` logging and the `async`/`run_in_threadpool` scheduling: the chat is modelled as sequential.
- The rest of main.py is not modelled:
  - `run_agents` imports a function that does not exist;
  - `fetch_papers_loop` and `startup_event` form a background task;
  - login, register, `/fetch-papers`, `/innovate`, `/export-report` and the static routes are
    outside the modelled logic;
  - the 401 and empty-message guards of `handle_chat`.
- JSON floating-point numbers are not modelled, so a rating of `1.0`, which Python accepts, is absent
  from `Routes.Json`.
- Routes.Config: a configuration file that is not a JSON object is not modelled.
- Innovation.NormalizeReply: a reply whose `content` attribute is not a string would raise in
  `.strip()`. Content is modelled as a string.
- Analysis.Paper is a typed record, so the KeyError of a paper dictionary missing `title` or
  `summary` is not modelled.
- Counter.MostCommon: `most_common(k)` goes through `heapq.nlargest`, which Python documents as
  equivalent to a stable sort truncated to `k`. The model is that stable selection, not the heap.

## Findings

| source | as written | input that shows it | evidently intended | confidence | as-written member | corrected member |
|---|---|---|---|---|---|---|
| adaptive_agent/main.py:307-317 | the chat's proposal branch passes `analyze_papers`' `(term, count)` pairs to `generate_research_idea`. Its `", ".join` raises `TypeError` before its own `try`, and main.py:315-317 turns that into the failure reply | a message `"generate an idea"` with a configured topic whose fetched papers yield two or more keywords | pass the terms, as `/innovate` does at main.py:202, so that the branch returns the formatted proposal and its id | not executed | Routes.AsWrittenNeverProposes | Routes.ProposalSucceeds |
