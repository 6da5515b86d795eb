/**
 * The innovation agent around the language-model call: the empty-input guard, the prompt
 * with its comma-joined keyword list, the normalisation of the model's reply, and the
 * Markdown text of a saved proposal.
 */
module Innovation {
  import opened Strings

  const NoKeywordsMessage: string := "\U{274C} No keywords provided."
  const UnexpectedResultMessage: string := "\U{274C} LLM returned an empty or unexpected result."
  const FailureReasonPrefix: string := "\U{274C} Failed to generate proposal. Reason: "

  /** The line of 34 spaces that the prompt template keeps between its paragraphs. */
  const PromptPadding: string := "                                  "

  const PromptHead: string :=
    "\nYou are an AI research assistant. Generate a detailed research proposal using these keywords:\n\nKeywords: "
  const PromptTail: string :=
    "\n" + PromptPadding + "\nWrite a concise but informative research proposal incorporating these keywords.\n"

  /** The prompt template with its `{keywords}` slot filled. */
  function Prompt(keywordList: string): string {
    PromptHead + keywordList + PromptTail
  }

  /** One element of a list-shaped reply: an object with `.content`, or anything else. */
  datatype ReplyItem = MessageItem(content: string) | OtherItem

  /** What invoking the model can give back: one of three shapes, another value, or an exception. */
  datatype Reply =
    | ListReply(items: seq<ReplyItem>)
    | MessageReply(content: string)
    | TextReply(text: string)
    | OtherReply
    | RaisedReply(reason: string)

  /** The reply as text: the stripped content when the shape is recognised, otherwise a fixed message. */
  function NormalizeReply(reply: Reply): (r: string)
    ensures reply.RaisedReply? ==> r == FailureReasonPrefix + reply.reason
    ensures reply.OtherReply? ==> r == UnexpectedResultMessage
    ensures reply.MessageReply? ==> r == Strip(reply.content)
    ensures reply.ListReply? && |reply.items| > 0 && reply.items[0].MessageItem? ==> r == Strip(reply.items[0].content)
    ensures reply.ListReply? && (reply.items == [] || reply.items[0].OtherItem?) ==> r == UnexpectedResultMessage
    ensures reply.TextReply? && Strip(reply.text) != [] ==> r == Strip(reply.text)
    ensures reply.TextReply? && Strip(reply.text) == [] ==> r == UnexpectedResultMessage
    ensures reply.TextReply? ==> r != []
    ensures !reply.RaisedReply? && r != UnexpectedResultMessage ==> IsStripped(r)
  {
    match reply
    case ListReply(items) =>
      if |items| > 0 && items[0].MessageItem? then
        Strip(items[0].content)
      else UnexpectedResultMessage
    case MessageReply(content) =>
      Strip(content)
    case TextReply(text) =>
      if Strip(text) != [] then Strip(text) else UnexpectedResultMessage
    case OtherReply => UnexpectedResultMessage
    case RaisedReply(reason) => FailureReasonPrefix + reason
  }

  /**
   * `generate_research_idea`: with no keywords, the fixed refusal; otherwise the model,
   * given the prompt for the comma-joined keywords, and its reply normalised.
   */
  function GenerateResearchIdea(keywords: seq<string>, llm: string -> Reply): (r: string)
    ensures keywords == [] ==> r == NoKeywordsMessage
  {
    if |keywords| == 0 then NoKeywordsMessage
    else NormalizeReply(llm(Prompt(Join(", ", keywords))))
  }

  /** With no keywords the answer does not depend on the model at all. */
  lemma NoKeywordsSkipsModel(llm: string -> Reply, other: string -> Reply)
    ensures GenerateResearchIdea([], llm) == GenerateResearchIdea([], other) == NoKeywordsMessage
  {
  }

  /** With keywords, the model is asked exactly once, with the prompt for the joined list. */
  lemma KeywordsReachModel(keywords: seq<string>, llm: string -> Reply)
    requires keywords != []
    ensures GenerateResearchIdea(keywords, llm) == NormalizeReply(llm(Prompt(Join(", ", keywords))))
  {
  }

  /** Occurrence is transitive: a piece of a piece of `s` is a piece of `s`. */
  lemma OccursWithin(s: string, u: string, t: string, i: int, j: int)
    requires OccursAt(s, u, i) && OccursAt(u, t, j)
    ensures OccursAt(s, t, i + j)
  {
    forall m | 0 <= m < |t| ensures s[i + j + m] == t[m] {
      assert t[m] == u[j..j + |t|][m] == u[j + m];
      assert u[j + m] == s[i..i + |u|][j + m] == s[i + j + m];
    }
    assert s[i + j..i + j + |t|] == t;
  }

  /** Whatever occurs in a piece of `s` occurs in `s`. */
  lemma ContainsWithin(s: string, u: string, t: string, i: int)
    requires OccursAt(s, u, i) && Contains(u, t)
    ensures Contains(s, t)
  {
    var j :| 0 <= j <= |u| - |t| && OccursAt(u, t, j);
    OccursWithin(s, u, t, i, j);
  }

  /** Each part of a join occurs in it. */
  lemma {:induction false} JoinHasParts(sep: string, parts: seq<string>, k: nat)
    requires k < |parts|
    ensures Contains(Join(sep, parts), parts[k])
    decreases |parts|
  {
    var s := Join(sep, parts);
    if |parts| == 1 {
      assert OccursAt(s, parts[k], 0);
    } else if k == 0 {
      assert OccursAt(s, parts[0], 0);
    } else {
      var rest := Join(sep, parts[1..]);
      JoinHasParts(sep, parts[1..], k - 1);
      assert parts[1..][k - 1] == parts[k];
      assert OccursAt(s, rest, |parts[0]| + |sep|);
      ContainsWithin(s, rest, parts[k], |parts[0]| + |sep|);
    }
  }

  /** The prompt the model receives mentions every keyword. */
  lemma PromptMentionsKeywords(keywords: seq<string>, k: nat)
    requires k < |keywords|
    ensures Contains(Prompt(Join(", ", keywords)), keywords[k])
  {
    var list := Join(", ", keywords);
    OccursInMiddle(PromptHead, list, PromptTail);
    JoinHasParts(", ", keywords, k);
    ContainsWithin(Prompt(list), list, keywords[k], |PromptHead|);
  }

  /** One Markdown bullet per item. */
  function Bullets(items: seq<string>): (r: seq<string>)
    ensures |r| == |items| && forall i :: 0 <= i < |items| ==> r[i] == "- " + items[i]
  {
    seq(|items|, i requires 0 <= i < |items| => "- " + items[i])
  }

  const TitlePrefix: string := "# Research Proposal: "
  const KeywordsHeading: string := "## Extracted Keywords:\n"
  const ProposalHeading: string := "\n\n## Proposal:\n"

  /**
   * The file content `save_proposal_as_markdown` writes: a title line for the topic and a
   * blank line, the keywords heading and the keyword bullets one per line, then the
   * proposal heading and the proposal text.
   */
  method ProposalMarkdown(topic: string, keywords: seq<string>, proposalText: string) returns (content: string)
    ensures content == TitlePrefix + topic + "\n\n" + KeywordsHeading + Join("\n", Bullets(keywords))
      + ProposalHeading + proposalText
    ensures StartsWith(content, TitlePrefix + topic)
    ensures |proposalText| <= |content| && content[|content| - |proposalText|..] == proposalText
  {
    content := TitlePrefix + topic + "\n\n";
    content := content + KeywordsHeading;
    content := content + Join("\n", Bullets(keywords));
    content := content + ProposalHeading;
    var body := content;
    content := content + proposalText;
    EndsWithConcat(body, proposalText);
    var head := TitlePrefix + topic;
    RegroupFirst(head, "\n\n", KeywordsHeading, Join("\n", Bullets(keywords)), ProposalHeading, proposalText);
    StartsWithConcat(head, "\n\n" + KeywordsHeading + Join("\n", Bullets(keywords)) + ProposalHeading + proposalText);
  }

  /** The keyword section of the saved file splits back into exactly one bullet per keyword. */
  lemma KeywordSectionRoundTrip(keywords: seq<string>)
    requires |keywords| >= 1
    requires forall i :: 0 <= i < |keywords| ==> '\n' !in keywords[i]
    ensures Split(Join("\n", Bullets(keywords)), '\n') == Bullets(keywords)
  {
    var b := Bullets(keywords);
    forall i | 0 <= i < |b| ensures '\n' !in b[i] {
      assert b[i] == "- " + keywords[i];
    }
    SplitJoin(b, '\n');
  }
}
