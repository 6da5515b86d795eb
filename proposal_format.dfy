/**
 * `format_innovation_proposal`: the model's plain-text proposal turned into Markdown, one
 * stripped line at a time. A bold `**Name:**` line becomes a section heading (the `Title`
 * line becomes the document title and a rule), a `N.` line becomes a numbered item with a
 * keycap marker, any other non-blank line becomes a bullet, and blank lines are dropped.
 */
module ProposalFormat {
  import opened Options
  import opened Strings

  /** Section names and the emoji shown before them. */
  const SectionEmojis: map<string, string> := map[
    "Title" := "\U{1F4A1}", "Introduction" := "\U{1F4DA}", "Research Objectives" := "\U{1F3AF}",
    "Research Questions" := "\U{2753}", "Methodology" := "\U{1F9EA}", "Expected Outcomes" := "\U{1F680}",
    "Impact" := "\U{1F30D}", "Timeline" := "\U{23F3}", "Personnel" := "\U{1F465}",
    "Resources" := "\U{1F9F0}", "Conclusion" := "\U{1F51A}"
  ]

  /** Keycap markers for the numbers one to nine. */
  const Keycaps: map<string, string> := map[
    "1" := "1\U{FE0F}\U{20E3}", "2" := "2\U{FE0F}\U{20E3}", "3" := "3\U{FE0F}\U{20E3}",
    "4" := "4\U{FE0F}\U{20E3}", "5" := "5\U{FE0F}\U{20E3}", "6" := "6\U{FE0F}\U{20E3}",
    "7" := "7\U{FE0F}\U{20E3}", "8" := "8\U{FE0F}\U{20E3}", "9" := "9\U{FE0F}\U{20E3}"
  ]

  const TitleName: string := "Title"
  const TitleHeader: string := "**Title:**"
  const TitleEmoji: string := "\U{1F4A1}"
  const BoldOpen: string := "**"
  const SectionClose: string := ":**"
  const BoldClose: string := "**:"

  /** The emoji of a section, or nothing for a name the table does not know. */
  function SectionEmoji(name: string): (e: string)
    ensures name !in SectionEmojis ==> e == []
    ensures name in SectionEmojis ==> e == SectionEmojis[name]
  {
    if name in SectionEmojis then SectionEmojis[name] else ""
  }

  /** The marker of a numbered item: a keycap for 1 to 9, otherwise the number and a dot. */
  function NumberMarker(num: string): (m: string)
    ensures num !in Keycaps ==> m == num + "."
  {
    if num in Keycaps then Keycaps[num] else num + "."
  }

  /** The single digits one to nine get their keycap: the digit, a variation selector and the keycap mark. */
  lemma KeycapMarker(d: char)
    requires '1' <= d <= '9'
    ensures NumberMarker([d]) == [d, '\U{FE0F}', '\U{20E3}']
  {
  }

  /** A keycap marker ends in the keycap mark and starts with its digit; any other marker extends its number. */
  lemma MarkerShape(num: string)
    requires num != [] && forall i :: 0 <= i < |num| ==> IsDigit(num[i])
    ensures var m := NumberMarker(num);
      && |num| < |m|
      && (num in Keycaps <==> m[|m| - 1] == '\U{20E3}')
      && (num in Keycaps ==> |num| == 1 && m[0] == num[0] && |m| == 3)
      && (num !in Keycaps ==> m[..|num|] == num && |m| == |num| + 1)
  {
  }

  /** Different numbers get different markers. */
  lemma NumberMarkerInjective(a: string, b: string)
    requires a != [] && b != []
    requires forall i :: 0 <= i < |a| ==> IsDigit(a[i])
    requires forall i :: 0 <= i < |b| ==> IsDigit(b[i])
    requires NumberMarker(a) == NumberMarker(b)
    ensures a == b
  {
    MarkerShape(a);
    MarkerShape(b);
  }

  /** A character that differs from the pattern's rules out an occurrence there. */
  lemma Mismatch(s: string, t: string, i: nat, k: nat)
    requires k < |t| && i + k < |s| && s[i + k] != t[k]
    ensures !OccursAt(s, t, i)
  {
    if i + |t| <= |s| {
      assert s[i..i + |t|][k] == s[i + k];
    }
  }

  /**
   * Where the name of a `**Name:**` header ends, as `re.match(r"\*\*(.+?):\*\*", line)` finds
   * it: after the leading `**`, the first `:**` that leaves at least one name character.
   */
  function SectionNameEnd(line: string): (r: Option<nat>)
    ensures r.Some? ==> StartsWith(line, BoldOpen) && 3 <= r.value && OccursAt(line, SectionClose, r.value)
    ensures r.Some? ==> forall q :: 3 <= q < r.value ==> !OccursAt(line, SectionClose, q)
    ensures r.None? ==> !StartsWith(line, BoldOpen) || forall q :: 3 <= q ==> !OccursAt(line, SectionClose, q)
  {
    if StartsWith(line, BoldOpen) then Find(line, SectionClose, 3) else None
  }

  lemma SectionNameEndFind(line: string)
    requires StartsWith(line, BoldOpen)
    ensures SectionNameEnd(line) == Find(line, SectionClose, 3)
  {
  }

  /** The header name, the regex's group 1. */
  function MatchSection(line: string): (m: Option<string>)
    ensures m.Some? <==> SectionNameEnd(line).Some?
    ensures m.Some? ==> m.value == line[2..SectionNameEnd(line).value]
  {
    match SectionNameEnd(line)
    case Some(p) => Some(line[2..p])
    case None => None
  }

  /** The line is a `**Title:**` header exactly when it starts with that text. */
  lemma TitleHeaderIff(line: string)
    ensures MatchSection(line) == Some(TitleName) <==> StartsWith(line, TitleHeader)
  {
    if StartsWith(line, TitleHeader) {
      assert line[..2] == line[..10][..2] == BoldOpen;
      assert line[7..10] == line[..10][7..10] == SectionClose;
      forall q | 3 <= q < 7 ensures !OccursAt(line, SectionClose, q) {
        assert line[q] == line[..10][q] == TitleHeader[q];
        Mismatch(line, SectionClose, q, 0);
      }
      FindFirst(line, SectionClose, 3, 7);
      SectionNameEndFind(line);
      assert line[2..7] == line[..10][2..7] == TitleName;
    }
    if MatchSection(line) == Some(TitleName) {
      var p := SectionNameEnd(line).value;
      assert p == 7;
      assert line[..2] == BoldOpen && line[2..7] == TitleName && line[7..10] == SectionClose;
      assert line[..10] == line[..2] + line[2..7] + line[7..10];
    }
  }

  /** Length of the run of decimal digits at the start of `s`. */
  function DigitRunLength(s: string): (n: nat)
    ensures n <= |s|
    ensures forall i :: 0 <= i < n ==> IsDigit(s[i])
    ensures n < |s| ==> !IsDigit(s[n])
  {
    if s != [] && IsDigit(s[0]) then 1 + DigitRunLength(s[1..]) else 0
  }

  /** The groups of `(\d+)\.\s*(?:\*\*(.*?)\*\*:)?\s*(.+)`: the number, the optional bold label and the text. */
  datatype NumberedItem = NumberedItem(num: string, bold: Option<string>, text: string)

  /** How the text after `N.` divides into an optional bold label and the rest. */
  datatype BoldSplit = BoldSplit(bold: Option<string>, text: string)

  /** Where a `**label**:` prefix of `rest` ends: the first `**:` at or after offset 2. */
  function BoldCloseAt(rest: string): (r: Option<nat>)
    ensures r.Some? ==> StartsWith(rest, BoldOpen) && 2 <= r.value && OccursAt(rest, BoldClose, r.value)
    ensures r.Some? ==> forall q :: 2 <= q < r.value ==> !OccursAt(rest, BoldClose, q)
    ensures r.None? ==> !StartsWith(rest, BoldOpen) || forall q :: 2 <= q ==> !OccursAt(rest, BoldClose, q)
  {
    if StartsWith(rest, BoldOpen) then Find(rest, BoldClose, 2) else None
  }

  /**
   * The bold label and text after `N.` and its white space: the label ends at the first
   * `**:` when some text follows it; otherwise there is no label and the text is all of the rest.
   */
  function SplitBold(rest: string): (r: BoldSplit)
    requires IsStripped(rest) && rest != []
    ensures r.text != [] && IsStripped(r.text)
    ensures r.bold.None? ==> r.text == rest
    ensures r.bold.Some? <==> BoldCloseAt(rest).Some? && BoldCloseAt(rest).value + 3 < |rest|
  {
    var close := BoldCloseAt(rest);
    if close.Some? && close.value + 3 < |rest| then
      StrippedTail(rest, close.value + 3);
      BoldSplit(Some(rest[2..close.value]), LStrip(rest[close.value + 3..]))
    else BoldSplit(None, rest)
  }

  /** With a label, the label is what lies between `**` and the first `**:`, and the text what follows, stripped. */
  lemma SplitBoldLabel(rest: string)
    requires IsStripped(rest) && rest != []
    requires SplitBold(rest).bold.Some?
    ensures BoldCloseAt(rest).Some? && BoldCloseAt(rest).value + 3 < |rest|
    ensures SplitBold(rest).bold.value == rest[2..BoldCloseAt(rest).value]
    ensures SplitBold(rest).text == LStrip(rest[BoldCloseAt(rest).value + 3..])
  {
  }

  /** What is left of a stripped line after a cut and its white space is stripped too, and non-empty. */
  lemma StrippedTail(line: string, k: nat)
    requires IsStripped(line) && k < |line|
    ensures LStrip(line[k..]) != [] && IsStripped(LStrip(line[k..]))
  {
    var after := line[k..];
    assert after[|after| - 1] == line[|line| - 1];
    LStripKeepsLast(after);
  }

  /**
   * `re.match` of the numbered-item pattern on a stripped line: a run of digits, a dot, and
   * something after it (on a stripped line, what follows the dot is never white space only).
   */
  function MatchNumbered(line: string): (m: Option<NumberedItem>)
    requires IsStripped(line)
    ensures m.None? <==>
      var d := DigitRunLength(line);
      d == 0 || d + 1 >= |line| || line[d] != '.'
    ensures m.Some? ==>
      && m.value.num != []
      && DigitRunLength(line) == |m.value.num| < |line|
      && line[..|m.value.num|] == m.value.num
      && line[|m.value.num|] == '.'
      && m.value.text != [] && IsStripped(m.value.text)
  {
    var d := DigitRunLength(line);
    if d == 0 || d + 1 >= |line| || line[d] != '.' then None
    else
      StrippedTail(line, d + 1);
      var split := SplitBold(LStrip(line[d + 1..]));
      Some(NumberedItem(line[..d], split.bold, split.text))
  }

  /** The title line: `# <emoji> Innovation Proposal: <title>`. */
  function TitleEntry(emoji: string, title: string): string {
    "# " + emoji + " Innovation Proposal: " + title
  }

  /** A section heading, preceded by a blank line: `## <emoji> <name>`. */
  function HeadingEntry(emoji: string, name: string): string {
    "\n## " + emoji + " " + name
  }

  /** A numbered item with its bold label: `<marker> **<label>**: <text>`. */
  function LabelledEntry(marker: string, bold: string, text: string): string {
    marker + " **" + bold + "**: " + text
  }

  /** A numbered item without a label: `<marker> <text>`. */
  function PlainEntry(marker: string, text: string): string {
    marker + " " + text
  }

  /** Any other line, as a bullet. */
  function BulletEntry(line: string): string {
    "- " + line
  }

  /** The Markdown line of a numbered item; an empty bold label is left out. */
  function RenderNumbered(item: NumberedItem): string {
    if item.bold.Some? && item.bold.value != [] then
      LabelledEntry(NumberMarker(item.num), item.bold.value, item.text)
    else PlainEntry(NumberMarker(item.num), item.text)
  }

  /** The Markdown lines one stripped input line becomes: none, one, or two for the title. */
  function RenderLine(line: string): seq<string>
    requires IsStripped(line)
  {
    if line == [] then []
    else
      match MatchSection(line)
      case Some(name) =>
        if name == TitleName then
          [TitleEntry(SectionEmoji(name), Strip(ReplaceAll(line, TitleHeader, ""))), "---"]
        else [HeadingEntry(SectionEmoji(name), name)]
      case None =>
        match MatchNumbered(line)
        case Some(item) => [RenderNumbered(item)]
        case None => [BulletEntry(line)]
  }

  /** The entries of one line of the model's text, stripped first. */
  function Entry(raw: string): seq<string> {
    RenderLine(Strip(raw))
  }

  /** The outputs of `f` on each element, concatenated in order. */
  function FlatMap<T, U>(f: T -> seq<U>, xs: seq<T>): seq<U> {
    if xs == [] then []
    else FlatMap(f, xs[..|xs| - 1]) + f(xs[|xs| - 1])
  }

  lemma FlatMapSnoc<T, U>(f: T -> seq<U>, xs: seq<T>, i: nat)
    requires i < |xs|
    ensures FlatMap(f, xs[..i + 1]) == FlatMap(f, xs[..i]) + f(xs[i])
  {
    assert xs[..i + 1][..i] == xs[..i];
    assert xs[..i + 1][i] == xs[i];
  }

  /** Concatenated outputs split at any point of the input. */
  lemma {:induction false} FlatMapAppend<T, U>(f: T -> seq<U>, a: seq<T>, b: seq<T>)
    ensures FlatMap(f, a + b) == FlatMap(f, a) + FlatMap(f, b)
    decreases |b|
  {
    if b == [] {
      assert a + b == a;
    } else {
      var n := |b| - 1;
      assert (a + b)[..|a + b| - 1] == a + b[..n];
      assert (a + b)[|a + b| - 1] == b[n];
      FlatMapAppend(f, a, b[..n]);
    }
  }

  /** The Markdown lines of a list of input lines, in order. */
  function FormattedEntries(lines: seq<string>): seq<string> {
    FlatMap(Entry, lines)
  }

  /** The entries of a header line. */
  lemma RenderedHeader(line: string, name: string)
    requires IsStripped(line) && line != [] && MatchSection(line) == Some(name)
    ensures RenderLine(line) == if name == TitleName then
        [TitleEntry(SectionEmoji(name), Strip(ReplaceAll(line, TitleHeader, ""))), "---"]
      else [HeadingEntry(SectionEmoji(name), name)]
  {
  }

  /** The entry of a numbered line. */
  lemma RenderedNumbered(line: string, item: NumberedItem)
    requires IsStripped(line) && line != [] && MatchSection(line).None? && MatchNumbered(line) == Some(item)
    ensures RenderLine(line) == [RenderNumbered(item)]
  {
  }

  /** The entry of any other non-blank line. */
  lemma RenderedBullet(line: string)
    requires IsStripped(line) && line != [] && MatchSection(line).None? && MatchNumbered(line).None?
    ensures RenderLine(line) == [BulletEntry(line)]
  {
  }

  lemma EntriesSnoc(lines: seq<string>, i: nat)
    requires i < |lines|
    ensures IsStripped(Strip(lines[i]))
    ensures FormattedEntries(lines[..i + 1]) == FormattedEntries(lines[..i]) + RenderLine(Strip(lines[i]))
  {
    FlatMapSnoc(Entry, lines, i);
  }

  /** The whole formatted proposal: the entries of the input's lines, joined by newlines. */
  function FormatSpec(rawText: string): string {
    Join("\n", FormattedEntries(Split(rawText, '\n')))
  }

  lemma AppendTwo(entries: seq<string>, x: string, y: string)
    ensures entries + [x] + [y] == entries + [x, y]
  {
  }

  method FormatInnovationProposal(rawText: string) returns (result: string)
    ensures result == FormatSpec(rawText)
  {
    var lines := Split(rawText, '\n');
    var formatted: seq<string> := [];
    assert lines[..0] == [];
    for i := 0 to |lines|
      invariant formatted == FormattedEntries(lines[..i])
    {
      var line := Strip(lines[i]);
      EntriesSnoc(lines, i);
      if line == [] {
        continue;
      }
      var sectionMatch := MatchSection(line);
      if sectionMatch.Some? {
        var title := sectionMatch.value;
        var emoji := SectionEmoji(title);
        RenderedHeader(line, title);
        if title == TitleName {
          var heading := TitleEntry(emoji, Strip(ReplaceAll(line, TitleHeader, "")));
          AppendTwo(formatted, heading, "---");
          formatted := formatted + [heading];
          formatted := formatted + ["---"];
        } else {
          formatted := formatted + [HeadingEntry(emoji, title)];
        }
        continue;
      }
      var numbered := MatchNumbered(line);
      if numbered.Some? {
        RenderedNumbered(line, numbered.value);
        var emojiNum := NumberMarker(numbered.value.num);
        var bold := numbered.value.bold;
        if bold.Some? && bold.value != [] {
          formatted := formatted + [LabelledEntry(emojiNum, bold.value, numbered.value.text)];
        } else {
          formatted := formatted + [PlainEntry(emojiNum, numbered.value.text)];
        }
        continue;
      }
      RenderedBullet(line);
      formatted := formatted + [BulletEntry(line)];
    }
    assert lines[..|lines|] == lines;
    result := Join("\n", formatted);
  }

  /** Empty input formats to empty output. */
  lemma FormatEmpty()
    ensures FormatSpec("") == ""
  {
    assert Split("", '\n') == [""];
    EntriesSnoc([""], 0);
    assert [""][..0] == [];
    assert Strip("") == "";
  }

  /** Formatting is line-local: the entries of two blocks of lines are the entries of each, in order. */
  lemma FormattedEntriesAppend(a: seq<string>, b: seq<string>)
    ensures FormattedEntries(a + b) == FormattedEntries(a) + FormattedEntries(b)
  {
    FlatMapAppend(Entry, a, b);
  }

  /** Number of lines that are not blank. */
  function NonBlankCount(lines: seq<string>): nat {
    if lines == [] then 0
    else NonBlankCount(lines[..|lines| - 1]) + (if Strip(lines[|lines| - 1]) != [] then 1 else 0)
  }

  /** Number of lines that are `**Title:**` headers once stripped. */
  function TitleCount(lines: seq<string>): nat {
    if lines == [] then 0
    else TitleCount(lines[..|lines| - 1]) + (if StartsWith(Strip(lines[|lines| - 1]), TitleHeader) then 1 else 0)
  }

  /** A blank line gives no entry, a title header two, every other line one. */
  lemma RenderLineLength(line: string)
    requires IsStripped(line)
    ensures |RenderLine(line)| == (if line == [] then 0 else if StartsWith(line, TitleHeader) then 2 else 1)
  {
    TitleHeaderIff(line);
  }

  /** One entry per non-blank line, plus the rule under each title. */
  lemma {:induction false} EntryCount(lines: seq<string>)
    ensures |FormattedEntries(lines)| == NonBlankCount(lines) + TitleCount(lines)
    decreases |lines|
  {
    if lines != [] {
      var last := lines[|lines| - 1];
      RenderLineLength(Strip(last));
      EntryCount(lines[..|lines| - 1]);
      if StartsWith(Strip(last), TitleHeader) {
        assert Strip(last) != [];
      }
    }
  }

  /** In `**Name:**rest` with no `:**` in the name, the name ends right before the first `:**`. */
  lemma SectionNameEndAt(name: string, rest: string)
    requires |name| >= 1 && !Contains(name, SectionClose)
    ensures SectionNameEnd(BoldOpen + name + SectionClose + rest) == Some(2 + |name|)
  {
    var line := BoldOpen + name + SectionClose + rest;
    NoSectionCloseInName(name, rest);
    OccursInMiddle(BoldOpen + name, SectionClose, rest);
    FindFirst(line, SectionClose, 3, 2 + |name|);
    SectionOpening(name, rest);
    SectionNameEndFind(line);
  }

  lemma SectionOpening(name: string, rest: string)
    ensures StartsWith(BoldOpen + name + SectionClose + rest, BoldOpen)
  {
    assert BoldOpen + name + SectionClose + rest == BoldOpen + (name + SectionClose + rest);
    StartsWithConcat(BoldOpen, name + SectionClose + rest);
  }

  /** Two occurrences of `:**` are at least three characters apart. */
  lemma SectionCloseApart(s: string, p: nat, q: nat)
    requires OccursAt(s, SectionClose, p) && q < p < q + 3
    ensures !OccursAt(s, SectionClose, q)
  {
    assert s[p] == s[p..p + 3][0] == ':';
    Mismatch(s, SectionClose, q, p - q);
  }

  /** No `:**` lies wholly inside a name that has none. */
  lemma NoSectionCloseInside(name: string, rest: string, q: nat)
    requires !Contains(name, SectionClose) && 2 <= q && q + 3 <= 2 + |name|
    ensures !OccursAt(BoldOpen + name + SectionClose + rest, SectionClose, q)
  {
    assert BoldOpen + name + SectionClose + rest == BoldOpen + name + (SectionClose + rest);
    assert !OccursAt(name, SectionClose, q - 2);
    AbsentInMiddle(BoldOpen, name, SectionClose + rest, SectionClose, q);
  }

  /** Before the `:**` that closes a name holding none, no `:**` starts. */
  lemma NoSectionCloseInName(name: string, rest: string)
    requires !Contains(name, SectionClose)
    ensures forall q :: 3 <= q < 2 + |name| ==> !OccursAt(BoldOpen + name + SectionClose + rest, SectionClose, q)
  {
    var line := BoldOpen + name + SectionClose + rest;
    OccursInMiddle(BoldOpen + name, SectionClose, rest);
    forall q | 3 <= q < 2 + |name| ensures !OccursAt(line, SectionClose, q) {
      if q + 3 <= 2 + |name| {
        NoSectionCloseInside(name, rest, q);
      } else {
        SectionCloseApart(line, 2 + |name|, q);
      }
    }
  }

  /** A `**Name:**` header other than the title becomes a second-level heading; the rest of its line is dropped. */
  lemma HeaderLine(name: string, rest: string)
    requires |name| >= 1 && !Contains(name, SectionClose) && name != TitleName
    requires IsStripped(BoldOpen + name + SectionClose + rest)
    ensures RenderLine(BoldOpen + name + SectionClose + rest) == ["\n## " + SectionEmoji(name) + " " + name]
  {
    var line := BoldOpen + name + SectionClose + rest;
    SectionNameEndAt(name, rest);
    assert line[2..2 + |name|] == name;
  }

  /** On a title header, rendering is the title line built from the replaced text, and the rule. */
  lemma RenderTitle(line: string)
    requires IsStripped(line) && StartsWith(line, TitleHeader)
    ensures RenderLine(line) == ["# " + TitleEmoji + " Innovation Proposal: " + Strip(ReplaceAll(line, TitleHeader, "")), "---"]
  {
    assert line != [] && MatchSection(line) == Some(TitleName) by {
      TitleHeaderIff(line);
    }
    RenderedHeader(line, TitleName);
    TitleEmojiIs();
  }

  lemma TitleEmojiIs()
    ensures SectionEmoji(TitleName) == TitleEmoji
  {
  }

  /** A title header becomes the document title, with the rest of the line stripped, and a rule. */
  lemma TitleLine(rest: string)
    requires !Contains(rest, TitleHeader)
    ensures var line := TitleHeader + rest;
      IsStripped(line) ==> RenderLine(line) == ["# " + TitleEmoji + " Innovation Proposal: " + Strip(rest), "---"]
  {
    var line := TitleHeader + rest;
    assert line[..|TitleHeader|] == TitleHeader;
    assert line[|TitleHeader|..] == rest;
    assert ReplaceAll(line, TitleHeader, "") == ReplaceAll(rest, TitleHeader, "");
    ReplaceAllAbsent(rest, TitleHeader, "");
    if IsStripped(line) {
      RenderTitle(line);
    }
  }

  /** A stripped line that starts with a digit is rendered as a numbered item when it parses as one, else as a bullet. */
  lemma DigitLine(line: string)
    requires IsStripped(line) && line != [] && IsDigit(line[0])
    ensures MatchNumbered(line).Some? ==> RenderLine(line) == [RenderNumbered(MatchNumbered(line).value)]
    ensures MatchNumbered(line).None? ==> RenderLine(line) == ["- " + line]
  {
    Mismatch(line, BoldOpen, 0, 0);
  }

  /** The parse of `N.` followed by some text, when `N` is the line's whole digit run. */
  lemma NumberedPrefix(num: string, after: string)
    requires num != [] && forall i :: 0 <= i < |num| ==> IsDigit(num[i])
    ensures DigitRunLength(num + "." + after) == |num|
    ensures (num + "." + after)[|num|] == '.'
    ensures (num + "." + after)[|num| + 1..] == after
    ensures (num + "." + after)[..|num|] == num
  {
    DigitRunPrefix(num, "." + after);
    assert num + "." + after == num + ("." + after);
  }

  lemma {:induction false} DigitRunPrefix(num: string, tail: string)
    requires forall i :: 0 <= i < |num| ==> IsDigit(num[i])
    requires tail == [] || !IsDigit(tail[0])
    ensures DigitRunLength(num + tail) == |num|
    decreases |num|
  {
    if num != [] {
      assert (num + tail)[1..] == num[1..] + tail;
      DigitRunPrefix(num[1..], tail);
    } else {
      assert num + tail == tail;
    }
  }

  /** Stripping the white space after the dot leaves the text when it starts with something else. */
  lemma LStripOneSpace(text: string)
    requires text == [] || !IsSpace(text[0])
    ensures LStrip(" " + text) == text
  {
    assert (" " + text)[1..] == text;
    LStripOfStripped(text);
  }

  /** What `MatchNumbered` gives once the digit run, the dot and the stripped rest are known. */
  lemma MatchNumberedIs(line: string, num: string, rest: string)
    requires IsStripped(line) && num != []
    requires DigitRunLength(line) == |num| && |num| + 1 < |line| && line[|num|] == '.'
    requires line[..|num|] == num && LStrip(line[|num| + 1..]) == rest
    ensures rest != [] && IsStripped(rest)
    ensures MatchNumbered(line) == Some(NumberedItem(num, SplitBold(rest).bold, SplitBold(rest).text))
  {
    StrippedTail(line, |num| + 1);
  }

  /** `N. text` is stripped when `text` is. */
  lemma NumberedLineStripped(num: string, text: string)
    requires num != [] && IsDigit(num[0])
    requires text != [] && IsStripped(text)
    ensures IsStripped(num + ". " + text)
  {
    var line := num + ". " + text;
    assert line[0] == num[0];
    assert line[|line| - 1] == text[|text| - 1];
  }

  /** `N. text` parses as number `N` and text `text`, with a label exactly when `text` has one. */
  lemma ParseNumbered(num: string, text: string)
    requires num != [] && forall i :: 0 <= i < |num| ==> IsDigit(num[i])
    requires text != [] && IsStripped(text)
    ensures IsStripped(num + ". " + text)
    ensures MatchNumbered(num + ". " + text) == Some(NumberedItem(num, SplitBold(text).bold, SplitBold(text).text))
  {
    var line := num + ". " + text;
    assert line == num + "." + (" " + text);
    NumberedLineStripped(num, text);
    NumberedPrefix(num, " " + text);
    LStripOneSpace(text);
    MatchNumberedIs(line, num, text);
  }

  /** Two occurrences of `**:` are at least three characters apart. */
  lemma BoldCloseApart(s: string, p: nat, q: nat)
    requires OccursAt(s, BoldClose, p) && q < p < q + 3
    ensures !OccursAt(s, BoldClose, q)
  {
    assert s[p] == s[p..p + 3][0] == '*';
    assert s[p + 1] == s[p..p + 3][1] == '*';
    Mismatch(s, BoldClose, q, 2);
  }

  /** No `**:` lies wholly inside a label that has none. */
  lemma NoBoldCloseInLabel(bold: string, tail: string, q: nat)
    requires !Contains(bold, BoldClose) && 2 <= q && q + 3 <= 2 + |bold|
    ensures !OccursAt(BoldOpen + bold + BoldClose + tail, BoldClose, q)
  {
    assert BoldOpen + bold + BoldClose + tail == BoldOpen + bold + (BoldClose + tail);
    assert !OccursAt(bold, BoldClose, q - 2);
    AbsentInMiddle(BoldOpen, bold, BoldClose + tail, BoldClose, q);
  }

  /** Before the closing `**:` of a label that has none, no `**:` starts. */
  lemma NoBoldCloseBefore(bold: string, tail: string)
    requires !Contains(bold, BoldClose)
    ensures forall q :: 2 <= q < 2 + |bold| ==> !OccursAt(BoldOpen + bold + BoldClose + tail, BoldClose, q)
  {
    var rest := BoldOpen + bold + BoldClose + tail;
    OccursInMiddle(BoldOpen + bold, BoldClose, tail);
    forall q | 2 <= q < 2 + |bold| ensures !OccursAt(rest, BoldClose, q) {
      if q + 3 <= 2 + |bold| {
        NoBoldCloseInLabel(bold, tail, q);
      } else {
        BoldCloseApart(rest, 2 + |bold|, q);
      }
    }
  }

  /** In `**label**:tail` with no `**:` in the label, the label ends right before its closing `**:`. */
  lemma BoldCloseAtLabel(bold: string, tail: string)
    requires !Contains(bold, BoldClose)
    ensures BoldCloseAt(BoldOpen + bold + BoldClose + tail) == Some(2 + |bold|)
  {
    var rest := BoldOpen + bold + BoldClose + tail;
    NoBoldCloseBefore(bold, tail);
    OccursInMiddle(BoldOpen + bold, BoldClose, tail);
    FindFirst(rest, BoldClose, 2, 2 + |bold|);
    BoldOpening(bold, tail);
    BoldCloseAtFind(rest);
  }

  lemma BoldOpening(bold: string, tail: string)
    ensures StartsWith(BoldOpen + bold + BoldClose + tail, BoldOpen)
  {
    assert BoldOpen + bold + BoldClose + tail == BoldOpen + (bold + BoldClose + tail);
    StartsWithConcat(BoldOpen, bold + BoldClose + tail);
  }

  lemma BoldCloseAtFind(rest: string)
    requires StartsWith(rest, BoldOpen)
    ensures BoldCloseAt(rest) == Find(rest, BoldClose, 2)
  {
  }

  /** The second and the fourth piece of a four-piece concatenation, as slices. */
  lemma FourPieces(a: string, b: string, c: string, d: string)
    ensures (a + b + c + d)[|a|..|a| + |b|] == b
    ensures (a + b + c + d)[|a| + |b| + |c|..] == d
  {
    var s := a + b + c + d;
    assert s == a + (b + c + d);
    assert s[|a|..] == b + c + d;
    assert (b + c + d)[..|b|] == b;
    assert s == (a + b + c) + d;
  }

  /** The text `**label**: text` after the dot splits into the label and the text. */
  lemma LabelSplit(bold: string, text: string)
    requires !Contains(bold, BoldClose)
    requires text != [] && IsStripped(text)
    ensures var rest := BoldOpen + bold + BoldClose + (" " + text);
      && rest != [] && IsStripped(rest)
      && SplitBold(rest) == BoldSplit(Some(bold), text)
  {
    var rest := BoldOpen + bold + BoldClose + (" " + text);
    assert rest[0] == '*' && rest[|rest| - 1] == text[|text| - 1];
    BoldCloseAtLabel(bold, " " + text);
    FourPieces(BoldOpen, bold, BoldClose, " " + text);
    LStripOneSpace(text);
  }

  /** The regrouping of the six pieces of a labelled numbered line. */
  lemma Regroup(a: string, b: string, c: string, d: string, e: string, f: string, g: string)
    ensures a + b + c + d + e + f + g == a + b + (c + d + e + (f + g))
  {
  }

  /** A numbered line with a bold label parses as its number, label and text. */
  lemma ParseLabelled(num: string, bold: string, text: string)
    requires num != [] && forall i :: 0 <= i < |num| ==> IsDigit(num[i])
    requires !Contains(bold, BoldClose)
    requires text != [] && IsStripped(text)
    ensures var line := num + ". " + (BoldOpen + bold + BoldClose + (" " + text));
      IsStripped(line) && MatchNumbered(line) == Some(NumberedItem(num, Some(bold), text))
  {
    LabelSplit(bold, text);
    ParseNumbered(num, BoldOpen + bold + BoldClose + (" " + text));
  }

  /** A numbered line with a bold label keeps the label in bold after the number's marker. */
  lemma NumberedBoldLine(num: string, bold: string, text: string)
    requires num != [] && forall i :: 0 <= i < |num| ==> IsDigit(num[i])
    requires bold != [] && !Contains(bold, BoldClose)
    requires text != [] && IsStripped(text)
    ensures var line := num + ". " + BoldOpen + bold + BoldClose + " " + text;
      && IsStripped(line)
      && RenderLine(line) == [NumberMarker(num) + " **" + bold + "**: " + text]
  {
    var line := num + ". " + (BoldOpen + bold + BoldClose + (" " + text));
    Regroup(num, ". ", BoldOpen, bold, BoldClose, " ", text);
    ParseLabelled(num, bold, text);
    assert line[0] == num[0];
    RenderLabelled(line, num, bold, text);
  }

  /** The entry of a line that parses as a numbered item with a non-empty label. */
  lemma RenderLabelled(line: string, num: string, bold: string, text: string)
    requires IsStripped(line) && line != [] && IsDigit(line[0]) && bold != []
    requires MatchNumbered(line) == Some(NumberedItem(num, Some(bold), text))
    ensures RenderLine(line) == [NumberMarker(num) + " **" + bold + "**: " + text]
  {
    DigitLine(line);
  }

  /** A numbered line without a bold label keeps its text after the number's marker. */
  lemma NumberedPlainLine(num: string, text: string)
    requires num != [] && forall i :: 0 <= i < |num| ==> IsDigit(num[i])
    requires text != [] && IsStripped(text) && !StartsWith(text, BoldOpen)
    ensures var line := num + ". " + text;
      IsStripped(line) && RenderLine(line) == [NumberMarker(num) + " " + text]
  {
    ParseNumbered(num, text);
    DigitLine(num + ". " + text);
  }

  /** A non-blank line that is neither a header nor numbered becomes a bullet. */
  lemma BulletLine(line: string)
    requires line != [] && IsStripped(line)
    requires !StartsWith(line, "**") && !IsDigit(line[0])
    ensures RenderLine(line) == [BulletEntry(line)]
  {
  }
}
