/** Rendering a learned style profile as the Markdown summary shown to the
 *  user (src/utils/style-cache.ts). Reading and writing the cache file are
 *  file-system effects and are not part of this module.
 *
 *  The date is shown through `localeDate`, which stands for
 *  `new Date(lastUpdated).toLocaleDateString()`; its output depends on the
 *  host's locale and clock settings, so it is a parameter here. */
module StyleCache {
  import opened Types
  import opened Text

  function YesNo(b: bool): string {
    if b then "Yes" else "No"
  }

  /** `items.length > 0 ? items.join(', ') : none`. */
  function ListOr(items: seq<string>, none: string): string {
    if |items| > 0 then Join(items, ", ") else none
  }

  /** `pattern || 'No consistent pattern'`: both `null` and the empty string fall back. */
  function PatternText(pattern: Option<string>): string {
    if pattern.Some? && pattern.value != "" then pattern.value else "No consistent pattern"
  }

  /** A template string shows a missing ticket pattern as `null`. */
  function TicketText(pattern: Option<string>): string {
    if pattern.Some? then pattern.value else "null"
  }

  const TicketsHeading := "### Tickets"

  function HeaderLines(style: LearnedStyle, localeDate: string -> string): seq<string> {
    [ "## Learned PR Style for " + style.repositoryInfo.owner + "/" + style.repositoryInfo.repo,
      "Based on " + NatToString(style.sampleCount) + " merged PRs (updated: " + localeDate(style.lastUpdated) + ")",
      "" ]
  }

  function StructureLines(style: LearnedStyle): seq<string> {
    [ "### Structure",
      "- Sections: " + ListOr(style.sections, "None detected"),
      "- Checkboxes: " + YesNo(style.usesCheckboxes),
      "- Bullet points: " + YesNo(style.usesBulletPoints),
      "- Average length: ~" + NatToString(style.averageLineCount) + " lines",
      "" ]
  }

  function TitleLines(style: LearnedStyle): seq<string> {
    [ "### Title Style",
      "- Pattern: " + PatternText(style.titlePattern),
      "- Prefixes: " + ListOr(style.titlePrefixExamples, "None"),
      "" ]
  }

  function ToneLines(style: LearnedStyle): seq<string> {
    [ "### Tone",
      "- Style: " + ToneName(style.tone),
      "- First person: " + YesNo(style.usesFirstPerson),
      "- Emojis: " + YesNo(style.usesEmojis) ]
  }

  function TicketLines(style: LearnedStyle): seq<string> {
    if style.mentionsTickets then ["", TicketsHeading, "- Pattern: " + TicketText(style.ticketPattern)] else []
  }

  /** The lines of the summary: seventeen, and three more about tickets when the
   *  corpus mentions them. */
  function DisplayLines(style: LearnedStyle, localeDate: string -> string): (lines: seq<string>)
    ensures |lines| == if style.mentionsTickets then 20 else 17
    ensures style.mentionsTickets ==> lines[17..] == ["", TicketsHeading, "- Pattern: " + TicketText(style.ticketPattern)]
  {
    var base := HeaderLines(style, localeDate) + StructureLines(style) + TitleLines(style) + ToneLines(style);
    assert (base + TicketLines(style))[17..] == TicketLines(style);
    base + TicketLines(style)
  }

  /** `formatStyleForDisplay`: the display lines joined with line breaks, so that
   *  splitting the text at line breaks gives back the lines whenever no line
   *  holds a line break of its own. */
  function FormatStyleForDisplay(style: LearnedStyle, localeDate: string -> string): (text: string)
    ensures AllWithoutNewline(DisplayLines(style, localeDate)) ==> Split(text, '\n') == DisplayLines(style, localeDate)
  {
    var lines := DisplayLines(style, localeDate);
    if AllWithoutNewline(lines) then
      SplitJoin(lines, '\n');
      Join(lines, "\n")
    else Join(lines, "\n")
  }

  // -------------------------------------------------------------------
  // Reading the summary back
  // -------------------------------------------------------------------

  predicate NoNewline(s: string) { '\n' !in s }

  predicate AllWithoutNewline(items: seq<string>) {
    forall k | 0 <= k < |items| :: NoNewline(items[k])
  }

  lemma {:induction false} JoinWithoutNewline(parts: seq<string>, sep: string)
    requires AllWithoutNewline(parts) && NoNewline(sep)
    ensures NoNewline(Join(parts, sep))
  {
    if |parts| > 1 {
      JoinWithoutNewline(parts[1..], sep);
      assert AllWithoutNewline(parts[1..]) by {
        forall k | 0 <= k < |parts[1..]| ensures NoNewline(parts[1..][k]) {
          assert parts[1..][k] == parts[k + 1];
        }
      }
      assert NoNewline(parts[0]);
    }
  }

  lemma DigitsWithoutNewline(s: string)
    requires AllDigits(s)
    ensures NoNewline(s)
  {
    assert forall k | 0 <= k < |s| :: s[k] != '\n';
  }

  /** The text fields of a profile that the summary shows verbatim hold no line break. */
  predicate SingleLineFields(style: LearnedStyle, localeDate: string -> string) {
    && NoNewline(style.repositoryInfo.owner)
    && NoNewline(style.repositoryInfo.repo)
    && NoNewline(localeDate(style.lastUpdated))
    && AllWithoutNewline(style.sections)
    && AllWithoutNewline(style.titlePrefixExamples)
    && (style.titlePattern.Some? ==> NoNewline(style.titlePattern.value))
    && (style.ticketPattern.Some? ==> NoNewline(style.ticketPattern.value))
  }

  lemma AppendWithoutNewline(a: seq<string>, b: seq<string>)
    requires AllWithoutNewline(a) && AllWithoutNewline(b)
    ensures AllWithoutNewline(a + b)
  {
    forall k | 0 <= k < |a + b| ensures NoNewline((a + b)[k]) {
      if k >= |a| {
        assert (a + b)[k] == b[k - |a|];
      }
    }
  }

  lemma ConcatWithoutNewline(a: string, b: string)
    requires NoNewline(a) && NoNewline(b)
    ensures NoNewline(a + b)
  {
    forall k | 0 <= k < |a + b| ensures (a + b)[k] != '\n' {
      if k >= |a| {
        assert (a + b)[k] == b[k - |a|];
      }
    }
  }

  lemma FlagsWithoutNewline(b: bool, t: Tone)
    ensures NoNewline(YesNo(b)) && NoNewline(ToneName(t))
  {
    match t
    case Formal =>
    case Casual =>
    case Mixed =>
  }

  lemma ListWithoutNewline(items: seq<string>, none: string)
    requires AllWithoutNewline(items) && NoNewline(none)
    ensures NoNewline(ListOr(items, none))
  {
    JoinWithoutNewline(items, ", ");
  }

  lemma PatternsWithoutNewline(style: LearnedStyle, localeDate: string -> string)
    requires SingleLineFields(style, localeDate)
    ensures NoNewline(PatternText(style.titlePattern)) && NoNewline(TicketText(style.ticketPattern))
  {
  }

  lemma HeaderIsSingleLines(style: LearnedStyle, localeDate: string -> string)
    requires SingleLineFields(style, localeDate)
    ensures AllWithoutNewline(HeaderLines(style, localeDate))
  {
    var info := style.repositoryInfo;
    ConcatWithoutNewline("## Learned PR Style for ", info.owner);
    ConcatWithoutNewline("## Learned PR Style for " + info.owner, "/");
    ConcatWithoutNewline("## Learned PR Style for " + info.owner + "/", info.repo);
    var count := NatToString(style.sampleCount);
    DigitsWithoutNewline(count);
    ConcatWithoutNewline("Based on ", count);
    ConcatWithoutNewline("Based on " + count, " merged PRs (updated: ");
    ConcatWithoutNewline("Based on " + count + " merged PRs (updated: ", localeDate(style.lastUpdated));
    ConcatWithoutNewline("Based on " + count + " merged PRs (updated: " + localeDate(style.lastUpdated), ")");
  }

  lemma StructureIsSingleLines(style: LearnedStyle, localeDate: string -> string)
    requires SingleLineFields(style, localeDate)
    ensures AllWithoutNewline(StructureLines(style))
  {
    ListWithoutNewline(style.sections, "None detected");
    ConcatWithoutNewline("- Sections: ", ListOr(style.sections, "None detected"));
    FlagsWithoutNewline(style.usesCheckboxes, style.tone);
    ConcatWithoutNewline("- Checkboxes: ", YesNo(style.usesCheckboxes));
    FlagsWithoutNewline(style.usesBulletPoints, style.tone);
    ConcatWithoutNewline("- Bullet points: ", YesNo(style.usesBulletPoints));
    AverageLineIsSingle(style.averageLineCount);
  }

  lemma AverageLineIsSingle(n: nat)
    ensures NoNewline("- Average length: ~" + NatToString(n) + " lines")
  {
    var average := NatToString(n);
    DigitsWithoutNewline(average);
    ConcatWithoutNewline("- Average length: ~", average);
    ConcatWithoutNewline("- Average length: ~" + average, " lines");
  }

  lemma TitleIsSingleLines(style: LearnedStyle, localeDate: string -> string)
    requires SingleLineFields(style, localeDate)
    ensures AllWithoutNewline(TitleLines(style))
  {
    PatternsWithoutNewline(style, localeDate);
    ConcatWithoutNewline("- Pattern: ", PatternText(style.titlePattern));
    ListWithoutNewline(style.titlePrefixExamples, "None");
    ConcatWithoutNewline("- Prefixes: ", ListOr(style.titlePrefixExamples, "None"));
  }

  lemma ToneIsSingleLines(style: LearnedStyle)
    ensures AllWithoutNewline(ToneLines(style))
  {
    FlagsWithoutNewline(style.usesFirstPerson, style.tone);
    ConcatWithoutNewline("- Style: ", ToneName(style.tone));
    ConcatWithoutNewline("- First person: ", YesNo(style.usesFirstPerson));
    FlagsWithoutNewline(style.usesEmojis, style.tone);
    ConcatWithoutNewline("- Emojis: ", YesNo(style.usesEmojis));
  }

  lemma TicketsAreSingleLines(style: LearnedStyle, localeDate: string -> string)
    requires SingleLineFields(style, localeDate)
    ensures AllWithoutNewline(TicketLines(style))
  {
    PatternsWithoutNewline(style, localeDate);
    ConcatWithoutNewline("- Pattern: ", TicketText(style.ticketPattern));
  }

  lemma DisplayLinesAreSingleLines(style: LearnedStyle, localeDate: string -> string)
    requires SingleLineFields(style, localeDate)
    ensures AllWithoutNewline(DisplayLines(style, localeDate))
  {
    var header, structure, title, tone, tickets :=
      HeaderLines(style, localeDate), StructureLines(style), TitleLines(style), ToneLines(style), TicketLines(style);
    HeaderIsSingleLines(style, localeDate);
    StructureIsSingleLines(style, localeDate);
    TitleIsSingleLines(style, localeDate);
    ToneIsSingleLines(style);
    TicketsAreSingleLines(style, localeDate);
    assert DisplayLines(style, localeDate) == header + structure + title + tone + tickets;
    AppendWithoutNewline(header, structure);
    AppendWithoutNewline(header + structure, title);
    AppendWithoutNewline(header + structure + title, tone);
    AppendWithoutNewline(header + structure + title + tone, tickets);
  }

  /** Splitting the summary at line breaks gives back its lines: 17 of them, or
   *  20 when the profile mentions tickets. */
  lemma SummarySplitsIntoLines(style: LearnedStyle, localeDate: string -> string)
    requires SingleLineFields(style, localeDate)
    ensures Split(FormatStyleForDisplay(style, localeDate), '\n') == DisplayLines(style, localeDate)
    ensures |Split(FormatStyleForDisplay(style, localeDate), '\n')| == if style.mentionsTickets then 20 else 17
  {
    DisplayLinesAreSingleLines(style, localeDate);
  }

  /** A digit string followed by a non-digit is determined by the whole text. */
  lemma {:induction false} LeadingDigitsUnique(a: string, x: string, b: string, y: string)
    requires AllDigits(a) && AllDigits(b)
    requires |x| > 0 && !IsDigit(x[0]) && |y| > 0 && !IsDigit(y[0])
    requires a + x == b + y
    ensures a == b
  {
    assert |a| > 0 ==> (a + x)[0] == a[0];
    assert |b| > 0 ==> (b + y)[0] == b[0];
    assert |a| == 0 ==> (a + x)[0] == x[0];
    assert |b| == 0 ==> (b + y)[0] == y[0];
    if |a| > 0 && |b| > 0 {
      assert a[0] == (a + x)[0] == (b + y)[0] == b[0];
      assert a[1..] + x == (a + x)[1..] == (b + y)[1..] == b[1..] + y;
      LeadingDigitsUnique(a[1..], x, b[1..], y);
      assert a == [a[0]] + a[1..] && b == [b[0]] + b[1..];
    }
  }

  /** Different numbers are written differently. */
  lemma NatToStringInjective(m: nat, n: nat)
    requires NatToString(m) == NatToString(n)
    ensures m == n
  {
    assert DecimalValue(NatToString(m)) == DecimalValue(NatToString(n));
  }

  lemma ShownNumber(p: string, m: nat, x: string, n: nat, y: string)
    requires |x| > 0 && !IsDigit(x[0]) && |y| > 0 && !IsDigit(y[0])
    requires p + NatToString(m) + x == p + NatToString(n) + y
    ensures m == n
  {
    var a, b := NatToString(m), NatToString(n);
    assert (p + a + x)[|p|..] == a + x;
    assert (p + b + y)[|p|..] == b + y;
    LeadingDigitsUnique(a, x, b, y);
    NatToStringInjective(m, n);
  }

  lemma YesNoInjective(p: string, b1: bool, b2: bool)
    requires p + YesNo(b1) == p + YesNo(b2)
    ensures b1 == b2
  {
    assert |p + YesNo(b1)| == |p| + |YesNo(b1)|;
  }

  lemma ToneNameInjective(t1: Tone, t2: Tone)
    requires "- Style: " + ToneName(t1) == "- Style: " + ToneName(t2)
    ensures t1 == t2
  {
    var p := "- Style: ";
    assert (p + ToneName(t1))[|p|..] == ToneName(t1);
    assert (p + ToneName(t2))[|p|..] == ToneName(t2);
  }

  /** Where each block sits among the lines. */
  lemma DisplayBlocks(style: LearnedStyle, localeDate: string -> string)
    ensures var lines := DisplayLines(style, localeDate);
            && lines[..3] == HeaderLines(style, localeDate)
            && lines[3..9] == StructureLines(style)
            && lines[9..13] == TitleLines(style)
            && lines[13..17] == ToneLines(style)
  {
    var header, structure, title, tone, tickets :=
      HeaderLines(style, localeDate), StructureLines(style), TitleLines(style), ToneLines(style), TicketLines(style);
    var lines := DisplayLines(style, localeDate);
    assert lines == header + structure + title + tone + tickets;
    FiveBlocks(header, structure, title, tone, tickets);
  }

  lemma FiveBlocks<T>(a: seq<T>, b: seq<T>, c: seq<T>, d: seq<T>, e: seq<T>)
    ensures var s := a + b + c + d + e;
            var i1 := |a|;
            var i2 := i1 + |b|;
            var i3 := i2 + |c|;
            && s[..i1] == a && s[i1..i2] == b && s[i2..i3] == c && s[i3..i3 + |d|] == d
  {
  }

  lemma HeaderHasNoTicketsHeading(style: LearnedStyle, localeDate: string -> string)
    ensures TicketsHeading !in HeaderLines(style, localeDate)
  {
    var h := HeaderLines(style, localeDate);
    assert h[0][2] == ' ' && h[1][0] == 'B' && h[2] == "";
  }

  lemma BodyBlocksHaveNoTicketsHeading(style: LearnedStyle)
    ensures TicketsHeading !in StructureLines(style)
    ensures TicketsHeading !in TitleLines(style)
    ensures TicketsHeading !in ToneLines(style)
  {
    var st, ti, to := StructureLines(style), TitleLines(style), ToneLines(style);
    assert |st[0]| == 13 && st[1][0] == '-' && st[2][0] == '-' && st[3][0] == '-' && st[4][0] == '-' && st[5] == "";
    assert |ti[0]| == 15 && ti[1][0] == '-' && ti[2][0] == '-' && ti[3] == "";
    assert |to[0]| == 8 && to[1][0] == '-' && to[2][0] == '-' && to[3][0] == '-';
  }

  /** The `### Tickets` heading appears in the summary exactly when the profile
   *  mentions tickets, and then only in the appended block. */
  lemma TicketsHeadingIffMentioned(style: LearnedStyle, localeDate: string -> string)
    ensures TicketsHeading !in DisplayLines(style, localeDate)[..17]
    ensures TicketsHeading in DisplayLines(style, localeDate) <==> style.mentionsTickets
  {
    var lines := DisplayLines(style, localeDate);
    DisplayBlocks(style, localeDate);
    HeaderHasNoTicketsHeading(style, localeDate);
    BodyBlocksHaveNoTicketsHeading(style);
    forall k | 0 <= k < 17 ensures lines[k] != TicketsHeading {
      if k < 3 {
        assert lines[k] == lines[..3][k];
      } else if k < 9 {
        assert lines[k] == lines[3..9][k - 3];
      } else if k < 13 {
        assert lines[k] == lines[9..13][k - 9];
      } else {
        assert lines[k] == lines[13..17][k - 13];
      }
    }
    if style.mentionsTickets {
      assert lines[18] == lines[17..][1];
    } else {
      assert lines == lines[..17];
    }
  }

  /** The lines that name the repository, the sections, the title pattern and the prefixes. */
  predicate NamedLinesShown(style: LearnedStyle, lines: seq<string>) {
    && |lines| >= 17
    && lines[0] == "## Learned PR Style for " + style.repositoryInfo.owner + "/" + style.repositoryInfo.repo
    && (|style.sections| == 0 ==> lines[4] == "- Sections: None detected")
    && (|style.sections| > 0 ==> lines[4] == "- Sections: " + Join(style.sections, ", "))
    && (style.titlePattern.None? ==> lines[10] == "- Pattern: No consistent pattern")
    && (style.titlePattern.Some? && style.titlePattern.value != "" ==>
          lines[10] == "- Pattern: " + style.titlePattern.value)
    && (|style.titlePrefixExamples| == 0 ==> lines[11] == "- Prefixes: None")
    && (|style.titlePrefixExamples| > 0 ==> lines[11] == "- Prefixes: " + Join(style.titlePrefixExamples, ", "))
  }

  lemma NamedLinesOfBlocks(style: LearnedStyle, localeDate: string -> string, lines: seq<string>)
    requires |lines| >= 17
    requires lines[0] == HeaderLines(style, localeDate)[0]
    requires lines[4] == StructureLines(style)[1]
    requires lines[10] == TitleLines(style)[1] && lines[11] == TitleLines(style)[2]
    ensures NamedLinesShown(style, lines)
  {
    PlaceholderLines();
    assert lines[4] == "- Sections: " + ListOr(style.sections, "None detected");
    assert lines[10] == "- Pattern: " + PatternText(style.titlePattern);
    assert lines[11] == "- Prefixes: " + ListOr(style.titlePrefixExamples, "None");
  }

  /** The placeholder lines as single literals. Kept apart so that the string
   *  literals are concatenated once, outside `NamedLinesOfBlocks`, whose proof
   *  costs several times more when they are asserted there. */
  lemma PlaceholderLines()
    ensures "- Sections: " + "None detected" == "- Sections: None detected"
    ensures "- Pattern: " + "No consistent pattern" == "- Pattern: No consistent pattern"
    ensures "- Prefixes: " + "None" == "- Prefixes: None"
  {
  }

  lemma DisplayNamedLines(style: LearnedStyle, localeDate: string -> string)
    ensures NamedLinesShown(style, DisplayLines(style, localeDate))
  {
    DisplayBlocks(style, localeDate);
    var lines := DisplayLines(style, localeDate);
    assert lines[0] == HeaderLines(style, localeDate)[0] by { assert lines[..3][0] == lines[0]; }
    assert lines[4] == StructureLines(style)[1] by { assert lines[3..9][1] == lines[4]; }
    assert lines[10] == TitleLines(style)[1] by { assert lines[9..13][1] == lines[10]; }
    assert lines[11] == TitleLines(style)[2] by { assert lines[9..13][2] == lines[11]; }
    NamedLinesOfBlocks(style, localeDate, lines);
  }

  /** Read line by line, the summary names the repository first, lists the
   *  sections and the title prefixes in stored order or a placeholder when there
   *  are none, and shows the title pattern or a placeholder when there is none. */
  lemma SummaryLines(style: LearnedStyle, localeDate: string -> string)
    requires SingleLineFields(style, localeDate)
    ensures NamedLinesShown(style, Split(FormatStyleForDisplay(style, localeDate), '\n'))
  {
    SummarySplitsIntoLines(style, localeDate);
    DisplayNamedLines(style, localeDate);
  }

  lemma HeaderShowsSampleCount(s1: LearnedStyle, s2: LearnedStyle, localeDate: string -> string)
    requires HeaderLines(s1, localeDate) == HeaderLines(s2, localeDate)
    ensures s1.sampleCount == s2.sampleCount
  {
    var x1 := " merged PRs (updated: " + localeDate(s1.lastUpdated) + ")";
    var x2 := " merged PRs (updated: " + localeDate(s2.lastUpdated) + ")";
    assert HeaderLines(s1, localeDate)[1] == "Based on " + NatToString(s1.sampleCount) + x1;
    assert HeaderLines(s2, localeDate)[1] == "Based on " + NatToString(s2.sampleCount) + x2;
    ShownNumber("Based on ", s1.sampleCount, x1, s2.sampleCount, x2);
  }

  lemma StructureShowsFlags(s1: LearnedStyle, s2: LearnedStyle)
    requires StructureLines(s1) == StructureLines(s2)
    ensures s1.usesCheckboxes == s2.usesCheckboxes && s1.usesBulletPoints == s2.usesBulletPoints
    ensures s1.averageLineCount == s2.averageLineCount
  {
    YesNoInjective("- Checkboxes: ", s1.usesCheckboxes, s2.usesCheckboxes);
    YesNoInjective("- Bullet points: ", s1.usesBulletPoints, s2.usesBulletPoints);
    assert StructureLines(s1)[4] == "- Average length: ~" + NatToString(s1.averageLineCount) + " lines";
    assert StructureLines(s2)[4] == "- Average length: ~" + NatToString(s2.averageLineCount) + " lines";
    ShownNumber("- Average length: ~", s1.averageLineCount, " lines", s2.averageLineCount, " lines");
  }

  lemma ToneBlockShowsTone(s1: LearnedStyle, s2: LearnedStyle)
    requires ToneLines(s1) == ToneLines(s2)
    ensures s1.tone == s2.tone
    ensures s1.usesFirstPerson == s2.usesFirstPerson && s1.usesEmojis == s2.usesEmojis
  {
    ToneNameInjective(s1.tone, s2.tone);
    YesNoInjective("- First person: ", s1.usesFirstPerson, s2.usesFirstPerson);
    YesNoInjective("- Emojis: ", s1.usesEmojis, s2.usesEmojis);
  }

  /** The summary determines the sample count, the average line count, the
   *  tone, the four shown flags, and whether tickets are mentioned. */
  lemma SummaryDeterminesShownFacts(s1: LearnedStyle, s2: LearnedStyle, localeDate: string -> string)
    requires SingleLineFields(s1, localeDate) && SingleLineFields(s2, localeDate)
    requires FormatStyleForDisplay(s1, localeDate) == FormatStyleForDisplay(s2, localeDate)
    ensures s1.sampleCount == s2.sampleCount
    ensures s1.averageLineCount == s2.averageLineCount
    ensures s1.tone == s2.tone
    ensures s1.usesCheckboxes == s2.usesCheckboxes && s1.usesBulletPoints == s2.usesBulletPoints
    ensures s1.usesFirstPerson == s2.usesFirstPerson && s1.usesEmojis == s2.usesEmojis
    ensures s1.mentionsTickets == s2.mentionsTickets
  {
    SummarySplitsIntoLines(s1, localeDate);
    SummarySplitsIntoLines(s2, localeDate);
    DisplayBlocks(s1, localeDate);
    DisplayBlocks(s2, localeDate);
    HeaderShowsSampleCount(s1, s2, localeDate);
    StructureShowsFlags(s1, s2);
    ToneBlockShowsTone(s1, s2);
  }

  /** The summary does not show numbered lists, the average body length, the
   *  always-included phrases, or a ticket pattern that nothing mentions; and an
   *  empty title pattern reads like a missing one. */
  lemma SummaryIgnoresHiddenFields(style: LearnedStyle, localeDate: string -> string,
                                   numbered: bool, bodyLength: nat, phrases: seq<string>, ticket: Option<string>)
    ensures var other := style.(usesNumberedLists := numbered, averageBodyLength := bodyLength, alwaysIncludes := phrases);
            FormatStyleForDisplay(other, localeDate) == FormatStyleForDisplay(style, localeDate)
    ensures !style.mentionsTickets ==>
            FormatStyleForDisplay(style.(ticketPattern := ticket), localeDate) == FormatStyleForDisplay(style, localeDate)
    ensures style.titlePattern == Some("") ==>
            FormatStyleForDisplay(style.(titlePattern := None), localeDate) == FormatStyleForDisplay(style, localeDate)
  {
  }
}
