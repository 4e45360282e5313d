/** The prompt handed to the assistant that writes a pull request description
 *  (`buildPrompt`, src/tools/generate-pr.ts). The prompt is a list of lines
 *  grown block by block and joined with line breaks. */
module GeneratePr {
  import opened Types
  import opened Text
  import StyleCache

  const GoalLine := "Generate a pull request title and description based on the following."
  const StyleHeader := "## Team PR Style (FOLLOW THIS EXACTLY)"
  const NoStyleNote := "## Note: No learned style found. Run `learn_pr_style` first for better results."
  const CommitsHeader := "## Commits"
  const FilesHeader := "## Files Changed"
  const DiffHeader := "## Diff"
  const Fence := "```"
  const DiffFence := "```diff"
  const SaveLine := "After generating, call `save_pr_description` to save as PR_DESCRIPTION.md"
  const InstructionLines: seq<string> := [
    "## Instructions",
    "Generate:",
    "1. **Title** - concise, following team style if available",
    "2. **Description** - full PR body with appropriate sections",
    "",
    SaveLine
  ]

  const MaxDiffLength := 6000
  const TruncationMarker := "\n... (truncated)"

  /** The diff as shown: unchanged up to 6000 characters, otherwise its first
   *  6000 characters followed by a truncation marker. */
  function TruncateDiff(diff: string): (shown: string)
    ensures |diff| <= MaxDiffLength ==> shown == diff
    ensures |diff| > MaxDiffLength ==>
              && |shown| == MaxDiffLength + |TruncationMarker|
              && StartsWith(shown, diff[..MaxDiffLength])
              && EndsWith(shown, TruncationMarker)
  {
    if |diff| > MaxDiffLength then diff[..MaxDiffLength] + TruncationMarker else diff
  }

  /** The style block, or the note saying there is no learned style. */
  function StyleBlock(style: Option<LearnedStyle>, localeDate: string -> string): seq<string> {
    match style
    case Some(s) => [StyleHeader, "", StyleCache.FormatStyleForDisplay(s, localeDate), ""]
    case None => [NoStyleNote, ""]
  }

  function BranchBlock(branchName: string): seq<string> {
    ["## Branch: `" + branchName + "`", ""]
  }

  /** One `- message` line per commit, in order. */
  function CommitLines(messages: seq<string>): (lines: seq<string>)
    ensures |lines| == |messages|
    ensures forall i | 0 <= i < |messages| :: lines[i] == "- " + messages[i]
  {
    seq(|messages|, i requires 0 <= i < |messages| => "- " + messages[i])
  }

  function CommitsBlock(messages: seq<string>): seq<string> {
    if |messages| > 0 then [CommitsHeader] + CommitLines(messages) + [""] else []
  }

  function FilesBlock(changeSummary: string): seq<string> {
    [FilesHeader, Fence, changeSummary, Fence, ""]
  }

  predicate ShowsDiff(gitInfo: GitInfo, includeDiff: bool) {
    includeDiff && gitInfo.diff != ""
  }

  function DiffBlock(gitInfo: GitInfo, includeDiff: bool): seq<string> {
    if ShowsDiff(gitInfo, includeDiff) then [DiffHeader, DiffFence, TruncateDiff(gitInfo.diff), Fence, ""] else []
  }

  /** The lines of the prompt, block by block. */
  function PromptLines(gitInfo: GitInfo, changeSummary: string, style: Option<LearnedStyle>,
                       includeDiff: bool, localeDate: string -> string): (lines: seq<string>)
    ensures |lines| == 2 + (if style.Some? then 4 else 2) + 2
                         + (if |gitInfo.commitMessages| > 0 then |gitInfo.commitMessages| + 2 else 0)
                         + 5 + (if ShowsDiff(gitInfo, includeDiff) then 5 else 0) + 6
    ensures lines[..2] == [GoalLine, ""]
    ensures lines[|lines| - 6..] == InstructionLines
  {
    SevenBlocks([GoalLine, ""], StyleBlock(style, localeDate), BranchBlock(gitInfo.branchName),
                CommitsBlock(gitInfo.commitMessages), FilesBlock(changeSummary),
                DiffBlock(gitInfo, includeDiff), InstructionLines);
    [GoalLine, ""] + StyleBlock(style, localeDate) + BranchBlock(gitInfo.branchName)
    + CommitsBlock(gitInfo.commitMessages) + FilesBlock(changeSummary) + DiffBlock(gitInfo, includeDiff)
    + InstructionLines
  }

  /** `commitMessages.forEach(m => sections.push(`- ${m}`))`. */
  method PushCommitLines(sections0: seq<string>, messages: seq<string>) returns (sections: seq<string>)
    ensures sections == sections0 + CommitLines(messages)
  {
    sections := sections0;
    for i := 0 to |messages|
      invariant sections == sections0 + CommitLines(messages[..i])
    {
      sections := sections + ["- " + messages[i]];
      assert CommitLines(messages[..i + 1]) == CommitLines(messages[..i]) + ["- " + messages[i]];
    }
    assert messages[..|messages|] == messages;
  }

  /** `buildPrompt`, style block: the style header, a blank, the summary and a blank; or the note and a blank. */
  method PushStyleBlock(sections0: seq<string>, style: Option<LearnedStyle>, localeDate: string -> string)
    returns (sections: seq<string>)
    ensures sections == sections0 + StyleBlock(style, localeDate)
  {
    sections := sections0;
    if style.Some? {
      sections := sections + [StyleHeader];
      sections := sections + [""];
      sections := sections + [StyleCache.FormatStyleForDisplay(style.value, localeDate)];
      sections := sections + [""];
    } else {
      sections := sections + [NoStyleNote];
      sections := sections + [""];
    }
  }

  /** `buildPrompt`, commits block: the commits header, one line per message and a blank, when there are commits. */
  method PushCommitsBlock(sections0: seq<string>, messages: seq<string>) returns (sections: seq<string>)
    ensures sections == sections0 + CommitsBlock(messages)
  {
    sections := sections0;
    if |messages| > 0 {
      sections := sections + [CommitsHeader];
      sections := PushCommitLines(sections, messages);
      sections := sections + [""];
    }
  }

  /** `buildPrompt`, files block: the change summary inside a fence. */
  method PushFilesBlock(sections0: seq<string>, changeSummary: string) returns (sections: seq<string>)
    ensures sections == sections0 + FilesBlock(changeSummary)
  {
    sections := sections0;
    sections := sections + [FilesHeader];
    sections := sections + [Fence];
    sections := sections + [changeSummary];
    sections := sections + [Fence];
    sections := sections + [""];
  }

  /** `buildPrompt`, diff block: the diff, truncated, inside a `diff` fence, when it is requested and not empty. */
  method PushDiffBlock(sections0: seq<string>, gitInfo: GitInfo, includeDiff: bool) returns (sections: seq<string>)
    ensures sections == sections0 + DiffBlock(gitInfo, includeDiff)
  {
    sections := sections0;
    if includeDiff && gitInfo.diff != "" {
      var diff := if |gitInfo.diff| > MaxDiffLength then gitInfo.diff[..MaxDiffLength] + TruncationMarker else gitInfo.diff;
      sections := sections + [DiffHeader];
      sections := sections + [DiffFence];
      sections := sections + [diff];
      sections := sections + [Fence];
      sections := sections + [""];
    }
  }

  /** `buildPrompt`, closing block: the instructions. */
  method PushInstructions(sections0: seq<string>) returns (sections: seq<string>)
    ensures sections == sections0 + InstructionLines
  {
    sections := sections0;
    sections := sections + ["## Instructions"];
    sections := sections + ["Generate:"];
    sections := sections + ["1. **Title** - concise, following team style if available"];
    sections := sections + ["2. **Description** - full PR body with appropriate sections"];
    sections := sections + [""];
    sections := sections + [SaveLine];
  }

  /** `buildPrompt`: pushes the blocks onto a growing list of lines and joins them. */
  method BuildPrompt(gitInfo: GitInfo, changeSummary: string, style: Option<LearnedStyle>,
                     includeDiff: bool, localeDate: string -> string)
    returns (prompt: string)
    ensures prompt == Join(PromptLines(gitInfo, changeSummary, style, includeDiff, localeDate), "\n")
  {
    var sections := [GoalLine, ""];
    sections := PushStyleBlock(sections, style, localeDate);
    sections := sections + ["## Branch: `" + gitInfo.branchName + "`"];
    sections := sections + [""];
    assert sections == [GoalLine, ""] + StyleBlock(style, localeDate) + BranchBlock(gitInfo.branchName);
    sections := PushCommitsBlock(sections, gitInfo.commitMessages);
    sections := PushFilesBlock(sections, changeSummary);
    sections := PushDiffBlock(sections, gitInfo, includeDiff);
    sections := PushInstructions(sections);
    prompt := Join(sections, "\n");
  }

  // -------------------------------------------------------------------
  // Layout of the prompt
  // -------------------------------------------------------------------

  /** The commits block starts after the goal, style and branch lines. */
  function CommitsOffset(style: Option<LearnedStyle>): nat {
    2 + (if style.Some? then 4 else 2) + 2
  }

  /** The files block follows the commits block. */
  function FilesOffset(gitInfo: GitInfo, style: Option<LearnedStyle>): nat {
    CommitsOffset(style) + (if |gitInfo.commitMessages| > 0 then |gitInfo.commitMessages| + 2 else 0)
  }

  lemma PromptBlocks(gitInfo: GitInfo, changeSummary: string, style: Option<LearnedStyle>,
                     includeDiff: bool, localeDate: string -> string)
    ensures var pre := [GoalLine, ""] + StyleBlock(style, localeDate) + BranchBlock(gitInfo.branchName);
            && |pre| == CommitsOffset(style)
            && |pre + CommitsBlock(gitInfo.commitMessages)| == FilesOffset(gitInfo, style)
            && PromptLines(gitInfo, changeSummary, style, includeDiff, localeDate)
               == pre + CommitsBlock(gitInfo.commitMessages) + FilesBlock(changeSummary)
                  + DiffBlock(gitInfo, includeDiff) + InstructionLines
  {
  }

  /** Where each of seven consecutive blocks sits in their concatenation. */
  lemma SevenBlocks<T>(a: seq<T>, b: seq<T>, c: seq<T>, d: seq<T>, e: seq<T>, f: seq<T>, g: seq<T>)
    ensures var s := a + b + c + d + e + f + g;
            var i1 := |a|;
            var i2 := i1 + |b|;
            var i3 := i2 + |c|;
            var i4 := i3 + |d|;
            var i5 := i4 + |e|;
            var i6 := i5 + |f|;
            && |s| == i6 + |g|
            && s[..i1] == a && s[i1..i2] == b && s[i2..i3] == c && s[i3..i4] == d
            && s[i4..i5] == e && s[i5..i6] == f && s[i6..] == g && s[i5..] == f + g
  {
    var s := a + b + c + d + e + f + g;
    var i5 := |a| + |b| + |c| + |d| + |e|;
    assert s == (a + b + c + d + e) + (f + g);
    assert s[i5..] == f + g;
  }

  /** The seven blocks of the prompt, in order. */
  lemma PromptSevenBlocks(gitInfo: GitInfo, changeSummary: string, style: Option<LearnedStyle>,
                          includeDiff: bool, localeDate: string -> string)
    ensures var lines := PromptLines(gitInfo, changeSummary, style, includeDiff, localeDate);
            var styleBlock := StyleBlock(style, localeDate);
            var commits := CommitsBlock(gitInfo.commitMessages);
            var c := CommitsOffset(style);
            var f := FilesOffset(gitInfo, style);
            var diff := DiffBlock(gitInfo, includeDiff);
            && lines[2..c - 2] == styleBlock
            && lines[c - 2..c] == BranchBlock(gitInfo.branchName)
            && lines[c..f] == commits
            && lines[f..f + 5] == FilesBlock(changeSummary)
            && lines[f + 5..f + 5 + |diff|] == diff
            && lines[f + 5..] == diff + InstructionLines
  {
    PromptBlocks(gitInfo, changeSummary, style, includeDiff, localeDate);
    SevenBlocks([GoalLine, ""], StyleBlock(style, localeDate), BranchBlock(gitInfo.branchName),
                CommitsBlock(gitInfo.commitMessages), FilesBlock(changeSummary),
                DiffBlock(gitInfo, includeDiff), InstructionLines);
  }

  /** With a style the style header is followed by the rendered summary; without
   *  one only the note appears; then comes the branch line. */
  lemma PromptStyleLayout(gitInfo: GitInfo, changeSummary: string, style: Option<LearnedStyle>,
                          includeDiff: bool, localeDate: string -> string)
    ensures var lines := PromptLines(gitInfo, changeSummary, style, includeDiff, localeDate);
            && (style.Some? ==> lines[2..6] == [StyleHeader, "", StyleCache.FormatStyleForDisplay(style.value, localeDate), ""])
            && (style.None? ==> lines[2..4] == [NoStyleNote, ""])
            && lines[CommitsOffset(style) - 2] == "## Branch: `" + gitInfo.branchName + "`"
  {
    PromptSevenBlocks(gitInfo, changeSummary, style, includeDiff, localeDate);
    var lines := PromptLines(gitInfo, changeSummary, style, includeDiff, localeDate);
    var c := CommitsOffset(style);
    assert lines[c - 2] == lines[c - 2..c][0];
  }

  /** A block made of a header, some items and a footer, found at offset `c`. */
  lemma FramedItems<T>(s: seq<T>, c: nat, e: nat, header: T, items: seq<T>, footer: T)
    requires c <= e <= |s| && s[c..e] == [header] + items + [footer]
    ensures e == c + |items| + 2
    ensures s[c] == header && s[c + 1 + |items|] == footer
    ensures forall i | 0 <= i < |items| :: s[c + 1 + i] == items[i]
  {
    assert s[c] == s[c..e][0];
    assert s[c + 1 + |items|] == s[c..e][1 + |items|];
    forall i | 0 <= i < |items| ensures s[c + 1 + i] == items[i] {
      assert s[c + 1 + i] == s[c..e][1 + i];
    }
  }

  /** With commits, the commits header is followed by every message as `- m`, in
   *  order, and a blank line. */
  lemma PromptCommitsLayout(gitInfo: GitInfo, changeSummary: string, style: Option<LearnedStyle>,
                            includeDiff: bool, localeDate: string -> string)
    requires |gitInfo.commitMessages| > 0
    ensures var lines := PromptLines(gitInfo, changeSummary, style, includeDiff, localeDate);
            var messages := gitInfo.commitMessages;
            var c := CommitsOffset(style);
            && lines[c] == CommitsHeader
            && (forall i | 0 <= i < |messages| :: lines[c + 1 + i] == "- " + messages[i])
            && lines[c + 1 + |messages|] == ""
  {
    PromptSevenBlocks(gitInfo, changeSummary, style, includeDiff, localeDate);
    var lines := PromptLines(gitInfo, changeSummary, style, includeDiff, localeDate);
    var messages := gitInfo.commitMessages;
    FramedItems(lines, CommitsOffset(style), FilesOffset(gitInfo, style), CommitsHeader, CommitLines(messages), "");
  }

  /** Without commits the files block directly follows the branch line and its blank line. */
  lemma PromptWithoutCommits(gitInfo: GitInfo, changeSummary: string, style: Option<LearnedStyle>,
                             includeDiff: bool, localeDate: string -> string)
    requires |gitInfo.commitMessages| == 0
    ensures var lines := PromptLines(gitInfo, changeSummary, style, includeDiff, localeDate);
            var c := CommitsOffset(style);
            && lines[c - 2] == "## Branch: `" + gitInfo.branchName + "`"
            && lines[c - 1] == ""
            && lines[c..c + 5] == [FilesHeader, Fence, changeSummary, Fence, ""]
  {
    PromptSevenBlocks(gitInfo, changeSummary, style, includeDiff, localeDate);
    var lines := PromptLines(gitInfo, changeSummary, style, includeDiff, localeDate);
    var c := CommitsOffset(style);
    assert lines[c - 2] == lines[c - 2..c][0];
    assert lines[c - 1] == lines[c - 2..c][1];
  }

  /** The change summary always appears verbatim inside the fenced files block,
   *  and the diff block follows it exactly when the diff is shown. */
  lemma PromptFilesAndDiffLayout(gitInfo: GitInfo, changeSummary: string, style: Option<LearnedStyle>,
                                 includeDiff: bool, localeDate: string -> string)
    ensures var lines := PromptLines(gitInfo, changeSummary, style, includeDiff, localeDate);
            var f := FilesOffset(gitInfo, style);
            && lines[f..f + 5] == [FilesHeader, Fence, changeSummary, Fence, ""]
            && (ShowsDiff(gitInfo, includeDiff) ==>
                  lines[f + 5..f + 10] == [DiffHeader, DiffFence, TruncateDiff(gitInfo.diff), Fence, ""])
            && (!ShowsDiff(gitInfo, includeDiff) ==> lines[f + 5..] == InstructionLines)
  {
    PromptSevenBlocks(gitInfo, changeSummary, style, includeDiff, localeDate);
    assert DiffBlock(gitInfo, includeDiff) + InstructionLines == InstructionLines
      <== DiffBlock(gitInfo, includeDiff) == [];
  }

  /** Any list of lines that starts with a line and a blank line renders to a
   *  text starting with that line and two line breaks. */
  lemma JoinStartsWithLine(lines: seq<string>, first: string)
    requires |lines| >= 3 && lines[..2] == [first, ""]
    ensures StartsWith(Join(lines, "\n"), first + "\n\n")
  {
    assert lines == lines[..2] + lines[2..];
    JoinAppend(lines[..2], lines[2..], "\n");
    assert Join(lines[..2], "\n") == first + "\n" + "";
    var text := Join(lines, "\n");
    assert text == first + "\n" + "" + "\n" + Join(lines[2..], "\n");
    assert text[..|first + "\n\n"|] == first + "\n\n";
  }

  /** Any list of at least two lines renders to a text ending in a line break and its last line. */
  lemma JoinEndsWithLine(lines: seq<string>, last: string)
    requires |lines| >= 2 && lines[|lines| - 1] == last
    ensures EndsWith(Join(lines, "\n"), "\n" + last)
  {
    var n := |lines|;
    assert lines == lines[..n - 1] + [last];
    JoinAppend(lines[..n - 1], [last], "\n");
    var text := Join(lines, "\n");
    assert text == Join(lines[..n - 1], "\n") + "\n" + last;
    assert text[|text| - |"\n" + last|..] == "\n" + last;
  }

  /** The prompt text starts with the goal line and a blank line and ends with
   *  the instruction to save the description. */
  lemma PromptFrame(gitInfo: GitInfo, changeSummary: string, style: Option<LearnedStyle>,
                    includeDiff: bool, localeDate: string -> string)
    ensures var prompt := Join(PromptLines(gitInfo, changeSummary, style, includeDiff, localeDate), "\n");
            StartsWith(prompt, GoalLine + "\n\n") && EndsWith(prompt, "\n" + SaveLine)
  {
    var lines := PromptLines(gitInfo, changeSummary, style, includeDiff, localeDate);
    assert lines[|lines| - 1] == InstructionLines[5];
    JoinStartsWithLine(lines, GoalLine);
    JoinEndsWithLine(lines, SaveLine);
  }
}
