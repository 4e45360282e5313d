# PR style engine — a Dafny model

This project models the deterministic core of `mcp-pr-description`. That is
an MCP server which learns how a team writes pull request descriptions and
then asks an assistant to write new ones in that style. The model covers four
parts:

- **The style extractor** (`src/utils/style-extractor.ts`) turns a non-empty
  list of merged pull requests into a `LearnedStyle` profile:
  - `sections` are the Markdown headings whose occurrence count, summed over
    all descriptions, is at least 30% of the number of non-empty descriptions,
    ranked by a stable sort on descending count;
  - the title pattern is decided by strict majority, checking conventional
    commits before ticket prefixes;
  - the title prefixes are the distinct conventional type words, in the order
    first seen;
  - the mean body length and mean line count are rounded half up;
  - the ticket pattern prefers `JIRA-` over a generic `ABC-123` token;
  - the tone is decided by two thresholds, checking formal before casual;
  - the always-included phrases are those of five fixed phrases that a strict
    majority of descriptions contain.

  Each regular expression is written out as a predicate over `seq<char>`. The
  loops of the source are methods with loop invariants, proved equal to the
  functions that specify them: the heading tally in a `Map`, the prefix `Set`
  and the tone counters.
- **The style summary** (`formatStyleForDisplay`, `src/utils/style-cache.ts`)
  is a fixed 17-line Markdown report with an optional three-line Tickets block.
  The lemmas read the report back. When no shown text field (owner, repo,
  date, sections, prefixes, title pattern, ticket pattern) holds a line break,
  splitting the text at line breaks gives the lines again, and the shown facts
  can be recovered from the text. Without that condition a field's line break
  can make two different profiles render the same text. The fields the report
  hides never affect it.
- **The prompt builder** (`buildPrompt`, `src/tools/generate-pr.ts`) is a
  method that pushes blocks onto a list of lines and joins them. It is proved
  equal to a block-by-block specification. Lemmas about that specification
  locate every block: the goal line, the style or its note, the branch, the
  commits, the files, the truncated diff and the instructions.
- **The GitHub adapter**'s pure parts (`src/adapters/github.ts`) are:
  - the parser of SSH and HTTPS remote URLs, including the unanchored search,
    the greedy owner and the lazy repository group with an optional `.git`;
  - the rule that keeps the first `count` merged pull requests;
  - the detailed and fallback records built for each of them.

Floating-point comparisons become integer cross-multiplication:
- `c >= 0.3·n` is `10c >= 3n`;
- `c > 0.5·n` is `2c > n`;
- `c > 0.3·n` is `10c > 3n`;
- `Math.round(s/n)` is `(2s+n) div 2n`.

For the list sizes the tool handles, IEEE doubles give the same answers.

## Model

| member | source | states |
|---|---|---|
| Types.ToneName | src/types.ts:26 | a tone is stored and shown as one of `formal`, `casual`, `mixed` |
| StyleExtractor.Bodies | src/utils/style-extractor.ts:4 | the bodies are exactly the non-empty descriptions; there are as many as PRs with a non-empty body |
| StyleExtractor.BodiesKeepOrder | src/utils/style-extractor.ts:4 | the bodies are a subsequence of all descriptions: corpus order, each as often as it occurs |
| StyleExtractor.HeadingsIn | src/utils/style-extractor.ts:31-32 | one trimmed heading per match of the heading pattern; each starts with `#` and ends in a non-space character |
| StyleExtractor.Titles | src/utils/style-extractor.ts:5 | one title per PR, in order |
| StyleExtractor.KeepFrequent | src/utils/style-extractor.ts:34-36 | a key is kept iff its count is at least 30% of n (non-strict); keeps distinctness |
| StyleExtractor.CommonSections | src/utils/style-extractor.ts:28-39 | a string is a section iff it is a trimmed heading match (1–3 `#`, whitespace, text) whose count over all bodies is ≥ 30% of the number of bodies; no section is listed twice |
| StyleExtractor.SectionsByDescendingCount | src/utils/style-extractor.ts:37 | sections are ordered by non-increasing heading count |
| StyleExtractor.SectionsTiesInFirstSeenOrder | src/utils/style-extractor.ts:29-37 | sections with equal count keep the order in which the headings were first seen (Map insertion order, stable sort) |
| StyleExtractor.TallyHeadings | src/utils/style-extractor.ts:31-32 | the inner loop's updates of the count map keep it equal to the occurrence counts and first-seen key order of all headings tallied so far |
| StyleExtractor.CountHeading | src/utils/style-extractor.ts:32 | one heading increments its count when present, else enters the map last with count 1; the map stays the occurrence tally of the headings seen |
| StyleExtractor.ExtractCommonSections | src/utils/style-extractor.ts:28-39 | the nested counting loop, the filter and the sort compute exactly the section list specified above |
| Collections.SortDesc | src/utils/style-extractor.ts:37 | the result is sorted by descending count and is a permutation of the input (same multiset) |
| Collections.SortDescStable | src/utils/style-extractor.ts:37 | for each key value the sort keeps the input's relative order (`Array.prototype.sort` is stable) |
| Collections.Dedup | src/utils/style-extractor.ts:54-59 | the distinct elements (Set and Map key insertion order): no duplicates and exactly the members of the input |
| Collections.DedupFirstSeenOrder | src/utils/style-extractor.ts:54-59 | the distinct elements appear in the order of their first occurrence in the input |
| StyleExtractor.DetectTitlePattern | src/utils/style-extractor.ts:41-51 | `conventional` iff conventional titles are a strict majority; `ticket-prefix` iff that fails and ticket titles are a strict majority; otherwise null |
| StyleExtractor.ConventionalIsNotTicket | src/utils/style-extractor.ts:41-51 | no title is both conventional (lower-case type word first) and ticket-prefixed (`[` or an upper-case letter first) |
| StyleExtractor.HalfIsNoMajority | src/utils/style-extractor.ts:45-50 | exactly half conventional titles gives no pattern: the other half is too few for a ticket majority |
| StyleExtractor.FirstPrefixWord | src/utils/style-extractor.ts:56 | the prefix found is a type word the title starts with followed by `:`; none found means no type word followed by `:` starts it |
| StyleExtractor.ScopedTitleIsConventional | src/utils/style-extractor.ts:43 | every title `type(scope): rest` with a non-empty single-line scope matches the conventional-commit pattern |
| StyleExtractor.ScopedTitleHasNoPrefix | src/utils/style-extractor.ts:56 | no title `type(scope): rest` yields a type prefix, whatever the scope |
| StyleExtractor.PrefixesByMembers | src/utils/style-extractor.ts:55-58 | a prefix is collected iff some title yields that type word |
| StyleExtractor.TitlePrefixes | src/utils/style-extractor.ts:53-60 | the collected prefixes without duplicates, exactly their members, in the order each was first collected |
| StyleExtractor.TitlePrefixesAreDistinctTypeWords | src/utils/style-extractor.ts:53-60 | the prefixes are distinct, each one of the 11 type words plus `:`, and each comes from a title |
| StyleExtractor.ExtractTitlePrefixes | src/utils/style-extractor.ts:53-60 | the loop over titles adding to a set computes the distinct prefixes in first-seen order |
| StyleExtractor.Average | src/utils/style-extractor.ts:62-64 | 0 for no numbers; otherwise the mean rounded half up: `2n·r <= 2s+n < 2n·(r+1)` |
| StyleExtractor.LineCounts | src/utils/style-extractor.ts:15 | a body's line count is its number of line breaks plus one |
| Text.Split | src/utils/style-extractor.ts:15 | `split('\n')` yields one more part than separators, none containing the separator |
| StyleExtractor.WindowInJoin | src/utils/style-extractor.ts:67-69 | joining the texts with spaces neither creates nor hides a ticket token: the joined text has one iff some text has one |
| StyleExtractor.DetectTicketPattern | src/utils/style-extractor.ts:66-71 | `JIRA-\d+` iff some body or title has `JIRA-<digits>`; the generic pattern iff none does but some has a 2+ uppercase token; null iff neither |
| StyleExtractor.JiraIsAlsoGeneric | src/utils/style-extractor.ts:68-69 | a JIRA token is also a generic token, so the order of the checks is what gives JIRA precedence |
| StyleExtractor.MentionWithoutPattern | src/utils/style-extractor.ts:16-17 | `A-1` mentions a ticket yet gives no ticket pattern |
| StyleExtractor.ToneOf | src/utils/style-extractor.ts:73-82 | formal iff formal bodies are a strict majority; casual iff not formal and casual bodies exceed 30%; mixed otherwise, including with no bodies |
| StyleExtractor.AnalyzeTone | src/utils/style-extractor.ts:73-82 | the counting loop returns the tone specified above |
| StyleExtractor.KeepMajority | src/utils/style-extractor.ts:88-90 | the result is the in-order subsequence of the phrases contained in strictly more than half the bodies (both directions) |
| StyleExtractor.CommonPhrases | src/utils/style-extractor.ts:88-91 | the five canonical phrases, in their order, kept iff strictly more than half the bodies contain the phrase |
| StyleExtractor.StyleOf | src/utils/style-extractor.ts:3-26 | `sampleCount` is the number of PRs, including those with empty bodies; `repositoryInfo` is the given owner/repo and `lastUpdated` the given timestamp |
| StyleExtractor.ExtractStyleFromPRs | src/utils/style-extractor.ts:3-26 | building the profile with the imperative helpers yields the specified profile, with at least one sample |
| StyleExtractor.EmptyBodiesGiveEmptyProfile | src/utils/style-extractor.ts:4-22 | when every description is empty the samples still count but sections, phrases, averages, flags are empty/zero/false and the tone is mixed |
| StyleExtractor.SingleRequestKeepsEveryHeading | src/utils/style-extractor.ts:28-36 | with one PR every heading of its description is a section |
| StyleExtractor.ProfileAverages | src/utils/style-extractor.ts:14-15 | the averages are 0 without non-empty bodies and otherwise the rounded means of length and line count over the non-empty bodies |
| StyleCache.DisplayLines | src/utils/style-cache.ts:26-48 | 17 lines, 20 when tickets are mentioned; the extra lines are a blank, `### Tickets` and the pattern (printed even when null) |
| StyleCache.FormatStyleForDisplay | src/utils/style-cache.ts:25-51 | the lines joined with `\n`: when no line holds a line break, splitting the text at line breaks gives the lines back |
| StyleCache.DisplayBlocks | src/utils/style-cache.ts:26-44 | the header, structure, title and tone blocks sit at lines 0–2, 3–8, 9–12 and 13–16 |
| StyleCache.DisplayLinesAreSingleLines | src/utils/style-cache.ts:26-48 | no line holds a line break when the shown text fields hold none |
| StyleCache.TicketsHeadingIffMentioned | src/utils/style-cache.ts:46-48 | the `### Tickets` heading is a line of the summary iff tickets are mentioned, and never one of the first 17 lines |
| StyleCache.SummarySplitsIntoLines | src/utils/style-cache.ts:26-50 | when no shown text field holds a line break, splitting the joined summary at line breaks gives its lines back: 17 or 20 of them |
| StyleCache.SummaryLines | src/utils/style-cache.ts:27-38 | when no shown text field holds a line break, in the split summary the first line names owner/repo; sections and prefixes are joined by `, ` in stored order or read `None detected` / `None`; a null pattern reads `No consistent pattern` |
| StyleCache.HeaderShowsSampleCount | src/utils/style-cache.ts:28 | equal header lines imply equal sample counts |
| StyleCache.StructureShowsFlags | src/utils/style-cache.ts:32-34 | equal structure lines imply equal checkbox and bullet flags (`Yes`/`No`) and equal average line count |
| StyleCache.ToneBlockShowsTone | src/utils/style-cache.ts:41-43 | equal tone lines imply equal tone, first-person and emoji flags |
| StyleCache.SummaryDeterminesShownFacts | src/utils/style-cache.ts:25-51 | when no shown text field of either profile holds a line break, two profiles with the same summary agree on sample count, average line count, tone, the four shown flags and whether tickets are mentioned |
| StyleCache.SummaryIgnoresHiddenFields | src/utils/style-cache.ts:26-50 | changing numbered lists, body length or always-included phrases leaves the summary unchanged; so does the ticket pattern when tickets are not mentioned, and an empty title pattern reads as a null one |
| GeneratePr.TruncateDiff | src/tools/generate-pr.ts:102-105 | a diff of at most 6000 characters is unchanged; a longer one becomes its first 6000 characters followed by `\n... (truncated)` |
| GeneratePr.CommitLines | src/tools/generate-pr.ts:91 | one `- m` line per commit message, in order |
| GeneratePr.PushCommitLines | src/tools/generate-pr.ts:91 | the `forEach` loop appends exactly the commit lines |
| GeneratePr.PushStyleBlock | src/tools/generate-pr.ts:76-84 | the pushes append the style header, a blank, the rendered summary and a blank, or without a style the note and a blank |
| GeneratePr.PushCommitsBlock | src/tools/generate-pr.ts:89-93 | with commits the pushes append `## Commits`, the commit lines and a blank; without commits nothing |
| GeneratePr.PushFilesBlock | src/tools/generate-pr.ts:95-99 | the pushes append the files heading and the change summary between two fences, then a blank |
| GeneratePr.PushDiffBlock | src/tools/generate-pr.ts:101-111 | when the diff is requested and non-empty, the pushes append the diff heading and the truncated diff between fences, then a blank; otherwise nothing |
| GeneratePr.PushInstructions | src/tools/generate-pr.ts:113-118 | the pushes append the six instruction lines, the last naming `save_pr_description` |
| GeneratePr.PromptLines | src/tools/generate-pr.ts:71-118 | the number of lines per present block; the first two lines are the goal and a blank; the last six are the instructions |
| GeneratePr.BuildPrompt | src/tools/generate-pr.ts:65-121 | the pushes produce the specified lines, joined with `\n` |
| GeneratePr.PromptSevenBlocks | src/tools/generate-pr.ts:71-118 | after the goal and a blank, the lines are cut into the style, branch, commits, files, diff and instruction blocks at computed offsets, in that order |
| GeneratePr.PromptStyleLayout | src/tools/generate-pr.ts:76-87 | with a style, its header, a blank, the rendered summary and a blank; without one only the note and a blank; then the branch line |
| GeneratePr.PromptCommitsLayout | src/tools/generate-pr.ts:89-93 | with commits, `## Commits`, each message as `- m` in order, and a blank line |
| GeneratePr.PromptWithoutCommits | src/tools/generate-pr.ts:89-95 | without commits the files block directly follows the branch block |
| GeneratePr.PromptFilesAndDiffLayout | src/tools/generate-pr.ts:95-113 | the fenced files block holds the change summary verbatim; the diff block follows iff the diff is requested and non-empty; otherwise the instructions follow |
| GeneratePr.PromptFrame | src/tools/generate-pr.ts:71-120 | the prompt text starts with the goal line and a blank line and ends with the `save_pr_description` instruction |
| GitHub.RepoPart | src/adapters/github.ts:14-17 | `(.+?)(\.git)?$`: fails iff the rest is empty or holds a line terminator; otherwise the repo is non-empty, and it is the rest without its final `.git` when the rest is longer than `.git` and ends with it, else the whole rest |
| GitHub.RepoPartOfForm | src/adapters/github.ts:14-17 | a single-line repo, followed by `.git` or (when it does not itself end in `.git`) by nothing, is read back as that repo |
| GitHub.MatchAtShape | src/adapters/github.ts:14-17 | a match at a position is the prefix, a non-empty owner without `/`, a slash and the repo, optionally followed by `.git`, to the end |
| GitHub.MatchOfParts | src/adapters/github.ts:14-17 | after the prefix, `owner/tail` with a slash-free owner matches as (owner, repository part of the tail), and fails iff the tail has no repository part |
| GitHub.FirstMatch | src/adapters/github.ts:14-17 | the unanchored search fails iff no start position matches; otherwise it returns the match at the leftmost matching start |
| GitHub.LeftmostMatchUnique | src/adapters/github.ts:14-17 | the leftmost match is unique, so the search result is determined |
| GitHub.FirstMatchSkips | src/adapters/github.ts:14-17 | start positions that do not match can be skipped without changing the result |
| GitHub.ParseRemoteUrl | src/adapters/github.ts:13-21 | null iff neither form matches anywhere; a leftmost SSH match wins; otherwise the leftmost HTTPS match; a parsed owner is non-empty without `/`, a parsed repo non-empty and single-line, and the URL ends with `owner/repo` or `owner/repo.git` |
| GitHub.SshRemoteParses | src/adapters/github.ts:14-15 | `git@github.com:owner/repo` and `…/repo.git` parse to (owner, repo); the repo may contain `/` |
| GitHub.HttpsRemoteParses | src/adapters/github.ts:17-18 | `https://github.com/owner/repo[.git]` parses to (owner, repo) |
| GitHub.NoAtNoSsh | src/adapters/github.ts:14-17 | a URL without `@` never matches the SSH form, so the HTTPS form decides |
| GitHub.NoHostNoParse | src/adapters/github.ts:20 | a URL without `github.com` gives null |
| GitHub.Merged | src/adapters/github.ts:33 | the merged PRs in order: a subsequence, all merged, none left out, and as many as there are merged entries (duplicates kept) |
| GitHub.SelectMerged | src/adapters/github.ts:33 | the first `min(count, #merged)` merged PRs, in order, where #merged counts every merged entry |
| GitHub.FewMergedAllSelected | src/adapters/github.ts:33 | when at most `count` PRs are merged, every merged PR is selected |
| GitHub.OrEmpty | src/adapters/github.ts:46-47 | `x \|\| ''` on an optional text: the text when present, else the empty string |
| GitHub.AuthorOf | src/adapters/github.ts:48-60 | the author is the login when present and non-empty, else `unknown`; never empty |
| GitHub.LabelNames | src/adapters/github.ts:49-61 | one name per label, in order |
| GitHub.DetailedRecord | src/adapters/github.ts:43-53 | number, title, body and merge time (`''` when missing), author (`unknown` when missing) and label names from the summary; statistics from the details |
| GitHub.FallbackRecord | src/adapters/github.ts:54-65 | the same fields from the summary as the detailed record; additions, deletions and changed files are 0 |
| GitHub.FallbackIsZeroDetails | src/adapters/github.ts:43-65 | the fallback equals the detailed record with its statistics set to zero |
| GitHub.MergedRecords | src/adapters/github.ts:33-68 | one record per selected PR, at most `count`, in order; detailed when the detail request succeeds, fallback otherwise |

## Left out

- Loading and saving the cache file (`src/utils/style-cache.ts:8-23`) are file-system effects plus `JSON.parse`/`JSON.stringify`. They are not modelled.
- The network side of `fetchMergedPRs` (`pulls.list`, `pulls.get`, `per_page`) and `verifyAccess` are not modelled; nor is the concurrency of `Promise.all`. The outcome of each detail request is a parameter of `GitHub.MergedRecords`.
- `src/index.ts` (server wiring), `src/utils/git.ts` (shell calls to `git`), `src/utils/file-writer.ts` and the async wrappers in `src/tools/generate-pr.ts` and `src/tools/learn-style.ts` are not part of this model. The empty-corpus guard at `src/tools/learn-style.ts:48-54` appears as the precondition `|prs| > 0` of `StyleExtractor.StyleOf`.
- The clock is not modelled. `lastUpdated` is a parameter, where the source calls `new Date().toISOString()`.
- The locale date is not modelled either. `toLocaleDateString()` depends on the host's locale, so it is the function parameter `localeDate`.
- Floating-point arithmetic is replaced by the integer forms above. They agree with IEEE doubles for the thresholds 0.3 and 0.5 and for `Math.round` at the list sizes involved.
- GeneratePr.TruncateDiff: counts Unicode characters, whereas JavaScript's `length` and `slice` count UTF-16 code units. A diff with characters outside the Basic Multilingual Plane is cut at a different place, and `slice` can split a surrogate pair, which `seq<char>` cannot hold.
- GitHub.SelectMerged: `count` is a natural number. A negative `count`, which `slice` would read from the end, is not modelled.
- GitHub.LabelNames: a label object is assumed to carry a name. An object label without `name` gives `undefined` in the source and is not modelled.
- StyleExtractor.StyleOf: its own contract states the count, the repository and the timestamp. The averages are stated in `StyleExtractor.ProfileAverages`, the other fields in the lemmas about each helper.
- StyleCache.SummaryDeterminesShownFacts: stated only for profiles whose shown text fields hold no line break. The cache loader parses the file without validating it, and a heading can span a line break, so other profiles do reach the formatter; for them the text does not determine the shown facts. `SummarySplitsIntoLines` and `SummaryLines` carry the same condition.
- GitHub.HttpsRemoteParses: stated for URLs of the form `https://github.com/owner/repo[.git]` whose owner and repo hold no `@`. For other URLs containing `github.com/`, `GitHub.ParseRemoteUrl` states only the shape of the result.
- `StyleExtractor.IsConventionalTitle`, `IsTicketTitle`, `HasCheckbox`, `HasBulletList`, `HasNumberedList`, `HasEmoji`, `MentionsTicket`, `IsFormalBody`, `IsCasualBody` and `UsesFirstPersonIn` are the regular expressions of `src/utils/style-extractor.ts:9-20,43,47,76-77,85`, written out as predicates:
  - `\s` is the full JavaScript whitespace set;
  - `\b` is defined through ASCII word characters;
  - the `i` flag is ASCII case folding;
  - the emoji ranges are code point ranges.
  There is no regex engine, and nothing is proved about these predicates beyond what the lemmas above use.
- The heading predicate follows `^#{1,3}\s+.+$` with the `m` flag, so a heading may cross a line break through `\s+`, as in the source.
