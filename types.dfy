/** The records the style engine consumes and produces. */
module Types {

  /** A value that may be absent (`null` in the source). */
  datatype Option<+T> = None | Some(value: T)

  /** One merged pull request as fetched from the hosting service. */
  datatype PRData = PRData(
    number: int,
    title: string,
    body: string,
    mergedAt: string,
    author: string,
    labels: seq<string>,
    additions: nat,
    deletions: nat,
    changedFiles: nat)

  datatype Tone = Formal | Casual | Mixed

  /** The string a tone is stored and displayed as. */
  function ToneName(t: Tone): (name: string)
    ensures name in {"formal", "casual", "mixed"}
  {
    match t
    case Formal => "formal"
    case Casual => "casual"
    case Mixed => "mixed"
  }

  datatype RepoInfo = RepoInfo(owner: string, repo: string)

  /** The learned style profile. */
  datatype LearnedStyle = LearnedStyle(
    sections: seq<string>,
    usesCheckboxes: bool,
    usesBulletPoints: bool,
    usesNumberedLists: bool,
    titlePattern: Option<string>,
    titlePrefixExamples: seq<string>,
    averageBodyLength: nat,
    averageLineCount: nat,
    mentionsTickets: bool,
    ticketPattern: Option<string>,
    tone: Tone,
    usesFirstPerson: bool,
    usesEmojis: bool,
    alwaysIncludes: seq<string>,
    sampleCount: nat,
    lastUpdated: string,
    repositoryInfo: RepoInfo)

  /** What the working copy says about the change being described. */
  datatype GitInfo = GitInfo(
    diff: string,
    branchName: string,
    commitMessages: seq<string>,
    stagedFiles: seq<string>,
    repositoryRoot: string)
}
