/** The pure parts of the GitHub adapter (src/adapters/github.ts): parsing a
 *  git remote URL into owner and repository, choosing which closed pull
 *  requests to keep, and turning each into a `PRData` record. The API
 *  requests themselves are not part of this module; the outcome of the
 *  per-request detail call is a parameter. */
module GitHub {
  import opened Types
  import opened Text
  import opened Collections

  // ===================================================================
  // Remote URL parsing
  // ===================================================================

  const SshPrefix := "git@github.com:"
  const HttpsPrefix := "github.com/"
  const GitSuffix := ".git"

  predicate IsNotSlash(c: char) { c != '/' }

  predicate HasLineTerminator(s: string) {
    exists k | 0 <= k < |s| :: IsLineTerminator(s[k])
  }

  /** `(.+?)(\.git)?$` against the text after the owner's slash. The lazy group
   *  grows one character at a time and stops at the first length after which
   *  only `.git` or nothing is left; `.` never crosses a line terminator and `$`
   *  is the end of the input. */
  function RepoPart(tail: string): (repo: Option<string>)
    ensures repo.Some? ==> repo.value != "" && !HasLineTerminator(repo.value)
    ensures repo.Some? ==> tail == repo.value || tail == repo.value + GitSuffix
    ensures repo.None? <==> tail == "" || HasLineTerminator(tail)
    ensures repo.Some? && |tail| > 4 && EndsWith(tail, GitSuffix) ==> repo.value == tail[..|tail| - 4]
    ensures repo.Some? && !(|tail| > 4 && EndsWith(tail, GitSuffix)) ==> repo.value == tail
  {
    if tail == [] || HasLineTerminator(tail) then None
    else if |tail| > 4 && EndsWith(tail, GitSuffix) then
      assert tail == tail[..|tail| - 4] + GitSuffix;
      Some(tail[..|tail| - 4])
    else Some(tail)
  }

  /** `([^/]+)\/(.+?)(\.git)?$` starting at `o`. The greedy owner group takes
   *  the whole run of non-slash characters, which must be followed by a slash. */
  function OwnerRepoAt(s: string, o: nat): Option<RepoInfo>
    requires o <= |s|
  {
    var n := Run(s, o, IsNotSlash);
    if n == 0 || o + n == |s| then None
    else
      match RepoPart(s[o + n + 1..])
      case None => None
      case Some(repo) => Some(RepoInfo(s[o..o + n], repo))
  }

  /** A match of `<prefix>([^/]+)\/(.+?)(\.git)?$` starting at `p`. */
  function MatchAt(s: string, p: nat, prefix: string): Option<RepoInfo>
    requires p <= |s|
  {
    if !OccursAt(s, p, prefix) then None else OwnerRepoAt(s, p + |prefix|)
  }

  /** What a match at `p` consists of: the prefix, a non-empty owner without
   *  slashes, a slash, and a non-empty single-line repository, optionally
   *  followed by `.git`, up to the end of the text. */
  lemma MatchAtShape(s: string, p: nat, prefix: string)
    requires p <= |s| && MatchAt(s, p, prefix).Some?
    ensures OccursAt(s, p, prefix)
    ensures var r := MatchAt(s, p, prefix).value;
            var o := p + |prefix|;
            && o <= |s|
            && r.owner != "" && '/' !in r.owner
            && r.repo != "" && !HasLineTerminator(r.repo)
            && (s[o..] == r.owner + "/" + r.repo || s[o..] == r.owner + "/" + r.repo + GitSuffix)
  {
    assert OccursAt(s, p, prefix);
    var o := p + |prefix|;
    assert MatchAt(s, p, prefix) == OwnerRepoAt(s, o);
    OwnerRepoShape(s, o);
  }

  lemma OwnerRepoShape(s: string, o: nat)
    requires o <= |s| && OwnerRepoAt(s, o).Some?
    ensures var r := OwnerRepoAt(s, o).value;
            && r.owner != "" && '/' !in r.owner
            && r.repo != "" && !HasLineTerminator(r.repo)
            && (s[o..] == r.owner + "/" + r.repo || s[o..] == r.owner + "/" + r.repo + GitSuffix)
  {
    var n := Run(s, o, IsNotSlash);
    var owner := s[o..o + n];
    var tail := s[o + n + 1..];
    assert s[o..] == owner + "/" + tail;
    assert '/' !in owner by {
      assert forall k | 0 <= k < n :: owner[k] == s[o + k];
    }
    assert OwnerRepoAt(s, o).value == RepoInfo(owner, RepoPart(tail).value);
  }

  /** No match of the pattern starts at `p` or later. */
  predicate NoMatchFrom(s: string, p: nat, prefix: string)
    requires p <= |s|
  {
    forall q | p <= q <= |s| :: MatchAt(s, q, prefix).None?
  }

  /** `info` is what the leftmost match starting at `p` or later captures. */
  predicate LeftmostMatch(s: string, p: nat, prefix: string, info: RepoInfo)
    requires p <= |s|
  {
    exists q | p <= q <= |s| ::
      && MatchAt(s, q, prefix) == Some(info)
      && forall k | p <= k < q :: MatchAt(s, k, prefix).None?
  }

  /** There is only one leftmost match. */
  lemma LeftmostMatchUnique(s: string, p: nat, prefix: string, a: RepoInfo, b: RepoInfo)
    requires p <= |s| && LeftmostMatch(s, p, prefix, a) && LeftmostMatch(s, p, prefix, b)
    ensures a == b
  {
    var qa :| p <= qa <= |s| && MatchAt(s, qa, prefix) == Some(a) && forall k | p <= k < qa :: MatchAt(s, k, prefix).None?;
    var qb :| p <= qb <= |s| && MatchAt(s, qb, prefix) == Some(b) && forall k | p <= k < qb :: MatchAt(s, k, prefix).None?;
    MatchBoundsGap(s, p, prefix, qa, qb);
    MatchBoundsGap(s, p, prefix, qb, qa);
    assert qa == qb;
  }

  /** A match at `q` ends every match-free stretch that starts at `p` at or before `q`. */
  lemma MatchBoundsGap(s: string, p: nat, prefix: string, q: nat, r: nat)
    requires p <= q <= |s| && MatchAt(s, q, prefix).Some?
    requires forall k | p <= k < r :: k <= |s| && MatchAt(s, k, prefix).None?
    ensures r <= q
  {
  }

  /** The unanchored search: the first start position, from `p` on, where the pattern matches. */
  function FirstMatch(s: string, p: nat, prefix: string): (r: Option<RepoInfo>)
    requires p <= |s|
    ensures r.None? <==> NoMatchFrom(s, p, prefix)
    ensures r.Some? ==> LeftmostMatch(s, p, prefix, r.value)
    decreases |s| - p
  {
    var m := MatchAt(s, p, prefix);
    if m.Some? then
      assert MatchAt(s, p, prefix) == m;
      m
    else if p == |s| then None
    else
      var r := FirstMatch(s, p + 1, prefix);
      NoMatchStep(s, p, prefix);
      if r.Some? then
        LeftmostStep(s, p, prefix, r.value);
        r
      else r
  }

  /** Nothing matches from `p` iff nothing matches at `p` or from `p + 1`. */
  lemma NoMatchStep(s: string, p: nat, prefix: string)
    requires p < |s|
    ensures NoMatchFrom(s, p, prefix) <==> MatchAt(s, p, prefix).None? && NoMatchFrom(s, p + 1, prefix)
  {
  }

  /** When nothing matches at `p`, the leftmost match from `p + 1` is the leftmost from `p`. */
  lemma LeftmostStep(s: string, p: nat, prefix: string, info: RepoInfo)
    requires p < |s| && MatchAt(s, p, prefix).None? && LeftmostMatch(s, p + 1, prefix, info)
    ensures LeftmostMatch(s, p, prefix, info)
  {
    var q :| p + 1 <= q <= |s| && MatchAt(s, q, prefix) == Some(info)
             && forall k | p + 1 <= k < q :: MatchAt(s, k, prefix).None?;
    assert forall k | p <= k < q :: MatchAt(s, k, prefix).None?;
  }

  /** `parseRemoteUrl`: the SSH form is tried first, then the HTTPS form. */
  function ParseRemoteUrl(url: string): (r: Option<RepoInfo>)
    ensures r.Some? ==> r.value.owner != "" && '/' !in r.value.owner
    ensures r.Some? ==> r.value.repo != "" && !HasLineTerminator(r.value.repo)
    ensures r.Some? ==>
              || EndsWith(url, r.value.owner + "/" + r.value.repo)
              || EndsWith(url, r.value.owner + "/" + r.value.repo + GitSuffix)
    ensures r.None? <==> NoMatchFrom(url, 0, SshPrefix) && NoMatchFrom(url, 0, HttpsPrefix)
    ensures !NoMatchFrom(url, 0, SshPrefix) ==> r.Some? && LeftmostMatch(url, 0, SshPrefix, r.value)
    ensures NoMatchFrom(url, 0, SshPrefix) && r.Some? ==> LeftmostMatch(url, 0, HttpsPrefix, r.value)
  {
    match FirstMatch(url, 0, SshPrefix)
    case Some(info) =>
      MatchEnds(url, SshPrefix, info);
      Some(info)
    case None =>
      match FirstMatch(url, 0, HttpsPrefix)
      case Some(info) =>
        MatchEnds(url, HttpsPrefix, info);
        Some(info)
      case None => None
  }

  lemma MatchEnds(url: string, prefix: string, info: RepoInfo)
    requires FirstMatch(url, 0, prefix) == Some(info)
    ensures info.owner != "" && '/' !in info.owner
    ensures info.repo != "" && !HasLineTerminator(info.repo)
    ensures || EndsWith(url, info.owner + "/" + info.repo)
            || EndsWith(url, info.owner + "/" + info.repo + GitSuffix)
  {
    assert LeftmostMatch(url, 0, prefix, info);
    var q :| 0 <= q <= |url| && MatchAt(url, q, prefix) == Some(info);
    MatchAtShape(url, q, prefix);
    var x := url[q + |prefix|..];
    assert url[|url| - |x|..] == x;
  }

  /** A run of `n` characters satisfying `p`, ended by the text or by a character that does not. */
  lemma {:induction false} RunIs(s: string, i: nat, n: nat, p: char -> bool)
    requires i + n <= |s|
    requires forall k | i <= k < i + n :: p(s[k])
    requires i + n == |s| || !p(s[i + n])
    ensures Run(s, i, p) == n
    decreases n
  {
    if n > 0 {
      RunIs(s, i + 1, n - 1, p);
    }
  }

  /** Where the prefix never occurs, there is no match. */
  lemma {:induction false} NoPrefixNoMatch(s: string, p: nat, prefix: string)
    requires p <= |s|
    requires forall q | 0 <= q <= |s| :: !OccursAt(s, q, prefix)
    ensures FirstMatch(s, p, prefix) == None
    decreases |s| - p
  {
    if p < |s| {
      NoPrefixNoMatch(s, p + 1, prefix);
    }
  }

  /** The matched part after the prefix, for an owner without slashes. */
  lemma MatchOfParts(s: string, o: nat, owner: string, tail: string)
    requires o <= |s| && s[o..] == owner + "/" + tail
    requires owner != "" && '/' !in owner
    ensures OwnerRepoAt(s, o) == if RepoPart(tail).Some? then Some(RepoInfo(owner, RepoPart(tail).value)) else None
  {
    OwnerRun(s, o, owner, tail);
    OwnerRepoOfRun(s, o, owner, tail);
  }

  lemma OwnerRepoOfRun(s: string, o: nat, owner: string, tail: string)
    requires owner != "" && o + |owner| < |s| && Run(s, o, IsNotSlash) == |owner|
    requires s[o..o + |owner|] == owner && s[o + |owner| + 1..] == tail
    ensures OwnerRepoAt(s, o) == if RepoPart(tail).Some? then Some(RepoInfo(owner, RepoPart(tail).value)) else None
  {
    var n := Run(s, o, IsNotSlash);
    assert n != 0 && o + n != |s|;
    assert RepoPart(s[o + n + 1..]) == RepoPart(tail);
  }

  /** After `owner + "/"`, with no slash in the owner, the greedy owner group
   *  stops exactly at that slash. */
  lemma OwnerRun(s: string, o: nat, owner: string, tail: string)
    requires o <= |s| && s[o..] == owner + "/" + tail && '/' !in owner
    ensures Run(s, o, IsNotSlash) == |owner| && o + |owner| < |s|
    ensures s[o..o + |owner|] == owner && s[o + |owner| + 1..] == tail
  {
    assert forall k | 0 <= k < |owner| :: s[o + k] == s[o..][k] == owner[k];
    assert s[o + |owner|] == s[o..][|owner|] == '/';
    RunIs(s, o, |owner|, IsNotSlash);
    assert s[o..o + |owner|] == s[o..][..|owner|];
    assert s[o + |owner| + 1..] == s[o..][|owner| + 1..];
  }

  /** The tail after the owner is the repository, with `.git` removed when present. */
  lemma RepoPartOfForm(repo: string, withGit: bool)
    requires repo != "" && !HasLineTerminator(repo)
    requires withGit || !EndsWith(repo, GitSuffix)
    ensures RepoPart(repo + (if withGit then GitSuffix else "")) == Some(repo)
  {
    var tail := repo + (if withGit then GitSuffix else "");
    if withGit {
      assert tail[..|tail| - 4] == repo;
      assert tail[|tail| - 4..] == GitSuffix;
      assert !HasLineTerminator(tail) by {
        forall k | 0 <= k < |tail| ensures !IsLineTerminator(tail[k]) {
          if k >= |repo| {
            assert tail[k] == GitSuffix[k - |repo|];
          }
        }
      }
    } else {
      assert tail == repo;
    }
  }

  /** `git@github.com:<owner>/<repo>` and `git@github.com:<owner>/<repo>.git` both
   *  parse to the owner and the repository without `.git`. */
  lemma SshRemoteParses(owner: string, repo: string, withGit: bool)
    requires owner != "" && '/' !in owner
    requires repo != "" && !HasLineTerminator(repo)
    requires withGit || !EndsWith(repo, GitSuffix)
    ensures ParseRemoteUrl(SshPrefix + owner + "/" + repo + (if withGit then GitSuffix else ""))
         == Some(RepoInfo(owner, repo))
  {
    var tail := repo + (if withGit then GitSuffix else "");
    var url := SshPrefix + owner + "/" + repo + (if withGit then GitSuffix else "");
    assert url == SshPrefix + (owner + "/" + tail);
    assert url[..|SshPrefix|] == SshPrefix;
    assert url[|SshPrefix|..] == owner + "/" + tail;
    RepoPartOfForm(repo, withGit);
    MatchOfParts(url, |SshPrefix|, owner, tail);
  }

  /** `https://github.com/<owner>/<repo>[.git]` parses likewise, provided no `@`
   *  (and so no SSH form) appears in it. */
  lemma HttpsRemoteParses(owner: string, repo: string, withGit: bool)
    requires owner != "" && '/' !in owner && '@' !in owner
    requires repo != "" && !HasLineTerminator(repo) && '@' !in repo
    requires withGit || !EndsWith(repo, GitSuffix)
    ensures ParseRemoteUrl("https://" + HttpsPrefix + owner + "/" + repo + (if withGit then GitSuffix else ""))
         == Some(RepoInfo(owner, repo))
  {
    var tail := repo + (if withGit then GitSuffix else "");
    var rest := owner + "/" + tail;
    var url := "https://" + HttpsPrefix + owner + "/" + repo + (if withGit then GitSuffix else "");
    assert url == "https://" + HttpsPrefix + rest;
    TailHasNoAt(repo, withGit);
    assert '@' !in rest;
    HttpsStart(url, rest);
    NoAtNoSsh(url);
    RepoPartOfForm(repo, withGit);
    MatchOfParts(url, 8 + |HttpsPrefix|, owner, tail);
    FirstMatchSkips(url, 0, 8, HttpsPrefix);
  }

  lemma TailHasNoAt(repo: string, withGit: bool)
    requires '@' !in repo
    ensures '@' !in repo + (if withGit then GitSuffix else "")
  {
    var tail := repo + (if withGit then GitSuffix else "");
    forall k | 0 <= k < |tail| ensures tail[k] != '@' {
      if k >= |repo| {
        assert tail[k] == GitSuffix[k - |repo|];
      }
    }
  }

  /** The HTTPS prefix occurs right after `https://`, and not before. */
  lemma HttpsStart(url: string, rest: string)
    requires url == "https://" + HttpsPrefix + rest && '@' !in rest
    ensures '@' !in url
    ensures url[8..8 + |HttpsPrefix|] == HttpsPrefix && url[8 + |HttpsPrefix|..] == rest
    ensures forall q | 0 <= q < 8 :: MatchAt(url, q, HttpsPrefix) == None
  {
    forall q | 0 <= q < 8 ensures MatchAt(url, q, HttpsPrefix) == None {
      assert url[q] != 'g';
      assert url[q..q + |HttpsPrefix|][0] == url[q];
    }
  }

  /** Without an `@` the SSH prefix occurs nowhere. */
  lemma NoAtNoSsh(url: string)
    requires '@' !in url
    ensures FirstMatch(url, 0, SshPrefix) == None
  {
    forall q | 0 <= q <= |url| ensures !OccursAt(url, q, SshPrefix) {
      if q + |SshPrefix| <= |url| {
        assert url[q..q + |SshPrefix|][3] == url[q + 3];
      }
    }
    NoPrefixNoMatch(url, 0, SshPrefix);
  }

  lemma FirstMatchSkips(s: string, p: nat, q: nat, prefix: string)
    requires p <= q <= |s|
    requires forall k | p <= k < q :: MatchAt(s, k, prefix) == None
    ensures FirstMatch(s, p, prefix) == FirstMatch(s, q, prefix)
  {
    var rq := FirstMatch(s, q, prefix);
    var rp := FirstMatch(s, p, prefix);
    if rq.Some? {
      var j :| q <= j <= |s| && MatchAt(s, j, prefix) == rq
               && forall k | q <= k < j :: MatchAt(s, k, prefix).None?;
      assert LeftmostMatch(s, p, prefix, rq.value);
      LeftmostMatchUnique(s, p, prefix, rp.value, rq.value);
    }
  }

  /** A remote without `github.com` does not parse. */
  lemma NoHostNoParse(url: string)
    requires !Contains(url, "github.com")
    ensures ParseRemoteUrl(url) == None
  {
    assert SshPrefix[4..14] == "github.com" && HttpsPrefix[0..10] == "github.com";
    forall q | 0 <= q <= |url| ensures !OccursAt(url, q, SshPrefix) {
      if OccursAt(url, q, SshPrefix) {
        OccursWithin(url, q, SshPrefix, 4, 14);
      }
    }
    forall q | 0 <= q <= |url| ensures !OccursAt(url, q, HttpsPrefix) {
      if OccursAt(url, q, HttpsPrefix) {
        OccursWithin(url, q, HttpsPrefix, 0, 10);
      }
    }
    NoPrefixNoMatch(url, 0, SshPrefix);
    NoPrefixNoMatch(url, 0, HttpsPrefix);
  }

  /** Where `p` occurs, every slice of `p` occurs too. */
  lemma OccursWithin(s: string, q: int, p: string, i: nat, j: nat)
    requires OccursAt(s, q, p) && i <= j <= |p|
    ensures OccursAt(s, q + i, p[i..j])
  {
    forall k | 0 <= k < j - i ensures s[q + i..q + j][k] == p[i..j][k] {
      assert s[q..q + |p|][i + k] == s[q + i + k];
    }
  }

  // ===================================================================
  // Merged pull requests and their records
  // ===================================================================

  /** A label as the API returns it: a bare name or an object with a name. */
  datatype Label = Plain(text: string) | Tagged(name: string)

  /** The fields of a closed pull request in the list response that the adapter reads. */
  datatype PullSummary = PullSummary(
    number: int,
    title: string,
    body: Option<string>,
    mergedAt: Option<string>,
    login: Option<string>,
    labels: seq<Label>)

  /** The statistics of the per-request detail response. */
  datatype PullDetails = PullDetails(additions: nat, deletions: nat, changedFiles: nat)

  predicate IsMerged(pr: PullSummary) { pr.mergedAt.Some? }

  /** `pullRequests.filter(pr => pr.merged_at !== null)`. */
  function Merged(prs: seq<PullSummary>): (merged: seq<PullSummary>)
    ensures IsSubsequence(merged, prs)
    ensures forall i | 0 <= i < |merged| :: IsMerged(merged[i])
    ensures forall i | 0 <= i < |prs| && IsMerged(prs[i]) :: prs[i] in merged
    ensures |merged| == CountWhere(prs, IsMerged)
  {
    if |prs| == 0 then []
    else
      var rest := Merged(prs[1..]);
      assert forall i | 1 <= i < |prs| :: prs[i] == prs[1..][i - 1];
      CountWhereFront(prs, IsMerged);
      if IsMerged(prs[0]) then [prs[0]] + rest
      else
        SubsequenceSkipHead(rest, prs);
        rest
  }

  /** `.slice(0, count)` of the merged ones: order is kept and at most `count` remain. */
  function SelectMerged(prs: seq<PullSummary>, count: nat): (selected: seq<PullSummary>)
    ensures IsSubsequence(selected, prs)
    ensures forall i | 0 <= i < |selected| :: IsMerged(selected[i])
    ensures |selected| == if |Merged(prs)| < count then |Merged(prs)| else count
    ensures selected == Merged(prs)[..|selected|]
  {
    var merged := Merged(prs);
    var n := if |merged| < count then |merged| else count;
    PrefixIsSubsequence(merged, prs, n);
    merged[..n]
  }

  /** Every merged pull request is selected when there are at most `count` of them. */
  lemma FewMergedAllSelected(prs: seq<PullSummary>, count: nat, i: nat)
    requires |Merged(prs)| <= count && i < |prs| && IsMerged(prs[i])
    ensures prs[i] in SelectMerged(prs, count)
  {
    assert Merged(prs)[..|Merged(prs)|] == Merged(prs);
  }

  /** `x || ''`: a missing value becomes the empty string. */
  function OrEmpty(x: Option<string>): (s: string)
    ensures x.Some? ==> s == x.value
    ensures x.None? ==> s == ""
  {
    if x.Some? then x.value else ""
  }

  /** `pr.user?.login || 'unknown'`: a missing user or an empty login is shown as `unknown`. */
  function AuthorOf(login: Option<string>): (author: string)
    ensures author != ""
    ensures login.Some? && login.value != "" ==> author == login.value
    ensures !(login.Some? && login.value != "") ==> author == "unknown"
  {
    if login.Some? && login.value != "" then login.value else "unknown"
  }

  function LabelName(l: Label): string {
    match l
    case Plain(text) => text
    case Tagged(name) => name
  }

  function LabelNames(labels: seq<Label>): (names: seq<string>)
    ensures |names| == |labels|
    ensures forall i | 0 <= i < |labels| :: names[i] == LabelName(labels[i])
  {
    seq(|labels|, i requires 0 <= i < |labels| => LabelName(labels[i]))
  }

  /** The record built when the detail request succeeds. */
  function DetailedRecord(pr: PullSummary, details: PullDetails): (r: PRData)
    ensures r.number == pr.number && r.title == pr.title && r.body == OrEmpty(pr.body)
    ensures r.additions == details.additions && r.deletions == details.deletions
    ensures r.changedFiles == details.changedFiles
    ensures r.mergedAt == OrEmpty(pr.mergedAt) && r.author == AuthorOf(pr.login)
    ensures r.labels == LabelNames(pr.labels)
  {
    PRData(pr.number, pr.title, OrEmpty(pr.body), OrEmpty(pr.mergedAt), AuthorOf(pr.login),
           LabelNames(pr.labels), details.additions, details.deletions, details.changedFiles)
  }

  /** The record built when the detail request fails: the summary's fields and zero statistics. */
  function FallbackRecord(pr: PullSummary): (r: PRData)
    ensures r.number == pr.number && r.title == pr.title && r.body == OrEmpty(pr.body)
    ensures r.mergedAt == OrEmpty(pr.mergedAt) && r.author == AuthorOf(pr.login)
    ensures r.labels == LabelNames(pr.labels)
    ensures r.additions == 0 && r.deletions == 0 && r.changedFiles == 0
  {
    PRData(pr.number, pr.title, OrEmpty(pr.body), OrEmpty(pr.mergedAt), AuthorOf(pr.login),
           LabelNames(pr.labels), 0, 0, 0)
  }

  /** The fallback record differs from a detailed one only in its statistics:
   *  it is the detailed record of a change with no additions, deletions or files. */
  lemma FallbackIsZeroDetails(pr: PullSummary, details: PullDetails)
    ensures FallbackRecord(pr) == DetailedRecord(pr, PullDetails(0, 0, 0))
    ensures FallbackRecord(pr) == DetailedRecord(pr, details).(additions := 0, deletions := 0, changedFiles := 0)
  {
  }

  /** The records `fetchMergedPRs` returns, given the outcome of each detail
   *  request (`None` when it throws): one per selected pull request, in order. */
  function MergedRecords(prs: seq<PullSummary>, count: nat, details: PullSummary -> Option<PullDetails>): (records: seq<PRData>)
    ensures var selected := SelectMerged(prs, count);
            && |records| == |selected| <= count
            && forall i | 0 <= i < |records| ::
                 && records[i].number == selected[i].number
                 && (details(selected[i]).Some? ==> records[i] == DetailedRecord(selected[i], details(selected[i]).value))
                 && (details(selected[i]).None? ==> records[i] == FallbackRecord(selected[i]))
  {
    var selected := SelectMerged(prs, count);
    seq(|selected|, i requires 0 <= i < |selected| =>
      match details(selected[i])
      case Some(d) => DetailedRecord(selected[i], d)
      case None => FallbackRecord(selected[i]))
  }
}
