/** The style extractor: turns a non-empty corpus of merged pull requests into
 *  a learned style profile (src/utils/style-extractor.ts).
 *
 *  Every regular expression of the source is written out as a predicate over
 *  strings with JavaScript's semantics (the `\s` set, `\b` over ASCII word
 *  characters, ASCII-only `i` folding, multiline `^`/`$`, greedy and lazy
 *  repetition). Fractional thresholds are stated by integer cross
 *  multiplication: `c >= 0.3 n` is `10 c >= 3 n`, `c > 0.5 n` is `2 c > n`,
 *  `c > 0.3 n` is `10 c > 3 n`, and `Math.round(s / n)` is `(2 s + n) / (2 n)`. */
module StyleExtractor {
  import opened Types
  import opened Text
  import opened Collections

  // ===================================================================
  // Views of the corpus
  // ===================================================================

  predicate HasBody(pr: PRData) { pr.body != "" }

  /** `prs.map(pr => pr.body)`: every body, empty ones included. */
  function AllBodies(prs: seq<PRData>): (all: seq<string>)
    ensures |all| == |prs|
    ensures forall i | 0 <= i < |prs| :: all[i] == prs[i].body
  {
    seq(|prs|, i requires 0 <= i < |prs| => prs[i].body)
  }

  /** `prs.map(pr => pr.body).filter(Boolean)`: the non-empty bodies in corpus order. */
  function Bodies(prs: seq<PRData>): (bodies: seq<string>)
    ensures |bodies| == CountWhere(prs, HasBody)
    ensures forall b | b in bodies :: b != ""
    ensures forall b | b in bodies :: exists i | 0 <= i < |prs| :: prs[i].body == b
    ensures forall i | 0 <= i < |prs| && prs[i].body != "" :: prs[i].body in bodies
  {
    if |prs| == 0 then []
    else
      var init := prs[..|prs| - 1];
      var last := prs[|prs| - 1];
      var r := Bodies(init) + (if last.body != "" then [last.body] else []);
      assert forall i | 0 <= i < |init| :: init[i] == prs[i];
      r
  }

  /** The filter keeps the bodies in corpus order, each as often as it occurs. */
  lemma {:induction false} BodiesKeepOrder(prs: seq<PRData>)
    ensures IsSubsequence(Bodies(prs), AllBodies(prs))
  {
    if |prs| == 0 {
      assert Bodies(prs) == [];
    } else {
      var init, x := prs[..|prs| - 1], prs[|prs| - 1].body;
      var b0, a0 := Bodies(init), AllBodies(init);
      BodiesKeepOrder(init);
      BodiesStep(prs);
      SubsequenceAppend(b0, a0, x);
      if x != "" {
        assert Bodies(prs) == b0 + [x];
      } else {
        assert Bodies(prs) == b0 + [] == b0;
      }
    }
  }

  /** How the last pull request extends both views of the corpus. */
  lemma BodiesStep(prs: seq<PRData>)
    requires |prs| > 0
    ensures var init, x := prs[..|prs| - 1], prs[|prs| - 1].body;
            && AllBodies(prs) == AllBodies(init) + [x]
            && Bodies(prs) == Bodies(init) + (if x != "" then [x] else [])
  {
    var init := prs[..|prs| - 1];
    assert forall i | 0 <= i < |init| :: AllBodies(init)[i] == prs[i].body;
  }

  /** `prs.map(pr => pr.title)`. */
  function Titles(prs: seq<PRData>): (titles: seq<string>)
    ensures |titles| == |prs|
    ensures forall i | 0 <= i < |prs| :: titles[i] == prs[i].title
  {
    seq(|prs|, i requires 0 <= i < |prs| => prs[i].title)
  }

  // ===================================================================
  // Section detection: `/^#{1,3}\s+.+$/gm`, counted per trimmed match
  // ===================================================================

  predicate IsHash(c: char) { c == '#' }

  /** Multiline `^`: the start of the text or just after a line terminator. */
  predicate LineStart(s: string, p: nat)
    requires p <= |s|
  {
    p == 0 || IsLineTerminator(s[p - 1])
  }

  /** `\s+.+$` after the hashes that end at `base`, where `w` whitespace characters
   *  follow them: the greedy run gives characters back until `.+` can start on a
   *  character that is not a line terminator; `.+` then runs to the end of its line.
   *  The result is the end of the match. */
  function SpacesThenText(s: string, base: nat, w: nat): (e: Option<nat>)
    requires base + w <= |s|
    ensures e.Some? ==> base + 2 <= e.value <= |s|
    decreases w
  {
    if w == 0 then None
    else if base + w < |s| && IsNotLineTerminator(s[base + w]) then
      Some(base + w + Run(s, base + w, IsNotLineTerminator))
    else SpacesThenText(s, base, w - 1)
  }

  /** End of a match of `^#{1,3}\s+.+$` (multiline) that starts at `p`, if there is one. */
  function HeadingEnd(s: string, p: nat): (e: Option<nat>)
    requires p <= |s|
    ensures e.Some? ==> p < e.value <= |s| && s[p] == '#'
  {
    var h := Run(s, p, IsHash);
    if !LineStart(s, p) || h < 1 || h > 3 then None
    else SpacesThenText(s, p + h, Run(s, p + h, IsSpace))
  }

  /** The matches of the global search for `/^#{1,3}\s+.+$/gm`, resuming at `p`. */
  function HeadingMatches(s: string, p: nat): (ms: seq<string>)
    requires p <= |s|
    ensures forall i | 0 <= i < |ms| :: |ms[i]| > 0 && ms[i][0] == '#'
    decreases |s| - p
  {
    if p == |s| then []
    else
      match HeadingEnd(s, p)
      case Some(e) => [s[p..e]] + HeadingMatches(s, e)
      case None => HeadingMatches(s, p + 1)
  }

  /** The trimmed headings of one body, in order (a heading may repeat): one per
   *  match, each starting with its first `#` and ending in a non-space character. */
  function HeadingsIn(body: string): (hs: seq<string>)
    ensures |hs| == |HeadingMatches(body, 0)|
    ensures forall i | 0 <= i < |hs| :: |hs[i]| > 0 && hs[i][0] == '#' && !IsSpace(hs[i][|hs[i]| - 1])
  {
    var ms := HeadingMatches(body, 0);
    var hs := seq(|ms|, i requires 0 <= i < |ms| => Trim(ms[i]));
    assert forall i | 0 <= i < |ms| :: |hs[i]| > 0 && hs[i][0] == '#' by {
      forall i | 0 <= i < |ms| ensures |hs[i]| > 0 && hs[i][0] == '#' {
        TrimKeepsHead(ms[i]);
      }
    }
    hs
  }

  /** Every trimmed heading of every body, body by body. */
  function AllHeadings(bodies: seq<string>): seq<string> {
    if |bodies| == 0 then []
    else AllHeadings(bodies[..|bodies| - 1]) + HeadingsIn(bodies[|bodies| - 1])
  }

  /** How often each heading occurs among `headings`. */
  function HeadingCount(headings: seq<string>): string -> nat {
    h => Occurrences(headings, h)
  }

  /** `c >= n * 0.3`. */
  predicate Frequent(c: nat, n: nat) { 10 * c >= 3 * n }

  /** The keys whose count reaches 30% of `n`, in their order. */
  function KeepFrequent(keys: seq<string>, count: string -> nat, n: nat): (r: seq<string>)
    ensures forall k | k in r :: k in keys && Frequent(count(k), n)
    ensures forall k | k in keys && Frequent(count(k), n) :: k in r
    ensures Distinct(keys) ==> Distinct(r)
  {
    if |keys| == 0 then []
    else
      var rest := KeepFrequent(keys[1..], count, n);
      assert keys == [keys[0]] + keys[1..];
      (if Frequent(count(keys[0]), n) then [keys[0]] else []) + rest
  }

  lemma {:induction false} KeepFrequentWithKey(keys: seq<string>, count: string -> nat, n: nat, v: nat)
    ensures WithKey(KeepFrequent(keys, count, n), count, v)
         == if Frequent(v, n) then WithKey(keys, count, v) else []
  {
    if |keys| > 0 {
      var head := if Frequent(count(keys[0]), n) then [keys[0]] else [];
      KeepFrequentWithKey(keys[1..], count, n, v);
      WithKeyAppend(head, KeepFrequent(keys[1..], count, n), count, v);
      if head != [] {
        assert WithKey(head, count, v) == (if count(keys[0]) == v then [keys[0]] else []) + WithKey([], count, v);
      }
    }
  }

  lemma {:induction false} KeepFrequentCongruent(keys: seq<string>, count1: string -> nat, count2: string -> nat, n: nat)
    requires forall k | k in keys :: count1(k) == count2(k)
    ensures KeepFrequent(keys, count1, n) == KeepFrequent(keys, count2, n)
  {
    if |keys| > 0 {
      assert keys[0] in keys;
      KeepFrequentCongruent(keys[1..], count1, count2, n);
    }
  }

  /** `extractCommonSections` as a value: headings in first-seen order, kept when
   *  frequent, stably sorted by descending count. A heading is a section iff it
   *  occurs in the bodies at least 0.3 times as often as there are bodies, and
   *  no section is listed twice. */
  function CommonSections(bodies: seq<string>): (sections: seq<string>)
    ensures Distinct(sections)
    ensures forall h | h in sections :: h in AllHeadings(bodies) && Frequent(Occurrences(AllHeadings(bodies), h), |bodies|)
    ensures forall h | h in AllHeadings(bodies) && Frequent(Occurrences(AllHeadings(bodies), h), |bodies|) :: h in sections
  {
    var headings := AllHeadings(bodies);
    var count := HeadingCount(headings);
    var frequent := KeepFrequent(Dedup(headings), count, |bodies|);
    SortDescMembers(frequent, count);
    SortDescDistinct(frequent, count);
    SortDesc(frequent, count)
  }

  /** Sections are ordered by non-increasing occurrence count. */
  lemma SectionsByDescendingCount(bodies: seq<string>)
    ensures var r := CommonSections(bodies);
            forall i, j | 0 <= i < j < |r| ::
              Occurrences(AllHeadings(bodies), r[i]) >= Occurrences(AllHeadings(bodies), r[j])
  {
    var headings := AllHeadings(bodies);
    var r := CommonSections(bodies);
    assert SortedDesc(r, HeadingCount(headings));
    forall i, j | 0 <= i < j < |r|
      ensures Occurrences(headings, r[i]) >= Occurrences(headings, r[j])
    {
      assert HeadingCount(headings)(r[i]) >= HeadingCount(headings)(r[j]);
    }
  }

  /** Ties keep first-seen order: the sections occurring exactly `v` times are all
   *  the headings occurring `v` times, in the order they were first seen, when `v`
   *  reaches the threshold, and there are none otherwise. */
  lemma SectionsTiesInFirstSeenOrder(bodies: seq<string>, v: nat)
    ensures var headings := AllHeadings(bodies);
            (WithKey(CommonSections(bodies), HeadingCount(headings), v)
             == if Frequent(v, |bodies|) then WithKey(Dedup(headings), HeadingCount(headings), v) else [])
  {
    var headings := AllHeadings(bodies);
    var count := HeadingCount(headings);
    SortDescStable(KeepFrequent(Dedup(headings), count, |bodies|), count, v);
    KeepFrequentWithKey(Dedup(headings), count, |bodies|, v);
  }

  /** The heading counts held by the source's map after it has seen `seen`. */
  ghost predicate Tallied(seen: seq<string>, order: seq<string>, counts: map<string, nat>) {
    && order == Dedup(seen)
    && (forall h :: h in counts <==> h in seen)
    && (forall h | h in counts :: counts[h] == Occurrences(seen, h))
  }

  lemma SeenOneMore(seen: seq<string>, h: string)
    ensures Dedup(seen + [h]) == if h in seen then Dedup(seen) else Dedup(seen) + [h]
    ensures forall k :: Occurrences(seen + [h], k) == Occurrences(seen, k) + if k == h then 1 else 0
  {
    assert (seen + [h])[..|seen|] == seen;
  }

  /** Counts one heading `h`: increments its count, or inserts it at the end with count 1. */
  method CountHeading(h: string, order0: seq<string>, counts0: map<string, nat>, ghost seen: seq<string>)
    returns (order: seq<string>, counts: map<string, nat>)
    requires Tallied(seen, order0, counts0)
    ensures Tallied(seen + [h], order, counts)
  {
    SeenOneMore(seen, h);
    if h in counts0 {
      order, counts := order0, counts0[h := counts0[h] + 1];
    } else {
      order, counts := order0 + [h], counts0[h := 1];
    }
  }

  lemma AllHeadingsStep(bodies: seq<string>, i: nat)
    requires i < |bodies|
    ensures AllHeadings(bodies[..i + 1]) == AllHeadings(bodies[..i]) + HeadingsIn(bodies[i])
  {
    assert bodies[..i + 1][..i] == bodies[..i];
  }

  /** Counts one body's headings into the insertion-ordered map `counts`, whose
   *  keys in insertion order are `order`. */
  method TallyHeadings(headers: seq<string>, order0: seq<string>, counts0: map<string, nat>, ghost seen: seq<string>)
    returns (order: seq<string>, counts: map<string, nat>)
    requires Tallied(seen, order0, counts0)
    ensures Tallied(seen + headers, order, counts)
  {
    order, counts := order0, counts0;
    assert seen + headers[..0] == seen;
    for j := 0 to |headers|
      invariant Tallied(seen + headers[..j], order, counts)
    {
      var h := headers[j];
      order, counts := CountHeading(h, order, counts, seen + headers[..j]);
      assert seen + headers[..j + 1] == seen + headers[..j] + [h];
    }
    assert headers[..|headers|] == headers;
  }

  /** `extractCommonSections`: counts headings into an insertion-ordered map, then
   *  keeps the frequent ones and sorts them by descending count. */
  method ExtractCommonSections(bodies: seq<string>) returns (sections: seq<string>)
    ensures sections == CommonSections(bodies)
  {
    var order: seq<string> := [];
    var counts: map<string, nat> := map[];
    for i := 0 to |bodies|
      invariant Tallied(AllHeadings(bodies[..i]), order, counts)
    {
      AllHeadingsStep(bodies, i);
      order, counts := TallyHeadings(HeadingsIn(bodies[i]), order, counts, AllHeadings(bodies[..i]));
    }
    assert bodies[..|bodies|] == bodies;
    ghost var seen := AllHeadings(bodies);
    var count := (h: string) => if h in counts then counts[h] else 0;
    assert forall h | h in order :: count(h) == HeadingCount(seen)(h);
    KeepFrequentCongruent(order, count, HeadingCount(seen), |bodies|);
    var frequent := KeepFrequent(order, count, |bodies|);
    SortDescCongruent(frequent, count, HeadingCount(seen));
    sections := SortDesc(frequent, count);
  }

  // ===================================================================
  // Body-level flags
  // ===================================================================

  /** `/\[[ x]\]/`. */
  predicate HasCheckbox(b: string) {
    Contains(b, "[ ]") || Contains(b, "[x]")
  }

  /** `/^[\s]*[-*]\s/m` matching at `p`. */
  predicate BulletAt(s: string, p: nat)
    requires p <= |s|
  {
    && LineStart(s, p)
    && var q := p + Run(s, p, IsSpace);
       q + 1 < |s| && (s[q] == '-' || s[q] == '*') && IsSpace(s[q + 1])
  }

  predicate HasBulletList(b: string) {
    exists p | 0 <= p <= |b| :: BulletAt(b, p)
  }

  /** `/^\s*\d+\.\s/m` matching at `p`. */
  predicate NumberedAt(s: string, p: nat)
    requires p <= |s|
  {
    && LineStart(s, p)
    && var q := p + Run(s, p, IsSpace);
       var d := Run(s, q, IsDigit);
       d >= 1 && q + d + 1 < |s| && s[q + d] == '.' && IsSpace(s[q + d + 1])
  }

  predicate HasNumberedList(b: string) {
    exists p | 0 <= p <= |b| :: NumberedAt(b, p)
  }

  /** `/[\u{1F300}-\u{1F9FF}]|[\u{2600}-\u{26FF}]/u`. */
  predicate IsEmoji(c: char) {
    (0x1F300 <= c as int <= 0x1F9FF) || (0x2600 <= c as int <= 0x26FF)
  }

  predicate HasEmoji(s: string) {
    exists i | 0 <= i < |s| :: IsEmoji(s[i])
  }

  predicate AnySatisfies(texts: seq<string>, p: string -> bool) {
    exists i | 0 <= i < |texts| :: p(texts[i])
  }

  // ===================================================================
  // Title classification
  // ===================================================================

  const TypeWords: seq<string> :=
    ["feat", "fix", "docs", "style", "refactor", "test", "chore", "build", "ci", "perf", "revert"]

  /** `:\s` */
  predicate ColonThenSpace(r: string) {
    |r| >= 2 && r[0] == ':' && IsSpace(r[1])
  }

  /** `(\(.+\))?:\s` at the start of `r`; `.+` may hold anything but a line terminator. */
  predicate ScopeThenColon(r: string) {
    || ColonThenSpace(r)
    || (&& |r| > 0 && r[0] == '('
        && exists j | 2 <= j < |r| ::
             && r[j] == ')'
             && (forall k | 1 <= k < j :: IsNotLineTerminator(r[k]))
             && ColonThenSpace(r[j + 1..]))
  }

  /** `/^(feat|fix|…|revert)(\(.+\))?:\s/`. */
  predicate IsConventionalTitle(t: string) {
    exists w | w in TypeWords :: StartsWith(t, w) && ScopeThenColon(t[|w|..])
  }

  /** `/^\[?[A-Z]+-\d+\]?\s/`. The repetitions are greedy and cannot give back
   *  usefully, so each run is taken whole. */
  predicate IsTicketTitle(t: string) {
    var u := if |t| > 0 && t[0] == '[' then t[1..] else t;
    var a := Run(u, 0, IsUpper);
    && a >= 1 && a < |u| && u[a] == '-'
    && var d := Run(u, a + 1, IsDigit);
       var e := a + 1 + d;
       && d >= 1
       && ((e < |u| && IsSpace(u[e])) || (e + 1 < |u| && u[e] == ']' && IsSpace(u[e + 1])))
  }

  const ConventionalPattern := "conventional"
  const TicketPrefixPattern := "ticket-prefix"

  /** `detectTitlePattern`: a strict majority of conventional titles wins; failing
   *  that, a strict majority of ticket-prefixed titles; otherwise no pattern. */
  function DetectTitlePattern(titles: seq<string>): (r: Option<string>)
    ensures r == Some(ConventionalPattern)
        <==> 2 * CountWhere(titles, IsConventionalTitle) > |titles|
    ensures r == Some(TicketPrefixPattern)
        <==> 2 * CountWhere(titles, IsConventionalTitle) <= |titles|
             && 2 * CountWhere(titles, IsTicketTitle) > |titles|
    ensures r.Some? ==> r.value == ConventionalPattern || r.value == TicketPrefixPattern
  {
    if 2 * CountWhere(titles, IsConventionalTitle) > |titles| then Some(ConventionalPattern)
    else if 2 * CountWhere(titles, IsTicketTitle) > |titles| then Some(TicketPrefixPattern)
    else None
  }

  /** Every type word starts with a lower-case letter. */
  lemma TypeWordsStartLower()
    ensures forall v | v in TypeWords :: |v| > 0 && 'a' <= v[0] <= 'z'
  {
  }

  /** No title is both conventional and ticket-prefixed: the first kind starts
   *  with a lower-case type word, the second with `[` or an upper-case letter. */
  lemma ConventionalIsNotTicket(t: string)
    ensures IsConventionalTitle(t) ==> !IsTicketTitle(t)
  {
    if IsConventionalTitle(t) {
      var w :| w in TypeWords && StartsWith(t, w) && ScopeThenColon(t[|w|..]);
      TypeWordsStartLower();
      LowerStartIsNotTicket(t, w);
    }
  }

  lemma LowerStartIsNotTicket(t: string, w: string)
    requires StartsWith(t, w) && |w| > 0 && 'a' <= w[0] <= 'z'
    ensures !IsTicketTitle(t)
  {
    assert t[0] == t[..|w|][0] == w[0];
    assert Run(t, 0, IsUpper) == 0;
  }

  /** Exactly half is not a majority: with half the titles conventional, the
   *  other half is too few for a ticket majority, so no pattern is reported. */
  lemma HalfIsNoMajority(titles: seq<string>)
    requires 2 * CountWhere(titles, IsConventionalTitle) == |titles|
    ensures DetectTitlePattern(titles) == None
  {
    forall i | 0 <= i < |titles| ensures !(IsConventionalTitle(titles[i]) && IsTicketTitle(titles[i])) {
      ConventionalIsNotTicket(titles[i]);
    }
    CountDisjoint(titles, IsConventionalTitle, IsTicketTitle);
  }

  /** The type word `w` of `/^(feat|…|revert):/`, searched in the order of `words`. */
  function FirstPrefixWord(t: string, words: seq<string>): (w: Option<string>)
    ensures w.Some? ==> w.value in words && StartsWith(t, w.value + ":")
    ensures w.None? ==> forall v | v in words :: !StartsWith(t, v + ":")
  {
    if |words| == 0 then None
    else if StartsWith(t, words[0] + ":") then Some(words[0])
    else FirstPrefixWord(t, words[1..])
  }

  function ConventionalPrefix(t: string): Option<string> {
    FirstPrefixWord(t, TypeWords)
  }

  lemma TypeWordsArePlain()
    ensures forall v | v in TypeWords :: ':' !in v && '(' !in v
  {
  }

  /** `type(scope): rest` matches the conventional-commit title pattern. */
  lemma ScopedTitleIsConventional(w: string, scope: string, rest: string)
    requires w in TypeWords
    requires |scope| > 0 && forall k | 0 <= k < |scope| :: IsNotLineTerminator(scope[k])
    ensures IsConventionalTitle(w + "(" + scope + "): " + rest)
  {
    var t := w + "(" + scope + "): " + rest;
    var r := t[|w|..];
    assert t[..|w|] == w;
    assert r == "(" + scope + "): " + rest;
    var j := |scope| + 1;
    assert r[j] == ')';
    assert r[j + 1..] == ": " + rest;
    assert ColonThenSpace(r[j + 1..]);
    forall k | 1 <= k < j ensures IsNotLineTerminator(r[k]) {
      assert r[k] == scope[k - 1];
    }
    assert ScopeThenColon(r);
  }

  /** A scoped title `type(scope): rest`, conventional by the lemma above, yields
   *  no prefix: the prefix pattern wants the colon straight after the type word. */
  lemma ScopedTitleHasNoPrefix(w: string, scope: string, rest: string)
    requires w in TypeWords
    ensures ConventionalPrefix(w + "(" + scope + "): " + rest) == None
  {
    TypeWordsArePlain();
    var t := w + "(" + scope + "): " + rest;
    assert t[..|w|] == w && t[|w|] == '(';
    NoPrefixWordBeforeParen(t, w, TypeWords);
  }

  /** When `t` opens with `w(` and `w` holds no colon, no word without `(` is
   *  followed by a colon at the start of `t`. */
  lemma {:induction false} NoPrefixWordBeforeParen(t: string, w: string, words: seq<string>)
    requires |w| < |t| && t[..|w|] == w && t[|w|] == '(' && ':' !in w
    requires forall v | v in words :: '(' !in v
    ensures FirstPrefixWord(t, words) == None
  {
    if |words| > 0 {
      var v := words[0];
      PrefixedBy(t, v, ':');
      if StartsWith(t, v + ":") {
        if |v| > |w| {
          assert v[|w|] == t[|w|];
        }
      }
      NoPrefixWordBeforeParen(t, w, words[1..]);
    }
  }

  lemma PrefixedBy(t: string, v: string, c: char)
    ensures StartsWith(t, v + [c]) ==> |v| < |t| && t[|v|] == c && t[..|v|] == v
  {
    if StartsWith(t, v + [c]) {
      assert t[..|v| + 1][..|v|] == t[..|v|];
    }
  }

  /** `w + ':'` for every title on which `prefix` yields a type word `w`, in title order. */
  function PrefixesBy(titles: seq<string>, prefix: string -> Option<string>): seq<string> {
    if |titles| == 0 then []
    else
      var init := PrefixesBy(titles[..|titles| - 1], prefix);
      match prefix(titles[|titles| - 1])
      case Some(w) => init + [w + ":"]
      case None => init
  }

  /** `type + ':'` for every title that starts with a conventional type and a colon. */
  function PrefixesOf(titles: seq<string>): seq<string> {
    PrefixesBy(titles, ConventionalPrefix)
  }

  /** `extractTitlePrefixes` as a value: the distinct prefixes in first-seen order. */
  function TitlePrefixes(titles: seq<string>): (prefixes: seq<string>)
    ensures Distinct(prefixes)
    ensures forall p | p in prefixes :: p in PrefixesOf(titles)
    ensures forall p | p in PrefixesOf(titles) :: p in prefixes
    ensures InFirstSeenOrder(prefixes, PrefixesOf(titles))
  {
    DedupFirstSeenOrder(PrefixesOf(titles));
    Dedup(PrefixesOf(titles))
  }

  /** Title `t` contributes the prefix `p`. */
  predicate YieldsPrefix(prefix: string -> Option<string>, t: string, p: string) {
    prefix(t).Some? && prefix(t).value + ":" == p
  }

  lemma {:induction false} PrefixesByMembers(titles: seq<string>, prefix: string -> Option<string>, p: string)
    ensures p in PrefixesBy(titles, prefix) <==> exists i | 0 <= i < |titles| :: YieldsPrefix(prefix, titles[i], p)
  {
    if |titles| > 0 {
      var n := |titles| - 1;
      var init := titles[..n];
      PrefixesByMembers(init, prefix, p);
      if p in PrefixesBy(titles, prefix) {
        if p in PrefixesBy(init, prefix) {
          var i :| 0 <= i < |init| && YieldsPrefix(prefix, init[i], p);
          assert titles[i] == init[i];
        } else {
          assert YieldsPrefix(prefix, titles[n], p);
        }
      }
      if exists i | 0 <= i < |titles| :: YieldsPrefix(prefix, titles[i], p) {
        var i :| 0 <= i < |titles| && YieldsPrefix(prefix, titles[i], p);
        if i < n {
          assert YieldsPrefix(prefix, init[i], p);
        }
      }
    }
  }

  /** The prefixes are distinct, each is a type word followed by a colon, and a
   *  prefix is listed iff some title starts with it. */
  lemma TitlePrefixesAreDistinctTypeWords(titles: seq<string>, p: string)
    ensures Distinct(TitlePrefixes(titles))
    ensures p in TitlePrefixes(titles) ==> exists w | w in TypeWords :: p == w + ":"
    ensures p in TitlePrefixes(titles)
        <==> exists i | 0 <= i < |titles| :: YieldsPrefix(ConventionalPrefix, titles[i], p)
  {
    PrefixesByMembers(titles, ConventionalPrefix, p);
  }

  /** `extractTitlePrefixes`: adds each title's prefix to an insertion-ordered set. */
  method ExtractTitlePrefixes(titles: seq<string>) returns (prefixes: seq<string>)
    ensures prefixes == TitlePrefixes(titles)
  {
    prefixes := [];
    for i := 0 to |titles|
      invariant prefixes == Dedup(PrefixesOf(titles[..i]))
    {
      assert titles[..i + 1][..i] == titles[..i];
      var conv := ConventionalPrefix(titles[i]);
      if conv.Some? {
        var p := conv.value + ":";
        ghost var before := PrefixesOf(titles[..i]);
        assert (before + [p])[..|before|] == before;
        if p !in prefixes {
          prefixes := prefixes + [p];
        }
      }
    }
    assert titles[..|titles|] == titles;
  }

  // ===================================================================
  // Length statistics
  // ===================================================================

  function Sum(nums: seq<nat>): nat {
    if |nums| == 0 then 0 else Sum(nums[..|nums| - 1]) + nums[|nums| - 1]
  }

  lemma DivisionBounds(x: nat, d: nat)
    requires d > 0
    ensures d * (x / d) <= x < d * (x / d + 1)
  {
  }

  /** `r` is `total / n` rounded half up (`Math.round`), and 0 when `n` is 0. */
  predicate RoundedMean(r: nat, total: nat, n: nat) {
    && (n == 0 ==> r == 0)
    && (n > 0 ==> 2 * n * r <= 2 * total + n < 2 * n * (r + 1))
  }

  /** `avg`: the mean rounded half up, 0 for no numbers. */
  function Average(nums: seq<nat>): (r: nat)
    ensures RoundedMean(r, Sum(nums), |nums|)
  {
    if |nums| == 0 then 0
    else
      DivisionBounds(2 * Sum(nums) + |nums|, 2 * |nums|);
      (2 * Sum(nums) + |nums|) / (2 * |nums|)
  }

  /** `bodies.map(b => b.length)`. */
  function BodyLengths(bodies: seq<string>): seq<nat> {
    seq(|bodies|, i requires 0 <= i < |bodies| => Utf16Length(bodies[i]))
  }

  /** `bodies.map(b => b.split('\n').length)`. */
  function LineCounts(bodies: seq<string>): (counts: seq<nat>)
    ensures |counts| == |bodies|
    ensures forall i | 0 <= i < |bodies| :: counts[i] == CountChar(bodies[i], '\n') + 1
  {
    seq(|bodies|, i requires 0 <= i < |bodies| => |Split(bodies[i], '\n')|)
  }

  // ===================================================================
  // Tickets
  // ===================================================================

  predicate WindowAt(s: string, i: int, width: nat, p: string -> bool) {
    0 <= i && i + width <= |s| && p(s[i..i + width])
  }

  /** Some `width`-character slice of `s` satisfies `p`. */
  predicate HasWindow(s: string, width: nat, p: string -> bool) {
    exists i | 0 <= i <= |s| :: WindowAt(s, i, width, p)
  }

  /** `/[A-Z]+-\d+/` occurs iff some three characters are a capital, `-`, a digit. */
  predicate IsTicketMention(w: string) {
    |w| == 3 && IsUpper(w[0]) && w[1] == '-' && IsDigit(w[2])
  }

  /** `/JIRA-\d+/` */
  predicate IsJiraTicket(w: string) {
    |w| == 6 && w[0] == 'J' && w[1] == 'I' && w[2] == 'R' && w[3] == 'A' && w[4] == '-' && IsDigit(w[5])
  }

  /** `/[A-Z]{2,}-\d+/` occurs iff some four characters are two capitals, `-`, a digit. */
  predicate IsGenericTicket(w: string) {
    |w| == 4 && IsUpper(w[0]) && IsUpper(w[1]) && w[2] == '-' && IsDigit(w[3])
  }

  predicate MentionsTicket(b: string) { HasWindow(b, 3, IsTicketMention) }
  predicate HasJiraTicket(s: string) { HasWindow(s, 6, IsJiraTicket) }
  predicate HasGenericTicket(s: string) { HasWindow(s, 4, IsGenericTicket) }

  /** A window that cannot hold a space matches in `x + " " + y` iff it matches in `x` or in `y`. */
  lemma WindowAroundSpace(x: string, y: string, width: nat, p: string -> bool)
    requires forall w | |w| == width && p(w) :: ' ' !in w
    ensures HasWindow(x + " " + y, width, p) <==> HasWindow(x, width, p) || HasWindow(y, width, p)
  {
    var s := x + " " + y;
    if HasWindow(s, width, p) {
      var i :| 0 <= i <= |s| && WindowAt(s, i, width, p);
      if i + width <= |x| {
        WindowLeftOfSpace(x, y, i, width);
        assert WindowAt(x, i, width, p);
      } else if i > |x| {
        var k := i - |x| - 1;
        WindowRightOfSpace(x, y, k, width);
        assert WindowAt(y, k, width, p);
      } else {
        SpaceInWindow(x, y, i, width);
        assert false;
      }
    }
    if HasWindow(x, width, p) {
      var i :| 0 <= i <= |x| && WindowAt(x, i, width, p);
      WindowLeftOfSpace(x, y, i, width);
      assert WindowAt(s, i, width, p);
    }
    if HasWindow(y, width, p) {
      var k :| 0 <= k <= |y| && WindowAt(y, k, width, p);
      WindowRightOfSpace(x, y, k, width);
      assert WindowAt(s, |x| + 1 + k, width, p);
    }
  }

  lemma WindowLeftOfSpace(x: string, y: string, i: nat, width: nat)
    requires i + width <= |x|
    ensures (x + " " + y)[i..i + width] == x[i..i + width]
  {
    var s := x + " " + y;
    assert s[..|x|] == x;
    assert s[i..i + width] == s[..|x|][i..i + width];
  }

  lemma WindowRightOfSpace(x: string, y: string, k: nat, width: nat)
    requires k + width <= |y|
    ensures (x + " " + y)[|x| + 1 + k..|x| + 1 + k + width] == y[k..k + width]
  {
    var s := x + " " + y;
    assert s[|x| + 1..] == y;
    assert s[|x| + 1 + k..|x| + 1 + k + width] == s[|x| + 1..][k..k + width];
  }

  lemma SpaceInWindow(x: string, y: string, i: nat, width: nat)
    ensures i <= |x| < i + width <= |x| + 1 + |y| ==> ' ' in (x + " " + y)[i..i + width]
  {
    var s := x + " " + y;
    if i <= |x| < i + width <= |s| {
      assert s[i..i + width][|x| - i] == s[|x|];
    }
  }

  /** `texts.join(' ')` matches such a window iff one of the texts does. */
  lemma {:induction false} WindowInJoin(texts: seq<string>, width: nat, p: string -> bool)
    requires width > 0
    requires forall w | |w| == width && p(w) :: ' ' !in w
    ensures HasWindow(Join(texts, " "), width, p) <==> AnySatisfies(texts, (t: string) => HasWindow(t, width, p))
  {
    var q := (t: string) => HasWindow(t, width, p);
    if |texts| == 0 {
      assert !HasWindow("", width, p);
    } else if |texts| == 1 {
      assert AnySatisfies(texts, q) <==> q(texts[0]);
    } else {
      WindowInJoin(texts[1..], width, p);
      WindowAroundSpace(texts[0], Join(texts[1..], " "), width, p);
      assert Join(texts, " ") == texts[0] + " " + Join(texts[1..], " ");
      assert AnySatisfies(texts, q) <==> q(texts[0]) || AnySatisfies(texts[1..], q) by {
        if AnySatisfies(texts, q) {
          var i :| 0 <= i < |texts| && q(texts[i]);
          if i > 0 { assert texts[1..][i - 1] == texts[i]; }
        }
        if AnySatisfies(texts[1..], q) {
          var i :| 0 <= i < |texts[1..]| && q(texts[1..][i]);
          assert texts[i + 1] == texts[1..][i];
        }
      }
    }
  }

  lemma TicketWindowsHoldNoSpace()
    ensures forall w | |w| == 6 && IsJiraTicket(w) :: ' ' !in w
    ensures forall w | |w| == 4 && IsGenericTicket(w) :: ' ' !in w
  {
    forall w | |w| == 6 && IsJiraTicket(w) ensures ' ' !in w {
      forall k | 0 <= k < 6 ensures w[k] != ' ' {}
    }
    forall w | |w| == 4 && IsGenericTicket(w) ensures ' ' !in w {
      forall k | 0 <= k < 4 ensures w[k] != ' ' {}
    }
  }

  const JiraTicketPattern := "JIRA-\\d+"
  const GenericTicketPattern := "[A-Z]{2,}-\\d+"

  /** `detectTicketPattern`: looks for a JIRA key first, then for a generic key of two
   *  or more capitals, in all texts joined by spaces. */
  function DetectTicketPattern(texts: seq<string>): (r: Option<string>)
    ensures r == Some(JiraTicketPattern) <==> AnySatisfies(texts, HasJiraTicket)
    ensures r == Some(GenericTicketPattern)
        <==> !AnySatisfies(texts, HasJiraTicket) && AnySatisfies(texts, HasGenericTicket)
    ensures r == None <==> !AnySatisfies(texts, HasJiraTicket) && !AnySatisfies(texts, HasGenericTicket)
  {
    var combined := Join(texts, " ");
    TicketWindowsHoldNoSpace();
    WindowInJoin(texts, 6, IsJiraTicket);
    WindowInJoin(texts, 4, IsGenericTicket);
    assert AnySatisfies(texts, HasJiraTicket) <==> AnySatisfies(texts, (t: string) => HasWindow(t, 6, IsJiraTicket));
    assert AnySatisfies(texts, HasGenericTicket) <==> AnySatisfies(texts, (t: string) => HasWindow(t, 4, IsGenericTicket));
    if HasJiraTicket(combined) then Some(JiraTicketPattern)
    else if HasGenericTicket(combined) then Some(GenericTicketPattern)
    else None
  }

  /** A JIRA key is also a generic key (its `RA-` part), so the JIRA check must come first. */
  lemma JiraIsAlsoGeneric(s: string)
    requires HasJiraTicket(s)
    ensures HasGenericTicket(s)
  {
    var i :| 0 <= i <= |s| && WindowAt(s, i, 6, IsJiraTicket);
    assert s[i + 2..i + 6] == s[i..i + 6][2..6];
    assert WindowAt(s, i + 2, 4, IsGenericTicket);
  }

  /** A single capital before the hyphen is a ticket mention but no ticket pattern. */
  lemma MentionWithoutPattern()
    ensures MentionsTicket("A-1")
    ensures DetectTicketPattern(["A-1"]) == None
  {
    var s := "A-1";
    assert WindowAt(s, 0, 3, IsTicketMention) by { assert s[0..3] == s; }
    assert !HasJiraTicket(s);
    assert !HasGenericTicket(s);
    assert Join(["A-1"], " ") == s;
  }

  // ===================================================================
  // Tone and first person: `\b(…)\b` under the `i` flag
  // ===================================================================

  /** `\b` at position `k`: exactly one of the neighbouring characters is a word character. */
  predicate BoundaryAt(s: string, k: nat)
    requires k <= |s|
  {
    (k > 0 && IsWordChar(s[k - 1])) != (k < |s| && IsWordChar(s[k]))
  }

  /** `phrase` occurs at `i` up to ASCII case. */
  predicate FoldedAt(s: string, i: nat, phrase: string) {
    && i + |phrase| <= |s|
    && forall k | 0 <= k < |phrase| :: LowerAscii(s[i + k]) == LowerAscii(phrase[k])
  }

  /** `\bphrase` (and `\b` after it too when `closed`) matches at `i`. */
  predicate MarkerAt(s: string, i: nat, phrase: string, closed: bool) {
    && FoldedAt(s, i, phrase)
    && BoundaryAt(s, i)
    && (!closed || BoundaryAt(s, i + |phrase|))
  }

  predicate HasMarker(s: string, phrases: seq<string>, closed: bool) {
    exists i, phrase | 0 <= i <= |s| && phrase in phrases :: MarkerAt(s, i, phrase, closed)
  }

  const FormalMarkers: seq<string> := ["This PR", "This commit", "This change"]
  const CasualMarkers: seq<string> := ["I ", "we ", "gonna", "wanna", "lol"]
  const FirstPersonMarkers: seq<string> := ["I ", "I'", "my ", "we ", "we'", "our "]

  /** `/\b(This PR|This commit|This change)\b/i` */
  predicate IsFormalBody(b: string) { HasMarker(b, FormalMarkers, true) }

  /** `/\b(I |we |gonna|wanna|lol)\b/i`; after `I ` or `we ` the closing `\b` needs a word character. */
  predicate IsCasualBody(b: string) { HasMarker(b, CasualMarkers, true) }

  /** `/\b(I |I'|my |we |we'|our )/i` */
  predicate UsesFirstPersonIn(b: string) { HasMarker(b, FirstPersonMarkers, false) }

  /** `analyzeTone` as a value: formal when more than half the bodies read formally
   *  (checked first), else casual when more than 30% read casually, else mixed. */
  function ToneOf(bodies: seq<string>): (t: Tone)
    ensures t == Formal <==> 2 * CountWhere(bodies, IsFormalBody) > |bodies|
    ensures t == Casual
        <==> 2 * CountWhere(bodies, IsFormalBody) <= |bodies|
             && 10 * CountWhere(bodies, IsCasualBody) > 3 * |bodies|
    ensures |bodies| == 0 ==> t == Mixed
  {
    var formal := CountWhere(bodies, IsFormalBody);
    var casual := CountWhere(bodies, IsCasualBody);
    if 2 * formal > |bodies| then Formal
    else if 10 * casual > 3 * |bodies| then Casual
    else Mixed
  }

  /** `analyzeTone`: counts formal and casual bodies in one pass. */
  method AnalyzeTone(bodies: seq<string>) returns (tone: Tone)
    ensures tone == ToneOf(bodies)
  {
    var formal, casual := 0, 0;
    for i := 0 to |bodies|
      invariant formal == CountWhere(bodies[..i], IsFormalBody)
      invariant casual == CountWhere(bodies[..i], IsCasualBody)
    {
      assert bodies[..i + 1][..i] == bodies[..i];
      if IsFormalBody(bodies[i]) { formal := formal + 1; }
      if IsCasualBody(bodies[i]) { casual := casual + 1; }
    }
    assert bodies[..|bodies|] == bodies;
    if 2 * formal > |bodies| {
      tone := Formal;
    } else if 10 * casual > 3 * |bodies| {
      tone := Casual;
    } else {
      tone := Mixed;
    }
  }

  // ===================================================================
  // Common phrases
  // ===================================================================

  const CanonicalPhrases: seq<string> := ["## Description", "## Testing", "## Changes", "Fixes #", "Closes #"]

  /** How many bodies contain `phrase`. */
  function CountContaining(bodies: seq<string>, phrase: string): (n: nat)
    ensures n <= |bodies|
  {
    if |bodies| == 0 then 0
    else CountContaining(bodies[..|bodies| - 1], phrase) + (if Contains(bodies[|bodies| - 1], phrase) then 1 else 0)
  }

  /** The phrases contained in strictly more than half the bodies, in their order. */
  function KeepMajority(phrases: seq<string>, bodies: seq<string>): (r: seq<string>)
    ensures IsSubsequence(r, phrases)
    ensures forall p | p in r :: p in phrases && 2 * CountContaining(bodies, p) > |bodies|
    ensures forall p | p in phrases && 2 * CountContaining(bodies, p) > |bodies| :: p in r
  {
    if |phrases| == 0 then []
    else
      var rest := KeepMajority(phrases[1..], bodies);
      assert phrases == [phrases[0]] + phrases[1..];
      if 2 * CountContaining(bodies, phrases[0]) > |bodies| then [phrases[0]] + rest
      else
        SubsequenceSkipHead(rest, phrases);
        rest
  }

  /** `extractCommonPhrases`: the canonical phrases, in their order, that strictly
   *  more than half the bodies contain. */
  function CommonPhrases(bodies: seq<string>): (phrases: seq<string>)
    ensures IsSubsequence(phrases, CanonicalPhrases)
    ensures forall p | p in phrases :: p in CanonicalPhrases && 2 * CountContaining(bodies, p) > |bodies|
    ensures forall p | p in CanonicalPhrases && 2 * CountContaining(bodies, p) > |bodies| :: p in phrases
  {
    KeepMajority(CanonicalPhrases, bodies)
  }

  // ===================================================================
  // The profile
  // ===================================================================

  /** `extractStyleFromPRs` as a value; `lastUpdated` is the caller's clock reading. */
  function StyleOf(prs: seq<PRData>, owner: string, repo: string, lastUpdated: string): (style: LearnedStyle)
    requires |prs| > 0
    ensures style.sampleCount == |prs|
    ensures style.repositoryInfo == RepoInfo(owner, repo) && style.lastUpdated == lastUpdated
  {
    var bodies := Bodies(prs);
    var titles := Titles(prs);
    LearnedStyle(
      sections := CommonSections(bodies),
      usesCheckboxes := AnySatisfies(bodies, HasCheckbox),
      usesBulletPoints := AnySatisfies(bodies, HasBulletList),
      usesNumberedLists := AnySatisfies(bodies, HasNumberedList),
      titlePattern := DetectTitlePattern(titles),
      titlePrefixExamples := TitlePrefixes(titles),
      averageBodyLength := Average(BodyLengths(bodies)),
      averageLineCount := Average(LineCounts(bodies)),
      mentionsTickets := AnySatisfies(bodies, MentionsTicket),
      ticketPattern := DetectTicketPattern(bodies + titles),
      tone := ToneOf(bodies),
      usesFirstPerson := AnySatisfies(bodies, UsesFirstPersonIn),
      usesEmojis := AnySatisfies(bodies, HasEmoji) || AnySatisfies(titles, HasEmoji),
      alwaysIncludes := CommonPhrases(bodies),
      sampleCount := |prs|,
      lastUpdated := lastUpdated,
      repositoryInfo := RepoInfo(owner, repo))
  }

  /** `extractStyleFromPRs`: the caller guarantees a non-empty corpus. */
  method ExtractStyleFromPRs(prs: seq<PRData>, owner: string, repo: string, lastUpdated: string)
    returns (style: LearnedStyle)
    requires |prs| > 0
    ensures style == StyleOf(prs, owner, repo, lastUpdated)
    ensures style.sampleCount >= 1
  {
    var bodies := Bodies(prs);
    var titles := Titles(prs);
    var sections := ExtractCommonSections(bodies);
    var prefixes := ExtractTitlePrefixes(titles);
    var tone := AnalyzeTone(bodies);
    style := LearnedStyle(
      sections := sections,
      usesCheckboxes := AnySatisfies(bodies, HasCheckbox),
      usesBulletPoints := AnySatisfies(bodies, HasBulletList),
      usesNumberedLists := AnySatisfies(bodies, HasNumberedList),
      titlePattern := DetectTitlePattern(titles),
      titlePrefixExamples := prefixes,
      averageBodyLength := Average(BodyLengths(bodies)),
      averageLineCount := Average(LineCounts(bodies)),
      mentionsTickets := AnySatisfies(bodies, MentionsTicket),
      ticketPattern := DetectTicketPattern(bodies + titles),
      tone := tone,
      usesFirstPerson := AnySatisfies(bodies, UsesFirstPersonIn),
      usesEmojis := AnySatisfies(bodies, HasEmoji) || AnySatisfies(titles, HasEmoji),
      alwaysIncludes := CommonPhrases(bodies),
      sampleCount := |prs|,
      lastUpdated := lastUpdated,
      repositoryInfo := RepoInfo(owner, repo));
  }

  /** Pull requests without descriptions still count as samples, but every
   *  body-derived field falls back to its empty value. */
  lemma EmptyBodiesGiveEmptyProfile(prs: seq<PRData>, owner: string, repo: string, lastUpdated: string)
    requires |prs| > 0
    requires forall i | 0 <= i < |prs| :: prs[i].body == ""
    ensures var style := StyleOf(prs, owner, repo, lastUpdated);
            && style.sampleCount == |prs|
            && style.sections == [] && style.alwaysIncludes == []
            && style.averageBodyLength == 0 && style.averageLineCount == 0
            && style.tone == Mixed
            && !style.usesCheckboxes && !style.usesBulletPoints && !style.usesNumberedLists
            && !style.mentionsTickets && !style.usesFirstPerson
  {
    var bodies := Bodies(prs);
    EmptyIffNoMembers(bodies);
    assert bodies == [];
    var phrases := CommonPhrases([]);
    EmptyIffNoMembers(phrases);
    var style := StyleOf(prs, owner, repo, lastUpdated);
    assert style.sections == CommonSections([]) && style.alwaysIncludes == phrases;
    assert style.averageBodyLength == Average(BodyLengths([]));
    assert style.averageLineCount == Average(LineCounts([]));
    assert style.tone == ToneOf([]);
  }

  /** With a single pull request every heading of its description is a section. */
  lemma SingleRequestKeepsEveryHeading(pr: PRData, owner: string, repo: string, lastUpdated: string, h: string)
    requires pr.body != "" && h in HeadingsIn(pr.body)
    ensures h in StyleOf([pr], owner, repo, lastUpdated).sections
  {
    var bodies := Bodies([pr]);
    assert bodies == [pr.body] by {
      assert [pr][..0] == [];
    }
    assert AllHeadings(bodies) == HeadingsIn(pr.body) by {
      assert bodies[..0] == [];
    }
    assert Occurrences(AllHeadings(bodies), h) > 0;
  }

  /** The averages are the rounded means over the non-empty descriptions. */
  lemma ProfileAverages(prs: seq<PRData>, owner: string, repo: string, lastUpdated: string)
    requires |prs| > 0
    ensures var style := StyleOf(prs, owner, repo, lastUpdated);
            var bodies := Bodies(prs);
            && RoundedMean(style.averageBodyLength, Sum(BodyLengths(bodies)), |bodies|)
            && RoundedMean(style.averageLineCount, Sum(LineCounts(bodies)), |bodies|)
  {
    var bodies := Bodies(prs);
    var style := StyleOf(prs, owner, repo, lastUpdated);
    assert style.averageBodyLength == Average(BodyLengths(bodies));
    assert style.averageLineCount == Average(LineCounts(bodies));
    assert |BodyLengths(bodies)| == |bodies|;
  }
}
