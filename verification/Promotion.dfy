/**
 Promoting a candidate's images to a release tag. Any call to the registry may fail, before or
 after it took effect; a promotion that is interrupted between two calls looks the same.
 */
module Promotion {
  import opened Common

  // ----- tags -----

  const REGISTRY := "ghcr.io/appmana/"
  const REPOSITORIES := ["seaweedfs-csi-driver", "seaweedfs-mount"]
  const SUFFIXES := ["", "-linux-amd64", "-windows-ltsc2022"]

  predicate IsDigit(c: char) {
    '0' <= c <= '9'
  }

  predicate IsHex(c: char) {
    IsDigit(c) || 'a' <= c <= 'f'
  }

  /** What follows a text at the start of s. */
  function After(s: Option<string>, text: string): Option<string> {
    if s.Some? && text <= s.value then Some(s.value[|text|..]) else None
  }

  /** What follows at least one digit. */
  function AfterDigits(s: Option<string>): Option<string> {
    if s.Some? && s.value != "" && IsDigit(s.value[0]) then Some(DropDigits(s.value)) else None
  }

  function DropDigits(s: string): string {
    if s != "" && IsDigit(s[0]) then DropDigits(s[1..]) else s
  }

  function AfterHex(s: Option<string>, n: nat): Option<string> {
    if s.Some? && n <= |s.value| && forall i | 0 <= i < n :: IsHex(s.value[i]) then Some(s.value[n..]) else None
  }

  /** v<upstream>-appmana.post.<n> */
  predicate IsRelease(tag: string) {
    var upstream := AfterDigits(After(AfterDigits(After(AfterDigits(After(Some(tag), "v")), ".")), "."));
    AfterDigits(After(upstream, "-appmana.post.")) == Some("")
  }

  /** candidate-<sha>-<run>-<attempt> */
  predicate IsCandidate(tag: string) {
    AfterDigits(After(AfterDigits(After(AfterHex(After(Some(tag), "candidate-"), 40), "-")), "-")) == Some("")
  }

  predicate Number(s: string) {
    s != "" && forall i | 0 <= i < |s| :: IsDigit(s[i])
  }

  lemma {:induction false} NumberIsDropped(number: string, rest: string)
    requires (forall i | 0 <= i < |number| :: IsDigit(number[i])) && (rest == "" || !IsDigit(rest[0]))
    ensures DropDigits(number + rest) == rest
  {
    if number == "" {
      assert number + rest == rest;
    } else {
      assert (number + rest)[1..] == number[1..] + rest;
      NumberIsDropped(number[1..], rest);
    }
  }

  lemma {:induction false} NumberBefore(s: string) returns (number: string)
    ensures s == number + DropDigits(s) && forall i | 0 <= i < |number| :: IsDigit(number[i])
    ensures s != "" && IsDigit(s[0]) ==> number != ""
    ensures DropDigits(s) == "" || !IsDigit(DropDigits(s)[0])
  {
    number := "";
    if s != "" && IsDigit(s[0]) {
      number := NumberBefore(s[1..]);
      number := [s[0]] + number;
      assert s == [s[0]] + s[1..];
    }
  }

  /** A text, then a number, then the rest. */
  lemma TextThenNumber(text: string, number: string, rest: string)
    requires Number(number) && (rest == "" || !IsDigit(rest[0]))
    ensures AfterDigits(After(Some(text + (number + rest)), text)) == Some(rest)
  {
    assert (text + (number + rest))[|text|..] == number + rest;
    NumberIsDropped(number, rest);
  }

  lemma TextAndNumber(s: string, text: string) returns (number: string)
    requires AfterDigits(After(Some(s), text)).Some?
    ensures Number(number) && s == text + (number + AfterDigits(After(Some(s), text)).value)
  {
    number := NumberBefore(s[|text|..]);
    assert s == text + s[|text|..];
  }

  /** Release tags are exactly v, a three-part version, -appmana.post. and a number. */
  lemma ReleasesAreVersions(a: string, b: string, c: string, n: string)
    requires Number(a) && Number(b) && Number(c) && Number(n)
    ensures IsRelease("v" + (a + ("." + (b + ("." + (c + ("-appmana.post." + (n + ""))))))))
  {
    TextThenNumber("v", a, "." + (b + ("." + (c + ("-appmana.post." + (n + ""))))));
    TextThenNumber(".", b, "." + (c + ("-appmana.post." + (n + ""))));
    TextThenNumber(".", c, "-appmana.post." + (n + ""));
    TextThenNumber("-appmana.post.", n, "");
  }

  lemma ReleaseParts(tag: string) returns (a: string, b: string, c: string, n: string)
    requires IsRelease(tag)
    ensures Number(a) && Number(b) && Number(c) && Number(n)
    ensures tag == "v" + (a + ("." + (b + ("." + (c + ("-appmana.post." + (n + "")))))))
  {
    var afterMajor := AfterDigits(After(Some(tag), "v"));
    var afterMinor := AfterDigits(After(afterMajor, "."));
    var afterPatch := AfterDigits(After(afterMinor, "."));
    a := TextAndNumber(tag, "v");
    b := TextAndNumber(afterMajor.value, ".");
    c := TextAndNumber(afterMinor.value, ".");
    n := TextAndNumber(afterPatch.value, "-appmana.post.");
  }

  /** Candidate tags are exactly candidate-, a commit of forty hexadecimal digits, and two numbers. */
  lemma CandidatesNameBuilds(sha: string, number: string, attempt: string)
    requires |sha| == 40 && (forall i | 0 <= i < 40 :: sha[i] in "0123456789abcdef") && Number(number) && Number(attempt)
    ensures IsCandidate("candidate-" + (sha + ("-" + (number + ("-" + (attempt + ""))))))
  {
    forall i | 0 <= i < 40
      ensures IsHex(sha[i])
    {
      HexDigits(sha[i]);
    }
    var rest := "-" + (number + ("-" + (attempt + "")));
    assert ("candidate-" + (sha + rest))[|"candidate-"|..] == sha + rest;
    assert (sha + rest)[40..] == rest && forall i | 0 <= i < 40 :: (sha + rest)[i] == sha[i];
    TextThenNumber("-", number, "-" + (attempt + ""));
    TextThenNumber("-", attempt, "");
  }

  lemma CandidateParts(tag: string) returns (sha: string, number: string, attempt: string)
    requires IsCandidate(tag)
    ensures |sha| == 40 && (forall i | 0 <= i < 40 :: sha[i] in "0123456789abcdef") && Number(number) && Number(attempt)
    ensures tag == "candidate-" + (sha + ("-" + (number + ("-" + (attempt + "")))))
  {
    var afterPrefix := After(Some(tag), "candidate-").value;
    sha := afterPrefix[..40];
    assert tag == "candidate-" + afterPrefix && afterPrefix == sha + afterPrefix[40..];
    forall i | 0 <= i < 40
      ensures sha[i] in "0123456789abcdef"
    {
      assert IsHex(afterPrefix[i]);
      HexDigits(sha[i]);
    }
    var afterNumber := AfterDigits(After(Some(afterPrefix[40..]), "-"));
    number := TextAndNumber(afterPrefix[40..], "-");
    attempt := TextAndNumber(afterNumber.value, "-");
  }

  lemma HexDigits(c: char)
    ensures IsHex(c) <==> c in "0123456789abcdef"
  {
    var all := "0123456789abcdef";
    assert all[0] == '0' && all[1] == '1' && all[2] == '2' && all[3] == '3' && all[4] == '4' && all[5] == '5' && all[6] == '6' && all[7] == '7';
    assert all[8] == '8' && all[9] == '9' && all[10] == 'a' && all[11] == 'b' && all[12] == 'c' && all[13] == 'd' && all[14] == 'e' && all[15] == 'f';
  }

  function Reference(repository: string, tag: string): string {
    REGISTRY + Tagged(repository, tag)
  }

  function Tagged(repository: string, tag: string): string {
    repository + ([':'] + tag)
  }

  datatype Pair = Pair(source: string, target: string)

  function PairAt(release: string, candidate: string, k: nat): Pair
    requires k < 6
  {
    var repository, suffix := REPOSITORIES[k / 3], SUFFIXES[k % 3];
    Pair(Reference(repository, candidate + suffix), Reference(repository, release + suffix))
  }

  /** Both images with every platform's suffix. */
  function Plan(release: string, candidate: string): seq<Pair> {
    seq(6, k requires 0 <= k < 6 => PairAt(release, candidate, k))
  }

  /** Targets differ from one another and from every source. */
  predicate Separate(pairs: seq<Pair>) {
    && (forall i, j | 0 <= i < j < |pairs| :: pairs[i].target != pairs[j].target)
    && (forall i, j | 0 <= i < |pairs| && 0 <= j < |pairs| :: pairs[i].source != pairs[j].target)
  }

  lemma ReferencesDiffer(r: string, s: string, t: string, u: string)
    requires r in REPOSITORIES && s in REPOSITORIES
    ensures Reference(r, t) == Reference(s, u) ==> r == s && t == u
  {
    var n := |REGISTRY|;
    assert Reference(r, t)[n..] == Tagged(r, t) && Reference(s, u)[n..] == Tagged(s, u);
    assert Tagged(r, t)[10] == r[10] && Tagged(s, u)[10] == s[10];
    assert Tagged(r, t)[|r| + 1..] == t && Tagged(s, u)[|s| + 1..] == u;
  }

  /** For every repository and platform the plan copies the candidate's image, and it copies nothing else. */
  lemma PlanCopiesEveryPlatform(release: string, candidate: string, repository: string, suffix: string)
    requires repository in REPOSITORIES && suffix in SUFFIXES
    ensures Pair(REGISTRY + repository + ":" + candidate + suffix, REGISTRY + repository + ":" + release + suffix) in Plan(release, candidate)
    ensures |Plan(release, candidate)| == |REPOSITORIES| * |SUFFIXES|
  {
    var i: nat :| i < 2 && REPOSITORIES[i] == repository;
    var j: nat :| j < 3 && SUFFIXES[j] == suffix;
    var k := 3 * i + j;
    assert k / 3 == i && k % 3 == j;
    assert Plan(release, candidate)[k] == PairAt(release, candidate, k);
    assert Reference(repository, candidate + suffix) == REGISTRY + repository + ":" + candidate + suffix;
    assert Reference(repository, release + suffix) == REGISTRY + repository + ":" + release + suffix;
  }

  lemma PlanIsSeparate(release: string, candidate: string)
    requires IsRelease(release) && IsCandidate(candidate)
    ensures Separate(Plan(release, candidate))
  {
    var pairs := Plan(release, candidate);
    forall i, j | 0 <= i < j < 6
      ensures pairs[i].target != pairs[j].target
    {
      ReferencesDiffer(REPOSITORIES[i / 3], REPOSITORIES[j / 3], release + SUFFIXES[i % 3], release + SUFFIXES[j % 3]);
      assert |release + SUFFIXES[i % 3]| == |release| + |SUFFIXES[i % 3]|;
      assert |release + SUFFIXES[j % 3]| == |release| + |SUFFIXES[j % 3]|;
    }
    forall i, j | 0 <= i < 6 && 0 <= j < 6
      ensures pairs[i].source != pairs[j].target
    {
      ReferencesDiffer(REPOSITORIES[i / 3], REPOSITORIES[j / 3], candidate + SUFFIXES[i % 3], release + SUFFIXES[j % 3]);
      assert (candidate + SUFFIXES[i % 3])[0] == 'c' && (release + SUFFIXES[j % 3])[0] == 'v';
    }
  }

  // ----- what a promotion may do -----

  type Tags = map<string, string>

  /** Every candidate exists, and every target is absent or already names its candidate's digest. */
  predicate Promotable(tags: Tags, pairs: seq<Pair>) {
    forall k | 0 <= k < |pairs| :: PairPromotable(tags, pairs[k])
  }

  predicate PairPromotable(tags: Tags, pair: Pair) {
    pair.source in tags && (pair.target in tags ==> tags[pair.target] == tags[pair.source])
  }

  /** No tag is moved or removed; a new one is a target that names its candidate's digest. */
  predicate Progress(was: Tags, now: Tags, pairs: seq<Pair>) {
    && (forall reference | reference in was :: reference in now && now[reference] == was[reference])
    && (forall reference | reference in now && reference !in was :: Explained(was, reference, now[reference], pairs))
  }

  predicate Explained(was: Tags, reference: string, digest: string, pairs: seq<Pair>) {
    exists k | 0 <= k < |pairs| :: pairs[k].target == reference && pairs[k].source in was && was[pairs[k].source] == digest
  }

  function PinsOf(tags: Tags, pairs: seq<Pair>): seq<string>
    requires Promotable(tags, pairs)
  {
    seq(|pairs|, k requires 0 <= k < |pairs| => assert PairPromotable(tags, pairs[k]); pairs[k].target + "@" + tags[pairs[k].source])
  }

  predicate AllTagged(tags: Tags, pairs: seq<Pair>) {
    forall k | 0 <= k < |pairs| :: pairs[k].source in tags && pairs[k].target in tags && tags[pairs[k].target] == tags[pairs[k].source]
  }

  /** One run, however it ended, as far as it can be told from the registry. */
  predicate Run(was: Tags, now: Tags, pairs: seq<Pair>) {
    Progress(was, now, pairs) && (now != was ==> Promotable(was, pairs))
  }

  /** What a run leaves is as promotable as before, with the same pins. */
  lemma RunKeepsPromotable(was: Tags, now: Tags, pairs: seq<Pair>)
    requires Separate(pairs) && Run(was, now, pairs)
    ensures Promotable(now, pairs) <==> Promotable(was, pairs)
    ensures Promotable(was, pairs) ==> PinsOf(now, pairs) == PinsOf(was, pairs)
  {
    if Promotable(was, pairs) {
      forall k | 0 <= k < |pairs|
        ensures PairPromotable(now, pairs[k]) && now[pairs[k].source] == was[pairs[k].source]
      {
        assert PairPromotable(was, pairs[k]);
        if pairs[k].target in now && pairs[k].target !in was {
          assert Explained(was, pairs[k].target, now[pairs[k].target], pairs);
        }
      }
    }
  }

  /** After any number of interrupted runs, a run yields what an uninterrupted first one would have. */
  lemma {:induction false} InterruptionsDoNotMatter(states: seq<Tags>, pairs: seq<Pair>)
    requires Separate(pairs) && |states| > 0
    requires forall i | 0 <= i < |states| - 1 :: Run(states[i], states[i + 1], pairs)
    ensures var first, last := states[0], states[|states| - 1];
            && (Promotable(last, pairs) <==> Promotable(first, pairs))
            && (Promotable(first, pairs) ==> PinsOf(last, pairs) == PinsOf(first, pairs))
            && forall reference | reference in first :: reference in last && last[reference] == first[reference]
  {
    var n := |states| - 1;
    if n > 0 {
      InterruptionsDoNotMatter(states[..n], pairs);
      assert Run(states[n - 1], states[n], pairs);
      RunKeepsPromotable(states[n - 1], states[n], pairs);
    }
  }

  // ----- the registry -----

  datatype Answer = Found(digest: string) | Missing | Unanswered

  class Registry {
    /** How the n-th call goes. */
    const fates: nat -> Fate
    var tags: Tags
    var calls: nat

    constructor (tags: Tags, fates: nat -> Fate)
      ensures this.tags == tags && this.fates == fates && calls == 0
    {
      this.tags, this.fates, calls := tags, fates, 0;
    }

    /** Missing is told apart from a failed call. */
    method DigestOrNone(reference: string) returns (answer: Answer)
      modifies this`calls
      ensures calls == old(calls) + 1
      ensures answer == (if fates(old(calls)) != Works then Unanswered else if reference in tags then Found(tags[reference]) else Missing)
    {
      var fate := fates(calls);
      calls := calls + 1;
      if fate != Works {
        return Unanswered;
      }
      answer := if reference in tags then Found(tags[reference]) else Missing;
    }

    /** Adds a reference to the manifest that source names. */
    method Tag(source: string, target: string) returns (ok: bool)
      modifies this
      ensures calls == old(calls) + 1
      ensures ok == (fates(old(calls)) == Works && source in old(tags))
      ensures tags == old(tags) || (source in old(tags) && tags == old(tags)[target := old(tags)[source]])
      ensures ok ==> target in tags && tags[target] == old(tags)[source]
    {
      var fate := fates(calls);
      calls := calls + 1;
      if fate == FailsBefore || source !in tags {
        return false;
      }
      tags := tags[target := tags[source]];
      ok := fate == Works;
    }

    /** Every call from one on, up to another, worked. */
    ghost predicate AllWorked(from: nat, to: nat) {
      forall n | from <= n < to :: fates(n) == Works
    }

    // ----- the promotion -----

    /** The first pass: nothing is tagged until every pair has been checked. */
    method Check(pairs: seq<Pair>) returns (digests: Option<seq<string>>)
      modifies this`calls
      ensures digests.Some? ==> Promotable(tags, pairs) && |digests.value| == |pairs|
                                && forall k | 0 <= k < |pairs| :: pairs[k].source in tags && digests.value[k] == tags[pairs[k].source]
      ensures calls >= old(calls) && (digests.Some? <==> Promotable(tags, pairs) && AllWorked(old(calls), calls))
    {
      var found := [];
      for k := 0 to |pairs|
        invariant |found| == k && forall i | 0 <= i < k :: PairPromotable(tags, pairs[i]) && found[i] == tags[pairs[i].source]
        invariant calls >= old(calls) && AllWorked(old(calls), calls)
      {
        assert Promotable(tags, pairs) ==> PairPromotable(tags, pairs[k]);
        var source := DigestOrNone(pairs[k].source);
        if !source.Found? {
          return None;
        }
        var existing := DigestOrNone(pairs[k].target);
        if existing.Unanswered? || (existing.Found? && existing.digest != source.digest) {
          return None;
        }
        found := found + [source.digest];
      }
      digests := Some(found);
    }

    /** Tags one target unless it is there, and reads it back. */
    method TagAndConfirm(pair: Pair, digest: string) returns (ok: bool)
      modifies this
      ensures tags == old(tags) || (Taggable(old(tags), pair) && tags == old(tags)[pair.target := old(tags)[pair.source]])
      ensures ok ==> pair.target in tags && tags[pair.target] == digest
      ensures calls >= old(calls) && (ok ==> AllWorked(old(calls), calls))
      ensures PairPromotable(old(tags), pair) && digest == old(tags)[pair.source] && AllWorked(old(calls), calls) ==> ok
    {
      var target := DigestOrNone(pair.target);
      if target.Unanswered? {
        return false;
      }
      if target.Missing? {
        var tagged := Tag(pair.source, pair.target);
        if !tagged {
          return false;
        }
      }
      var promoted := DigestOrNone(pair.target);
      ok := promoted == Found(digest);
    }

    /** The pins when it succeeds; in any case the registry shows a run. */
    method PromotePairs(pairs: seq<Pair>) returns (pins: Option<seq<string>>)
      requires Separate(pairs)
      modifies this
      ensures Run(old(tags), tags, pairs)
      ensures pins.Some? ==> Promotable(old(tags), pairs) && pins.value == PinsOf(old(tags), pairs) && AllTagged(tags, pairs)
      ensures calls >= old(calls) && (pins.Some? <==> Promotable(old(tags), pairs) && AllWorked(old(calls), calls))
    {
      ghost var was := tags;
      var digests := Check(pairs);
      if digests.None? {
        return None;
      }
      var named: seq<string> := [];
      for k := 0 to |pairs|
        invariant Progress(was, tags, pairs) && named == PinsOf(was, pairs)[..k] && AllTagged(tags, pairs[..k])
        invariant calls >= old(calls) && AllWorked(old(calls), calls)
      {
        RunKeepsPromotable(was, tags, pairs);
        assert PairPromotable(was, pairs[k]) && PairPromotable(tags, pairs[k]);
        ghost var before := tags;
        var ok := TagAndConfirm(pairs[k], digests.value[k]);
        if tags != before {
          TaggingIsProgress(was, before, pairs, k);
        }
        if !ok {
          return None;
        }
        OneMoreTagged(before, tags, pairs, k);
        named := named + [pairs[k].target + "@" + digests.value[k]];
      }
      assert pairs[..|pairs|] == pairs && PinsOf(was, pairs)[..|pairs|] == PinsOf(was, pairs);
      pins := Some(named);
    }

    method Promote(release: string, candidate: string) returns (pins: Option<seq<string>>)
      modifies this
      ensures !(IsRelease(release) && IsCandidate(candidate)) ==> pins.None? && tags == old(tags)
      ensures Run(old(tags), tags, Plan(release, candidate))
      ensures pins.Some? ==>
                var pairs := Plan(release, candidate);
                Promotable(old(tags), pairs) && pins.value == PinsOf(old(tags), pairs) && AllTagged(tags, pairs)
      ensures IsRelease(release) && IsCandidate(candidate) ==>
                (pins.Some? <==> Promotable(old(tags), Plan(release, candidate)) && AllWorked(old(calls), calls))
    {
      if !IsRelease(release) || !IsCandidate(candidate) {
        return None;
      }
      PlanIsSeparate(release, candidate);
      pins := PromotePairs(Plan(release, candidate));
    }
  }

  predicate Taggable(tags: Tags, pair: Pair) {
    pair.source in tags && pair.target !in tags
  }

  lemma TaggingIsProgress(was: Tags, now: Tags, pairs: seq<Pair>, k: nat)
    requires k < |pairs| && Progress(was, now, pairs) && PairPromotable(was, pairs[k]) && Taggable(now, pairs[k])
    ensures Progress(was, now[pairs[k].target := now[pairs[k].source]], pairs)
  {
    var later := now[pairs[k].target := now[pairs[k].source]];
    forall reference | reference in later && reference !in was
      ensures Explained(was, reference, later[reference], pairs)
    {
      if reference != pairs[k].target {
        assert Explained(was, reference, now[reference], pairs);
      }
    }
  }

  lemma OneMoreTagged(was: Tags, now: Tags, pairs: seq<Pair>, k: nat)
    requires k < |pairs| && AllTagged(was, pairs[..k]) && PairPromotable(was, pairs[k])
    requires now == was || (Taggable(was, pairs[k]) && now == was[pairs[k].target := was[pairs[k].source]])
    requires pairs[k].target in now && Separate(pairs)
    ensures AllTagged(now, pairs[..k + 1])
  {
    forall i | 0 <= i <= k
      ensures pairs[i].source in now && pairs[i].target in now && now[pairs[i].target] == now[pairs[i].source]
    {
      if i < k {
        assert pairs[..k][i] == pairs[i];
      }
    }
  }
}
