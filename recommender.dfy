/**
 * The job recommender (ai/recommender.py): a rule-based delta per job
 * (skill overlap, CGPA threshold, branch, location) added to a text
 * similarity score, clamped, explained by reasons and ranked.
 *
 * Scores are counted in tenths of a point: the engine's scores lie in
 * [0, 100] and are rounded to one decimal. The TF-IDF similarity is an
 * input: for each job, 70 times its cosine similarity, in tenths.
 */
module Recommender {
  import opened Text
  import opened StringOrder
  import opened StableSort
  import opened Records
  import opened Utils

  // ---------------------------------------------------------------------
  // Texts fed to the vectoriser

  /** `[field for field in fields if field]` */
  function NonEmptyFields(fields: seq<string>): (r: seq<string>)
    ensures forall k :: 0 <= k < |r| ==> r[k] != []
    ensures r == [] <==> forall k :: 0 <= k < |fields| ==> fields[k] == []
  {
    if fields == [] then []
    else
      var rest := NonEmptyFields(fields[1..]);
      assert forall k :: 0 < k < |fields| ==> fields[k] == fields[1..][k - 1];
      (if fields[0] == [] then [] else [fields[0]]) + rest
  }

  /** A single field is kept exactly when it is non-empty. */
  function Field(f: string): seq<string> {
    if f == [] then [] else [f]
  }

  /** The filter keeps the non-empty fields of each part, in order. */
  lemma {:induction false} NonEmptyFieldsAppend(a: seq<string>, b: seq<string>)
    ensures NonEmptyFields(a + b) == NonEmptyFields(a) + NonEmptyFields(b)
  {
    if a == [] {
      assert a + b == b;
    } else {
      assert (a + b)[1..] == a[1..] + b;
      NonEmptyFieldsAppend(a[1..], b);
      SeqAssoc(Field(a[0]), NonEmptyFields(a[1..]), NonEmptyFields(b));
    }
  }

  lemma NonEmptyFieldsOne(f: string)
    ensures NonEmptyFields([f]) == Field(f)
  {
    assert [f][1..] == [];
  }

  /** `[field for field in fields if field]` on four fields: each field in
      turn, when it is non-empty. */
  lemma NonEmptyFieldsFour(a: string, b: string, c: string, d: string)
    ensures NonEmptyFields([a, b, c, d]) == Field(a) + Field(b) + Field(c) + Field(d)
  {
    assert [a, b, c, d] == [a] + [b] + [c] + [d];
    NonEmptyFieldsAppend([a] + [b] + [c], [d]);
    NonEmptyFieldsAppend([a] + [b], [c]);
    NonEmptyFieldsAppend([a], [b]);
    NonEmptyFieldsOne(a);
    NonEmptyFieldsOne(b);
    NonEmptyFieldsOne(c);
    NonEmptyFieldsOne(d);
  }

  /** Joining non-empty pieces is empty only when there are no pieces. */
  lemma JoinNonEmptyPieces(pieces: seq<string>, sep: string)
    requires forall k :: 0 <= k < |pieces| ==> pieces[k] != []
    ensures Join(pieces, sep) == [] <==> pieces == []
  {
    if |pieces| > 1 {
      assert Join(pieces, sep) == pieces[0] + sep + Join(pieces[1..], sep);
    }
  }

  /** `" ".join(field for field in fields if field)` */
  function JoinFields(fields: seq<string>): string {
    Join(NonEmptyFields(fields), " ")
  }

  /** A joined text is empty exactly when every field is empty. */
  lemma JoinFieldsEmpty(fields: seq<string>)
    ensures JoinFields(fields) == [] <==> forall k :: 0 <= k < |fields| ==> fields[k] == []
  {
    JoinNonEmptyPieces(NonEmptyFields(fields), " ");
  }

  /** `_build_student_text` */
  function StudentText(p: Profile): (r: string)
    ensures r == [] <==> p.skills == [] && p.interests == [] && p.projects == [] && p.certifications == []
  {
    var fields := [p.skills, p.interests, p.projects, p.certifications];
    JoinFieldsEmpty(fields);
    assert fields[0] == p.skills && fields[1] == p.interests;
    assert fields[2] == p.projects && fields[3] == p.certifications;
    JoinFields(fields)
  }

  /** `_build_job_text` */
  function JobText(j: Job): (r: string)
    ensures r == [] <==> j.description == [] && j.requiredSkills == [] && j.title == [] && j.company == []
  {
    var fields := [j.description, j.requiredSkills, j.title, j.company];
    JoinFieldsEmpty(fields);
    assert fields[0] == j.description && fields[1] == j.requiredSkills;
    assert fields[2] == j.title && fields[3] == j.company;
    JoinFields(fields)
  }

  /** The student text is the skills, interests, projects and
      certifications, in that order, joined by single spaces, with the
      empty ones left out. */
  lemma StudentTextFields(p: Profile)
    ensures StudentText(p) ==
      Join(Field(p.skills) + Field(p.interests) + Field(p.projects) + Field(p.certifications), " ")
  {
    NonEmptyFieldsFour(p.skills, p.interests, p.projects, p.certifications);
  }

  /** The job text is the description, required skills, title and company,
      in that order, joined by single spaces, with the empty ones left out. */
  lemma JobTextFields(j: Job)
    ensures JobText(j) ==
      Join(Field(j.description) + Field(j.requiredSkills) + Field(j.title) + Field(j.company), " ")
  {
    NonEmptyFieldsFour(j.description, j.requiredSkills, j.title, j.company);
  }

  // ---------------------------------------------------------------------
  // Rule-based score

  const CgpaBelowReason: string := "CGPA below minimum requirement"
  const CgpaMeetsReason: string := "CGPA meets requirement"
  const BranchReason: string := "Eligible branch match"
  const LocationReason: string := "Preferred location match"
  const SkillsReasonPrefix: string := "Matching skills: "

  /** `sorted(set(split_csv(skills)) & set(split_csv(required)))` */
  function Overlap(p: Profile, j: Job): seq<string> {
    SortedUnique(Keep(SplitCsv(p.skills), TokenSet(j.requiredSkills)))
  }

  /** The overlap lists, in ascending order and once each, exactly the
      skills the student and the job share. */
  lemma OverlapSpec(p: Profile, j: Job)
    ensures var r := Overlap(p, j);
      StrictlyAscending(r) &&
      Elems(r) == TokenSet(p.skills) * TokenSet(j.requiredSkills) &&
      |r| == |TokenSet(p.skills) * TokenSet(j.requiredSkills)|
  {
    AscendingLength(Overlap(p, j));
  }

  /** The reason naming the shared skills, title-cased, in ascending order. */
  function SkillsReason(overlap: seq<string>): string {
    SkillsReasonPrefix + Join(TitleAll(overlap), ", ")
  }

  /** The student's branch, trimmed and lower-cased, is an eligible branch. */
  predicate BranchMatch(p: Profile, j: Job) {
    p.branch != [] && Lower(Strip(p.branch)) in TokenSet(j.eligibleBranches)
  }

  /** The job's location, trimmed and lower-cased, is a preferred location. */
  predicate LocationMatch(p: Profile, j: Job) {
    p.preferredLocations != [] && Lower(Strip(j.location)) in TokenSet(p.preferredLocations)
  }

  /** Points for the CGPA: none without a CGPA, -50 below the minimum, +10
      at or above it. */
  function CgpaPoints(cgpa: Option<Hundredths>, minCgpa: Hundredths): int {
    match cgpa
    case None => 0
    case Some(c) => if c < minCgpa then -50 else 10
  }

  /** The points for a given overlap size and outcome of each check. */
  function DeltaFrom(common: nat, cgpa: Option<Hundredths>, minCgpa: Hundredths, branch: bool, location: bool): int {
    5 * common + CgpaPoints(cgpa, minCgpa)
      + (if branch then 8 else 0)
      + (if location then 5 else 0)
  }

  /** The reasons for a given overlap and outcome of each check, in the
      order the checks run. */
  function ReasonsFrom(overlap: seq<string>, cgpa: Option<Hundredths>, minCgpa: Hundredths, branch: bool, location: bool): (r: seq<string>)
    ensures |r| <= 4
  {
    (if overlap != [] then [SkillsReason(overlap)] else [])
      + (match cgpa
         case None => []
         case Some(c) => if c < minCgpa then [CgpaBelowReason] else [CgpaMeetsReason])
      + (if branch then [BranchReason] else [])
      + (if location then [LocationReason] else [])
  }

  /** The points `_rule_based_score` adds up. */
  function RuleDelta(p: Profile, j: Job): int {
    DeltaFrom(|Overlap(p, j)|, p.cgpa, j.minCgpa, BranchMatch(p, j), LocationMatch(p, j))
  }

  /** The reasons `_rule_based_score` gives. */
  function RuleReasons(p: Profile, j: Job): seq<string> {
    ReasonsFrom(Overlap(p, j), p.cgpa, j.minCgpa, BranchMatch(p, j), LocationMatch(p, j))
  }

  /** `_rule_based_score`: computes the overlap and the branch and location
      checks, then accumulates points and reasons. */
  method RuleBasedScore(p: Profile, j: Job) returns (score: int, reasons: seq<string>)
    ensures score == RuleDelta(p, j)
    ensures reasons == RuleReasons(p, j)
  {
    var overlap := Overlap(p, j);
    var branch := false;
    if p.branch != [] {
      var branches := TokenSet(j.eligibleBranches);
      branch := Lower(Strip(p.branch)) in branches;
    }
    var location := false;
    if p.preferredLocations != [] {
      var preferred := TokenSet(p.preferredLocations);
      location := Lower(Strip(j.location)) in preferred;
    }
    score, reasons := Accumulate(overlap, p.cgpa, j.minCgpa, branch, location);
  }

  /** The accumulation in `_rule_based_score`, check by check. */
  method Accumulate(overlap: seq<string>, cgpa: Option<Hundredths>, minCgpa: Hundredths, branch: bool, location: bool)
    returns (score: int, reasons: seq<string>)
    ensures score == DeltaFrom(|overlap|, cgpa, minCgpa, branch, location)
    ensures reasons == ReasonsFrom(overlap, cgpa, minCgpa, branch, location)
  {
    reasons := [];
    score := 0;
    if overlap != [] {
      score := score + 5 * |overlap|;
      reasons := reasons + [SkillsReason(overlap)];
    }
    if cgpa.Some? {
      if cgpa.value < minCgpa {
        score := score - 50;
        reasons := reasons + [CgpaBelowReason];
      } else {
        score := score + 10;
        reasons := reasons + [CgpaMeetsReason];
      }
    }
    if branch {
      score := score + 8;
      reasons := reasons + [BranchReason];
    }
    if location {
      score := score + 5;
      reasons := reasons + [LocationReason];
    }
  }

  /** The rule delta in terms of the sets the engine compares: five points
      per skill the student shares with the job, the CGPA points, eight for
      the branch and five for the location. */
  lemma RuleDeltaSums(p: Profile, j: Job)
    ensures RuleDelta(p, j) ==
      5 * |TokenSet(p.skills) * TokenSet(j.requiredSkills)|
      + (if p.cgpa.None? then 0 else if p.cgpa.value < j.minCgpa then -50 else 10)
      + (if p.branch != [] && Lower(Strip(p.branch)) in TokenSet(j.eligibleBranches) then 8 else 0)
      + (if p.preferredLocations != [] && Lower(Strip(j.location)) in TokenSet(p.preferredLocations) then 5 else 0)
  {
    OverlapSpec(p, j);
  }

  /** Where a reason ranks in the fixed order skills, CGPA, branch,
      location. */
  function Rank(reason: string): int {
    if reason == CgpaBelowReason || reason == CgpaMeetsReason then 1
    else if reason == BranchReason then 2
    else if reason == LocationReason then 3
    else 0
  }

  lemma SkillsReasonRank(overlap: seq<string>)
    ensures Rank(SkillsReason(overlap)) == 0
  {
    var r := SkillsReason(overlap);
    assert r[0] == 'M';
  }

  lemma ReasonsFromOrdered(overlap: seq<string>, cgpa: Option<Hundredths>, minCgpa: Hundredths, branch: bool, location: bool)
    ensures var r := ReasonsFrom(overlap, cgpa, minCgpa, branch, location);
      forall a, b :: 0 <= a < b < |r| ==> Rank(r[a]) < Rank(r[b])
  {
    if overlap != [] { SkillsReasonRank(overlap); }
  }

  /** The reasons come in the fixed order skills, CGPA, branch, location,
      each at most once. */
  lemma RuleReasonsOrdered(p: Profile, j: Job)
    ensures var r := RuleReasons(p, j);
      forall a, b :: 0 <= a < b < |r| ==> Rank(r[a]) < Rank(r[b])
  {
    ReasonsFromOrdered(Overlap(p, j), p.cgpa, j.minCgpa, BranchMatch(p, j), LocationMatch(p, j));
  }

  lemma ReasonsFromMeaning(overlap: seq<string>, cgpa: Option<Hundredths>, minCgpa: Hundredths, branch: bool, location: bool)
    ensures var r := ReasonsFrom(overlap, cgpa, minCgpa, branch, location);
      (overlap != [] <==> SkillsReason(overlap) in r) &&
      (CgpaBelowReason in r <==> cgpa.Some? && cgpa.value < minCgpa) &&
      (CgpaMeetsReason in r <==> cgpa.Some? && cgpa.value >= minCgpa) &&
      (BranchReason in r <==> branch) &&
      (LocationReason in r <==> location)
  {
    SkillsReasonRank(overlap);
  }

  /** Each rule gives its reason exactly when it applies. */
  lemma RuleReasonsMeaning(p: Profile, j: Job)
    ensures var r, common := RuleReasons(p, j), TokenSet(p.skills) * TokenSet(j.requiredSkills);
      (common != {} <==> SkillsReason(Overlap(p, j)) in r) &&
      (CgpaBelowReason in r <==> p.cgpa.Some? && p.cgpa.value < j.minCgpa) &&
      (CgpaMeetsReason in r <==> p.cgpa.Some? && p.cgpa.value >= j.minCgpa) &&
      (BranchReason in r <==> BranchMatch(p, j)) &&
      (LocationReason in r <==> LocationMatch(p, j))
  {
    var overlap := Overlap(p, j);
    OverlapSpec(p, j);
    ElemsEmpty(overlap);
    ReasonsFromMeaning(overlap, p.cgpa, j.minCgpa, BranchMatch(p, j), LocationMatch(p, j));
  }

  /** Whitespace-only branch text never matches: it strips to nothing, and
      no token is empty. */
  lemma BlankBranchNeverMatches(p: Profile, j: Job)
    requires IsBlank(p.branch)
    ensures !BranchMatch(p, j)
  {
    assert Lower(Strip(p.branch)) == [];
    assert [] !in SplitCsv(j.eligibleBranches);
  }

  /** No reason means no points. */
  lemma NoReasonsNoPoints(p: Profile, j: Job)
    requires RuleReasons(p, j) == []
    ensures RuleDelta(p, j) == 0
  {
  }

  // ---------------------------------------------------------------------
  // Recommendations

  const InsufficientDataReason: string := "Insufficient data for recommendation."
  const ProfileMatchedReason: string := "Profile text matched job description"
  const CompleteProfileReason: string := "Complete your profile to get better matches"

  /** One ranked job: its score in tenths and the reasons behind it. */
  datatype Recommendation = Recommendation(job: Job, score: int, reasons: seq<string>)

  function ScoreOf(r: Recommendation): int { r.score }

  function JobsOf(rs: seq<Recommendation>): (r: seq<Job>)
    ensures |r| == |rs|
    ensures forall k :: 0 <= k < |rs| ==> r[k] == rs[k].job
  {
    if rs == [] then [] else [rs[0].job] + JobsOf(rs[1..])
  }

  /** The similarity input: for each job, 70 times the cosine similarity of
      the student text and the job text, in tenths; or the vectoriser's
      `ValueError`, after which every similarity is zero. */
  datatype Similarities = Computed(base: seq<int>) | VectorizerFailed

  /** The per-job similarity points the scoring loop zips with the jobs. */
  function BaseScores(jobs: seq<Job>, sims: Similarities): (r: seq<int>)
    ensures sims.VectorizerFailed? ==> |r| == |jobs| && forall k :: 0 <= k < |r| ==> r[k] == 0
  {
    match sims
    case Computed(base) => base
    case VectorizerFailed => seq(|jobs|, _ => 0)
  }

  /** `max(0, min(100, score))`, in tenths. */
  function Clamp(x: int): (r: int)
    ensures 0 <= r <= 1000
    ensures 0 <= x <= 1000 ==> r == x
    ensures x < 0 ==> r == 0
    ensures x > 1000 ==> r == 1000
  {
    if x < 0 then 0 else if x > 1000 then 1000 else x
  }

  /** The fallback reasons: a generic one when the rules gave none for a
      student with some profile text, and a prompt to complete the profile
      whenever the student text is empty. */
  function WithFallback(reasons: seq<string>, studentText: string): (r: seq<string>)
    ensures r != []
  {
    if reasons == [] && studentText != [] then reasons + [ProfileMatchedReason]
    else if studentText == [] then reasons + [CompleteProfileReason]
    else reasons
  }

  /** The fallback keeps the rule reasons and adds at most one: the generic
      reason only to an empty list, the prompt exactly when the student text
      is empty, even after rule reasons. */
  lemma WithFallbackMeaning(reasons: seq<string>, studentText: string)
    ensures var r := WithFallback(reasons, studentText);
      r[..|reasons|] == reasons && |reasons| <= |r| <= |reasons| + 1 &&
      (studentText == [] ==> r == reasons + [CompleteProfileReason]) &&
      (studentText != [] && reasons == [] ==> r == [ProfileMatchedReason]) &&
      (studentText != [] && reasons != [] ==> r == reasons)
  {
  }

  /** One job's result on the scoring path. */
  function Rate(p: Profile, job: Job, base: int, studentText: string): Recommendation {
    Recommendation(job, Clamp(base + 10 * RuleDelta(p, job)),
      WithFallback(RuleReasons(p, job), studentText))
  }

  /** The ratings of the first `i` zipped jobs, in job order. */
  function Scored(rate: (Job, int) -> Recommendation, jobs: seq<Job>, base: seq<int>, i: nat): (r: seq<Recommendation>)
    requires i <= |jobs| && i <= |base|
    ensures |r| == i
  {
    if i == 0 then []
    else Scored(rate, jobs, base, i - 1) + [rate(jobs[i - 1], base[i - 1])]
  }

  /** How the scoring loop rates a job for this student. */
  function RateFor(p: Profile): (Job, int) -> Recommendation {
    (job: Job, base: int) => Rate(p, job, base, StudentText(p))
  }

  /** The scoring loop's results before the sort: one per pair of job and
      similarity, as `zip` pairs them. */
  function Unranked(p: Profile, jobs: seq<Job>, base: seq<int>): (r: seq<Recommendation>)
    ensures |r| == if |jobs| < |base| then |jobs| else |base|
  {
    Scored(RateFor(p), jobs, base, if |jobs| < |base| then |jobs| else |base|)
  }

  lemma {:induction false} ScoredAt(rate: (Job, int) -> Recommendation, jobs: seq<Job>, base: seq<int>, i: nat, k: nat)
    requires i <= |jobs| && i <= |base| && k < i
    ensures Scored(rate, jobs, base, i)[k] == rate(jobs[k], base[k])
  {
    if k < i - 1 {
      ScoredAt(rate, jobs, base, i - 1, k);
    }
  }

  /** Result `k` of the scoring loop rates job `k` with similarity `k`. */
  lemma UnrankedAt(p: Profile, jobs: seq<Job>, base: seq<int>, k: nat)
    requires k < |jobs| && k < |base|
    ensures Unranked(p, jobs, base)[k] == Rate(p, jobs[k], base[k], StudentText(p))
  {
    ScoredAt(RateFor(p), jobs, base, if |jobs| < |base| then |jobs| else |base|, k);
  }

  /** The answer when there is nothing to compare: every job, in input
      order, with score 0 and one fixed reason. */
  function InsufficientData(jobs: seq<Job>): (r: seq<Recommendation>)
    ensures |r| == |jobs|
    ensures forall k :: 0 <= k < |r| ==> r[k] == Recommendation(jobs[k], 0, [InsufficientDataReason])
  {
    seq(|jobs|, k requires 0 <= k < |jobs| => Recommendation(jobs[k], 0, [InsufficientDataReason]))
  }

  /** `[student_text] + job_texts` */
  function Corpus(p: Profile, jobs: seq<Job>): seq<string> {
    [StudentText(p)] + JobTexts(jobs)
  }

  /** `not any(corpus)` */
  predicate CorpusEmpty(p: Profile, jobs: seq<Job>) {
    !AnyNonEmpty(Corpus(p, jobs))
  }

  /** The corpus is empty exactly when the student text and every job text
      are empty. */
  lemma CorpusEmptyMeaning(p: Profile, jobs: seq<Job>)
    ensures CorpusEmpty(p, jobs) <==>
      StudentText(p) == [] && forall k :: 0 <= k < |jobs| ==> JobTexts(jobs)[k] == []
  {
    var corpus := Corpus(p, jobs);
    var texts := JobTexts(jobs);
    assert corpus[0] == StudentText(p);
    assert corpus[1..] == texts;
    if !CorpusEmpty(p, jobs) {
      var k :| 0 <= k < |corpus| && corpus[k] != [];
      if k > 0 { assert corpus[k] == texts[k - 1]; }
    } else {
      forall k | 0 <= k < |texts| ensures texts[k] == [] {
        assert texts[k] == corpus[k + 1];
      }
    }
  }

  /** What `recommend_jobs(profile, jobs)` returns for the given
      similarities. */
  function Recommend(p: Profile, jobs: seq<Job>, sims: Similarities): seq<Recommendation> {
    if jobs == [] then []
    else if CorpusEmpty(p, jobs) then InsufficientData(jobs)
    else SortDesc(Unranked(p, jobs, BaseScores(jobs, sims)), ScoreOf)
  }

  /** `any(corpus)` */
  predicate AnyNonEmpty(texts: seq<string>) {
    exists k :: 0 <= k < |texts| && texts[k] != []
  }

  /** `[_build_job_text(job) for job in jobs]` */
  function JobTexts(jobs: seq<Job>): (r: seq<string>)
    ensures |r| == |jobs|
    ensures forall k :: 0 <= k < |jobs| ==> r[k] == JobText(jobs[k])
  {
    seq(|jobs|, k requires 0 <= k < |jobs| => JobText(jobs[k]))
  }

  /** `recommend_jobs` */
  method RecommendJobs(p: Profile, jobs: seq<Job>, sims: Similarities) returns (results: seq<Recommendation>)
    ensures results == Recommend(p, jobs, sims)
  {
    if jobs == [] {
      return [];
    }
    var studentText := StudentText(p);
    var corpus := [studentText] + JobTexts(jobs);
    if !AnyNonEmpty(corpus) {
      return InsufficientData(jobs);
    }
    var similarity := BaseScores(jobs, sims);
    results := ScoreJobs(p, jobs, similarity, studentText);
    results := SortDesc(results, ScoreOf);
  }

  /** The scoring loop of `recommend_jobs`, over the zipped jobs and
      similarities. */
  method ScoreJobs(p: Profile, jobs: seq<Job>, similarity: seq<int>, studentText: string)
    returns (results: seq<Recommendation>)
    requires studentText == StudentText(p)
    ensures results == Unranked(p, jobs, similarity)
  {
    var n := if |jobs| < |similarity| then |jobs| else |similarity|;
    results := [];
    for i := 0 to n
      invariant results == Scored(RateFor(p), jobs, similarity, i)
    {
      var r := ScoreJob(p, jobs[i], similarity[i], studentText);
      results := results + [r];
    }
  }

  /** One pass of the scoring loop: the rule score, the clamped final score
      and the fallback reasons for one job. */
  method ScoreJob(p: Profile, job: Job, base: int, studentText: string) returns (r: Recommendation)
    ensures r == Rate(p, job, base, studentText)
  {
    var ruleScore, reasons := RuleBasedScore(p, job);
    r := Finish(job, base, ruleScore, reasons, studentText);
  }

  /** The clamped final score and the fallback reasons of one job. */
  method Finish(job: Job, base: int, ruleScore: int, reasons: seq<string>, studentText: string)
    returns (r: Recommendation)
    ensures r == Recommendation(job, Clamp(base + 10 * ruleScore), WithFallback(reasons, studentText))
  {
    var finalScore := Clamp(base + 10 * ruleScore);
    var explained := reasons;
    if explained == [] && studentText != [] {
      explained := explained + [ProfileMatchedReason];
    } else if studentText == [] {
      explained := explained + [CompleteProfileReason];
    }
    r := Recommendation(job, finalScore, explained);
  }

  // ---------------------------------------------------------------------
  // Properties of the ranking

  /** The guards: no jobs give no results; an empty corpus gives every job,
      in input order, score 0 and the one "insufficient data" reason. */
  lemma RecommendGuards(p: Profile, jobs: seq<Job>, sims: Similarities)
    ensures jobs == [] ==> Recommend(p, jobs, sims) == []
    ensures jobs != [] && CorpusEmpty(p, jobs) ==>
      var r := Recommend(p, jobs, sims);
      |r| == |jobs| &&
      forall k :: 0 <= k < |r| ==> r[k].job == jobs[k] && r[k].score == 0 && r[k].reasons == [InsufficientDataReason]
  {
  }

  /** On the scoring path the results are the scored jobs sorted by score,
      highest first, with ties in input order. */
  lemma RecommendRanked(p: Profile, jobs: seq<Job>, sims: Similarities)
    requires jobs != [] && !CorpusEmpty(p, jobs)
    ensures var r, u := Recommend(p, jobs, sims), Unranked(p, jobs, BaseScores(jobs, sims));
      multiset(r) == multiset(u) &&
      NonIncreasing(r, ScoreOf) &&
      forall v :: WithKey(r, ScoreOf, v) == WithKey(u, ScoreOf, v)
  {
    var u := Unranked(p, jobs, BaseScores(jobs, sims));
    SortDescOrdered(u, ScoreOf);
    SortDescIsStableSort(u, ScoreOf);
  }

  /** Each result on the scoring path is the rating of one of the zipped
      jobs. */
  lemma RankedEntry(p: Profile, jobs: seq<Job>, sims: Similarities, k: int) returns (i: int)
    requires jobs != [] && !CorpusEmpty(p, jobs)
    requires 0 <= k < |Recommend(p, jobs, sims)|
    ensures var base := BaseScores(jobs, sims);
      0 <= i < |jobs| && i < |base| &&
      Recommend(p, jobs, sims)[k] == Rate(p, jobs[i], base[i], StudentText(p))
  {
    var r, u := Recommend(p, jobs, sims), Unranked(p, jobs, BaseScores(jobs, sims));
    assert r == SortDesc(u, ScoreOf);
    assert multiset(r) == multiset(u);
    assert r[k] in multiset(r);
    assert r[k] in u;
    i :| 0 <= i < |u| && u[i] == r[k];
    UnrankedAt(p, jobs, BaseScores(jobs, sims), i);
  }


  /** Every result, on every path, has a score in [0, 100] and at least one
      reason. */
  lemma RecommendWellFormed(p: Profile, jobs: seq<Job>, sims: Similarities)
    ensures var r := Recommend(p, jobs, sims);
      forall k :: 0 <= k < |r| ==> 0 <= r[k].score <= 1000 && r[k].reasons != []
  {
    var r := Recommend(p, jobs, sims);
    if jobs != [] && !CorpusEmpty(p, jobs) {
      forall k | 0 <= k < |r| ensures 0 <= r[k].score <= 1000 && r[k].reasons != [] {
        var i := RankedEntry(p, jobs, sims, k);
      }
    }
  }


  lemma VectorizerFailedEntry(p: Profile, jobs: seq<Job>, k: int) returns (i: int)
    requires jobs != [] && !CorpusEmpty(p, jobs)
    requires 0 <= k < |Recommend(p, jobs, VectorizerFailed)|
    ensures var r := Recommend(p, jobs, VectorizerFailed);
      0 <= i < |jobs| && r[k].job == jobs[i] && r[k].score == Clamp(10 * RuleDelta(p, jobs[i]))
  {
    i := RankedEntry(p, jobs, VectorizerFailed, k);
    assert BaseScores(jobs, VectorizerFailed)[i] == 0;
  }


  /** When the vectoriser fails, every job is still ranked, on its rule
      score alone. */
  lemma RecommendVectorizerFailed(p: Profile, jobs: seq<Job>)
    requires jobs != [] && !CorpusEmpty(p, jobs)
    ensures var r := Recommend(p, jobs, VectorizerFailed);
      |r| == |jobs| &&
      forall k :: 0 <= k < |r| ==>
        exists i :: 0 <= i < |jobs| && r[k].job == jobs[i] && r[k].score == Clamp(10 * RuleDelta(p, jobs[i]))
  {
    var r := Recommend(p, jobs, VectorizerFailed);
    assert |BaseScores(jobs, VectorizerFailed)| == |jobs|;
    forall k | 0 <= k < |r|
      ensures exists i :: 0 <= i < |jobs| && r[k].job == jobs[i] && r[k].score == Clamp(10 * RuleDelta(p, jobs[i]))
    {
      var i := VectorizerFailedEntry(p, jobs, k);
      assert r[k].job == jobs[i] && r[k].score == Clamp(10 * RuleDelta(p, jobs[i]));
    }
  }


  /** A student with no profile text gets the "complete your profile"
      prompt on every scored job, after whatever reasons the rules gave. */
  lemma RecommendEmptyProfile(p: Profile, jobs: seq<Job>, sims: Similarities)
    requires jobs != [] && !CorpusEmpty(p, jobs) && StudentText(p) == []
    ensures var r := Recommend(p, jobs, sims);
      forall k :: 0 <= k < |r| ==> r[k].reasons == RuleReasons(p, r[k].job) + [CompleteProfileReason]
  {
    var r := Recommend(p, jobs, sims);
    forall k | 0 <= k < |r| ensures r[k].reasons == RuleReasons(p, r[k].job) + [CompleteProfileReason] {
      var i := RankedEntry(p, jobs, sims, k);
    }
  }


  lemma JobsOfAppend(a: seq<Recommendation>, b: seq<Recommendation>)
    ensures JobsOf(a + b) == JobsOf(a) + JobsOf(b)
  {
    assert forall k :: 0 <= k < |a + b| ==> JobsOf(a + b)[k] == (JobsOf(a) + JobsOf(b))[k];
  }

  lemma {:induction false} JobsOfInsert(x: Recommendation, s: seq<Recommendation>)
    ensures multiset(JobsOf(InsertDesc(x, s, ScoreOf))) == multiset(JobsOf(s)) + multiset{x.job}
  {
    if s == [] || ScoreOf(s[0]) <= ScoreOf(x) {
      JobsOfAppend([x], s);
    } else {
      assert s == [s[0]] + s[1..];
      JobsOfInsert(x, s[1..]);
      JobsOfAppend([s[0]], InsertDesc(x, s[1..], ScoreOf));
      JobsOfAppend([s[0]], s[1..]);
    }
  }

  /** Sorting recommendations reorders their jobs. */
  lemma {:induction false} JobsOfSort(xs: seq<Recommendation>)
    ensures multiset(JobsOf(SortDesc(xs, ScoreOf))) == multiset(JobsOf(xs))
  {
    if xs != [] {
      assert xs == [xs[0]] + xs[1..];
      JobsOfSort(xs[1..]);
      JobsOfInsert(xs[0], SortDesc(xs[1..], ScoreOf));
      JobsOfAppend([xs[0]], xs[1..]);
    }
  }

  /** With one similarity per job, every job appears in the ranking exactly
      as often as in the input. */
  lemma RecommendPermutesJobs(p: Profile, jobs: seq<Job>, sims: Similarities)
    requires |BaseScores(jobs, sims)| == |jobs|
    ensures multiset(JobsOf(Recommend(p, jobs, sims))) == multiset(jobs)
  {
    var r := Recommend(p, jobs, sims);
    if jobs != [] && !CorpusEmpty(p, jobs) {
      var u := Unranked(p, jobs, BaseScores(jobs, sims));
      JobsOfSort(u);
      forall k | 0 <= k < |jobs| ensures JobsOf(u)[k] == jobs[k] {
        UnrankedAt(p, jobs, BaseScores(jobs, sims), k);
      }
      assert JobsOf(u) == jobs;
    } else {
      assert JobsOf(r) == jobs;
    }
  }
}
