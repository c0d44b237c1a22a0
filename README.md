# Placement portal recommendation engine, in Dafny

This project models the scoring and recommendation engine of a campus placement portal. Given a student profile and job postings, the engine does four things:

- it ranks the jobs by a score in [0, 100], and explains each score with human-readable reasons;
- it works out the skills a student lacks for a job, with a three-step roadmap per skill;
- it drafts five resume bullets;
- it counts the most common skills across profiles.

The model covers two files. `portal/utils.py` holds the text normalisers (`split_csv`, `split_projects`), the skill-gap and resume-bullet generators and the skill counter. `ai/recommender.py` holds the text builders, the rule-based scorer and `recommend_jobs`.

Modules:

- `Text` (text.dfy): the ASCII subset of the Python `str` operations the engine uses. These are `isspace`, `lower`, `strip`, `title`, `split` on one character, `join` and one-character `replace`.
- `StringOrder` (order.dfy): Python's lexicographic string order, and `sorted(set(...))` as the unique strictly ascending listing of a set.
- `StableSort` (sorting.dfy): `list.sort(key=..., reverse=True)` as a stable insertion sort. It is proved ordered, a permutation, and stable: for each key, the elements with that key keep their input order. It is also proved to be the only sequence with these properties.
- `Records` (records.dfy): the profile and job records. CGPA is in hundredths (0..1000).
- `Utils` (utils.dfy): `portal/utils.py`. The `Counter` used by `top_skills_from_profiles` is a class whose `Add` updates a count map and a key order in place.
- `Recommender` (recommender.dfy): `ai/recommender.py`.

Representation choices:

- **Scores.** Scores are integers in tenths of a point, 0..1000.
- **Similarity.** The TF-IDF cosine similarity is an input: `Computed(base)` gives, for each job, 70 times the similarity, in tenths. `VectorizerFailed` is the vectoriser's `ValueError`, after which every similarity is 0.
- **Rounding.** A job's score is `Clamp(base + 10 * delta)`. The rule delta is a whole number and the clamp bounds are whole numbers. So rounding the similarity part to tenths first gives the value that `round(max(0, min(100, 70*sim + delta)), 1)` gives in exact arithmetic.
- **Operation form.** Code that the source writes step by step is a method with loops or sequential updates, proved equal to a specification function. This covers the roadmap and bullet loops, the score accumulation, the scoring loop and the counter. The properties are then lemmas about those functions.

Two behaviours of the code are easy to miss, and the model keeps both:

- **Fallback reasons** (ai/recommender.py:90-93). When the rules give no reason and the student text is non-empty, the code adds "Profile text matched job description". Whenever the student text is empty, it appends "Complete your profile to get better matches". It does this even after rule reasons such as the CGPA ones. `Recommender.WithFallbackMeaning` and `Recommender.RecommendEmptyProfile` state this.
- **Comma fallback** (portal/utils.py:13-17). `split_projects` splits the newline-replaced text on commas only when every `;`-piece is blank. Then the text has no comma, so the comma split never splits anything. It returns the stripped text as one piece, or nothing. `Utils.SplitProjectsFallback`, `Utils.BlankPiecesNoComma` and `Utils.SplitProjectsSemicolonOnly` (`";"` gives `[";"]`) state this. A comma-separated list stays one project (`Utils.SplitProjectsOnePiece`).

## Model

| member | source | states |
|---|---|---|
| Text.Lower | portal/utils.py:7 | `str.lower` on ASCII: same length, each character lower-cased |
| Text.Strip | portal/utils.py:7 | `str.strip`: the result neither starts nor ends with whitespace, is empty exactly when the input is blank, and uses only characters of the input |
| Text.TrimStartSpec | portal/utils.py:7 | trimming the front removes a whitespace prefix and leaves a suffix that does not start with whitespace |
| Text.TrimEndSpec | portal/utils.py:7 | trimming the back removes a whitespace suffix and leaves a prefix that does not end with whitespace |
| Text.StripTrimmed | portal/utils.py:7 | stripping already-trimmed text changes nothing |
| Text.StripAround | portal/utils.py:7 | stripping blank-padded text gives back exactly its core |
| Text.TitleAt | portal/utils.py:64 | `str.title`: a letter after a non-letter (or at the start) is upper-cased, every other letter lower-cased, other characters kept |
| Text.TitleIgnoresCase | ai/recommender.py:37 | title-casing a lower-cased token equals title-casing the raw text |
| Text.Split | portal/utils.py:7 | `s.split(c)`: at least one piece, no piece contains `c`, and joining the pieces with `c` gives back `s` |
| Text.SplitAppend | portal/utils.py:7 | the pieces of `a + c + b` are the pieces of `a` followed by those of `b` |
| Text.SplitNoSeparator | portal/utils.py:7 | text without the separator splits into itself alone |
| Text.SplitChars | portal/utils.py:14 | a character absent from `s` is absent from every piece of its split |
| Text.Replace | portal/utils.py:13 | `s.replace(a, b)`: same length, each `a` replaced by `b`, other characters kept |
| Text.ReplaceAbsent | portal/utils.py:13 | replacing an absent character changes nothing |
| StringOrder.LessIrreflexive | portal/utils.py:52 | Python string order is irreflexive |
| StringOrder.LessTransitive | portal/utils.py:52 | Python string order is transitive |
| StringOrder.LessTotal | portal/utils.py:52 | any two different strings are ordered one way or the other |
| StringOrder.SortedUnique | portal/utils.py:52 | `sorted(set(xs))`: strictly ascending, with exactly the elements of `xs` |
| StringOrder.AscendingUnique | portal/utils.py:52 | a set has only one strictly ascending listing |
| StringOrder.AscendingLength | ai/recommender.py:34 | a strictly ascending list is as long as its set of elements |
| StableSort.SortDesc | ai/recommender.py:103 | the sort keeps length and elements (a permutation) |
| StableSort.SortDescOrdered | ai/recommender.py:103 | the sorted list has non-increasing keys |
| StableSort.SortDescStable | ai/recommender.py:103 | elements with equal keys keep their input order |
| StableSort.SortDescIsStableSort | ai/recommender.py:103 | `SortDesc` is a stable sort by non-increasing key |
| StableSort.StableSortDescUnique | ai/recommender.py:103 | two ordered sequences with the same elements per key, in the same order, are equal |
| StableSort.StableSortIsSortDesc | ai/recommender.py:103 | every stable descending sort of a list is `SortDesc` of it |
| Utils.NonBlankPieces | portal/utils.py:7 | keeping the stripped non-blank pieces gives non-empty trimmed strings, no more of them than pieces |
| Utils.NonBlankPiecesAppend | portal/utils.py:7 | filtering pieces commutes with concatenation, so order is kept |
| Utils.NonBlankPiecesEmpty | portal/utils.py:14-15 | nothing is kept exactly when every piece is blank |
| Utils.SplitCsv | portal/utils.py:4-7 | `split_csv("")` is `[]`; every token is non-empty, trimmed, lower-case and comma-free |
| Utils.SplitCsvUnguarded | portal/utils.py:4-7 | the empty-text guard agrees with the general case |
| Utils.SplitCsvAppend | portal/utils.py:4-7 | the tokens of `a,b` are the tokens of `a` followed by those of `b`: input order kept, duplicates not removed |
| Utils.SplitCsvOnePiece | portal/utils.py:4-7 | comma-free text gives no token when blank, else exactly its stripped lower-cased text |
| Utils.PieceToken | portal/utils.py:7 | a blank-padded comma-free piece gives exactly its lower-cased core |
| Utils.SplitProjects | portal/utils.py:10-17 | `split_projects("")` is `[]`; every project is non-empty, trimmed and newline-free |
| Utils.SplitProjectsPieces | portal/utils.py:13-17 | whenever the `;` pass (newlines read as `;`, blank pieces dropped, the rest stripped) finds a project, its pieces are the result |
| Utils.ReplaceAppend | portal/utils.py:13 | `replace` of one character works piecewise over a concatenation |
| Utils.SemicolonPiecesAppend | portal/utils.py:13-14 | around a `;` or a newline, the `;` pass gives the projects of the left part followed by those of the right part |
| Utils.SemicolonPiecesOne | portal/utils.py:13-14 | text with no `;` and no newline gives nothing when it is blank, and otherwise its stripped text, case kept, as the one project |
| Utils.SplitProjectsSemicolonFree | portal/utils.py:13-14 | when the `;` pass finds something, no project contains `;` |
| Utils.SplitProjectsOnePiece | portal/utils.py:10-15 | non-blank text with no newline and no `;` is one project, its stripped text, even when it has commas |
| Utils.SplitProjectsFallback | portal/utils.py:13-17 | the comma fallback gives the stripped newline-replaced text as one project, or nothing when it is blank |
| Utils.BlankPiecesNoComma | portal/utils.py:14-16 | when every `;`-piece is blank the text has no comma, so the comma split cannot divide it |
| Utils.OnePieceNonBlank | portal/utils.py:14-16 | splitting separator-free text keeps it whole when non-blank, else nothing |
| Utils.SplitProjectsSemicolonOnly | portal/utils.py:10-17 | `split_projects(";")` is `[";"]` |
| Utils.Steps | portal/utils.py:20-63 | the steps for a skill are its table entry when it has one, else the three generic steps; always three |
| Utils.Keep | ai/recommender.py:34 | keeping the elements in a set gives the intersection |
| Utils.Without | portal/utils.py:52 | dropping the elements in a set gives the difference |
| Utils.MissingSkills | portal/utils.py:50-52 | the missing skills are strictly ascending and exactly the required tokens not among the student's |
| Utils.MissingExactly | portal/utils.py:50-52 | the missing list is determined by its set: any ascending listing of the difference is it |
| Utils.MissingOneExtra | portal/utils.py:50-52 | adding one new required token to the student's own skills makes exactly that token missing |
| Utils.GenerateSkillGap | portal/utils.py:49-65 | `missing` is strictly ascending and equals the required-minus-student token set; the roadmap is aligned with it, entry i titled `title(missing[i])` with that skill's three steps |
| Utils.BuildRoadmap | portal/utils.py:54-64 | the loop builds one entry per missing skill, in order, with the title-cased skill and its steps |
| Utils.Keywords | portal/utils.py:70-73 | there are one to three keywords, never none |
| Utils.KeywordsMeaning | portal/utils.py:70-73 | the keywords are the title-cased first min(3, n) required tokens, or the two defaults when there are none |
| Utils.GenerateResumeBullets | portal/utils.py:68-90 | exactly five bullets; bullet i is template i filled with the projects and keywords cycled modulo their counts |
| Utils.FillTemplates | portal/utils.py:85-88 | the indexed loop fills template i with project i mod count (or the fallback) and keyword i mod count |
| Utils.BulletsFallbacks | portal/utils.py:72-87 | without projects every bullet names "Academic project"; without skills the keywords alternate "Problem Solving", "Collaboration" |
| Utils.BulletsCoverInputs | portal/utils.py:85-88 | bullet `i` fills template `i` with `projects[i]` when there are more than `i` projects, and with `keywords[i]` when there are more than `i` keywords |
| Utils.BulletsCycle | portal/utils.py:86-87 | bullets `i` and `i + len(projects)` name the same project, and bullets `i` and `i + len(keywords)` the same keyword, when both are among the five |
| Utils.FirstOccurrences | portal/utils.py:94-96 | the counter's keys are exactly the distinct skills seen |
| Utils.FirstOccurrencesDistinct | portal/utils.py:94-96 | the counter's keys are distinct |
| Utils.OccurrencesPositive | portal/utils.py:96 | a skill has a positive count exactly when it was seen |
| Utils.CountItems | portal/utils.py:97 | each item pairs a key with its number of occurrences |
| Utils.MostCommon | portal/utils.py:97 | `most_common(n)` returns min(n, number of keys) items, none for n <= 0 |
| Utils.Counter.Add | portal/utils.py:96 | adding a key keeps the counter consistent with the sequence of keys seen |
| Utils.Counter.Update | portal/utils.py:96 | `update(keys)` adds each key in order |
| Utils.Counter.Items | portal/utils.py:97 | the items are each key in first-seen order with its occurrence count |
| Utils.Counter.MostCommonItems | portal/utils.py:97 | `most_common(n)` of the counter is the top-n of its items |
| Utils.TopSkillsFromProfiles | portal/utils.py:93-97 | counting every profile's `split_csv(skills)` and taking `most_common(limit)` gives `TopSkills` |
| Utils.TopSkillsDefaultLimit | portal/utils.py:93-97 | with the default limit, at most eight skills are returned |
| Utils.MostCommonOrdered | portal/utils.py:97 | the most common items come in non-increasing count |
| Utils.MostCommonMaximal | portal/utils.py:97 | an item left out counts no more than any item returned |
| Utils.CountItemsOnly | portal/utils.py:96-97 | every counted pair is a seen skill with its exact total number of occurrences, at least one |
| Utils.CountItemsHas | portal/utils.py:96-97 | every seen skill is counted with its total |
| Utils.CounterTopLength | portal/utils.py:97 | at most `limit` pairs: min(limit, distinct skills), none for limit <= 0 |
| Utils.CounterTopEntries | portal/utils.py:93-97 | each pair is a seen skill with its total occurrences across all profiles; counts are non-increasing |
| Utils.CounterTopDistinct | portal/utils.py:97 | no skill appears twice among the top pairs |
| Utils.CounterTopMaximal | portal/utils.py:97 | a skill left out occurs no more often than any skill returned |
| Recommender.NonEmptyFields | ai/recommender.py:15 | the kept fields are non-empty, and none are kept exactly when all are empty |
| Recommender.NonEmptyFieldsAppend | ai/recommender.py:15 | filtering a concatenation filters each part, in order |
| Recommender.NonEmptyFieldsOne | ai/recommender.py:15 | a single field is kept exactly when it is non-empty |
| Recommender.NonEmptyFieldsFour | ai/recommender.py:15 | filtering four fields keeps each of them in turn when it is non-empty |
| Recommender.JoinFieldsEmpty | ai/recommender.py:15 | a joined text is empty exactly when every field is empty |
| Recommender.StudentText | ai/recommender.py:8-15 | the student text is empty exactly when skills, interests, projects and certifications are all empty |
| Recommender.JobText | ai/recommender.py:18-25 | the job text is empty exactly when description, required skills, title and company are all empty |
| Recommender.StudentTextFields | ai/recommender.py:8-15 | the student text is the non-empty ones of skills, interests, projects and certifications, in that order, joined by single spaces |
| Recommender.JobTextFields | ai/recommender.py:18-25 | the job text is the non-empty ones of description, required skills, title and company, in that order, joined by single spaces |
| Recommender.OverlapSpec | ai/recommender.py:32-34 | the overlap is strictly ascending and exactly the shared skill tokens, one each |
| Recommender.RuleBasedScore | ai/recommender.py:28-59 | the accumulated points and reasons are the rule delta and the rule reasons |
| Recommender.Accumulate | ai/recommender.py:35-57 | the check-by-check accumulation adds the points and appends the reasons of each check that applies |
| Recommender.ReasonsFrom | ai/recommender.py:29-57 | at most four reasons |
| Recommender.RuleDeltaSums | ai/recommender.py:32-57 | delta = 5 x shared skills + (-50 below / +10 at or above min CGPA, when present) + 8 for the branch + 5 for the location |
| Recommender.RuleReasonsOrdered | ai/recommender.py:35-57 | reasons come in the order skills, CGPA, branch, location, each at most once |
| Recommender.RuleReasonsMeaning | ai/recommender.py:35-57 | each reason appears exactly when its rule applies; "CGPA meets requirement" includes equality |
| Recommender.SkillsReasonRank | ai/recommender.py:37 | the skills reason is none of the fixed reasons |
| Recommender.BlankBranchNeverMatches | ai/recommender.py:47-51 | a whitespace-only branch never matches |
| Recommender.NoReasonsNoPoints | ai/recommender.py:28-59 | no reason means a zero delta |
| Recommender.BaseScores | ai/recommender.py:77-81 | after a vectoriser failure every job has similarity 0 |
| Recommender.Clamp | ai/recommender.py:88 | the score lies in [0, 100], is unchanged inside it, and saturates at either end |
| Recommender.WithFallback | ai/recommender.py:90-93 | after the fallback no reasons list is empty |
| Recommender.WithFallbackMeaning | ai/recommender.py:90-93 | the rule reasons are kept; the generic reason is added only to an empty list with some profile text; the profile prompt is added whenever the student text is empty |
| Recommender.Unranked | ai/recommender.py:84 | `zip` pairs as many jobs as there are similarities, and no more than there are jobs |
| Recommender.Scored | ai/recommender.py:84-101 | after `i` passes the loop has `i` results |
| Recommender.ScoredAt | ai/recommender.py:84-101 | result `k` of the loop is the rating of job `k` with similarity `k` |
| Recommender.UnrankedAt | ai/recommender.py:84-101 | before the sort, result `k` rates job `k` with similarity `k`: the clamped score and the fallback reasons of that job |
| Recommender.InsufficientData | ai/recommender.py:70-74 | every job in input order with score 0 and the one "insufficient data" reason |
| Recommender.CorpusEmptyMeaning | ai/recommender.py:69-70 | the corpus is empty exactly when the student text and every job text are empty |
| Recommender.JobTexts | ai/recommender.py:67 | one text per job, in order |
| Recommender.RecommendJobs | ai/recommender.py:62-104 | the method returns what `Recommend` specifies |
| Recommender.ScoreJobs | ai/recommender.py:83-101 | the scoring loop produces the unranked results |
| Recommender.ScoreJob | ai/recommender.py:85-101 | one loop pass rates its job |
| Recommender.Finish | ai/recommender.py:87-101 | the clamped score and the fallback reasons of one job |
| Recommender.RecommendGuards | ai/recommender.py:63-74 | no jobs gives `[]`; an empty corpus gives every job in order with score 0 and reasons exactly `["Insufficient data for recommendation."]` |
| Recommender.RecommendRanked | ai/recommender.py:84-103 | on the scoring path the results are a permutation of the scored jobs, in non-increasing score, with ties in input order |
| Recommender.RankedEntry | ai/recommender.py:84-101 | each ranked result is the rating of one of the input jobs with its similarity |
| Recommender.RecommendWellFormed | ai/recommender.py:62-104 | on every path every score lies in [0, 100] and every reasons list is non-empty |
| Recommender.VectorizerFailedEntry | ai/recommender.py:80-88 | after a vectoriser failure a result's score is the clamped rule delta of its job |
| Recommender.RecommendVectorizerFailed | ai/recommender.py:76-88 | after a vectoriser failure every job still gets one result, scored `clamp(delta, 0, 100)` |
| Recommender.RecommendEmptyProfile | ai/recommender.py:90-93 | with empty student text every result's reasons are its rule reasons followed by the profile prompt |
| Recommender.JobsOf | ai/recommender.py:95-101 | the jobs of the results, position by position |
| Recommender.JobsOfAppend | ai/recommender.py:95-101 | taking jobs commutes with concatenation |
| Recommender.JobsOfInsert | ai/recommender.py:103 | inserting a result adds its job to the multiset of jobs |
| Recommender.JobsOfSort | ai/recommender.py:103 | sorting the results permutes their jobs |
| Recommender.RecommendPermutesJobs | ai/recommender.py:62-104 | with one similarity per job, the output lists every input job exactly as often as the input does |

## Left out

- TF-IDF vectorisation and cosine similarity (ai/recommender.py:76-79) are library calls on floating point. The similarity is an input. Only the fallback to zero similarities on `ValueError` is modelled.
- Floating-point arithmetic and `round(final_score, 1)`: scores are exact tenths, and the rounded similarity part is the input. Representation effects of binary floats, such as ties in rounding, are not modelled.
- Recommender.RecommendPermutesJobs: it assumes one similarity per job, which TF-IDF always produces. With a shorter similarity list `zip` truncates, and the model does the same (`Recommender.Unranked`), but then the output is not a permutation.
- Unicode rules of `lower`, `strip`, `isspace` and `title`: only ASCII letters change case, and whitespace is the ASCII whitespace `str.isspace` recognises.
- Python dicts as results: each result is the datatype `Recommendation`. `results.sort` changes the list in place; the model assigns the sorted sequence instead.
- `Counter.most_common` is modelled as a stable sort by count, highest first, then the first `n`, which is what it returns. Its heap-based implementation is not modelled.
- The range checks on CGPA that the forms and models perform are not part of this model. The model keeps only their result: the type `Hundredths`, 0..1000.
- Django views, ORM queries, forms, authentication, routing, the admin, seed data and migrations are not part of this model.
