/**
 * The helpers of the placement portal: the text normalisers shared with the
 * recommender, the skill-gap roadmap, the resume-bullet generator and the
 * skill counter behind the recruiter analytics page (portal/utils.py).
 */
module Utils {
  import opened Text
  import opened StringOrder
  import opened StableSort
  import opened Records

  // ---------------------------------------------------------------------
  // Text normalisers

  /** `[p.strip() for p in pieces if p.strip()]` */
  function NonBlankPieces(pieces: seq<string>): (r: seq<string>)
    ensures |r| <= |pieces|
    ensures forall k :: 0 <= k < |r| ==> r[k] != [] && IsTrimmed(r[k])
  {
    if pieces == [] then []
    else
      var t := Strip(pieces[0]);
      (if t == [] then [] else [t]) + NonBlankPieces(pieces[1..])
  }

  lemma {:induction false} NonBlankPiecesAppend(a: seq<string>, b: seq<string>)
    ensures NonBlankPieces(a + b) == NonBlankPieces(a) + NonBlankPieces(b)
  {
    if a == [] {
      assert a + b == b;
    } else {
      var t := Strip(a[0]);
      var head: seq<string> := if t == [] then [] else [t];
      assert (a + b)[0] == a[0];
      assert (a + b)[1..] == a[1..] + b;
      NonBlankPiecesAppend(a[1..], b);
      calc {
        NonBlankPieces(a + b);
        head + NonBlankPieces(a[1..] + b);
        head + (NonBlankPieces(a[1..]) + NonBlankPieces(b));
        { SeqAssoc(head, NonBlankPieces(a[1..]), NonBlankPieces(b)); }
        (head + NonBlankPieces(a[1..])) + NonBlankPieces(b);
        NonBlankPieces(a) + NonBlankPieces(b);
      }
    }
  }

  /** Nothing survives exactly when every piece is blank. */
  lemma {:induction false} NonBlankPiecesEmpty(pieces: seq<string>)
    ensures NonBlankPieces(pieces) == [] <==> forall k :: 0 <= k < |pieces| ==> IsBlank(pieces[k])
  {
    if pieces != [] {
      var rest := pieces[1..];
      NonBlankPiecesEmpty(rest);
      var t := Strip(pieces[0]);
      assert NonBlankPieces(pieces) == (if t == [] then [] else [t]) + NonBlankPieces(rest);
      if NonBlankPieces(pieces) == [] {
        assert t == [] && NonBlankPieces(rest) == [];
        forall k | 0 <= k < |pieces| ensures IsBlank(pieces[k]) {
          if k > 0 { assert pieces[k] == rest[k - 1]; }
        }
      }
      if forall k :: 0 <= k < |pieces| ==> IsBlank(pieces[k]) {
        assert IsBlank(pieces[0]);
        forall k | 0 <= k < |rest| ensures IsBlank(rest[k]) {
          assert rest[k] == pieces[k + 1];
        }
      }
    }
  }

  /** Joining blank pieces gives text made of whitespace and separators. */
  lemma {:induction false} JoinBlankPieces(pieces: seq<string>, sep: string)
    requires forall k :: 0 <= k < |pieces| ==> IsBlank(pieces[k])
    ensures forall i :: 0 <= i < |Join(pieces, sep)| ==> IsSpace(Join(pieces, sep)[i]) || Join(pieces, sep)[i] in sep
  {
    if |pieces| > 1 {
      var rest := pieces[1..];
      assert forall k :: 0 <= k < |rest| ==> rest[k] == pieces[k + 1];
      JoinBlankPieces(rest, sep);
      var r := Join(pieces, sep);
      assert r == pieces[0] + sep + Join(rest, sep);
      forall i | 0 <= i < |r| ensures IsSpace(r[i]) || r[i] in sep {
        if i < |pieces[0]| {
          assert r[i] == pieces[0][i];
        } else if i < |pieces[0]| + |sep| {
          assert r[i] == sep[i - |pieces[0]|];
        } else {
          assert r[i] == Join(rest, sep)[i - |pieces[0]| - |sep|];
        }
      }
    } else if |pieces| == 1 {
      assert IsBlank(pieces[0]);
    }
  }

  /** A character absent from every piece is absent from every result. */
  lemma {:induction false} NonBlankPiecesAvoid(pieces: seq<string>, x: char)
    requires forall k :: 0 <= k < |pieces| ==> x !in pieces[k]
    ensures forall k :: 0 <= k < |NonBlankPieces(pieces)| ==> x !in NonBlankPieces(pieces)[k]
  {
    if pieces != [] {
      assert forall k :: 0 <= k < |pieces[1..]| ==> pieces[1..][k] == pieces[k + 1];
      NonBlankPiecesAvoid(pieces[1..], x);
    }
  }

  function LowerAll(xs: seq<string>): (r: seq<string>)
    ensures |r| == |xs|
    ensures forall k :: 0 <= k < |xs| ==> r[k] == Lower(xs[k])
  {
    if xs == [] then [] else [Lower(xs[0])] + LowerAll(xs[1..])
  }

  lemma LowerAllAppend(a: seq<string>, b: seq<string>)
    ensures LowerAll(a + b) == LowerAll(a) + LowerAll(b)
  {
  }

  function TitleAll(xs: seq<string>): (r: seq<string>)
    ensures |r| == |xs|
    ensures forall k :: 0 <= k < |xs| ==> r[k] == Title(xs[k])
  {
    if xs == [] then [] else [Title(xs[0])] + TitleAll(xs[1..])
  }

  /** A normalised token: non-empty, trimmed, lower-case, comma-free. */
  predicate IsToken(t: string) {
    t != [] && IsTrimmed(t) && IsLowerCase(t) && ',' !in t
  }

  /** Lower-casing a trimmed comma-free piece gives a token. */
  lemma LowerToken(t: string)
    requires t != [] && IsTrimmed(t) && ',' !in t
    ensures IsToken(Lower(t))
  {
    var l := Lower(t);
    forall i | 0 <= i < |t| ensures l[i] != ',' {
      assert t[i] != ',';
    }
  }

  /** `split_csv`: comma-separated text as trimmed, lower-cased, non-empty
      tokens, in input order and with duplicates kept. */
  function SplitCsv(text: string): (r: seq<string>)
    ensures text == [] ==> r == []
    ensures forall k :: 0 <= k < |r| ==> IsToken(r[k])
  {
    if text == [] then []
    else
      var pieces := Split(text, ',');
      var kept := NonBlankPieces(pieces);
      NonBlankPiecesAvoid(pieces, ',');
      forall k | 0 <= k < |kept| ensures IsToken(Lower(kept[k])) { LowerToken(kept[k]); }
      LowerAll(kept)
  }

  /** The token set `set(split_csv(text))`. */
  function TokenSet(text: string): set<string> {
    Elems(SplitCsv(text))
  }

  lemma SplitCsvUnguarded(text: string)
    ensures SplitCsv(text) == LowerAll(NonBlankPieces(Split(text, ',')))
  {
    if text == [] {
      assert Split(text, ',') == [[]];
      assert Strip([]) == [];
    }
  }

  /** Tokens keep their order and duplicates: the tokens of two texts joined
      by a comma are the tokens of the first followed by those of the second. */
  lemma SplitCsvAppend(a: string, b: string)
    ensures SplitCsv(a + "," + b) == SplitCsv(a) + SplitCsv(b)
  {
    SplitAppend(a, b, ',');
    SplitCsvUnguarded(a + "," + b);
    SplitCsvUnguarded(a);
    SplitCsvUnguarded(b);
    NonBlankPiecesAppend(Split(a, ','), Split(b, ','));
    LowerAllAppend(NonBlankPieces(Split(a, ',')), NonBlankPieces(Split(b, ',')));
  }

  /** Text without a comma is one token, or none when it is blank. */
  lemma SplitCsvOnePiece(text: string)
    requires ',' !in text
    ensures SplitCsv(text) == if IsBlank(text) then [] else [Lower(Strip(text))]
  {
    SplitCsvUnguarded(text);
    SplitNoSeparator(text, ',');
    assert NonBlankPieces([text]) == (if Strip(text) == [] then [] else [Strip(text)]) + NonBlankPieces([]);
  }

  /** A comma-free piece with blanks around a trimmed core is one token. */
  lemma PieceToken(piece: string, pre: string, core: string, post: string)
    requires piece == pre + core + post && ',' !in piece
    requires IsBlank(pre) && IsBlank(post) && core != [] && IsTrimmed(core)
    ensures SplitCsv(piece) == [Lower(core)]
  {
    StripAround(pre, core, post);
    SplitCsvOnePiece(piece);
  }

  /** `split_projects`: newline- or semicolon-separated project names,
      trimmed, case kept; when no piece survives, the same text split on
      commas instead. */
  function SplitProjects(text: string): (r: seq<string>)
    ensures text == [] ==> r == []
    ensures forall k :: 0 <= k < |r| ==> r[k] != [] && IsTrimmed(r[k]) && '\n' !in r[k]
  {
    if text == [] then []
    else
      var raw := Replace(text, '\n', ';');
      var parts := NonBlankPieces(Split(raw, ';'));
      SplitChars(raw, ';', '\n');
      SplitChars(raw, ',', '\n');
      NonBlankPiecesAvoid(Split(raw, ';'), '\n');
      NonBlankPiecesAvoid(Split(raw, ','), '\n');
      if parts == [] then NonBlankPieces(Split(raw, ',')) else parts
  }

  /** The semicolon pass of `split_projects`: newlines become `;`, the text
      is split on `;`, and the non-blank pieces are kept, stripped. */
  function SemicolonPieces(text: string): seq<string> {
    NonBlankPieces(Split(Replace(text, '\n', ';'), ';'))
  }

  /** Whenever the semicolon pass finds a project, those are the projects. */
  lemma SplitProjectsPieces(text: string)
    requires SemicolonPieces(text) != []
    ensures SplitProjects(text) == SemicolonPieces(text)
  {
  }

  lemma ReplaceAppend(a: string, b: string, x: char, y: char)
    ensures Replace(a + b, x, y) == Replace(a, x, y) + Replace(b, x, y)
  {
    assert forall i :: 0 <= i < |a + b| ==> Replace(a + b, x, y)[i] == (Replace(a, x, y) + Replace(b, x, y))[i];
  }

  /** Around a separator (`;` or a newline), the semicolon pass yields the
      projects of the left part followed by those of the right part, in
      order. */
  lemma SemicolonPiecesAppend(a: string, b: string, sep: char)
    requires sep == ';' || sep == '\n'
    ensures SemicolonPieces(a + [sep] + b) == SemicolonPieces(a) + SemicolonPieces(b)
  {
    var ra, rb := Replace(a, '\n', ';'), Replace(b, '\n', ';');
    ReplaceAppend(a + [sep], b, '\n', ';');
    ReplaceAppend(a, [sep], '\n', ';');
    assert Replace([sep], '\n', ';') == [';'];
    assert Replace(a + [sep] + b, '\n', ';') == ra + [';'] + rb;
    SplitAppend(ra, rb, ';');
    NonBlankPiecesAppend(Split(ra, ';'), Split(rb, ';'));
  }

  /** A piece with no separator is one project, stripped and with its case
      kept, unless it is blank. */
  lemma SemicolonPiecesOne(text: string)
    requires '\n' !in text && ';' !in text
    ensures SemicolonPieces(text) == if IsBlank(text) then [] else [Strip(text)]
  {
    ReplaceAbsent(text, '\n', ';');
    OnePieceNonBlank(text, ';');
  }

  /** On the semicolon path no project name holds a semicolon. */
  lemma SplitProjectsSemicolonFree(text: string)
    requires SemicolonPieces(text) != []
    ensures forall k :: 0 <= k < |SplitProjects(text)| ==> ';' !in SplitProjects(text)[k]
  {
    var raw := Replace(text, '\n', ';');
    NonBlankPiecesAvoid(Split(raw, ';'), ';');
  }

  /** Non-blank text with no newline and no semicolon is one project, commas
      and all: a comma-separated list stays a single project. */
  lemma SplitProjectsOnePiece(text: string)
    requires !IsBlank(text) && '\n' !in text && ';' !in text
    ensures SplitProjects(text) == [Strip(text)]
  {
    ReplaceAbsent(text, '\n', ';');
    SplitNoSeparator(text, ';');
    assert NonBlankPieces([text]) == [Strip(text)] + NonBlankPieces([]);
  }

  /** The comma fallback runs only when every semicolon piece is blank; the
      text then holds no comma, so the fallback never splits anything: it
      yields the whole stripped text or nothing. */
  lemma SplitProjectsFallback(text: string)
    requires text != []
    requires SemicolonPieces(text) == []
    ensures var raw := Replace(text, '\n', ';');
      SplitProjects(text) == if IsBlank(raw) then [] else [Strip(raw)]
  {
    var raw := Replace(text, '\n', ';');
    BlankPiecesNoComma(raw);
    OnePieceNonBlank(raw, ',');
    assert SplitProjects(text) == NonBlankPieces(Split(raw, ','));
  }

  /** When every semicolon piece of `raw` is blank, `raw` has no comma. */
  lemma BlankPiecesNoComma(raw: string)
    requires NonBlankPieces(Split(raw, ';')) == []
    ensures ',' !in raw
  {
    NonBlankPiecesEmpty(Split(raw, ';'));
    BlankSplitNoComma(raw);
  }

  lemma BlankSplitNoComma(raw: string)
    requires forall k :: 0 <= k < |Split(raw, ';')| ==> IsBlank(Split(raw, ';')[k])
    ensures ',' !in raw
  {
    var pieces := Split(raw, ';');
    JoinBlankPieces(pieces, [';']);
    assert Join(pieces, [';']) == raw;
    forall i | 0 <= i < |raw| ensures raw[i] != ',' {
      assert IsSpace(raw[i]) || raw[i] in [';'];
    }
  }

  /** Text without the separator survives whole, stripped, unless blank. */
  lemma OnePieceNonBlank(raw: string, c: char)
    requires c !in raw
    ensures NonBlankPieces(Split(raw, c)) == if IsBlank(raw) then [] else [Strip(raw)]
  {
    SplitNoSeparator(raw, c);
    assert NonBlankPieces([raw]) == (if Strip(raw) == [] then [] else [Strip(raw)]) + NonBlankPieces([]);
  }

  /** `split_projects(";") == [";"]`: the fallback returns the separator. */
  lemma SplitProjectsSemicolonOnly()
    ensures SplitProjects(";") == [";"]
  {
    var raw := Replace(";", '\n', ';');
    assert raw == ";";
    assert Split(";", ';') == [[], []];
    assert Strip([]) == [];
    SplitProjectsFallback(";");
    assert Strip(";") == ";";
  }

  // ---------------------------------------------------------------------
  // Skill-gap roadmap

  /** `SKILL_ROADMAP`: three fixed steps for each of five normalised skills. */
  const SkillRoadmap: map<string, seq<string>> := map[
    "python" := [
      "Revise Python fundamentals and data structures.",
      "Build a mini project using APIs and file handling.",
      "Practice coding challenges focused on Python."],
    "django" := [
      "Learn Django models, views, and templates basics.",
      "Build CRUD app with authentication.",
      "Deploy a demo project locally."],
    "sql" := [
      "Learn SELECT, JOIN, GROUP BY queries.",
      "Practice normalization and schema design.",
      "Solve SQL interview questions daily."],
    "react" := [
      "Understand components, state, and props.",
      "Build a small dashboard UI.",
      "Learn API integration with fetch/axios."],
    "ml" := [
      "Revise linear regression and classification basics.",
      "Practice with scikit-learn pipelines.",
      "Build a simple text similarity model."]
  ]

  /** The generic three-step plan for a skill the table does not know. */
  function GenericSteps(skill: string): seq<string> {
    ["Learn " + skill + " fundamentals.",
     "Build a mini project using " + skill + ".",
     "Practice interview questions on " + skill + "."]
  }

  /** `SKILL_ROADMAP.get(skill, generic)`: always three steps. */
  function Steps(skill: string): (r: seq<string>)
    ensures |r| == 3
    ensures skill in SkillRoadmap ==> r == SkillRoadmap[skill]
    ensures skill !in SkillRoadmap ==> r == GenericSteps(skill)
  {
    if skill in SkillRoadmap then SkillRoadmap[skill] else GenericSteps(skill)
  }

  /** One roadmap entry: the display-cased skill and its steps. */
  datatype RoadmapItem = RoadmapItem(skill: string, steps: seq<string>)

  /** `[x for x in xs if x in s]` */
  function Keep(xs: seq<string>, s: set<string>): (r: seq<string>)
    ensures Elems(r) == Elems(xs) * s
  {
    if xs == [] then []
    else
      assert xs == [xs[0]] + xs[1..];
      (if xs[0] in s then [xs[0]] else []) + Keep(xs[1..], s)
  }

  /** `[x for x in xs if x not in s]` */
  function Without(xs: seq<string>, s: set<string>): (r: seq<string>)
    ensures Elems(r) == Elems(xs) - s
  {
    if xs == [] then []
    else
      assert xs == [xs[0]] + xs[1..];
      (if xs[0] !in s then [xs[0]] else []) + Without(xs[1..], s)
  }

  /** `sorted(set(split_csv(required)) - set(split_csv(skills)))`: the
      required skills a student lacks, ascending, each once. */
  function MissingSkills(skills: string, required: string): (r: seq<string>)
    ensures StrictlyAscending(r)
    ensures Elems(r) == TokenSet(required) - TokenSet(skills)
  {
    SortedUnique(Without(SplitCsv(required), TokenSet(skills)))
  }

  /** `generate_skill_gap`: the missing skills and one roadmap entry per
      missing skill, in the same order. */
  method GenerateSkillGap(profile: Profile, job: Job) returns (missing: seq<string>, roadmap: seq<RoadmapItem>)
    ensures StrictlyAscending(missing)
    ensures Elems(missing) == TokenSet(job.requiredSkills) - TokenSet(profile.skills)
    ensures |roadmap| == |missing|
    ensures forall i :: 0 <= i < |missing| ==>
      roadmap[i].skill == Title(missing[i]) && roadmap[i].steps == Steps(missing[i])
    ensures forall i :: 0 <= i < |roadmap| ==> |roadmap[i].steps| == 3
  {
    missing := MissingSkills(profile.skills, job.requiredSkills);
    roadmap := BuildRoadmap(missing);
  }

  /** The loop of `generate_skill_gap`: one roadmap entry per skill. */
  method BuildRoadmap(missing: seq<string>) returns (roadmap: seq<RoadmapItem>)
    ensures |roadmap| == |missing|
    ensures forall i :: 0 <= i < |missing| ==>
      roadmap[i].skill == Title(missing[i]) && roadmap[i].steps == Steps(missing[i])
  {
    roadmap := [];
    for i := 0 to |missing|
      invariant |roadmap| == i
      invariant forall k :: 0 <= k < i ==>
        roadmap[k].skill == Title(missing[k]) && roadmap[k].steps == Steps(missing[k])
    {
      var steps := Steps(missing[i]);
      roadmap := roadmap + [RoadmapItem(Title(missing[i]), steps)];
    }
  }

  /** A job that asks for the student's skills plus one more skill `t`
      that the student lacks misses exactly `t`: skills "python, sql"
      against "python, sql, django" miss exactly "django". */
  lemma MissingOneExtra(skills: string, extra: string, t: string)
    requires SplitCsv(extra) == [t] && t !in TokenSet(skills)
    ensures MissingSkills(skills, skills + "," + extra) == [t]
  {
    var have := SplitCsv(skills);
    var required := skills + "," + extra;
    SplitCsvAppend(skills, extra);
    assert SplitCsv(required) == have + [t];
    ElemsSnoc(have, t);
    assert TokenSet(required) == TokenSet(skills) + {t};
    MissingExactly(skills, required, {t}, [t]);
  }

  /** The missing skills are determined by the set they form. */
  lemma MissingExactly(skills: string, required: string, gap: set<string>, expected: seq<string>)
    requires TokenSet(required) - TokenSet(skills) == gap
    requires StrictlyAscending(expected) && Elems(expected) == gap
    ensures MissingSkills(skills, required) == expected
  {
    AscendingUnique(MissingSkills(skills, required), expected);
  }

  // ---------------------------------------------------------------------
  // Resume bullets

  /** A sentence with a `{project}` slot followed by a `{skill}` slot. */
  datatype Template = Template(before: string, middle: string, after: string)

  /** `template.format(project=..., skill=...)` */
  function Format(t: Template, project: string, skill: string): string {
    t.before + project + t.middle + skill + t.after
  }

  /** The five bullet templates, in order. */
  const Templates: seq<Template> := [
    Template("Built ", " leveraging ", " to deliver measurable results."),
    Template("Designed and implemented ", " focusing on ", " and clean architecture."),
    Template("Collaborated on ", " to improve ", " proficiency and delivery speed."),
    Template("Optimized ", " by applying ", " for better performance."),
    Template("Documented ", " outcomes highlighting ", " and impact.")
  ]

  const FallbackProject: string := "Academic project"

  const DefaultKeywords: seq<string> := ["Problem Solving", "Collaboration"]

  /** The keywords of a job: its first three required skills title-cased, or
      two generic ones when it lists none. Never empty. */
  function Keywords(required: string): (r: seq<string>)
    ensures 1 <= |r| <= 3
  {
    var jobSkills := SplitCsv(required);
    var keywords := TitleAll(if |jobSkills| < 3 then jobSkills else jobSkills[..3]);
    if keywords == [] then DefaultKeywords else keywords
  }

  /** Which keywords a job yields: the defaults exactly when it lists no
      skill, otherwise its first `min(3, n)` skills, title-cased, in order. */
  lemma KeywordsMeaning(required: string)
    ensures var skills, r := SplitCsv(required), Keywords(required);
      (skills == [] ==> r == DefaultKeywords) &&
      (skills != [] ==>
        |r| == (if |skills| < 3 then |skills| else 3) &&
        forall k :: 0 <= k < |r| ==> r[k] == Title(skills[k]))
  {
  }

  /** The project filled into bullet `i`. */
  function ProjectFor(projects: seq<string>, i: nat): string {
    if projects == [] then FallbackProject else projects[i % |projects|]
  }

  /** Bullet `i`: template `i` filled with the projects and the keywords
      cycled modulo their counts. */
  function Bullet(projects: seq<string>, keywords: seq<string>, i: nat): string
    requires keywords != [] && i < |Templates|
  {
    Format(Templates[i], ProjectFor(projects, i), keywords[i % |keywords|])
  }

  /** `generate_resume_bullets`: exactly five bullets; bullet `i` is template
      `i` with the projects and the keywords cycled modulo their counts. */
  method GenerateResumeBullets(profile: Profile, job: Job) returns (bullets: seq<string>)
    ensures |bullets| == |Templates| == 5
    ensures forall i :: 0 <= i < |bullets| ==>
      bullets[i] == Bullet(SplitProjects(profile.projects), Keywords(job.requiredSkills), i)
  {
    var projects := SplitProjects(profile.projects);
    var keywords := Keywords(job.requiredSkills);
    bullets := FillTemplates(projects, keywords);
  }

  /** The loop of `generate_resume_bullets` over the five templates. */
  method FillTemplates(projects: seq<string>, keywords: seq<string>) returns (bullets: seq<string>)
    requires keywords != []
    ensures |bullets| == |Templates|
    ensures forall i :: 0 <= i < |bullets| ==> bullets[i] == Bullet(projects, keywords, i)
  {
    bullets := [];
    for idx := 0 to |Templates|
      invariant |bullets| == idx
      invariant forall i :: 0 <= i < idx ==> bullets[i] == Bullet(projects, keywords, i)
    {
      var project := if projects != [] then projects[idx % |projects|] else FallbackProject;
      var skill := keywords[idx % |keywords|];
      bullets := bullets + [Format(Templates[idx], project, skill)];
    }
  }

  /** With no projects and no required skills every bullet is built from the
      fallbacks: "Academic project" and the two default keywords in turn. */
  lemma BulletsFallbacks(i: nat)
    requires i < 5
    ensures ProjectFor([], i) == "Academic project"
    ensures Keywords("")[i % |Keywords("")|] == if i % 2 == 0 then "Problem Solving" else "Collaboration"
  {
  }

  /** While they last, bullet `i` names project `i` and keyword `i`: the
      first bullets use the projects and the keywords in their order. */
  lemma BulletsCoverInputs(projects: seq<string>, keywords: seq<string>, i: nat)
    requires keywords != [] && i < |Templates|
    ensures i < |projects| ==>
      Bullet(projects, keywords, i) == Format(Templates[i], projects[i], keywords[i % |keywords|])
    ensures i < |keywords| ==>
      Bullet(projects, keywords, i) == Format(Templates[i], ProjectFor(projects, i), keywords[i])
  {
    if i < |projects| {
      assert ProjectFor(projects, i) == projects[i];
    }
    if i < |keywords| {
      assert i % |keywords| == i;
    }
  }

  /** Bullets `i` and `i + |projects|` name the same project, and bullets `i`
      and `i + |keywords|` the same keyword: both lists are cycled. */
  lemma BulletsCycle(projects: seq<string>, keywords: seq<string>, i: nat)
    requires keywords != []
    ensures projects != [] && i + |projects| < |Templates| ==>
      ProjectFor(projects, i + |projects|) == ProjectFor(projects, i)
    ensures i + |keywords| < |Templates| ==>
      keywords[(i + |keywords|) % |keywords|] == keywords[i % |keywords|]
  {
  }

  // ---------------------------------------------------------------------
  // Skill counts across profiles

  /** All skill tokens of all profiles, profile by profile. */
  function AllSkills(profiles: seq<Profile>): seq<string> {
    if profiles == [] then []
    else AllSkills(profiles[..|profiles| - 1]) + SplitCsv(profiles[|profiles| - 1].skills)
  }

  /** How often `t` occurs in `xs`. */
  function Occurrences(xs: seq<string>, t: string): nat {
    if xs == [] then 0
    else Occurrences(xs[..|xs| - 1], t) + (if xs[|xs| - 1] == t then 1 else 0)
  }

  /** The distinct elements of `xs` in order of first occurrence: the key
      order of a `Counter` fed with `xs`. */
  function FirstOccurrences(xs: seq<string>): (r: seq<string>)
    ensures Elems(r) == Elems(xs)
  {
    if xs == [] then []
    else
      var init := xs[..|xs| - 1];
      assert xs == init + [xs[|xs| - 1]];
      var d := FirstOccurrences(init);
      if xs[|xs| - 1] in init then d else d + [xs[|xs| - 1]]
  }

  predicate Distinct(s: seq<string>) {
    forall i, j :: 0 <= i < j < |s| ==> s[i] != s[j]
  }

  lemma {:induction false} FirstOccurrencesDistinct(xs: seq<string>)
    ensures Distinct(FirstOccurrences(xs))
  {
    if xs != [] {
      FirstOccurrencesDistinct(xs[..|xs| - 1]);
    }
  }

  /** A skill with its count. */
  type SkillCount = (string, int)

  function CountOf(e: SkillCount): int { e.1 }

  /** `counter.items()`: each key with its count, in key order. */
  function CountItems(keys: seq<string>, xs: seq<string>): (r: seq<SkillCount>)
    ensures |r| == |keys|
    ensures forall k :: 0 <= k < |keys| ==> r[k] == (keys[k], Occurrences(xs, keys[k]) as int)
  {
    if keys == [] then []
    else CountItems(keys[..|keys| - 1], xs) + [(keys[|keys| - 1], Occurrences(xs, keys[|keys| - 1]) as int)]
  }

  /** `counter.most_common(limit)`, which is `sorted(items, key=count,
      reverse=True)[:limit]`, and empty for a limit below one. */
  function MostCommon(items: seq<SkillCount>, limit: int): (r: seq<SkillCount>)
    ensures |r| == if limit <= 0 then 0 else if limit < |items| then limit else |items|
  {
    if limit <= 0 then []
    else
      var sorted := SortDesc(items, CountOf);
      if limit < |sorted| then sorted[..limit] else sorted
  }

  /** `most_common(limit)` of a counter fed with the keys `all`. */
  function CounterTop(all: seq<string>, limit: int): seq<SkillCount> {
    MostCommon(CountItems(FirstOccurrences(all), all), limit)
  }

  /** What `top_skills_from_profiles(profiles, limit)` returns. */
  function TopSkills(profiles: seq<Profile>, limit: int): seq<SkillCount> {
    CounterTop(AllSkills(profiles), limit)
  }

  const DefaultTopSkillsLimit := 8

  /** Called with the default limit, at most eight skills come back. */
  lemma TopSkillsDefaultLimit(profiles: seq<Profile>)
    ensures |TopSkills(profiles, DefaultTopSkillsLimit)| <= 8
  {
    CounterTopLength(AllSkills(profiles), DefaultTopSkillsLimit);
  }

  lemma OccurrencesSnoc(xs: seq<string>, t: string, k: string)
    ensures Occurrences(xs + [t], k) == Occurrences(xs, k) + (if t == k then 1 else 0)
  {
    assert (xs + [t])[..|xs|] == xs;
  }

  lemma FirstOccurrencesSnoc(xs: seq<string>, t: string)
    ensures FirstOccurrences(xs + [t]) == if t in xs then FirstOccurrences(xs) else FirstOccurrences(xs) + [t]
  {
    assert (xs + [t])[..|xs|] == xs;
  }

  lemma {:induction false} OccurrencesPositive(xs: seq<string>, t: string)
    ensures t in xs <==> Occurrences(xs, t) > 0
  {
    if xs != [] {
      var init := xs[..|xs| - 1];
      OccurrencesPositive(init, t);
      assert xs == init + [xs[|xs| - 1]];
    }
  }

  /** `collections.Counter`: a count per key, keys in order of first
      insertion. `seen` is every key fed to it so far. */
  class Counter {
    var counts: map<string, int>
    var order: seq<string>
    ghost var seen: seq<string>

    ghost predicate Valid()
      reads this
    {
      order == FirstOccurrences(seen) &&
      (forall k :: k in counts <==> k in seen) &&
      (forall k :: k in counts ==> counts[k] == Occurrences(seen, k) as int)
    }

    /** `Counter()` */
    constructor()
      ensures Valid() && seen == []
    {
      counts := map[];
      order := [];
      seen := [];
    }

    /** `counter[key] += 1` */
    method Add(key: string)
      requires Valid()
      modifies this
      ensures Valid() && seen == old(seen) + [key]
    {
      if key in counts {
        counts := counts[key := counts[key] + 1];
      } else {
        counts := counts[key := 1];
        order := order + [key];
      }
      FirstOccurrencesSnoc(seen, key);
      forall k ensures Occurrences(seen + [key], k) == Occurrences(seen, k) + (if key == k then 1 else 0) {
        OccurrencesSnoc(seen, key, k);
      }
      OccurrencesPositive(seen, key);
      seen := seen + [key];
    }

    /** `counter.update(keys)`: adds the keys one by one. */
    method Update(keys: seq<string>)
      requires Valid()
      modifies this
      ensures Valid() && seen == old(seen) + keys
    {
      for i := 0 to |keys|
        invariant Valid() && seen == old(seen) + keys[..i]
      {
        Add(keys[i]);
        assert keys[..i + 1] == keys[..i] + [keys[i]];
      }
      assert keys[..|keys|] == keys;
    }

    /** `counter.items()` */
    method Items() returns (items: seq<SkillCount>)
      requires Valid()
      ensures items == CountItems(FirstOccurrences(seen), seen)
    {
      items := [];
      for k := 0 to |order|
        invariant items == CountItems(order[..k], seen)
      {
        assert order[..k + 1][..k] == order[..k];
        assert order[k] in seen;
        items := items + [(order[k], counts[order[k]])];
      }
      assert order[..|order|] == order;
    }

    /** `counter.most_common(n)` */
    method MostCommonItems(n: int) returns (r: seq<SkillCount>)
      requires Valid()
      ensures r == CounterTop(seen, n)
    {
      var items := Items();
      r := MostCommon(items, n);
    }
  }

  /** `top_skills_from_profiles`: feeds every profile's tokens to a counter,
      then takes its `limit` most common entries. */
  method TopSkillsFromProfiles(profiles: seq<Profile>, limit: int) returns (top: seq<SkillCount>)
    ensures top == TopSkills(profiles, limit)
  {
    var counter := new Counter();
    for i := 0 to |profiles|
      invariant counter.Valid() && counter.seen == AllSkills(profiles[..i])
    {
      counter.Update(SplitCsv(profiles[i].skills));
      assert profiles[..i + 1][..i] == profiles[..i];
    }
    assert profiles[..|profiles|] == profiles;
    top := counter.MostCommonItems(limit);
  }

  // Properties of the most-common list

  /** The distinct elements of `xs`, listed once each, number `|Elems(xs)|`. */
  lemma {:induction false} DistinctCard(s: seq<string>)
    requires Distinct(s)
    ensures |Elems(s)| == |s|
  {
    if s != [] {
      var init := s[..|s| - 1];
      assert Distinct(init);
      DistinctCard(init);
      assert s == init + [s[|s| - 1]];
      assert s[|s| - 1] !in init;
      assert Elems(s) == Elems(init) + {s[|s| - 1]};
    }
  }

  /** `most_common` keeps only items it was given. */
  lemma MostCommonFrom(items: seq<SkillCount>, limit: int, i: int)
    requires 0 <= i < |MostCommon(items, limit)|
    ensures MostCommon(items, limit)[i] in items
  {
    var sorted := SortDesc(items, CountOf);
    assert MostCommon(items, limit)[i] == sorted[i];
    assert sorted[i] in multiset(sorted);
  }

  /** `most_common` lists the most frequent first. */
  lemma MostCommonOrdered(items: seq<SkillCount>, limit: int)
    ensures NonIncreasing(MostCommon(items, limit), CountOf)
  {
    if limit > 0 {
      SortDescOrdered(items, CountOf);
    }
  }

  /** `most_common` leaves out nothing counted more often than what it keeps. */
  lemma MostCommonMaximal(items: seq<SkillCount>, limit: int, e: SkillCount, i: int)
    requires e in items && e !in MostCommon(items, limit)
    requires 0 <= i < |MostCommon(items, limit)|
    ensures CountOf(e) <= CountOf(MostCommon(items, limit)[i])
  {
    var r := MostCommon(items, limit);
    var sorted := SortDesc(items, CountOf);
    SortDescOrdered(items, CountOf);
    assert forall k :: 0 <= k < |r| ==> r[k] == sorted[k];
    assert e in multiset(sorted);
    var j :| 0 <= j < |sorted| && sorted[j] == e;
    assert j >= |r|;
  }

  /** Every key fed to a counter is among its items, with its count. */
  lemma CountItemsHas(all: seq<string>, s: string)
    requires s in all
    ensures (s, Occurrences(all, s) as int) in CountItems(FirstOccurrences(all), all)
  {
    var keys := FirstOccurrences(all);
    assert s in Elems(keys);
    var k :| 0 <= k < |keys| && keys[k] == s;
    assert CountItems(keys, all)[k] == (s, Occurrences(all, s) as int);
  }

  /** Every item of a counter is a key fed to it, with its count. */
  lemma CountItemsOnly(all: seq<string>, e: SkillCount)
    requires e in CountItems(FirstOccurrences(all), all)
    ensures e.0 in all && e.1 == Occurrences(all, e.0) as int && e.1 >= 1
  {
    var keys := FirstOccurrences(all);
    var items := CountItems(keys, all);
    var k :| 0 <= k < |items| && items[k] == e;
    assert keys[k] in Elems(keys);
    OccurrencesPositive(all, e.0);
  }

  /** A counter lists each item once. */
  lemma CountItemsDistinct(all: seq<string>)
    ensures var items := CountItems(FirstOccurrences(all), all);
      forall i, j :: 0 <= i < j < |items| ==> items[i] != items[j]
  {
    FirstOccurrencesDistinct(all);
  }

  lemma {:induction false} DistinctMultiplicity(s: seq<SkillCount>, x: SkillCount)
    requires forall i, j :: 0 <= i < j < |s| ==> s[i] != s[j]
    ensures multiset(s)[x] <= 1
  {
    if s != [] {
      var t := s[1..];
      DistinctMultiplicity(t, x);
      assert s == [s[0]] + t;
      if x == s[0] {
        assert x !in t;
        assert multiset(t)[x] == 0;
      }
    }
  }

  lemma RepeatMultiplicity(s: seq<SkillCount>, i: int, j: int)
    requires 0 <= i < j < |s| && s[i] == s[j]
    ensures multiset(s)[s[i]] >= 2
  {
    assert s == s[..i] + [s[i]] + s[i + 1..j] + [s[j]] + s[j + 1..];
  }

  /** The top list of a counter fed with `all` (for
      `top_skills_from_profiles`, every skill token of every profile) has
      `limit` entries, or one per distinct key when there are fewer, and
      none for a limit below one. */
  lemma CounterTopLength(all: seq<string>, limit: int)
    ensures |CounterTop(all, limit)| ==
      if limit <= 0 then 0 else if limit < |Elems(all)| then limit else |Elems(all)|
  {
    FirstOccurrencesDistinct(all);
    DistinctCard(FirstOccurrences(all));
  }

  /** Each listed key occurs in `all`, with the number of times it occurs
      there; the most frequent come first. */
  lemma CounterTopEntries(all: seq<string>, limit: int)
    ensures var top := CounterTop(all, limit);
      (forall i :: 0 <= i < |top| ==>
         top[i].0 in all && top[i].1 == Occurrences(all, top[i].0) as int && top[i].1 >= 1) &&
      NonIncreasing(top, CountOf)
  {
    var items := CountItems(FirstOccurrences(all), all);
    var top := CounterTop(all, limit);
    forall i | 0 <= i < |top|
      ensures top[i].0 in all && top[i].1 == Occurrences(all, top[i].0) as int && top[i].1 >= 1
    {
      MostCommonFrom(items, limit, i);
      CountItemsOnly(all, top[i]);
    }
    MostCommonOrdered(items, limit);
  }

  /** No key is listed twice. */
  lemma CounterTopDistinct(all: seq<string>, limit: int)
    ensures var top := CounterTop(all, limit);
      forall i, j :: 0 <= i < j < |top| ==> top[i].0 != top[j].0
  {
    var top := CounterTop(all, limit);
    forall i, j | 0 <= i < j < |top| ensures top[i].0 != top[j].0 {
      CounterTopKeysDiffer(all, limit, i, j);
    }
  }

  lemma CounterTopKeysDiffer(all: seq<string>, limit: int, i: int, j: int)
    requires 0 <= i < j < |CounterTop(all, limit)|
    ensures CounterTop(all, limit)[i].0 != CounterTop(all, limit)[j].0
  {
    var items := CountItems(FirstOccurrences(all), all);
    var sorted := SortDesc(items, CountOf);
    var top := CounterTop(all, limit);
    assert top[i] == sorted[i] && top[j] == sorted[j];
    MostCommonFrom(items, limit, i);
    MostCommonFrom(items, limit, j);
    CountItemsOnly(all, top[i]);
    CountItemsOnly(all, top[j]);
    CountItemsDistinct(all);
    DistinctMultiplicity(items, sorted[i]);
    if top[i].0 == top[j].0 {
      RepeatMultiplicity(sorted, i, j);
    }
  }

  /** No key of `all` left out of the list occurs more often than a listed
      one. */
  lemma CounterTopMaximal(all: seq<string>, limit: int, s: string)
    requires s in all
    ensures var top := CounterTop(all, limit);
      (forall j :: 0 <= j < |top| ==> top[j].0 != s) ==>
      forall i :: 0 <= i < |top| ==> Occurrences(all, s) as int <= top[i].1
  {
    var items := CountItems(FirstOccurrences(all), all);
    var top := CounterTop(all, limit);
    var e := (s, Occurrences(all, s) as int);
    CountItemsHas(all, s);
    if forall j :: 0 <= j < |top| ==> top[j].0 != s {
      forall j | 0 <= j < |top| ensures top[j] != e {
        assert top[j].0 != s;
      }
      forall i | 0 <= i < |top| ensures Occurrences(all, s) as int <= top[i].1 {
        MostCommonMaximal(items, limit, e, i);
      }
    }
  }
}
