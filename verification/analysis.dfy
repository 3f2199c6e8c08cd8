/** The analysis catalogue (`analysis_options` and the manual tips), the
    prompts sent to the model, and the two paths of the Results page: a
    single analysis with its manual-tip fallback, and the four-step Complete
    Analysis whose raw results go into the report. */
module Analysis {
  import opened Wrappers
  import opened Text
  import opened LlmClient

  const QuickOverview := "Quick Overview"
  const IssuesAnalysis := "Issues Analysis"
  const EnhancementTips := "Enhancement Tips"
  const JobMatching := "Job Matching"
  const CompleteAnalysis := "Complete Analysis"

  /** The longest prefix of the resume any prompt embeds. */
  const ResumeLimit: nat := 4000
  /** The longest prefix of the job description the chat prompt embeds. */
  const JobLimit: nat := 1000

  /** An entry of `analysis_options`; the button description is display text
      and is left out. */
  datatype AnalysisOption = AnalysisOption(name: string, prompt: string)

  /** `analysis_options`, in insertion order. */
  const Options: seq<AnalysisOption> := [
    AnalysisOption(QuickOverview,
      "\n"
      + "        Provide a comprehensive overview of this resume including key strengths and notable areas for improvement.\n"
      + "        Focus on the candidate's experience, skills, and overall presentation.\n"
      + "        "),
    AnalysisOption(IssuesAnalysis,
      "\n"
      + "        Analyze this resume and identify specific issues, weaknesses, and areas that need improvement.\n"
      + "        For each issue identified, mark it with [WEAKNESS] and provide specific suggestions for enhancement.\n"
      + "        "),
    AnalysisOption(EnhancementTips,
      "\n"
      + "        Provide specific, actionable tips to enhance this resume.\n"
      + "        Mark positive aspects with [STRENGTH] and improvement suggestions with [WEAKNESS].\n"
      + "        Include formatting, content, and presentation recommendations.\n"
      + "        "),
    AnalysisOption(JobMatching,
      "\n"
      + "        Compare this resume against the job description and analyze the match.\n"
      + "        Mark matching qualifications with [STRENGTH] and gaps with [WEAKNESS].\n"
      + "        Provide a match percentage and specific recommendations.\n"
      + "        "),
    AnalysisOption(CompleteAnalysis,
      "\n"
      + "        Provide a complete analysis of this resume, covering all aspects including strengths, weaknesses, and job matching.\n"
      + "        ")
  ]

  /** `provide_manual_analysis_tips()`: there is no entry for Complete Analysis. */
  const ManualTips: seq<(string, string)> := [
    (QuickOverview,
      "\n"
      + "        Your resume has been uploaded and processed successfully.\n"
      + "        Here are some general guidelines to review:\n"
      + "        - Your contact information is prominent and current.\n"
      + "        - Your experience is listed in reverse chronological order.\n"
      + "        - Your skills section matches the job requirements.\n"
      + "        - Look for quantifiable achievements and results.\n"
      + "        "),
    (IssuesAnalysis,
      "\n"
      + "        Common resume issues to check manually:\n"
      + "        - Formatting problems: Inconsistent fonts, sizes, or spacing.\n"
      + "        - Content issues: Typos, vague job descriptions, missing achievements.\n"
      + "        - Structure problems: No clear summary, poor organization.\n"
      + "        "),
    (EnhancementTips,
      "\n"
      + "        Focus on these improvement areas:\n"
      + "        - Add quantifiable achievements.\n"
      + "        - Use action verbs to start bullet points.\n"
      + "        - Customize your resume for each job application.\n"
      + "        - Include relevant keywords from the job posting.\n"
      + "        "),
    (JobMatching,
      "\n"
      + "        To manually assess job matching:\n"
      + "        - Compare your resume against the job posting.\n"
      + "        - Highlight matching skills and experience.\n"
      + "        - Identify gaps: Missing technical skills, lack of industry experience.\n"
      + "        ")
  ]

  function OptionNames(options: seq<AnalysisOption>): (r: seq<string>)
    ensures |r| == |options|
    ensures forall i :: 0 <= i < |r| ==> r[i] == options[i].name
    decreases |options|
  {
    if |options| == 0 then [] else [options[0].name] + OptionNames(options[1..])
  }

  /** `analysis_options.get(name)`: the prompt of the first entry with that
      name. A Python dict literal keeps the last value of a repeated key; the
      options table repeats no name, so first and last coincide there. */
  function PromptOf(options: seq<AnalysisOption>, name: string): (r: Option<string>)
    ensures r.None? <==> name !in OptionNames(options)
    ensures r.Some? ==> exists i :: 0 <= i < |options| && options[i] == AnalysisOption(name, r.value)
    decreases |options|
  {
    if |options| == 0 then None
    else if options[0].name == name then Some(options[0].prompt)
    else PromptOf(options[1..], name)
  }

  /** `table.get(key)` on a dict given as its items in insertion order. The
      first entry with the key is taken; a dict literal would keep the last,
      which is the same entry for the tips table, whose keys are distinct. */
  function Lookup(table: seq<(string, string)>, key: string): (r: Option<string>)
    ensures r.None? <==> forall i :: 0 <= i < |table| ==> table[i].0 != key
    ensures r.Some? ==> exists i :: 0 <= i < |table| && table[i] == (key, r.value)
    decreases |table|
  {
    if |table| == 0 then None
    else if table[0].0 == key then Some(table[0].1)
    else Lookup(table[1..], key)
  }

  /** A tips table the fallback can use: it has a first entry, and no tip
      is the sentinel. */
  predicate UsableTips(tips: seq<(string, string)>) {
    |tips| > 0 && forall i :: 0 <= i < |tips| ==> tips[i].1 != ApiFailed
  }

  /** The manual tips open with the Quick Overview entry, and none is the sentinel. */
  lemma ManualTipsUsable()
    ensures UsableTips(ManualTips) && ManualTips[0].0 == QuickOverview
  {
    forall i | 0 <= i < |ManualTips| ensures ManualTips[i].1 != ApiFailed {
      assert ManualTips[i].1[0] == '\n' by {
        if i == 0 {} else if i == 1 {} else if i == 2 {} else {}
      }
      assert ApiFailed[0] == 'A';
    }
  }

  /** `manual_tips.get(kind, manual_tips["Quick Overview"])`, the Quick
      Overview entry being the first of `tips`. */
  function ManualTip(tips: seq<(string, string)>, kind: string): (r: string)
    requires UsableTips(tips)
    ensures Lookup(tips, kind).Some? ==> r == Lookup(tips, kind).value
    ensures Lookup(tips, kind).None? ==> r == tips[0].1
    ensures r != ApiFailed
  {
    match Lookup(tips, kind)
    case Some(tip) => tip
    case None => tips[0].1
  }

  function ResumeLabel(indent: string): string {
    "\n" + indent + "Resume Content:\n" + indent
  }

  function JobLabel(indent: string): string {
    "\n" + indent + "Job Description:\n" + indent
  }

  function ClosingRequest(indent: string): string {
    "\n" + indent + "Please provide detailed analysis with specific examples and actionable recommendations."
  }

  /** The f-string of the analysis paths: the template, then the labelled
      resume prefix, the labelled job description and the closing request,
      each line indented by `indent` (the source's own indentation). */
  function AnalysisPrompt(template: string, resume: string, job: string, indent: string): string {
    template + ResumeLabel(indent) + Take(resume, ResumeLimit) + JobLabel(indent) + job + ClosingRequest(indent)
  }

  /** The analysis prompt starts with the option's template and carries the
      first 4000 characters of the resume and the whole job description. */
  lemma AnalysisPromptSpec(template: string, resume: string, job: string, indent: string)
    ensures var p := AnalysisPrompt(template, resume, job, indent);
            StartsWith(p, template) && Contains(p, Take(resume, ResumeLimit)) && Contains(p, job)
  {
    var withResume := template + ResumeLabel(indent) + Take(resume, ResumeLimit);
    var withJob := withResume + JobLabel(indent) + job;
    StartsWithExtend(template, ResumeLabel(indent), template);
    StartsWithExtend(template + ResumeLabel(indent), Take(resume, ResumeLimit), template);
    StartsWithExtend(withResume, JobLabel(indent), template);
    StartsWithExtend(withResume + JobLabel(indent), job, template);
    StartsWithExtend(withJob, ClosingRequest(indent), template);
    ContainsSuffix(template + ResumeLabel(indent), Take(resume, ResumeLimit));
    ContainsExtend(withResume, JobLabel(indent), Take(resume, ResumeLimit));
    ContainsExtend(withResume + JobLabel(indent), job, Take(resume, ResumeLimit));
    ContainsExtend(withJob, ClosingRequest(indent), Take(resume, ResumeLimit));
    ContainsSuffix(withResume + JobLabel(indent), job);
    ContainsExtend(withJob, ClosingRequest(indent), job);
  }

  /** Indentation of the continuation lines of the Complete Analysis prompt. */
  const CompleteIndent := "                    "
  /** Indentation of the continuation lines of the single-analysis prompt. */
  const SingleIndent := "                "

  /** Only the first 4000 characters of the resume reach an analysis prompt:
      resumes that agree on them give the same prompt. */
  lemma AnalysisPromptSeesResumePrefix(template: string, r1: string, r2: string, job: string, indent: string)
    requires Take(r1, ResumeLimit) == Take(r2, ResumeLimit)
    ensures AnalysisPrompt(template, r1, job, indent) == AnalysisPrompt(template, r2, job, indent)
  {
  }

  /** What the chat prompt says about the job: its first 1000 characters, or
      a fixed phrase when there is no job description. */
  function JobContext(job: string): (r: string)
    ensures job == [] ==> r == "No specific job provided"
    ensures job != [] ==> StartsWith(job, r) && |r| == if |job| < JobLimit then |job| else JobLimit
  {
    if job != [] then Take(job, JobLimit) else "No specific job provided"
  }

  const ChatHead := "\nYou are a professional resume consultant. Answer the user's question based ONLY on the following resume content.\n"
    + "Be specific, actionable, and helpful. Use examples from the resume when possible.\n"
    + "Resume Content:\n"
  const ChatJobLabel := "\nJob Context (if provided):\n"
  const ChatQuestionLabel := "\nUser Question: "
  const ChatTail := "\nProvide a detailed, professional response with specific recommendations.\n"

  /** The prompt of the assistant page (a top-level f-string, so unindented). */
  function ChatPrompt(resume: string, job: string, question: string): (p: string)
    ensures Contains(p, Take(resume, ResumeLimit)) && Contains(p, JobContext(job)) && Contains(p, question)
  {
    var resumePart := Take(resume, ResumeLimit);
    var withResume := ChatHead + resumePart;
    var withJob := withResume + ChatJobLabel + JobContext(job);
    var withQuestion := withJob + ChatQuestionLabel + question;
    ContainsSuffix(ChatHead, resumePart);
    ContainsExtend(withResume, ChatJobLabel, resumePart);
    ContainsExtend(withResume + ChatJobLabel, JobContext(job), resumePart);
    ContainsExtend(withJob, ChatQuestionLabel, resumePart);
    ContainsExtend(withJob + ChatQuestionLabel, question, resumePart);
    ContainsExtend(withQuestion, ChatTail, resumePart);
    ContainsSuffix(withResume + ChatJobLabel, JobContext(job));
    ContainsExtend(withJob, ChatQuestionLabel, JobContext(job));
    ContainsExtend(withJob + ChatQuestionLabel, question, JobContext(job));
    ContainsExtend(withQuestion, ChatTail, JobContext(job));
    ContainsSuffix(withJob + ChatQuestionLabel, question);
    ContainsExtend(withQuestion, ChatTail, question);
    withQuestion + ChatTail
  }

  /** Only `resume[:4000]` and `job[:1000]` reach the chat prompt. */
  lemma ChatPromptSeesPrefixes(r1: string, r2: string, j1: string, j2: string, question: string)
    requires Take(r1, ResumeLimit) == Take(r2, ResumeLimit)
    requires (j1 == []) == (j2 == [])
    requires Take(j1, JobLimit) == Take(j2, JobLimit)
    ensures ChatPrompt(r1, j1, question) == ChatPrompt(r2, j2, question)
  {
  }

  /** `name.lower().replace(" ", "")`. */
  function Normalize(name: string): string {
    Remove(AsciiLower(name), " ")
  }

  /** `[name]` when `key` occurs in the normalized `name`, else nothing. */
  function Keep(key: string, name: string): seq<string> {
    if Contains(Normalize(name), key) then [name] else []
  }

  /** `[k for k in names if key in k.lower().replace(" ", "")]`. */
  function MatchingNames(key: string, names: seq<string>): seq<string>
    decreases |names|
  {
    if |names| == 0 then [] else Keep(key, names[0]) + MatchingNames(key, names[1..])
  }

  /** The filter keeps only names whose normalized form contains the key,
      and every such name. */
  lemma {:induction false} MatchingNamesSpec(key: string, names: seq<string>)
    ensures var r := MatchingNames(key, names);
            && |r| <= |names|
            && (forall i :: 0 <= i < |r| ==> r[i] in names && Contains(Normalize(r[i]), key))
            && (forall i :: 0 <= i < |names| && Contains(Normalize(names[i]), key) ==> names[i] in r)
    decreases |names|
  {
    if |names| > 0 {
      MatchingNamesSpec(key, names[1..]);
      assert forall i :: 1 <= i < |names| ==> names[i] == names[1..][i - 1];
    }
  }

  /** Positions one further on. */
  function Shift(idx: seq<nat>): (r: seq<nat>)
    ensures |r| == |idx| && forall j :: 0 <= j < |idx| ==> r[j] == idx[j] + 1
  {
    seq(|idx|, j requires 0 <= j < |idx| => idx[j] + 1)
  }

  /** The positions are listed in strictly increasing order. */
  predicate Increasing(idx: seq<nat>) {
    forall j, k :: 0 <= j < k < |idx| ==> idx[j] < idx[k]
  }

  lemma ShiftIncreasing(idx: seq<nat>)
    requires Increasing(idx)
    ensures Increasing(Shift(idx)) && Increasing([0] + Shift(idx))
  {
    var s := Shift(idx);
    var t := [0] + s;
    forall j, k | 0 <= j < k < |t| ensures t[j] < t[k] {
      if j > 0 {
        assert t[j] == idx[j - 1] + 1 && t[k] == idx[k - 1] + 1;
      } else {
        assert t[k] == idx[k - 1] + 1;
      }
    }
  }

  lemma ShiftMembers(idx: seq<nat>)
    ensures 0 !in Shift(idx)
    ensures forall i: nat :: i + 1 in Shift(idx) <==> i in idx
  {
    forall i: nat ensures i + 1 in Shift(idx) <==> i in idx {
      if i in idx {
        var j :| 0 <= j < |idx| && idx[j] == i;
        assert Shift(idx)[j] == i + 1;
      }
    }
  }

  /** The names of `names` whose flag is set, in order. */
  function Select(flags: seq<bool>, names: seq<string>): seq<string>
    requires |flags| == |names|
    decreases |names|
  {
    if |names| == 0 then [] else (if flags[0] then [names[0]] else []) + Select(flags[1..], names[1..])
  }

  /** Selecting keeps the order of the input: `idx` lists the positions
      kept, strictly increasing, and holds exactly the flagged positions. */
  lemma {:induction false} SelectOrder(flags: seq<bool>, names: seq<string>) returns (idx: seq<nat>)
    requires |flags| == |names|
    ensures |idx| == |Select(flags, names)|
    ensures forall j :: 0 <= j < |idx| ==> idx[j] < |names| && Select(flags, names)[j] == names[idx[j]]
    ensures Increasing(idx)
    ensures forall i :: 0 <= i < |names| ==> (i in idx <==> flags[i])
    decreases |names|
  {
    if |names| == 0 {
      idx := [];
    } else {
      var rest := names[1..];
      var tailIdx := SelectOrder(flags[1..], rest);
      var shifted := Shift(tailIdx);
      ShiftMembers(tailIdx);
      ShiftIncreasing(tailIdx);
      var tail := Select(flags[1..], rest);
      idx := if flags[0] then [0] + shifted else shifted;
      var head := if flags[0] then 1 else 0;
      var r := Select(flags, names);
      forall j | head <= j < |idx| ensures idx[j] < |names| && r[j] == names[idx[j]] {
        assert idx[j] == tailIdx[j - head] + 1 && r[j] == tail[j - head];
        assert names[idx[j]] == rest[tailIdx[j - head]];
      }
      forall i | 1 <= i < |names| ensures i in idx <==> flags[i] {
        assert names[i] == rest[i - 1] && flags[i] == flags[1..][i - 1];
        assert i in idx <==> (i - 1) + 1 in shifted;
      }
    }
  }

  /** Which names pass the test of step key `key`. */
  function KeyFlags(key: string, names: seq<string>): (r: seq<bool>)
    ensures |r| == |names| && forall i :: 0 <= i < |names| ==> r[i] == Contains(Normalize(names[i]), key)
  {
    seq(|names|, i requires 0 <= i < |names| => Contains(Normalize(names[i]), key))
  }

  /** The step-key filter selects the names flagged by the key test. */
  lemma {:induction false} MatchingIsSelect(key: string, names: seq<string>)
    ensures MatchingNames(key, names) == Select(KeyFlags(key, names), names)
    decreases |names|
  {
    if |names| > 0 {
      MatchingIsSelect(key, names[1..]);
      assert KeyFlags(key, names)[1..] == KeyFlags(key, names[1..]);
    }
  }

  /** The step-key filter keeps the order of the table: `idx` lists the
      positions it keeps, strictly increasing, and holds every position
      whose normalized name contains the key and no other. */
  lemma MatchingNamesOrder(key: string, names: seq<string>) returns (idx: seq<nat>)
    ensures |idx| == |MatchingNames(key, names)|
    ensures forall j :: 0 <= j < |idx| ==> idx[j] < |names| && MatchingNames(key, names)[j] == names[idx[j]]
    ensures Increasing(idx)
    ensures forall i :: 0 <= i < |names| ==> (i in idx <==> Contains(Normalize(names[i]), key))
  {
    MatchingIsSelect(key, names);
    idx := SelectOrder(KeyFlags(key, names), names);
  }

  /** The steps of Complete Analysis: a report section name and the key that
      finds its prompt. */
  const Steps: seq<(string, string)> := [
    (QuickOverview, "overview"),
    (IssuesAnalysis, "issues"),
    (EnhancementTips, "tips"),
    (JobMatching, "matching")
  ]

  /** `step_options` for one step key. */
  function StepOptions(options: seq<AnalysisOption>, key: string): seq<string> {
    MatchingNames(key, OptionNames(options))
  }

  /** Normalizing text piece by piece gives the normalized whole. */
  lemma NormalizeAppend(a: string, b: string)
    ensures Normalize(a + b) == Normalize(a) + Normalize(b)
  {
    AsciiLowerAppend(a, b);
    RemoveAppend(AsciiLower(a), AsciiLower(b), ' ');
  }

  lemma NormalizeSpace()
    ensures Normalize(" ") == ""
  {
    assert AsciiLower(" ") == " ";
    assert StartsWith(" ", " ");
  }

  /** A word without spaces is only lowercased. */
  lemma NormalizeWord(w: string)
    requires ' ' !in w
    ensures Normalize(w) == AsciiLower(w)
  {
    assert ' ' !in AsciiLower(w);
    MissingCharNoOccurrence(AsciiLower(w), " ", ' ');
    RemoveSpec(AsciiLower(w), " ");
  }

  lemma NormalizeAroundSpace(a: string, b: string)
    ensures Normalize(a + " " + b) == Normalize(a) + Normalize(b)
  {
    NormalizeAppend(a + " ", b);
    NormalizeAppend(a, " ");
    NormalizeSpace();
  }

  /** Two words joined by a space normalize to their lowercase concatenation. */
  lemma NormalizeTwoWords(a: string, b: string)
    requires ' ' !in a && ' ' !in b
    ensures Normalize(a + " " + b) == AsciiLower(a) + AsciiLower(b)
  {
    NormalizeAroundSpace(a, b);
    NormalizeWord(a);
    NormalizeWord(b);
  }

  /** The words of the option names, lowercased. */
  lemma LowercaseWords()
    ensures AsciiLower("Quick") == "quick" && AsciiLower("Overview") == "overview"
    ensures AsciiLower("Issues") == "issues" && AsciiLower("Analysis") == "analysis"
    ensures AsciiLower("Enhancement") == "enhancement" && AsciiLower("Tips") == "tips"
    ensures AsciiLower("Job") == "job" && AsciiLower("Matching") == "matching"
    ensures AsciiLower("Complete") == "complete"
  {
  }

  /** Each option name is two words joined by a space. */
  lemma NameWords()
    ensures QuickOverview == "Quick" + " " + "Overview"
    ensures IssuesAnalysis == "Issues" + " " + "Analysis"
    ensures EnhancementTips == "Enhancement" + " " + "Tips"
    ensures JobMatching == "Job" + " " + "Matching"
    ensures CompleteAnalysis == "Complete" + " " + "Analysis"
    ensures ' ' !in "Quick" && ' ' !in "Overview" && ' ' !in "Issues" && ' ' !in "Analysis"
    ensures ' ' !in "Enhancement" && ' ' !in "Tips" && ' ' !in "Job" && ' ' !in "Matching"
    ensures ' ' !in "Complete"
  {
  }

  /** The option names, normalized: each becomes its two words in lowercase. */
  lemma NormalizedNames()
    ensures Normalize(QuickOverview) == "quick" + "overview"
    ensures Normalize(IssuesAnalysis) == "issues" + "analysis"
    ensures Normalize(EnhancementTips) == "enhancement" + "tips"
    ensures Normalize(JobMatching) == "job" + "matching"
    ensures Normalize(CompleteAnalysis) == "complete" + "analysis"
  {
    NameWords();
    LowercaseWords();
    NormalizeTwoWords("Quick", "Overview");
    NormalizeTwoWords("Issues", "Analysis");
    NormalizeTwoWords("Enhancement", "Tips");
    NormalizeTwoWords("Job", "Matching");
    NormalizeTwoWords("Complete", "Analysis");
  }

  /** The option names in the order of the options table. */
  const NameOrder := [QuickOverview, IssuesAnalysis, EnhancementTips, JobMatching, CompleteAnalysis]

  lemma OptionNamesInOrder()
    ensures OptionNames(Options) == NameOrder
  {
  }

  /** Looking a step key up tests the option names one by one, in table order. */
  lemma StepOptionsInOrder(key: string)
    ensures StepOptions(Options, key) ==
            Keep(key, QuickOverview) + (Keep(key, IssuesAnalysis) + (Keep(key, EnhancementTips)
            + (Keep(key, JobMatching) + Keep(key, CompleteAnalysis))))
  {
    OptionNamesInOrder();
    FilterFive(key, QuickOverview, IssuesAnalysis, EnhancementTips, JobMatching, CompleteAnalysis);
  }

  /** Filtering five names tests each of them, in order. */
  lemma FilterFive(key: string, a: string, b: string, c: string, d: string, e: string)
    ensures MatchingNames(key, [a, b, c, d, e]) ==
            Keep(key, a) + (Keep(key, b) + (Keep(key, c) + (Keep(key, d) + Keep(key, e))))
  {
    var ke, kd, kc, kb, ka := Keep(key, e), Keep(key, d), Keep(key, c), Keep(key, b), Keep(key, a);
    MatchingCons(key, e, []);
    assert MatchingNames(key, [e]) == ke;
    MatchingCons(key, d, [e]);
    assert MatchingNames(key, [d, e]) == kd + ke;
    MatchingCons(key, c, [d, e]);
    assert MatchingNames(key, [c, d, e]) == kc + (kd + ke);
    MatchingCons(key, b, [c, d, e]);
    assert MatchingNames(key, [b, c, d, e]) == kb + (kc + (kd + ke));
    MatchingCons(key, a, [b, c, d, e]);
    assert MatchingNames(key, [a, b, c, d, e]) == ka + (kb + (kc + (kd + ke)));
  }

  lemma MatchingCons(key: string, name: string, rest: seq<string>)
    ensures MatchingNames(key, [name] + rest) == Keep(key, name) + MatchingNames(key, rest)
  {
    assert ([name] + rest)[1..] == rest;
  }

  /** Which step keys occur in the normalized name "Quick Overview". */
  lemma QuickOverviewKeys()
    ensures Contains("quick" + "overview", "overview")
    ensures !Contains("quick" + "overview", "issues")
    ensures !Contains("quick" + "overview", "tips")
    ensures !Contains("quick" + "overview", "matching")
  {
    ContainsSuffix("quick", "overview");
    MissingCharNoOccurrence("quick" + "overview", "issues", 's');
    MissingCharNoOccurrence("quick" + "overview", "tips", 't');
    MissingCharNoOccurrence("quick" + "overview", "matching", 'm');
  }

  lemma IssuesAnalysisKeys()
    ensures !Contains("issues" + "analysis", "overview")
    ensures Contains("issues" + "analysis", "issues")
    ensures !Contains("issues" + "analysis", "tips")
    ensures !Contains("issues" + "analysis", "matching")
  {
    MissingCharNoOccurrence("issues" + "analysis", "overview", 'o');
    ContainsPrefix("issues", "analysis");
    MissingCharNoOccurrence("issues" + "analysis", "tips", 't');
    MissingCharNoOccurrence("issues" + "analysis", "matching", 'm');
  }

  lemma EnhancementTipsKeys()
    ensures !Contains("enhancement" + "tips", "overview")
    ensures !Contains("enhancement" + "tips", "issues")
    ensures Contains("enhancement" + "tips", "tips")
    ensures !Contains("enhancement" + "tips", "matching")
  {
    MissingCharNoOccurrence("enhancement" + "tips", "overview", 'o');
    MissingCharNoOccurrence("enhancement" + "tips", "issues", 'u');
    ContainsSuffix("enhancement", "tips");
    MissingCharNoOccurrence("enhancement" + "tips", "matching", 'g');
  }

  lemma JobMatchingKeys()
    ensures !Contains("job" + "matching", "overview")
    ensures !Contains("job" + "matching", "issues")
    ensures !Contains("job" + "matching", "tips")
    ensures Contains("job" + "matching", "matching")
  {
    MissingCharNoOccurrence("job" + "matching", "overview", 'v');
    MissingCharNoOccurrence("job" + "matching", "issues", 's');
    MissingCharNoOccurrence("job" + "matching", "tips", 'p');
    ContainsSuffix("job", "matching");
  }

  /** No step key occurs in the normalized name "Complete Analysis". */
  lemma CompleteAnalysisKeys()
    ensures !Contains("complete" + "analysis", "overview")
    ensures !Contains("complete" + "analysis", "issues")
    ensures !Contains("complete" + "analysis", "tips")
    ensures !Contains("complete" + "analysis", "matching")
  {
    MissingCharNoOccurrence("complete" + "analysis", "overview", 'v');
    MissingCharNoOccurrence("complete" + "analysis", "issues", 'u');
    TipsNotInCompleteAnalysis();
    MissingCharNoOccurrence("complete" + "analysis", "matching", 'g');
  }

  /** Every letter of "tips" occurs in "completeanalysis", but never in order:
      an occurrence would have to start in "complete" (and end within its
      next three letters, which lack `s`) or lie within "analysis" (which lacks `t`). */
  lemma TipsNotInCompleteAnalysis()
    ensures !Contains("complete" + "analysis", "tips")
  {
    if Contains("complete" + "analysis", "tips") {
      ContainsAppend("complete", "analysis", "tips");
      assert Take("analysis", 3) == "ana";
      MissingCharNoOccurrence("complete" + "ana", "tips", 's');
      MissingCharNoOccurrence("analysis", "tips", 't');
    }
  }

  lemma OverviewStep()
    ensures StepOptions(Options, "overview") == [QuickOverview]
  {
    StepOptionsInOrder("overview");
    NormalizedNames();
    QuickOverviewKeys();
    IssuesAnalysisKeys();
    EnhancementTipsKeys();
    JobMatchingKeys();
    CompleteAnalysisKeys();
  }

  lemma IssuesStep()
    ensures StepOptions(Options, "issues") == [IssuesAnalysis]
  {
    StepOptionsInOrder("issues");
    NormalizedNames();
    QuickOverviewKeys();
    IssuesAnalysisKeys();
    EnhancementTipsKeys();
    JobMatchingKeys();
    CompleteAnalysisKeys();
  }

  lemma TipsStep()
    ensures StepOptions(Options, "tips") == [EnhancementTips]
  {
    StepOptionsInOrder("tips");
    NormalizedNames();
    QuickOverviewKeys();
    IssuesAnalysisKeys();
    EnhancementTipsKeys();
    JobMatchingKeys();
    CompleteAnalysisKeys();
  }

  lemma MatchingStep()
    ensures StepOptions(Options, "matching") == [JobMatching]
  {
    StepOptionsInOrder("matching");
    NormalizedNames();
    QuickOverviewKeys();
    IssuesAnalysisKeys();
    EnhancementTipsKeys();
    JobMatchingKeys();
    CompleteAnalysisKeys();
  }

  /** Each step key of Complete Analysis selects exactly one option: the one
      the step is named after. */
  lemma StepLookup()
    ensures StepOptions(Options, "overview") == [QuickOverview]
    ensures StepOptions(Options, "issues") == [IssuesAnalysis]
    ensures StepOptions(Options, "tips") == [EnhancementTips]
    ensures StepOptions(Options, "matching") == [JobMatching]
  {
    OverviewStep();
    IssuesStep();
    TipsStep();
    MatchingStep();
  }

  /** The model behind the API, as an oracle: what attempt `i` of a request
      carrying `prompt` amounts to. */
  type Backend = (string, nat) -> Attempt

  /** `analyze_resume_with_llm(prompt)` with the default three attempts. */
  function CallModel(ctx: Context, prompt: string, backend: Backend): Run {
    AnalyzeResumeWithLlm(ctx, DefaultRetries, (i: nat) => backend(prompt, i))
  }

  /** The backend never produces a usable reply, whatever the prompt. */
  ghost predicate NeverAccepts(backend: Backend) {
    forall prompt, i :: !Accepts(backend(prompt, i))
  }

  /** What the Results page shows for one of the four single analyses. */
  datatype SingleResult = SingleResult(
    /** The text formatted on the page and put in the one-section report. */
    result: string,
    /** The model gave no usable reply and the manual tip replaced it. */
    fellBack: bool,
    /** The "Retry AI Analysis" button is shown. */
    retryOffered: bool,
    lastError: Option<LastError>)

  /** What the page makes of the run of one single analysis, given the
      manual tip of its kind: the tip replaces the sentinel, and the retry
      button is offered when the text shown mentions the unavailability. */
  function SingleOutcome(run: Run, tip: string): (r: SingleResult)
    requires tip != ApiFailed
    ensures r.result != ApiFailed
    ensures r.retryOffered <==> Contains(r.result, UnavailablePhrase)
    ensures r.fellBack <==> run.answer == ApiFailed
    ensures r.fellBack ==> r.result == tip
    ensures !r.fellBack ==> r.result == run.answer
    ensures r.lastError == run.lastError
  {
    var fellBack := run.answer == ApiFailed;
    var result := if fellBack then tip else run.answer;
    SingleResult(result, fellBack, result == ApiFailed || Contains(result, UnavailablePhrase), run.lastError)
  }

  /** The single-analysis branch: `None` when `kind` has no entry in
      `analysis_options` (the page then shows only its title). */
  function SingleAnalysis(options: seq<AnalysisOption>, tips: seq<(string, string)>, ctx: Context, kind: string, resume: string, job: string, backend: Backend)
    : (r: Option<SingleResult>)
    requires UsableTips(tips)
    ensures r.None? <==> kind !in OptionNames(options)
    ensures r.Some? ==> r.value.result != ApiFailed
    ensures r.Some? ==> (r.value.retryOffered <==> Contains(r.value.result, UnavailablePhrase))
    ensures r.Some? && r.value.fellBack ==> r.value.result == ManualTip(tips, kind)
    ensures r.Some? ==>
              var run := CallModel(ctx, AnalysisPrompt(PromptOf(options, kind).value, resume, job, SingleIndent), backend);
              && (r.value.fellBack <==> run.answer == ApiFailed)
              && (!r.value.fellBack ==> r.value.result == run.answer)
              && r.value.lastError == run.lastError
  {
    match PromptOf(options, kind)
    case None => None
    case Some(template) =>
      Some(SingleOutcome(CallModel(ctx, AnalysisPrompt(template, resume, job, SingleIndent), backend), ManualTip(tips, kind)))
  }

  /** The prompt template of a Complete Analysis step: that of the first
      option whose normalized name contains the step key, if any. */
  function StepPrompt(options: seq<AnalysisOption>, key: string): Option<string> {
    var found := StepOptions(options, key);
    if |found| == 0 then None else PromptOf(options, found[0])
  }

  /** `analyze_resume_with_llm` as the Complete Analysis loop sees it: the
      session context and a prompt in, a run out. */
  type Client = (Context, string) -> Run

  /** The client backed by `backend`. */
  function ClientOf(backend: Backend): Client {
    (ctx: Context, prompt: string) => CallModel(ctx, prompt, backend)
  }

  /** The template lookup of the Complete Analysis steps. */
  function StepTemplate(key: string): Option<string> {
    StepPrompt(Options, key)
  }

  /** The loop of the Complete Analysis branch over `steps`, with the
      template lookup `lookup`, the prompt builder `build` and the client
      `ask`: each step whose key finds a prompt template asks the model with the prompt
      built from it and stores the answer unaltered under the step name (the `"API_FAILED"` sentinel included); the recorded error
      carries over from one call to the next. Returns the `report_data`
      entries in insertion order and `_last_groq_error` at the end. */
  function RunSteps(lookup: string -> Option<string>, ctx: Context, steps: seq<(string, string)>, build: string -> string, ask: Client)
    : (r: (seq<(string, string)>, Option<LastError>))
    decreases |steps|
  {
    if |steps| == 0 then ([], ctx.lastError)
    else
      var rest := steps[1..];
      match lookup(steps[0].1)
      case None => RunSteps(lookup, ctx, rest, build, ask)
      case Some(template) =>
        var run := ask(ctx, build(template));
        var after := RunSteps(lookup, ctx.(lastError := run.lastError), rest, build, ask);
        ([(steps[0].0, run.answer)] + after.0, after.1)
  }

  /** Which steps have a prompt (`if step_options:`). */
  function StepFlags(lookup: string -> Option<string>, steps: seq<(string, string)>): (r: seq<bool>)
    ensures |r| == |steps| && forall i :: 0 <= i < |steps| ==> r[i] == lookup(steps[i].1).Some?
  {
    seq(|steps|, i requires 0 <= i < |steps| => lookup(steps[i].1).Some?)
  }

  /** The entries are named after exactly the steps that have a prompt, in step order. */
  lemma {:induction false} RunStepsSelected(lookup: string -> Option<string>, ctx: Context, steps: seq<(string, string)>, build: string -> string, ask: Client)
    ensures SectionNames(RunSteps(lookup, ctx, steps, build, ask).0) == Select(StepFlags(lookup, steps), SectionNames(steps))
    decreases |steps|
  {
    if |steps| > 0 {
      var rest := steps[1..];
      assert StepFlags(lookup, steps)[1..] == StepFlags(lookup, rest);
      assert SectionNames(steps)[1..] == SectionNames(rest);
      match lookup(steps[0].1)
      case None =>
        RunStepsSelected(lookup, ctx, rest, build, ask);
      case Some(template) =>
        var run := ask(ctx, build(template));
        var after := RunSteps(lookup, ctx.(lastError := run.lastError), rest, build, ask);
        RunStepsSelected(lookup, ctx.(lastError := run.lastError), rest, build, ask);
        assert SectionNames([(steps[0].0, run.answer)] + after.0) == [steps[0].0] + SectionNames(after.0);
    }
  }

  /** Steps without a prompt are skipped: the entries are named after
      exactly the steps that have one, in step order; when every step has
      one, they are named after all the steps. */
  lemma {:induction false} RunStepsNames(lookup: string -> Option<string>, ctx: Context, steps: seq<(string, string)>, build: string -> string, ask: Client)
    ensures |RunSteps(lookup, ctx, steps, build, ask).0| <= |steps|
    ensures SectionNames(RunSteps(lookup, ctx, steps, build, ask).0) == Select(StepFlags(lookup, steps), SectionNames(steps))
    ensures (forall i :: 0 <= i < |steps| ==> lookup(steps[i].1).Some?) ==>
              SectionNames(RunSteps(lookup, ctx, steps, build, ask).0) == SectionNames(steps)
    decreases |steps|
  {
    RunStepsSelected(lookup, ctx, steps, build, ask);
    if |steps| > 0 {
      var rest := steps[1..];
      assert forall i :: 0 <= i < |rest| ==> rest[i] == steps[i + 1];
      match lookup(steps[0].1)
      case None =>
        RunStepsNames(lookup, ctx, rest, build, ask);
      case Some(template) =>
        var run := ask(ctx, build(template));
        RunStepsNames(lookup, ctx.(lastError := run.lastError), rest, build, ask);
    }
  }

  lemma OverviewPrompt()
    ensures StepPrompt(Options, "overview") == PromptOf(Options, QuickOverview) != None
  {
    OverviewStep();
    OptionNamesInOrder();
  }

  lemma IssuesPrompt()
    ensures StepPrompt(Options, "issues") == PromptOf(Options, IssuesAnalysis) != None
  {
    IssuesStep();
    OptionNamesInOrder();
  }

  lemma TipsPrompt()
    ensures StepPrompt(Options, "tips") == PromptOf(Options, EnhancementTips) != None
  {
    TipsStep();
    OptionNamesInOrder();
  }

  lemma MatchingPrompt()
    ensures StepPrompt(Options, "matching") == PromptOf(Options, JobMatching) != None
  {
    MatchingStep();
    OptionNamesInOrder();
  }

  /** The four steps find the prompts of the options they are named after. */
  lemma StepPrompts()
    ensures forall i :: 0 <= i < |Steps| ==> StepPrompt(Options, Steps[i].1) == PromptOf(Options, Steps[i].0) != None
  {
    forall i | 0 <= i < |Steps|
      ensures StepPrompt(Options, Steps[i].1) == PromptOf(Options, Steps[i].0) != None
    {
      if i == 0 {
        OverviewPrompt();
      } else if i == 1 {
        IssuesPrompt();
      } else if i == 2 {
        TipsPrompt();
      } else {
        MatchingPrompt();
      }
    }
  }

  /** The prompt builder of the Complete Analysis branch. */
  function CompletePrompt(resume: string, job: string): string -> string {
    (template: string) => AnalysisPrompt(template, resume, job, CompleteIndent)
  }

  /** The Complete Analysis branch: the `report_data` entries and
      `_last_groq_error` afterwards. */
  function CompleteRun(ctx: Context, resume: string, job: string, backend: Backend): (seq<(string, string)>, Option<LastError>) {
    RunSteps(StepTemplate, ctx, Steps, CompletePrompt(resume, job), ClientOf(backend))
  }

  /** Complete Analysis reports one section per step, named after the step,
      in step order. */
  lemma CompleteRunSections(ctx: Context, resume: string, job: string, backend: Backend)
    ensures SectionNames(CompleteRun(ctx, resume, job, backend).0) == [QuickOverview, IssuesAnalysis, EnhancementTips, JobMatching]
  {
    StepsHavePrompts();
    RunStepsNames(StepTemplate, ctx, Steps, CompletePrompt(resume, job), ClientOf(backend));
    StepNames();
  }

  lemma StepsHavePrompts()
    ensures forall i :: 0 <= i < |Steps| ==> StepTemplate(Steps[i].1).Some?
  {
    StepPrompts();
  }

  lemma StepNames()
    ensures SectionNames(Steps) == [QuickOverview, IssuesAnalysis, EnhancementTips, JobMatching]
  {
  }

  /** The section names of report data, in order. */
  function SectionNames(entries: seq<(string, string)>): (names: seq<string>)
    ensures |names| == |entries| && forall i :: 0 <= i < |entries| ==> names[i] == entries[i].0
  {
    seq(|entries|, i requires 0 <= i < |entries| => entries[i].0)
  }

  /** A live client whose backend never gives a usable reply answers with
      the sentinel after its three attempts. */
  lemma FailingCall(ctx: Context, prompt: string, backend: Backend)
    requires Live(ctx) && NeverAccepts(backend)
    ensures CallModel(ctx, prompt, backend).answer == ApiFailed
    ensures CallModel(ctx, prompt, backend).calls == DefaultRetries
  {
  }

  /** Every entry of the report data holds `answer`. */
  predicate AllAnswers(entries: seq<(string, string)>, answer: string) {
    forall i :: 0 <= i < |entries| ==> entries[i].1 == answer
  }

  /** Every call a live client makes answers with the sentinel. */
  ghost predicate AlwaysFails(ask: Client) {
    forall ctx, prompt :: Live(ctx) ==> ask(ctx, prompt).answer == ApiFailed
  }

  /** With a failing client every Complete Analysis step stores the raw
      `"API_FAILED"` sentinel: this path has no manual-tip fallback. */
  lemma {:induction false} RunStepsFailing(lookup: string -> Option<string>, ctx: Context, steps: seq<(string, string)>, build: string -> string, ask: Client)
    requires Live(ctx) && AlwaysFails(ask)
    ensures AllAnswers(RunSteps(lookup, ctx, steps, build, ask).0, ApiFailed)
    decreases |steps|
  {
    if |steps| > 0 {
      var rest := steps[1..];
      match lookup(steps[0].1)
      case None =>
        RunStepsFailing(lookup, ctx, rest, build, ask);
        assert RunSteps(lookup, ctx, steps, build, ask) == RunSteps(lookup, ctx, rest, build, ask);
      case Some(template) =>
        var run := ask(ctx, build(template));
        assert run.answer == ApiFailed;
        var next := ctx.(lastError := run.lastError);
        RunStepsFailing(lookup, next, rest, build, ask);
        var after := RunSteps(lookup, next, rest, build, ask).0;
        var entries := RunSteps(lookup, ctx, steps, build, ask).0;
        assert entries == [(steps[0].0, run.answer)] + after;
        assert forall i :: 1 <= i < |entries| ==> entries[i] == after[i - 1];
    }
  }

  /** Without an API key the client answers at once with the missing-key
      message and leaves the recorded error alone. */
  ghost predicate RefusesWithoutKey(ask: Client) {
    forall ctx: Context, prompt :: !ctx.hasKey ==> ask(ctx, prompt) == Run(NoKeyMessage, 0, ctx.lastError)
  }

  /** Without an API key no step reaches the model: every step stores the
      missing-key message and the recorded error is left as it was. */
  lemma {:induction false} RunStepsNoKey(lookup: string -> Option<string>, ctx: Context, steps: seq<(string, string)>, build: string -> string, ask: Client)
    requires !ctx.hasKey && RefusesWithoutKey(ask)
    ensures RunSteps(lookup, ctx, steps, build, ask).1 == ctx.lastError
    ensures AllAnswers(RunSteps(lookup, ctx, steps, build, ask).0, NoKeyMessage)
    decreases |steps|
  {
    if |steps| > 0 {
      var rest := steps[1..];
      RunStepsNoKey(lookup, ctx, rest, build, ask);
      match lookup(steps[0].1)
      case None =>
      case Some(template) =>
        var run := ask(ctx, build(template));
        assert run == Run(NoKeyMessage, 0, ctx.lastError);
        var after := RunSteps(lookup, ctx, rest, build, ask).0;
        var entries := RunSteps(lookup, ctx, steps, build, ask).0;
        assert entries == [(steps[0].0, NoKeyMessage)] + after;
        assert forall i :: 1 <= i < |entries| ==> entries[i] == after[i - 1];
    }
  }

  /** The client the application uses fails on every call when its backend
      never gives a usable reply, and refuses every call without a key. */
  lemma ClientOfFacts(backend: Backend)
    ensures NeverAccepts(backend) ==> AlwaysFails(ClientOf(backend))
    ensures RefusesWithoutKey(ClientOf(backend))
  {
    if NeverAccepts(backend) {
      forall ctx, prompt | Live(ctx) ensures ClientOf(backend)(ctx, prompt).answer == ApiFailed {
        FailingCall(ctx, prompt, backend);
      }
    }
  }

  /** The report of a Complete Analysis against a failing backend: the four
      step names, each with the sentinel. */
  lemma CompleteRunFailing(ctx: Context, resume: string, job: string, backend: Backend)
    requires Live(ctx) && NeverAccepts(backend)
    ensures AllAnswers(CompleteRun(ctx, resume, job, backend).0, ApiFailed)
  {
    ClientOfFacts(backend);
    RunStepsFailing(StepTemplate, ctx, Steps, CompletePrompt(resume, job), ClientOf(backend));
  }

  /** Without an API key every section of the Complete Analysis report holds
      the missing-key message. */
  lemma CompleteRunNoKey(ctx: Context, resume: string, job: string, backend: Backend)
    requires !ctx.hasKey
    ensures AllAnswers(CompleteRun(ctx, resume, job, backend).0, NoKeyMessage)
    ensures CompleteRun(ctx, resume, job, backend).1 == ctx.lastError
  {
    ClientOfFacts(backend);
    RunStepsNoKey(StepTemplate, ctx, Steps, CompletePrompt(resume, job), ClientOf(backend));
  }

  /** Whatever the context and the backend, the answer has a non-space
      character: each message is fixed text, and an accepted reply is
      stripped and longer than ten characters. */
  lemma AnswerNotBlank(ctx: Context, prompt: string, backend: Backend)
    ensures !AllSpace(CallModel(ctx, prompt, backend).answer)
  {
    var r := CallModel(ctx, prompt, backend);
    assert ApiFailed[0] == 'A' && UnavailableMessage[0] == 'A';
    assert !IsSpace(NoKeyMessage[0]);
    if Live(ctx) && r.answer != ApiFailed {
      assert r.answer != [] && IsStripped(r.answer);
    }
  }

  /** No answer of the client is blank. */
  ghost predicate NeverBlank(ask: Client) {
    forall ctx, prompt :: !AllSpace(ask(ctx, prompt).answer)
  }

  lemma ClientOfNeverBlank(backend: Backend)
    ensures NeverBlank(ClientOf(backend))
  {
    forall ctx, prompt ensures !AllSpace(ClientOf(backend)(ctx, prompt).answer) {
      AnswerNotBlank(ctx, prompt, backend);
    }
  }

  /** Every entry of the report data has non-blank content. */
  predicate NoBlankAnswers(entries: seq<(string, string)>) {
    forall i :: 0 <= i < |entries| ==> !AllSpace(entries[i].1)
  }

  lemma {:induction false} RunStepsNoBlank(lookup: string -> Option<string>, ctx: Context, steps: seq<(string, string)>, build: string -> string, ask: Client)
    requires NeverBlank(ask)
    ensures NoBlankAnswers(RunSteps(lookup, ctx, steps, build, ask).0)
    decreases |steps|
  {
    if |steps| > 0 {
      var rest := steps[1..];
      match lookup(steps[0].1)
      case None =>
        RunStepsNoBlank(lookup, ctx, rest, build, ask);
        assert RunSteps(lookup, ctx, steps, build, ask) == RunSteps(lookup, ctx, rest, build, ask);
      case Some(template) =>
        var run := ask(ctx, build(template));
        assert !AllSpace(run.answer);
        var next := ctx.(lastError := run.lastError);
        RunStepsNoBlank(lookup, next, rest, build, ask);
        var after := RunSteps(lookup, next, rest, build, ask).0;
        var entries := RunSteps(lookup, ctx, steps, build, ask).0;
        assert entries == [(steps[0].0, run.answer)] + after;
        assert forall i :: 1 <= i < |entries| ==> entries[i] == after[i - 1];
    }
  }

  /** Every section of the Complete Analysis report has content. */
  lemma CompleteRunNoBlank(ctx: Context, resume: string, job: string, backend: Backend)
    ensures NoBlankAnswers(CompleteRun(ctx, resume, job, backend).0)
  {
    ClientOfNeverBlank(backend);
    RunStepsNoBlank(StepTemplate, ctx, Steps, CompletePrompt(resume, job), ClientOf(backend));
  }

  /** A tips table none of whose tips mentions `API temporarily unavailable`. */
  predicate QuietTips(tips: seq<(string, string)>) {
    forall i :: 0 <= i < |tips| ==> !Contains(tips[i].1, UnavailablePhrase)
  }

  /** The same backend on the single path: the manual tip replaces the
      sentinel. The retry button is hidden only when the tip shown does not
      mention the unavailability phrase, so it is promised hidden for a
      tips table none of whose tips mentions it. */
  lemma SingleFailing(options: seq<AnalysisOption>, tips: seq<(string, string)>, ctx: Context, kind: string, resume: string, job: string, backend: Backend)
    requires UsableTips(tips) && Live(ctx) && NeverAccepts(backend)
    requires kind in OptionNames(options)
    ensures var r := SingleAnalysis(options, tips, ctx, kind, resume, job, backend);
            r.Some? && r.value.fellBack && r.value.result == ManualTip(tips, kind)
            && (QuietTips(tips) ==> !r.value.retryOffered)
  {
    var template := PromptOf(options, kind).value;
    FailingCall(ctx, AnalysisPrompt(template, resume, job, SingleIndent), backend);
    if QuietTips(tips) {
      QuietTipShown(tips, kind);
    }
  }

  /** The tip chosen from a quiet table does not mention the unavailability phrase. */
  lemma QuietTipShown(tips: seq<(string, string)>, kind: string)
    requires UsableTips(tips) && QuietTips(tips)
    ensures !Contains(ManualTip(tips, kind), UnavailablePhrase)
  {
    match Lookup(tips, kind)
    case Some(tip) =>
      var i :| 0 <= i < |tips| && tips[i] == (kind, tip);
    case None =>
  }

  /** A usable first reply is shown stripped, after a single call. */
  lemma SingleFirstReply(options: seq<AnalysisOption>, tips: seq<(string, string)>, ctx: Context, kind: string, resume: string, job: string, backend: Backend)
    requires UsableTips(tips) && Live(ctx) && PromptOf(options, kind).Some?
    requires Accepts(backend(AnalysisPrompt(PromptOf(options, kind).value, resume, job, SingleIndent), 0))
    ensures var r := SingleAnalysis(options, tips, ctx, kind, resume, job, backend);
            && r.Some? && !r.value.fellBack
            && r.value.result == Strip(backend(AnalysisPrompt(PromptOf(options, kind).value, resume, job, SingleIndent), 0).text)
  {
    AcceptedIsNotSentinel(backend(AnalysisPrompt(PromptOf(options, kind).value, resume, job, SingleIndent), 0));
  }

  /** For every backend, on a live session: the page falls back to the
      manual tip exactly when none of the three attempts gave a usable
      reply, and otherwise shows the stripped reply of the first attempt
      that gave one. */
  lemma SingleOutcomeFollowsAttempts(ctx: Context, prompt: string, backend: Backend, tip: string)
    requires Live(ctx) && tip != ApiFailed
    ensures var r := SingleOutcome(CallModel(ctx, prompt, backend), tip);
            && (r.fellBack <==> forall i :: 0 <= i < DefaultRetries ==> !Accepts(backend(prompt, i)))
            && (!r.fellBack ==>
                  exists j :: 0 <= j < DefaultRetries && Accepts(backend(prompt, j))
                              && r.result == Strip(backend(prompt, j).text)
                              && forall i :: 0 <= i < j ==> !Accepts(backend(prompt, i)))
  {
    var outcome := (i: nat) => backend(prompt, i);
    AnalyzeFollowsAttempts(ctx, DefaultRetries, outcome);
    assert forall i :: 0 <= i < DefaultRetries ==> (AcceptedAt(outcome, i) <==> Accepts(backend(prompt, i)));
  }

  /** The same for the single analysis of a known kind. */
  lemma SingleFollowsAttempts(options: seq<AnalysisOption>, tips: seq<(string, string)>, ctx: Context, kind: string, resume: string, job: string, backend: Backend)
    requires UsableTips(tips) && Live(ctx) && kind in OptionNames(options)
    ensures var r := SingleAnalysis(options, tips, ctx, kind, resume, job, backend);
            var prompt := AnalysisPrompt(PromptOf(options, kind).value, resume, job, SingleIndent);
            && r.Some?
            && r.value == SingleOutcome(CallModel(ctx, prompt, backend), ManualTip(tips, kind))
            && (r.value.fellBack <==> forall i :: 0 <= i < DefaultRetries ==> !Accepts(backend(prompt, i)))
  {
    var prompt := AnalysisPrompt(PromptOf(options, kind).value, resume, job, SingleIndent);
    SingleOutcomeFollowsAttempts(ctx, prompt, backend, ManualTip(tips, kind));
  }

  /** Without an API key the single path shows the missing-key message,
      with no fallback and no retry. */
  lemma SingleNoKey(options: seq<AnalysisOption>, tips: seq<(string, string)>, ctx: Context, kind: string, resume: string, job: string, backend: Backend)
    requires UsableTips(tips) && !ctx.hasKey && kind in OptionNames(options)
    ensures var r := SingleAnalysis(options, tips, ctx, kind, resume, job, backend);
            && r.Some? && !r.value.fellBack && r.value.result == NoKeyMessage
            && r.value.lastError == ctx.lastError
  {
    assert NoKeyMessage != ApiFailed by {
      assert NoKeyMessage[0] != ApiFailed[0];
    }
  }

  /** When the startup probe found the API down, the single path shows the
      unavailability message, offers a retry and makes no call. */
  lemma SingleUnavailable(options: seq<AnalysisOption>, tips: seq<(string, string)>, ctx: Context, kind: string, resume: string, job: string, backend: Backend)
    requires UsableTips(tips) && ctx.hasKey && !Live(ctx)
    requires kind in OptionNames(options)
    ensures var r := SingleAnalysis(options, tips, ctx, kind, resume, job, backend);
            && r.Some? && !r.value.fellBack && r.value.retryOffered
            && r.value.result == UnavailableMessage && r.value.lastError == ctx.lastError
  {
    UnavailableMentionsPhrase();
  }

  lemma UnavailableMentionsPhrase()
    ensures Contains(UnavailableMessage, UnavailablePhrase)
  {
    ContainsPrefix(UnavailablePhrase, UnavailableAdvice);
  }
}
