/** The parts of the page script that move data between the session and the
    analysis code: the guard of the analysis buttons, the guards of the
    Results page, and the chat log of the assistant page (asking, clearing
    and showing the last ten messages, newest first). */
module Session {
  import opened Wrappers
  import opened Text
  import opened LlmClient
  import opened Formatter
  import opened Analysis
  import Report

  const NoResumeError := "\U{274C} Please upload a resume first"
  const NoJobError := "\U{274C} Please provide a job description"

  /** The pages of the sidebar menu this model visits. */
  datatype Page = UploadPage | ResultsPage | AssistantPage

  /** `active_page` and `selected_analysis`. */
  datatype Navigation = Navigation(page: Page, selected: string)

  /** Clicking the button of analysis `kind` on the upload page: with both a
      resume and a job description the Results page opens on `kind`;
      otherwise the page stays put and shows one error per missing input,
      the resume's first. */
  function AnalysisButton(nav: Navigation, resume: string, job: string, kind: string): (r: (Navigation, seq<string>))
    ensures r.1 == [] <==> resume != [] && job != []
    ensures r.1 == [] ==> r.0 == Navigation(ResultsPage, kind)
    ensures r.1 != [] ==> r.0 == nav
    ensures NoResumeError in r.1 <==> resume == []
    ensures NoJobError in r.1 <==> job == []
    ensures resume == [] ==> r.1[0] == NoResumeError
    ensures |r.1| == (if resume == [] then 1 else 0) + (if job == [] then 1 else 0)
  {
    if resume != [] && job != [] then (Navigation(ResultsPage, kind), [])
    else
      (nav, (if resume == [] then [NoResumeError] else []) + (if job == [] then [NoJobError] else []))
  }

  /** The PDF library as an oracle: `None` when `doc.build` raises. */
  type Builder = seq<Report.Element> -> Option<seq<bv8>>

  /** What the Results page shows. A report that is `Err` is the
      `IndexError` escaping `generate_enhanced_pdf_report`, which ends the
      script run after the analysis text was shown. */
  datatype ResultsView =
    | NoResumeWarning
    | NoJobWarning
      /** `selected_analysis` is empty. */
    | NothingSelected
      /** The Complete Analysis report data, in step order, and its PDF. */
    | Complete(entries: seq<(string, string)>, report: Result<seq<bv8>, Report.ReportError>)
      /** A single analysis; `None` when the name has no options entry, and
          then no PDF is made either. */
    | Single(result: Option<SingleResult>, singleReport: Option<Result<seq<bv8>, Report.ReportError>>)

  /** The Complete Analysis branch: the four steps run, then the report
      of their raw answers is built. */
  function CompletePage(ctx: Context, resume: string, job: string, backend: Backend, build: Builder): (r: (ResultsView, Option<LastError>))
    ensures r.0.Complete?
    ensures (r.0.entries, r.1) == CompleteRun(ctx, resume, job, backend)
    ensures r.0.report == Report.GenerateReport(r.0.entries, build)
  {
    var run := CompleteRun(ctx, resume, job, backend);
    (Complete(run.0, Report.GenerateReport(run.0, build)), run.1)
  }

  /** The single-analysis branch over the options table `options` and the
      tips table `tips`: the analysis of `kind`, then, when it has an
      options entry, the one-section report of the text shown. */
  function SinglePage(options: seq<AnalysisOption>, tips: seq<(string, string)>, ctx: Context, kind: string, resume: string, job: string, backend: Backend, build: Builder)
    : (r: (ResultsView, Option<LastError>))
    requires UsableTips(tips)
    ensures r.0.Single?
    ensures r.0.result == SingleAnalysis(options, tips, ctx, kind, resume, job, backend)
    ensures r.0.result.None? ==> r.0.singleReport.None? && r.1 == ctx.lastError
    ensures r.0.result.Some? ==>
              && r.0.singleReport == Some(Report.GenerateReport([(kind, r.0.result.value.result)], build))
              && r.1 == r.0.result.value.lastError
  {
    match SingleAnalysis(options, tips, ctx, kind, resume, job, backend)
    case None => (Single(None, None), ctx.lastError)
    case Some(single) =>
      (Single(Some(single), Some(Report.GenerateReport([(kind, single.result)], build))), single.lastError)
  }

  /** The Results page for the given session: the missing inputs are
      reported first, then the selected analysis runs and its report is
      built. Returns the view and `_last_groq_error` afterwards. */
  function Results(ctx: Context, resume: string, job: string, selected: string, backend: Backend, build: Builder): (r: (ResultsView, Option<LastError>))
    ensures resume == [] ==> r == (NoResumeWarning, ctx.lastError)
    ensures resume != [] && job == [] ==> r == (NoJobWarning, ctx.lastError)
    ensures resume != [] && job != [] && selected == [] ==> r == (NothingSelected, ctx.lastError)
    ensures r.0.Complete? <==> resume != [] && job != [] && selected == CompleteAnalysis
    ensures r.0.Single? ==> resume != [] && job != [] && selected != [] && selected != CompleteAnalysis
    ensures r.0.Complete? ==> r == CompletePage(ctx, resume, job, backend, build)
    ensures r.0.Single? ==> UsableTips(ManualTips) && r == SinglePage(Options, ManualTips, ctx, selected, resume, job, backend, build)
  {
    ManualTipsUsable();
    if resume == [] then (NoResumeWarning, ctx.lastError)
    else if job == [] then (NoJobWarning, ctx.lastError)
    else if selected == [] then (NothingSelected, ctx.lastError)
    else if selected == CompleteAnalysis then CompletePage(ctx, resume, job, backend, build)
    else SinglePage(Options, ManualTips, ctx, selected, resume, job, backend, build)
  }

  /** Clicking an analysis button and then rendering the Results page: with
      both inputs present the chosen analysis runs; without them nothing
      runs. */
  lemma ButtonThenResults(nav: Navigation, ctx: Context, resume: string, job: string, kind: string, backend: Backend, build: Builder)
    requires kind != []
    ensures var (next, errors) := AnalysisButton(nav, resume, job, kind);
            errors == [] ==> Results(ctx, resume, job, next.selected, backend, build).0.Complete? ||
                             Results(ctx, resume, job, next.selected, backend, build).0.Single?
  {
  }

  /** The report headings of sections with the given names. */
  function Marked(names: seq<string>): (r: seq<string>)
    ensures |r| == |names| && forall i :: 0 <= i < |names| ==> r[i] == Report.HeadingMark + names[i]
  {
    seq(|names|, i requires 0 <= i < |names| => Report.HeadingMark + names[i])
  }

  /** Report data without blank content gets one heading per entry. */
  lemma {:induction false} AnsweredHeadings(entries: seq<(string, string)>)
    requires NoBlankAnswers(entries)
    ensures Report.ExpectedHeadings(entries) == Marked(SectionNames(entries))
    decreases |entries|
  {
    if |entries| > 0 {
      var rest := entries[1..];
      assert forall i :: 0 <= i < |rest| ==> rest[i] == entries[i + 1];
      AnsweredHeadings(rest);
      assert Report.ExpectedHeadings(entries) == [Report.HeadingMark + entries[0].0] + Report.ExpectedHeadings(rest);
      assert Marked(SectionNames(entries)) == [Report.HeadingMark + entries[0].0] + Marked(SectionNames(rest));
    }
  }

  /** The PDF of a Complete Analysis, when it can be laid out, has one
      heading per step, in step order, whatever the model answered. */
  lemma CompleteReportHeadings(ctx: Context, resume: string, job: string, backend: Backend)
    requires Report.Layout(CompleteRun(ctx, resume, job, backend).0).Ok?
    ensures Report.HeadingTexts(Report.Layout(CompleteRun(ctx, resume, job, backend).0).value) ==
              Marked([QuickOverview, IssuesAnalysis, EnhancementTips, JobMatching])
  {
    var entries := CompleteRun(ctx, resume, job, backend).0;
    Report.LayoutHeadings(entries);
    CompleteRunNoBlank(ctx, resume, job, backend);
    AnsweredHeadings(entries);
    CompleteRunSections(ctx, resume, job, backend);
  }

  datatype Role = User | Assistant

  /** A `chat_history` entry: `{"role": ..., "content": ...}`. */
  datatype Message = Message(role: Role, content: string)

  /** The assistant page's part of the session: the chat log, the pending
      quick question (`""` when absent) and the client context, whose
      recorded error the calls update. */
  datatype Chat = Chat(log: seq<Message>, pending: string, ctx: Context)

  /** The five quick-question buttons. */
  const QuickQuestions := [
    "What are the strongest points of my resume?",
    "What skills should I highlight more?",
    "How can I improve my resume summary?",
    "What experience should I emphasize?",
    "Are there any red flags in my resume?"
  ]

  /** The log alternates a user question and the assistant's answer, oldest
      first, and every question has a non-blank stripped form. */
  predicate WellFormed(log: seq<Message>) {
    && |log| % 2 == 0
    && (forall i :: 0 <= i < |log| ==> (log[i].role == User <==> i % 2 == 0))
    && (forall i :: 0 <= i < |log| && i % 2 == 0 ==> Strip(log[i].content) != [])
  }

  /** One render of the assistant page after the user typed `question` into
      the text field, with `pressed` telling whether "Ask" was clicked. With
      no resume the page only warns. Otherwise, when "Ask" was clicked or a
      quick question is pending, and the question is not blank, the
      question and the model's raw answer are appended and the pending
      question is dropped; else nothing changes. */
  function Ask(chat: Chat, resume: string, job: string, question: string, pressed: bool, ask: Client): (r: Chat)
    ensures resume == [] || !(pressed || chat.pending != []) || Strip(question) == [] ==> r == chat
    ensures resume != [] && (pressed || chat.pending != []) && Strip(question) != [] ==>
              && |r.log| == |chat.log| + 2
              && r.log[..|chat.log|] == chat.log
              && r.log[|chat.log|] == Message(User, question)
              && r.log[|chat.log| + 1] == Message(Assistant, ask(chat.ctx, ChatPrompt(resume, job, question)).answer)
              && r.pending == []
    ensures r.ctx.hasKey == chat.ctx.hasKey && r.ctx.apiTested == chat.ctx.apiTested && r.ctx.apiWorking == chat.ctx.apiWorking
  {
    if resume != [] && (pressed || chat.pending != []) && Strip(question) != [] then
      var run := ask(chat.ctx, ChatPrompt(resume, job, question));
      Chat(chat.log + [Message(User, question), Message(Assistant, run.answer)], "", chat.ctx.(lastError := run.lastError))
    else
      chat
  }

  /** The "Clear" button: empties the log and drops the pending question. */
  function Clear(chat: Chat): (r: Chat)
    ensures r.log == [] && r.pending == [] && r.ctx == chat.ctx
  {
    chat.(log := [], pending := "")
  }

  /** A quick-question button: the question becomes the pending one. */
  function Quick(chat: Chat, i: nat): (r: Chat)
    requires i < |QuickQuestions|
    ensures r.log == chat.log && r.pending == QuickQuestions[i] && r.ctx == chat.ctx
  {
    chat.(pending := QuickQuestions[i])
  }

  /** Clicking a quick question asks it in the same script run, without
      pressing "Ask", when the text field shows it on that run. */
  lemma QuickThenAsk(chat: Chat, i: nat, resume: string, job: string, ask: Client)
    requires i < |QuickQuestions| && resume != []
    ensures var q := QuickQuestions[i];
            Step(chat, resume, job, QuickPressed(i, q), ask).log ==
              chat.log + [Message(User, q), Message(Assistant, ask(chat.ctx, ChatPrompt(resume, job, q)).answer)]
  {
    QuickQuestionNotBlank(i);
    QuickAsksField(chat, i, QuickQuestions[i], resume, job, ask);
  }

  /** A quick-question click asks whatever non-blank text the field holds on that run. */
  lemma QuickAsksField(chat: Chat, i: nat, field: string, resume: string, job: string, ask: Client)
    requires i < |QuickQuestions| && QuickQuestions[i] != [] && resume != [] && Strip(field) != []
    ensures Step(chat, resume, job, QuickPressed(i, field), ask).log ==
              chat.log + [Message(User, field), Message(Assistant, ask(chat.ctx, ChatPrompt(resume, job, field)).answer)]
  {
    var pending := Quick(chat, i);
    assert Step(chat, resume, job, QuickPressed(i, field), ask) == Ask(pending, resume, job, field, false, ask);
    assert pending.pending != [];
    var run := ask(chat.ctx, ChatPrompt(resume, job, field));
    assert Ask(pending, resume, job, field, false, ask).log == chat.log + [Message(User, field), Message(Assistant, run.answer)];
  }

  /** Every quick question has a non-space character. */
  lemma QuickQuestionNotBlank(i: nat)
    requires i < |QuickQuestions|
    ensures QuickQuestions[i] != [] && Strip(QuickQuestions[i]) != []
  {
    var q := QuickQuestions[i];
    assert !IsSpace(q[0]) by {
      if i == 0 {} else if i == 1 {} else if i == 2 {} else if i == 3 {} else {}
    }
    StripSpec(q);
  }

  /** Appending a non-blank question and its answer keeps the log well formed. */
  lemma AppendWellFormed(log: seq<Message>, question: string, answer: string)
    requires WellFormed(log) && Strip(question) != []
    ensures WellFormed(log + [Message(User, question), Message(Assistant, answer)])
  {
    var r := log + [Message(User, question), Message(Assistant, answer)];
    assert forall i :: 0 <= i < |log| ==> r[i] == log[i];
  }

  /** Asking keeps the log well formed. */
  lemma AskWellFormed(chat: Chat, resume: string, job: string, question: string, pressed: bool, ask: Client)
    requires WellFormed(chat.log)
    ensures WellFormed(Ask(chat, resume, job, question, pressed, ask).log)
  {
    if resume != [] && (pressed || chat.pending != []) && Strip(question) != [] {
      var run := ask(chat.ctx, ChatPrompt(resume, job, question));
      AppendWellFormed(chat.log, question, run.answer);
    }
  }

  /** What happens on one run of the assistant page's script: the text
      field holds `question` (or `field`) on that run. */
  datatype Event =
    | Typed(question: string, pressed: bool)
    | ClearPressed
      /** Quick question `index` was clicked: it becomes pending, and the
          ask block further down the same run sees the field's text. */
    | QuickPressed(index: nat, field: string)

  /** The effect of one event. Without a resume the page shows only a
      warning, so no button has an effect; a quick button outside the five
      does not exist. */
  function Step(chat: Chat, resume: string, job: string, e: Event, ask: Client): Chat {
    match e
    case Typed(q, p) => Ask(chat, resume, job, q, p, ask)
    case ClearPressed => if resume != [] then Clear(chat) else chat
    case QuickPressed(i, field) =>
      if resume != [] && i < |QuickQuestions| then Ask(Quick(chat, i), resume, job, field, false, ask) else chat
  }

  /** Replays the events in order from `chat`. */
  function Replay(chat: Chat, resume: string, job: string, events: seq<Event>, ask: Client): Chat
    decreases |events|
  {
    if |events| == 0 then chat
    else Replay(Step(chat, resume, job, events[0], ask), resume, job, events[1..], ask)
  }

  lemma StepWellFormed(chat: Chat, resume: string, job: string, e: Event, ask: Client)
    requires WellFormed(chat.log)
    ensures WellFormed(Step(chat, resume, job, e, ask).log)
  {
    match e
    case Typed(q, p) => AskWellFormed(chat, resume, job, q, p, ask);
    case ClearPressed =>
    case QuickPressed(i, field) =>
      if resume != [] && i < |QuickQuestions| {
        AskWellFormed(Quick(chat, i), resume, job, field, false, ask);
      }
  }

  /** Whatever the user does, the log stays a sequence of (question, answer)
      pairs with non-blank questions. */
  lemma {:induction false} ReplayWellFormed(chat: Chat, resume: string, job: string, events: seq<Event>, ask: Client)
    requires WellFormed(chat.log)
    ensures WellFormed(Replay(chat, resume, job, events, ask).log)
    decreases |events|
  {
    if |events| > 0 {
      StepWellFormed(chat, resume, job, events[0], ask);
      ReplayWellFormed(Step(chat, resume, job, events[0], ask), resume, job, events[1..], ask);
    }
  }

  /** The number of messages shown. */
  const Shown: nat := 10

  /** `reversed(chat_history[-10:])`: the last ten messages, newest first. */
  function Displayed(log: seq<Message>): (r: seq<Message>)
    ensures |r| == if |log| < Shown then |log| else Shown
    ensures forall i :: 0 <= i < |r| ==> r[i] == log[|log| - 1 - i]
  {
    var n := if |log| < Shown then |log| else Shown;
    seq(n, i requires 0 <= i < n => log[|log| - 1 - i])
  }

  /** In a well-formed non-empty log the newest message shown is an answer. */
  lemma NewestShownIsAnswer(log: seq<Message>)
    requires WellFormed(log) && log != []
    ensures Displayed(log)[0].role == Assistant
  {
    assert |log| - 1 >= 0 && (|log| - 1) % 2 == 1;
  }

  /** How a message is rendered: a question as typed (`.replace("", "")`
      changes nothing), an answer through `format_analysis_result`. */
  datatype Bubble = YouSaid(text: string) | AssistantSaid(html: string)

  function Render(m: Message): (b: Bubble)
    ensures m.role == User ==> b == YouSaid(m.content)
    ensures m.role == Assistant ==> b.AssistantSaid? && (m.content != [] ==> GlyphFree(b.html))
    ensures m.role == Assistant && m.content == [] ==> b.html == Placeholder
  {
    match m.role
    case User => YouSaid(m.content)
    case Assistant => AssistantSaid(FormatAnalysisResult(m.content))
  }

  /** An answer that is one plain line is shown exactly as written. */
  lemma RenderPlainAnswer(m: Message)
    requires m.role == Assistant && m.content != [] && IsStripped(m.content) && '\n' !in m.content
    requires GlyphFree(m.content)
    requires !Contains(m.content, StrengthTag) && !Contains(m.content, WeaknessTag)
    requires !EndsWith(m.content, ":")
    ensures Render(m) == AssistantSaid(m.content)
  {
    PlainLine(m.content);
  }

  /** The conversation history as shown. */
  function Bubbles(log: seq<Message>): (r: seq<Bubble>)
    ensures |r| == |Displayed(log)|
    ensures forall i :: 0 <= i < |r| ==> r[i] == Render(log[|log| - 1 - i])
  {
    var shown := Displayed(log);
    seq(|shown|, i requires 0 <= i < |shown| => Render(shown[i]))
  }
}
