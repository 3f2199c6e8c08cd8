# Resume analyzer: a Dafny model of its core rules

The application is a Streamlit script. It reads a resume, asks a hosted language model for one of
five analyses, formats the answers as HTML and builds a PDF report. It also runs a small chat
assistant. This project models the deterministic rules inside that script as pure Dafny functions
and proves properties about them:

- **`format_analysis_result`** (module `Formatter`). It deletes `*`, `+`, `•`, `[STRENGTH]` and
  `[WEAKNESS]`. It then splits on four newlines, keeps headings that end in `:` together with
  their non-blank lines, and joins the pieces with `<br>`. On non-empty text with no glyph and no
  tag, it is idempotent exactly when the text is not all whitespace.
- **The element list of `generate_enhanced_pdf_report`** (module `Report`):
  - The list is a title, then a spacer, then per non-blank section a heading, one bullet or body
    paragraph per non-blank line, and a spacer.
  - The PDF library is an oracle.
  - A cleaned line made of one digit makes the source index past its end (`clean_line[1]`) and
    raise `IndexError` outside the `try`. The model returns `Err(IndexError(line))` there.
- **`analyze_resume_with_llm`** (module `LlmClient`):
  - It has two guards, then up to `max_retries` attempts.
  - It returns the first reply whose stripped text is longer than ten characters, or the sentinel
    `"API_FAILED"`.
  - Only raising attempts record `_last_groq_error`.
  - The HTTP call is an oracle: what attempt `i` amounts to (`Raised`, `NoChoices` or `Content`).
- **The analysis catalogue and the Results page** (module `Analysis`):
  - The options table and the manual tips.
  - The prompt f-strings. Each one embeds only `resume_text[:4000]`, and the chat prompt embeds only
    `job_description[:1000]`.
  - The Complete Analysis step lookup by substring over lower-cased, space-free option names.
  - The four-step Complete Analysis run, which stores raw answers, `"API_FAILED"` included.
  - The single-analysis path, which replaces the sentinel by the manual tip for that kind and offers
    a retry when the text mentions `API temporarily unavailable`.
- **Session rules** (module `Session`):
  - The analysis-button guard.
  - The guards of the Results page.
  - The chat log of the assistant page:
    - asking appends the question, then the raw answer;
    - Clear empties the log;
    - quick questions become the pending question;
    - the page shows `reversed(chat_history[-10:])`.

Python string operations are modelled exactly in module `Text`:

- `strip()` over CPython's `isspace` set.
- `replace(pat, "")` as a single left-to-right pass.
- `split(sep)`, `sep.join`, `startswith`, `endswith`, `pat in s`, `s[:n]`, and `lower()` on ASCII.

`x.replace("", "")` (main.py lines 372, 459, 836 and 840) returns `x` in Python, so the model omits it.

`Wrappers` holds `Option` and `Result`.

## Model

| member | source | states |
|---|---|---|
| Text.SplitJoin | Resume_Recognition_System/main.py:380-398 | `sep.join(s.split(sep)) == s`, and no part of a split contains the separator |
| Text.RemoveSpec | Resume_Recognition_System/main.py:373-378 | `replace(pat, "")` keeps only characters of its input, leaves no one-character pattern behind, and is the identity when the pattern does not occur |
| Text.SplitAbsent | Resume_Recognition_System/main.py:380-386 | a text without the separator splits into itself alone |
| Text.RemoveInserted | Resume_Recognition_System/main.py:377-378 | when the pattern starts at no position of the text before it, one deletion pass keeps that text, removes exactly that occurrence and goes on after it; a remainder too short to hold the pattern is kept as it is |
| Formatter.FormatAnalysisResult | Resume_Recognition_System/main.py:368-398 | empty input gives exactly the placeholder paragraph; any other input gives a result with no `*`, `+` or `•` |
| Formatter.FormatOptional | Resume_Recognition_System/main.py:369-370 | `None` and the empty string both give the placeholder paragraph; any other text is formatted as usual |
| Formatter.NoneLikeEmpty | Resume_Recognition_System/main.py:369-370 | `None` formats exactly like the empty string |
| Formatter.SectionLines | Resume_Recognition_System/main.py:383-396 | a section contributes nothing exactly when it is blank, and every piece it contributes is non-empty and stripped |
| Formatter.CleanKeeps | Resume_Recognition_System/main.py:372-378 | text with no glyph and no tag passes the deletions unchanged |
| Formatter.PlainLine | Resume_Recognition_System/main.py:380-398 | one plain line (stripped, no line break, glyph and tag free, not ending in `:`) is shown exactly as written |
| Formatter.HeadingAndLine | Resume_Recognition_System/main.py:386-398 | a heading ending in `:` and one body line come out as heading, `<br>`, line |
| Formatter.FormatIdempotentOnClean | Resume_Recognition_System/main.py:368-398 | on text with no glyph and no tag that is not all whitespace, formatting the result again gives the same result |
| Formatter.BlankFormatsEmpty | Resume_Recognition_System/main.py:368-398 | non-empty all-whitespace text formats to the empty string, which formats to the placeholder |
| Formatter.FormatTwiceOnClean | Resume_Recognition_System/main.py:368-398 | for non-empty text with no glyph and no tag, formatting twice equals formatting once exactly when the text is not all whitespace |
| Formatter.NotIdempotent | Resume_Recognition_System/main.py:369-398 | `"***"` formats to `""`, which formats to the placeholder, so formatting twice differs from formatting once |
| Formatter.TagCanReappear | Resume_Recognition_System/main.py:377-378 | deleting `[WEAKNESS]` from `[STR[WEAKNESS]ENGTH]` assembles a `[STRENGTH]` that stays in the output |
| Report.ClassifyLine | Resume_Recognition_System/main.py:459-463 | a cleaned line is a bullet exactly when it starts with `•` or with a digit then `.`; a lone digit raises `IndexError`; otherwise it is body text |
| Report.LineElement | Resume_Recognition_System/main.py:456-463 | a blank line adds nothing; a non-blank line adds one paragraph classified from its cleaned form, or raises |
| Report.LineElementsFollowLines | Resume_Recognition_System/main.py:455-463 | when no line raises, the paragraphs are exactly the classified non-blank stripped lines, in order |
| Report.SectionElements | Resume_Recognition_System/main.py:452-464 | a blank section adds nothing; a non-blank one adds its heading, then only paragraphs, then a spacer; it raises exactly when one of its lines does |
| Report.Layout | Resume_Recognition_System/main.py:447-464 | the element list starts with the title and a spacer, and the layout raises exactly when some section does |
| Report.LayoutHeadings | Resume_Recognition_System/main.py:452-454 | the report's headings are one per non-blank section, in insertion order |
| Report.GenerateReport | Resume_Recognition_System/main.py:466-473 | the report raises exactly when the layout does; a failing `doc.build` gives empty bytes; otherwise it returns the library's bytes |
| LlmClient.StartupProbe | Resume_Recognition_System/main.py:210-225 | with a key and no earlier probe, the probe sets `api_tested` and makes `api_working` true exactly when the test call does not raise; otherwise the state is untouched |
| LlmClient.ProbeDecidesAttempts | Resume_Recognition_System/main.py:264-266 | after a fresh probe, attempts are made exactly when the probe did not raise; after a raising probe the unavailability message comes back with zero calls and the recorded error unchanged |
| LlmClient.RetryLoop | Resume_Recognition_System/main.py:268-304 | at most `max_retries` calls in order; the answer is the stripped first reply longer than ten characters after only unusable attempts; `"API_FAILED"` means every attempt was unusable |
| LlmClient.RetryLoopRecordsLastRaise | Resume_Recognition_System/main.py:289-291 | `_last_groq_error` after the loop is the error of its last raising attempt, or the prior value when none raised |
| LlmClient.AcceptedIsNotSentinel | Resume_Recognition_System/main.py:287-288 | an accepted reply is longer than the ten characters of `"API_FAILED"`, so it is never taken for it |
| LlmClient.AnalyzeFollowsAttempts | Resume_Recognition_System/main.py:268-304 | with a key and no failed probe, the answer is `"API_FAILED"` exactly when none of the `max_retries` attempts is usable; otherwise it is the reply of an attempt that is usable while all earlier ones are not; the recorded error is that of the last raising attempt made |
| LlmClient.AnalyzeResumeWithLlm | Resume_Recognition_System/main.py:261-304 | without a key, or after a failed probe, the fixed message comes back with zero calls; otherwise the retry loop's guarantees hold with `max_retries` attempts |
| Analysis.PromptOf | Resume_Recognition_System/main.py:700-701 | `analysis_options.get(name)` is empty exactly for names outside the table, and otherwise gives that entry's prompt |
| Analysis.ManualTip | Resume_Recognition_System/main.py:713-714 | for a tips table whose first entry is the fallback and that never holds the sentinel: the tip of the kind when the table has one, the first tip otherwise; never the sentinel |
| Analysis.ManualTipsUsable | Resume_Recognition_System/main.py:230-259 | the manual tips table opens with the Quick Overview tip and none of its tips is `"API_FAILED"` |
| Analysis.AnalysisPromptSpec | Resume_Recognition_System/main.py:672-677 | the analysis prompt starts with the option's template and carries `resume_text[:4000]` and the job description |
| Analysis.JobContext | Resume_Recognition_System/main.py:810 | the chat prompt's job part is `job_description[:1000]`, or `No specific job provided` when there is none |
| Analysis.ChatPrompt | Resume_Recognition_System/main.py:804-813 | the chat prompt carries `resume_text[:4000]`, the job context and the question |
| Analysis.MatchingNamesSpec | Resume_Recognition_System/main.py:669 | `step_options` holds exactly the table names whose normalized form contains the key |
| Analysis.MatchingNamesOrder | Resume_Recognition_System/main.py:669 | `step_options` keeps table order: it is the table read at strictly increasing positions, which are exactly the positions whose normalized name contains the key |
| Analysis.StepLookup | Resume_Recognition_System/main.py:659-669 | the keys overview, issues, tips and matching each select exactly one option, the one the step is named after |
| Analysis.SingleAnalysis | Resume_Recognition_System/main.py:700-719 | no result for unknown kinds; for a known kind, the result follows the one model call on that option's prompt: the fallback happens exactly when it answers `"API_FAILED"` and then shows the kind's manual tip, otherwise the answer itself; the shown text is never the sentinel; a retry is offered exactly when the text mentions `API temporarily unavailable` |
| Analysis.SingleOutcome | Resume_Recognition_System/main.py:709-719 | the manual tip replaces exactly the `"API_FAILED"` answer; the error recorded by the call is kept; a retry is offered exactly when the shown text mentions `API temporarily unavailable` |
| Analysis.SingleOutcomeFollowsAttempts | Resume_Recognition_System/main.py:700-716 | with a key and no failed probe, the single path falls back exactly when none of the three attempts is usable, and otherwise shows the stripped reply of the first usable attempt |
| Analysis.SingleFollowsAttempts | Resume_Recognition_System/main.py:700-716 | for a known kind with a key and no failed probe, the fallback happens exactly when none of the three attempts on that kind's prompt is usable |
| Analysis.SingleNoKey | Resume_Recognition_System/main.py:262-263 | without a key the single path shows the missing-key message, does not fall back and leaves the recorded error alone |
| Analysis.SingleFailing | Resume_Recognition_System/main.py:711-719 | when the model never gives a usable reply, the single path shows the manual tip; when no tip of the table mentions "API temporarily unavailable", no retry is offered |
| Analysis.SingleFirstReply | Resume_Recognition_System/main.py:709-716 | a usable first reply is shown stripped, with no fallback |
| Analysis.SingleUnavailable | Resume_Recognition_System/main.py:265-266 | after a failed probe the single path shows the unavailability message, offers a retry and leaves the recorded error alone |
| Analysis.RunStepsNames | Resume_Recognition_System/main.py:666-679 | the report data is named after exactly the steps that have a template, in step order; when each has one, after all the steps |
| Analysis.CompleteRunSections | Resume_Recognition_System/main.py:659-679 | the Complete Analysis report has the sections Quick Overview, Issues Analysis, Enhancement Tips and Job Matching, in that order |
| Analysis.RunStepsFailing | Resume_Recognition_System/main.py:678-679 | with a client that always fails, every step stores the raw `"API_FAILED"` |
| Analysis.CompleteRunFailing | Resume_Recognition_System/main.py:678-679 | against a backend that never replies usably, every Complete Analysis section holds `"API_FAILED"`, with no manual tip |
| Analysis.RunStepsNoKey | Resume_Recognition_System/main.py:262-263 | without a key every step stores the missing-key message and the recorded error is unchanged |
| Analysis.CompleteRunNoKey | Resume_Recognition_System/main.py:262-263 | without a key every Complete Analysis section holds the missing-key message |
| Analysis.AnswerNotBlank | Resume_Recognition_System/main.py:261-304 | every value the function returns has a non-space character |
| Analysis.CompleteRunNoBlank | Resume_Recognition_System/main.py:678-679 | no section of the Complete Analysis report data is blank |
| Session.AnalysisButton | Resume_Recognition_System/main.py:628-634 | the Results page opens on the clicked kind exactly when resume and job description are both present; otherwise nothing moves and there is one error per missing input, the resume's first |
| Session.Results | Resume_Recognition_System/main.py:639-730 | missing resume, then missing job, then an empty selection are reported before anything runs; Complete Analysis runs exactly for that name and shows its run and report; any other selection shows the single-analysis page |
| Session.CompletePage | Resume_Recognition_System/main.py:659-699 | the Complete Analysis page shows the sections of the four-step run and the report built from exactly those sections |
| Session.SinglePage | Resume_Recognition_System/main.py:700-730 | the single page shows the single-analysis result, and for a known kind a one-section report built from the kind and the shown text |
| Session.CompleteReportHeadings | Resume_Recognition_System/main.py:447-454 | the Complete Analysis PDF, when it can be laid out, has one heading per step in step order, whatever the model answered |
| Session.Ask | Resume_Recognition_System/main.py:801-826 | with a resume, a press or a pending question, and a non-blank question, the log grows by the question then the raw answer and the pending question is dropped; otherwise nothing changes |
| Session.Clear | Resume_Recognition_System/main.py:796-798 | Clear empties the log and the pending question |
| Session.Quick | Resume_Recognition_System/main.py:777-780 | a quick-question button makes its question the pending one |
| Session.QuickThenAsk | Resume_Recognition_System/main.py:779-824 | pressing a quick-question button asks that question in the same run, without pressing Ask: the log grows by the question and the model's answer |
| Session.QuickAsksField | Resume_Recognition_System/main.py:779-824 | after a quick-question press, the run asks whatever the text field holds when it is not blank |
| Session.AskWellFormed | Resume_Recognition_System/main.py:817-824 | asking keeps the log an alternation of non-blank questions and answers |
| Session.ReplayWellFormed | Resume_Recognition_System/main.py:762-826 | any sequence of asks, clears and quick questions keeps the log alternating, starting with a question |
| Session.Displayed | Resume_Recognition_System/main.py:832 | at most the last ten messages are shown, newest first |
| Session.NewestShownIsAnswer | Resume_Recognition_System/main.py:832 | the first bubble of a non-empty history is an answer |
| Session.Render | Resume_Recognition_System/main.py:833-846 | a question is shown as typed; an answer becomes an assistant bubble holding the placeholder paragraph when it is empty and glyph-free HTML otherwise |
| Session.RenderPlainAnswer | Resume_Recognition_System/main.py:839-840 | an answer that is one plain line (stripped, no line break, glyph and tag free, not ending in `:`) is shown exactly as written |
| Session.Bubbles | Resume_Recognition_System/main.py:832-846 | the bubbles are the rendered last ten messages, newest first |

## Left out

- `process_pdf` (PDF to images, OCR, text extraction) is foreign libraries only.
- The HTTP request of `call_groq_api`. The model keeps only its outcome:
  - per-attempt results reach the client through the backend oracle;
  - the startup probe is reduced to whether its test call raised.
- Dependency and binary detection, CSS, the sidebar, the help page and `st.rerun`.
- All `st.info`, `st.warning` and `st.error` side messages, except the two button errors.
- The progress bar, which is floating point.
- The option descriptions and button labels, which are display text only.
- The "Back to Upload" and "Ask AI Assistant" navigation buttons.
- reportlab styles, fonts and PDF bytes. `doc.build` is an oracle that either fails or returns bytes.
- The system message sent with every request. It is constant, and the oracle sees the user prompt only.
- Report.ClassifyLine: `str.isdigit()` is approximated by the ASCII digits `0`-`9`. Python also
  accepts other Unicode digits, such as superscripts.
- LlmClient.AnalyzeResumeWithLlm: the backend oracle answers per prompt and attempt number. It is
  a fixed function, so the model does not show two identical requests getting different replies
  over time.
- Session.Ask: the text field's widget state is modelled as the string it shows on that render.
  The source shows `current_question` there by default.
- Report.Layout: reportlab's `Paragraph` parses its text as markup when the element is created
  (lines 448, 454, 461 and 463). That happens before the `try` at line 466, so a section name or line
  that is malformed markup raises `ValueError` there. The model treats every text as valid markup.
  Only the lone-digit `IndexError` is an error of the layout.
- Session.Results: a layout error is modelled as an `Err` report, for both the Complete Analysis
  PDF (line 689) and the single-analysis PDF (line 728). In the source such an exception ends the
  run of the script, and nothing after it on the page is drawn.
- Analysis.SingleFailing: the retry conjunct is proved for any tips table with no tip that mentions
  "API temporarily unavailable" (`QuietTips`). That the four real tips (main.py:230-259) have this
  property is not proved, because it is a character-by-character fact about long string literals.
  So for the real tables, the model does not promise that the retry button stays hidden.
