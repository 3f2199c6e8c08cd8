/** `analyze_resume_with_llm`: the guards and the retry loop around the
    chat-completion call. The HTTP call itself is an oracle: `outcome(i)` is
    what the call made on attempt `i` (counting from 0) amounts to. */
module LlmClient {
  import opened Wrappers
  import opened Text

  /** The sentinel the callers test for. */
  const ApiFailed := "API_FAILED"
  const NoKeyMessage := WarningSign + " No Groq API key found. Please check your .env file."
  /** U+26A0, the warning sign that opens the missing-key message. */
  const WarningSign := "\U{26A0}"
  /** The phrase the Results page looks for to offer a retry. */
  const UnavailablePhrase := "API temporarily unavailable"
  const UnavailableMessage := UnavailablePhrase + UnavailableAdvice
  const UnavailableAdvice := ". Please refer to manual analysis guidelines below."
  const DefaultRetries := 3
  /** A reply is used only when its stripped text is longer than this. */
  const MinReplyLength := 10

  /** What one attempt inside the `try` amounts to. */
  datatype Attempt =
      /** The request, the JSON decoding or the lookup of
          `["choices"][0]["message"]["content"]` raised (an empty `choices`
          list or a missing key included). */
    | Raised(message: string)
      /** A falsy response, or one without a `"choices"` key: nothing raised. */
    | NoChoices
      /** The content of the first choice. */
    | Content(text: string)

  /** `_last_groq_error`: the 1-based attempt number and the exception text. */
  datatype LastError = LastError(attempt: nat, message: string)

  /** What the function reads from the process and the session: whether
      `GROQ_API_KEY` is set, the `api_tested` / `api_working` flags left by
      the startup probe, and the last recorded error. */
  datatype Context = Context(hasKey: bool, apiTested: bool, apiWorking: bool, lastError: Option<LastError>)

  /** The startup probe, run when a key is set and `api_tested` is absent:
      it marks the API tested, and working exactly when the test request
      did not raise (`raised`). Otherwise the session is left alone. */
  function StartupProbe(ctx: Context, raised: bool): (r: Context)
    ensures ctx.hasKey && !ctx.apiTested ==> r.apiTested && (r.apiWorking <==> !raised)
    ensures !(ctx.hasKey && !ctx.apiTested) ==> r == ctx
    ensures r.hasKey == ctx.hasKey && r.lastError == ctx.lastError
  {
    if ctx.hasKey && !ctx.apiTested then ctx.(apiTested := true, apiWorking := !raised) else ctx
  }

  /** After a first probe with a key, the analysis makes attempts exactly
      when the probe did not raise; when it raised, every call returns the
      unavailability message without reaching the API. */
  lemma ProbeDecidesAttempts(ctx: Context, raised: bool, maxRetries: int, outcome: nat -> Attempt)
    requires ctx.hasKey && !ctx.apiTested
    ensures Live(StartupProbe(ctx, raised)) <==> !raised
    ensures raised ==> AnalyzeResumeWithLlm(StartupProbe(ctx, raised), maxRetries, outcome) == Run(UnavailableMessage, 0, ctx.lastError)
  {
  }

  /** The function's value, the number of calls it made and `_last_groq_error` afterwards. */
  datatype Run = Run(answer: string, calls: nat, lastError: Option<LastError>)

  /** The guards let the retry loop run. */
  predicate Live(ctx: Context) {
    ctx.hasKey && !(ctx.apiTested && !ctx.apiWorking)
  }

  /** The reply of this attempt is returned. */
  predicate Accepts(a: Attempt) {
    a.Content? && |Strip(a.text)| > MinReplyLength
  }

  predicate AcceptedAt(outcome: nat -> Attempt, i: nat) {
    Accepts(outcome(i))
  }

  /** Attempt `i` is accepted and `answer` is its stripped reply. */
  predicate RepliedAt(outcome: nat -> Attempt, i: nat, answer: string) {
    AcceptedAt(outcome, i) && answer == Strip(outcome(i).text)
  }

  predicate RaisedAt(outcome: nat -> Attempt, i: nat) {
    outcome(i).Raised?
  }

  function Max(a: int, b: int): int {
    if a < b then b else a
  }

  /** `_last_groq_error` after attempts `lo .. hi - 1`, read backwards: the
      error of the last raising attempt among them, or `previous` when none raised. */
  function LastRaise(outcome: nat -> Attempt, lo: nat, hi: nat, previous: Option<LastError>): (last: Option<LastError>)
    ensures (forall i :: lo <= i < hi ==> !RaisedAt(outcome, i)) ==> last == previous
    ensures (exists i :: lo <= i < hi && RaisedAt(outcome, i)) ==>
              && last.Some?
              && lo < last.value.attempt <= hi
              && outcome(last.value.attempt - 1) == Raised(last.value.message)
              && forall i :: last.value.attempt <= i < hi ==> !RaisedAt(outcome, i)
    decreases hi
  {
    if hi <= lo then previous
    else if RaisedAt(outcome, hi - 1) then Some(LastError(hi, outcome(hi - 1).message))
    else LastRaise(outcome, lo, hi - 1, previous)
  }

  /** The error recorded after `a`, attempt number `attempt` (0-based). */
  function Recorded(a: Attempt, attempt: nat, lastError: Option<LastError>): Option<LastError> {
    if a.Raised? then Some(LastError(attempt + 1, a.message)) else lastError
  }

  /** Attempts `attempt, attempt + 1, ...` while fewer than `maxRetries` were
      made: the first accepted reply is returned stripped; every raising
      attempt records its error; when the attempts run out the result is
      `ApiFailed`. */
  function RetryLoop(outcome: nat -> Attempt, attempt: nat, maxRetries: int, lastError: Option<LastError>): (r: Run)
    ensures attempt <= r.calls <= Max(attempt, maxRetries)
    ensures forall i :: attempt <= i < r.calls - 1 ==> !AcceptedAt(outcome, i)
    ensures r.answer != ApiFailed ==> attempt < r.calls && RepliedAt(outcome, r.calls - 1, r.answer)
    ensures r.answer == ApiFailed ==>
              && r.calls == Max(attempt, maxRetries)
              && forall i :: attempt <= i < r.calls ==> !AcceptedAt(outcome, i)
    decreases Max(maxRetries - attempt, 0)
  {
    if attempt >= maxRetries then
      Run(ApiFailed, attempt, lastError)
    else
      var a := outcome(attempt);
      if Accepts(a) then
        AcceptedIsNotSentinel(a);
        Run(Strip(a.text), attempt + 1, lastError)
      else
        RetryLoop(outcome, attempt + 1, maxRetries, Recorded(a, attempt, lastError))
  }

  /** Scanning attempt `lo` first and then the rest agrees with scanning backwards. */
  lemma {:induction false} LastRaiseShift(outcome: nat -> Attempt, lo: nat, hi: nat, previous: Option<LastError>)
    requires lo < hi
    ensures LastRaise(outcome, lo, hi, previous) ==
            LastRaise(outcome, lo + 1, hi, Recorded(outcome(lo), lo, previous))
    decreases hi
  {
    var next := Recorded(outcome(lo), lo, previous);
    if hi == lo + 1 {
      assert LastRaise(outcome, lo + 1, hi, next) == next;
    } else if RaisedAt(outcome, hi - 1) {
      assert LastRaise(outcome, lo + 1, hi, next) == Some(LastError(hi, outcome(hi - 1).message));
    } else {
      LastRaiseShift(outcome, lo, hi - 1, previous);
      assert LastRaise(outcome, lo + 1, hi, next) == LastRaise(outcome, lo + 1, hi - 1, next);
    }
  }

  /** `_last_groq_error` after the loop is the error of its last raising
      attempt, or the one it started with when no attempt raised. */
  lemma {:induction false} RetryLoopRecordsLastRaise(outcome: nat -> Attempt, attempt: nat, maxRetries: int, lastError: Option<LastError>)
    ensures var r := RetryLoop(outcome, attempt, maxRetries, lastError);
            r.lastError == LastRaise(outcome, attempt, r.calls, lastError)
    decreases Max(maxRetries - attempt, 0)
  {
    if attempt < maxRetries && !Accepts(outcome(attempt)) {
      var next := Recorded(outcome(attempt), attempt, lastError);
      RetryLoopRecordsLastRaise(outcome, attempt + 1, maxRetries, next);
      var r := RetryLoop(outcome, attempt + 1, maxRetries, next);
      LastRaiseShift(outcome, attempt, r.calls, lastError);
    }
  }

  /** On a live session the answer is the sentinel exactly when none of the
      `maxRetries` attempts is usable; otherwise it is the stripped reply of
      the first usable attempt. The recorded error is that of the last
      raising attempt made, or the prior one. */
  lemma AnalyzeFollowsAttempts(ctx: Context, maxRetries: nat, outcome: nat -> Attempt)
    requires Live(ctx)
    ensures var r := AnalyzeResumeWithLlm(ctx, maxRetries, outcome);
            && (r.answer == ApiFailed <==> forall i :: 0 <= i < maxRetries ==> !AcceptedAt(outcome, i))
            && (r.answer != ApiFailed ==>
                  exists j :: 0 <= j < maxRetries && RepliedAt(outcome, j, r.answer)
                              && forall i :: 0 <= i < j ==> !AcceptedAt(outcome, i))
            && r.lastError == LastRaise(outcome, 0, r.calls, ctx.lastError)
  {
    var r := AnalyzeResumeWithLlm(ctx, maxRetries, outcome);
    RetryLoopRecordsLastRaise(outcome, 0, maxRetries, ctx.lastError);
    if r.answer != ApiFailed {
      var j := r.calls - 1;
      assert RepliedAt(outcome, j, r.answer);
    }
  }

  /** An accepted reply is longer than `"API_FAILED"`, so it is never mistaken for it. */
  lemma AcceptedIsNotSentinel(a: Attempt)
    requires Accepts(a)
    ensures Strip(a.text) != ApiFailed
  {
  }

  /** `analyze_resume_with_llm(prompt, max_retries)`. */
  function AnalyzeResumeWithLlm(ctx: Context, maxRetries: int, outcome: nat -> Attempt): (r: Run)
    ensures !ctx.hasKey ==> r == Run(NoKeyMessage, 0, ctx.lastError)
    ensures ctx.hasKey && !Live(ctx) ==> r == Run(UnavailableMessage, 0, ctx.lastError)
    ensures Live(ctx) ==> r.calls <= Max(0, maxRetries)
    ensures Live(ctx) && r.answer != ApiFailed ==>
              && 0 < r.calls
              && RepliedAt(outcome, r.calls - 1, r.answer)
              && forall i :: 0 <= i < r.calls - 1 ==> !AcceptedAt(outcome, i)
    ensures Live(ctx) && r.answer == ApiFailed ==>
              && r.calls == Max(0, maxRetries)
              && forall i :: 0 <= i < r.calls ==> !AcceptedAt(outcome, i)
  {
    if !ctx.hasKey then Run(NoKeyMessage, 0, ctx.lastError)
    else if ctx.apiTested && !ctx.apiWorking then Run(UnavailableMessage, 0, ctx.lastError)
    else RetryLoop(outcome, 0, maxRetries, ctx.lastError)
  }
}
