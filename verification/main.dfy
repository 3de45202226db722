/** The HTTP service (`main.py`): configuration checks at startup, request
    validation, the goal and difficulty checks of `POST /generate`,
    `clamp_num`, and the mapping of the generators' results and errors to
    responses. The generator mode is fixed at startup and selects which of
    the two endpoints is installed. */
module Api {
  import opened Base
  import opened Seqs
  import opened Items
  import opened DataModel
  import opened QuizModel
  import opened QuestionMatcher
  import opened QuizRetrieval

  /** `AppConfig`'s defaults for the two integer settings. */
  const DefaultNumDefault: int := 5
  const MaxQuestionsDefault: int := 10
  const ModeMessage: string := "generator_mode must be 'model' or 'retrieval'"
  const ClampMessage: string := "num_questions must be ≥ 1"

  // ---------------------------------------------------------------------------
  // Configuration

  /** The settings of `config.json` that `AppConfig` reads; `None` is a
      missing key. */
  datatype RawConfig = RawConfig(
    generatorMode: Option<string>,
    modelGoals: Option<seq<string>>,
    retrievalGoals: Option<seq<string>>,
    difficulties: Option<seq<string>>,
    defaultNum: Option<int>,
    maxQuestions: Option<int>)

  datatype Mode = ModelMode | RetrievalMode

  datatype Config = Config(
    mode: Mode,
    modelGoals: seq<string>,
    retrievalGoals: seq<string>,
    difficulties: seq<string>,
    defaultNum: int,
    maxQuestions: int)

  /** The first `AppConfig` field, in declaration order, that fails
      validation: a required field that is missing, or an integer below 1. */
  function ConfigFieldError(raw: RawConfig): Option<string> {
    if raw.generatorMode.None? then Some("generator_mode")
    else if raw.modelGoals.None? then Some("model_supported_goals")
    else if raw.retrievalGoals.None? then Some("retrieval_supported_goals")
    else if raw.difficulties.None? then Some("supported_difficulties")
    else if raw.defaultNum.GetOr(DefaultNumDefault) < 1 then Some("default_num_questions")
    else if raw.maxQuestions.GetOr(MaxQuestionsDefault) < 1 then Some("max_questions")
    else None
  }

  /** Startup: `AppConfig(**raw_cfg)`, then the generator-mode check. */
  function Startup(raw: RawConfig): (r: Result<Config, PyError>)
    ensures r.Ok? <==>
      && raw.generatorMode.Some? && raw.modelGoals.Some? && raw.retrievalGoals.Some? && raw.difficulties.Some?
      && raw.defaultNum.GetOr(DefaultNumDefault) >= 1 && raw.maxQuestions.GetOr(MaxQuestionsDefault) >= 1
      && raw.generatorMode.value in {"model", "retrieval"}
    ensures r.Err? ==> r.error.ValidationError? || r.error == RuntimeError(ModeMessage)
    ensures r.Err? && r.error.RuntimeError? ==> ConfigFieldError(raw).None?
    ensures ConfigFieldError(raw).Some? ==> r == Err(ValidationError(ConfigFieldError(raw).value))
    ensures r.Err? && ConfigFieldError(raw).None? ==> r.error == RuntimeError(ModeMessage)
    ensures r.Ok? ==>
      && r.value.defaultNum >= 1 && r.value.maxQuestions >= 1
      && (r.value.mode == ModelMode <==> raw.generatorMode.value == "model")
      && r.value.defaultNum == raw.defaultNum.GetOr(DefaultNumDefault)
      && r.value.maxQuestions == raw.maxQuestions.GetOr(MaxQuestionsDefault)
      && r.value.modelGoals == raw.modelGoals.value
      && r.value.retrievalGoals == raw.retrievalGoals.value
      && r.value.difficulties == raw.difficulties.value
  {
    match ConfigFieldError(raw)
    case Some(field) => Err(ValidationError(field))
    case None =>
      var mode := raw.generatorMode.value;
      if mode != "model" && mode != "retrieval" then Err(RuntimeError(ModeMessage))
      else Ok(Config(
        if mode == "model" then ModelMode else RetrievalMode,
        raw.modelGoals.value, raw.retrievalGoals.value, raw.difficulties.value,
        raw.defaultNum.GetOr(DefaultNumDefault), raw.maxQuestions.GetOr(MaxQuestionsDefault)))
  }

  /** Omitting both integer settings gives the documented defaults. */
  lemma StartupDefaults(mode: string, goals: seq<string>, difficulties: seq<string>)
    requires mode == "model" || mode == "retrieval"
    ensures var r := Startup(RawConfig(Some(mode), Some(goals), Some(goals), Some(difficulties), None, None));
      r.Ok? && r.value.defaultNum == 5 && r.value.maxQuestions == 10
  {
  }

  // ---------------------------------------------------------------------------
  // Requests

  /** A request body, as far as the service reads it; `None` is a missing key. */
  datatype RawRequest = RawRequest(goal: Option<string>, difficulty: Option<string>, numQuestions: Option<int>)

  datatype Request = Request(goal: string, difficulty: string, numQuestions: int)

  /** The fields of an `MCQRequest` that fail validation, in declaration
      order: a missing goal or difficulty, or a count that is not positive. */
  function RequestFieldErrors(raw: RawRequest): seq<string> {
    (if raw.goal.None? then ["goal"] else []) +
    (if raw.difficulty.None? then ["difficulty"] else []) +
    (if raw.numQuestions.Some? && raw.numQuestions.value <= 0 then ["num_questions"] else [])
  }

  /** `MCQRequest` validation; a missing count takes the configured default. */
  function ValidateRequest(raw: RawRequest, defaultNum: int): (r: Result<Request, seq<string>>)
    requires defaultNum >= 1
    ensures r.Ok? <==> raw.goal.Some? && raw.difficulty.Some? && raw.numQuestions.GetOr(1) > 0
    ensures r.Err? ==> |r.error| > 0
    ensures r.Err? ==>
      && ("goal" in r.error <==> raw.goal.None?)
      && ("difficulty" in r.error <==> raw.difficulty.None?)
      && ("num_questions" in r.error <==> raw.numQuestions.Some? && raw.numQuestions.value <= 0)
    ensures r.Ok? ==> r.value.goal == raw.goal.value && r.value.difficulty == raw.difficulty.value
    ensures r.Ok? ==> r.value.numQuestions >= 1
    ensures r.Ok? ==> r.value.numQuestions == raw.numQuestions.GetOr(defaultNum)
  {
    var errors := RequestFieldErrors(raw);
    if |errors| > 0 then Err(errors)
    else Ok(Request(raw.goal.value, raw.difficulty.value, raw.numQuestions.GetOr(defaultNum)))
  }

  /** An HTTP error response: status and detail. */
  datatype HttpError = HttpError(status: int, detail: string)

  /** `clamp_num(n)`: the count capped at `max_questions`; a count below 1 is
      rejected with status 400. */
  function ClampNum(n: int, maxQuestions: int): (r: Result<int, HttpError>)
    ensures r.Err? <==> n <= 0
    ensures r.Err? ==> r.error == HttpError(400, ClampMessage)
    ensures r.Ok? ==> r.value <= n && r.value <= maxQuestions && (r.value == n || r.value == maxQuestions)
    ensures r.Ok? && maxQuestions >= 1 ==> r.value >= 1
  {
    if n <= 0 then Err(HttpError(400, ClampMessage)) else Ok(Min(n, maxQuestions))
  }

  /** Clamping a clamped count changes nothing. */
  lemma ClampIdempotent(n: int, maxQuestions: int)
    requires maxQuestions >= 1 && ClampNum(n, maxQuestions).Ok?
    ensures ClampNum(ClampNum(n, maxQuestions).value, maxQuestions) == ClampNum(n, maxQuestions)
  {
  }

  // ---------------------------------------------------------------------------
  // Responses

  /** `QuestionItem`: five required strings and optional options. */
  datatype QuestionItem = QuestionItem(qtype: string, question: string, answer: string,
                                       difficulty: string, topic: string, options: Option<seq<string>>)

  datatype QuizResponse = QuizResponse(goal: string, difficulty: string, questions: seq<QuestionItem>)

  /** `QuestionItem(**q)`: fails on the first required field that is missing;
      keys the item does not declare, such as `"score"`, are ignored. */
  function ToQuestionItem(q: Item): (r: Result<QuestionItem, PyError>)
    ensures r.Ok? <==> q.qtype.Some? && q.question.Some? && q.answer.Some? && q.difficulty.Some? && q.topic.Some?
    ensures r.Err? ==> r.error.ValidationError?
    ensures r.Ok? ==>
      && Some(r.value.qtype) == q.qtype && Some(r.value.question) == q.question && Some(r.value.answer) == q.answer
      && Some(r.value.difficulty) == q.difficulty && Some(r.value.topic) == q.topic && r.value.options == q.options
  {
    if q.qtype.None? then Err(ValidationError("type"))
    else if q.question.None? then Err(ValidationError("question"))
    else if q.answer.None? then Err(ValidationError("answer"))
    else if q.difficulty.None? then Err(ValidationError("difficulty"))
    else if q.topic.None? then Err(ValidationError("topic"))
    else Ok(QuestionItem(q.qtype.value, q.question.value, q.answer.value, q.difficulty.value, q.topic.value, q.options))
  }

  /** Every entry converted to a `QuestionItem`, in order; the first failure
      propagates. */
  function ToQuestionItems(qs: seq<Item>): (r: Result<seq<QuestionItem>, PyError>)
    ensures r.Ok? <==> forall i :: 0 <= i < |qs| ==> ToQuestionItem(qs[i]).Ok?
    ensures r.Err? ==> r.error.ValidationError?
    ensures r.Ok? ==> |r.value| == |qs| && forall i :: 0 <= i < |qs| ==> r.value[i] == ToQuestionItem(qs[i]).value
  {
    if |qs| == 0 then Ok([])
    else match ToQuestionItem(qs[0])
      case Err(e) => Err(e)
      case Ok(item) =>
        match ToQuestionItems(qs[1..])
        case Err(e) => Err(e)
        case Ok(rest) => Ok([item] + rest)
  }

  /** What the client receives: a quiz, an HTTP error raised by the handler,
      a 422 listing the invalid request fields, or the server's default error
      for an exception the handler does not catch. */
  datatype Outcome =
    | Respond(response: QuizResponse)
    | Fail(status: int, detail: string)
    | Invalid(fields: seq<string>)
    | Crash(error: PyError)

  /** The handlers catch `ValueError`, `RuntimeError` and `ValidationError`. */
  predicate Caught(e: PyError) {
    e.ValueError? || e.RuntimeError? || e.ValidationError?
  }

  /** `str(e)` for the caught errors; a validation error is rendered as the
      name of its field. */
  function Detail(e: PyError): string {
    match e
    case ValueError(m) => m
    case RuntimeError(m) => m
    case ValidationError(f) => f
    case _ => ""
  }

  /** The `try`/`except` around a generator call. */
  function Guard(e: PyError): (o: Outcome)
    ensures Caught(e) ==> o == Fail(500, Detail(e))
    ensures !Caught(e) ==> o == Crash(e)
  {
    if Caught(e) then Fail(500, Detail(e)) else Crash(e)
  }

  // ---------------------------------------------------------------------------
  // The endpoints

  /** What the model generator runs on: its own supported goals and
      difficulties, the dataset rows, the neural models and the draws. */
  datatype ModelBackend = ModelBackend(goals: set<string>, difficulties: set<string>,
                                       dataset: seq<Item>, ml: Ml, draws: ModelDraws)

  /** What the retrieval generator runs on: the loaded bank, the topic
      extractor, TF-IDF and the draws. */
  datatype RetrievalBackend = RetrievalBackend(bank: seq<Item>, extract: string -> seq<string>,
                                               tfidf: (string, seq<string>, nat) -> real, draws: RetrievalDraws)

  /** The checks both endpoints make before generating, in order: goal,
      difficulty, count. */
  function Admit(goals: seq<string>, difficulties: seq<string>, maxQuestions: int, req: Request): (r: Result<int, HttpError>)
    ensures req.goal !in goals ==> r == Err(HttpError(400, "Unsupported goal: " + req.goal))
    ensures req.goal in goals && req.difficulty !in difficulties ==>
      r == Err(HttpError(400, "Unsupported difficulty: " + req.difficulty))
    ensures req.goal in goals && req.difficulty in difficulties ==> r == ClampNum(req.numQuestions, maxQuestions)
  {
    if req.goal !in goals then Err(HttpError(400, "Unsupported goal: " + req.goal))
    else if req.difficulty !in difficulties then Err(HttpError(400, "Unsupported difficulty: " + req.difficulty))
    else ClampNum(req.numQuestions, maxQuestions)
  }

  /** `generate_model(request)`: a rejected request gets the check's error; an
      admitted one runs the generator, whose quiz is answered, whose caught
      errors become a 500 with the message, and whose other errors escape. */
  function GenerateModel(cfg: Config, req: Request, backend: ModelBackend): (o: Outcome)
    requires cfg.maxQuestions >= 1
    ensures Admit(cfg.modelGoals, cfg.difficulties, cfg.maxQuestions, req).Err? ==>
      o == Fail(Admit(cfg.modelGoals, cfg.difficulties, cfg.maxQuestions, req).error.status,
                Admit(cfg.modelGoals, cfg.difficulties, cfg.maxQuestions, req).error.detail)
    ensures o.Fail? && o.status != 500 ==>
      Admit(cfg.modelGoals, cfg.difficulties, cfg.maxQuestions, req).Err? &&
      o.detail == Admit(cfg.modelGoals, cfg.difficulties, cfg.maxQuestions, req).error.detail
    ensures o.Respond? ==>
      && o.response.goal == req.goal && o.response.difficulty == req.difficulty
      && |o.response.questions| <= cfg.maxQuestions
      && forall i :: 0 <= i < |o.response.questions| ==> KindShaped(o.response.questions[i])
    ensures var a := Admit(cfg.modelGoals, cfg.difficulties, cfg.maxQuestions, req);
      a.Ok? ==>
        var g := RunModelQuiz(req.goal, req.difficulty, a.value, backend.goals, backend.difficulties,
                              backend.dataset, backend.ml, backend.draws);
        && (g.Err? && Caught(g.error) ==> o == Fail(500, Detail(g.error)))
        && (g.Err? && !Caught(g.error) ==> o == Crash(g.error))
        && (g.Ok? ==> o.Respond? && ToQuestionItems(g.value.questions) == Ok(o.response.questions))
    ensures !o.Invalid?
    ensures o.Crash? ==> !Caught(o.error)
  {
    match Admit(cfg.modelGoals, cfg.difficulties, cfg.maxQuestions, req)
    case Err(h) => Fail(h.status, h.detail)
    case Ok(n) =>
      match RunModelQuiz(req.goal, req.difficulty, n, backend.goals, backend.difficulties,
                         backend.dataset, backend.ml, backend.draws)
      case Err(e) => Guard(e)
      case Ok(quiz) =>
        ModelItemsConvert(quiz.questions);
        match ToQuestionItems(quiz.questions)
        case Err(e) => Guard(e)
        case Ok(items) => Respond(QuizResponse(quiz.goal, quiz.difficulty, items))
  }

  /** A question is multiple choice with its answer among its options, or
      short answer without options. */
  predicate KindShaped(q: QuestionItem) {
    (q.qtype == Mcq && q.options.Some? && q.answer in q.options.value) || (q.qtype == ShortAnswer && q.options.None?)
  }

  /** Every model-mode entry converts to a `QuestionItem`, keeping its kind. */
  lemma ModelItemsConvert(qs: seq<Item>)
    requires forall i :: 0 <= i < |qs| ==> EntryShape(qs[i])
    ensures ToQuestionItems(qs).Ok?
    ensures forall i :: 0 <= i < |qs| ==> KindShaped(ToQuestionItems(qs).value[i])
  {
  }

  /** `generate_retrieval(request)`. The response echoes the request's goal
      and difficulty. The retriever's `NameError` is not caught and escapes;
      an entry that does not convert to a `QuestionItem` gives a 500 naming
      the missing field. */
  function GenerateRetrieval(cfg: Config, req: Request, backend: RetrievalBackend): (o: Outcome)
    requires cfg.maxQuestions >= 1
    ensures Admit(cfg.retrievalGoals, cfg.difficulties, cfg.maxQuestions, req).Err? ==>
      o == Fail(Admit(cfg.retrievalGoals, cfg.difficulties, cfg.maxQuestions, req).error.status,
                Admit(cfg.retrievalGoals, cfg.difficulties, cfg.maxQuestions, req).error.detail)
    ensures o.Fail? && o.status != 500 ==>
      Admit(cfg.retrievalGoals, cfg.difficulties, cfg.maxQuestions, req).Err? &&
      o.detail == Admit(cfg.retrievalGoals, cfg.difficulties, cfg.maxQuestions, req).error.detail
    ensures o.Respond? ==>
      && o.response.goal == req.goal && o.response.difficulty == req.difficulty
      && |o.response.questions| <= cfg.maxQuestions
    ensures var a := Admit(cfg.retrievalGoals, cfg.difficulties, cfg.maxQuestions, req);
      a.Ok? ==>
        var g := RetrieveQuiz(backend.bank, req.goal, req.difficulty, a.value, backend.extract, backend.tfidf, backend.draws);
        && (g.Err? ==> o == Crash(NameError("logger")))
        && (g.Ok? && ToQuestionItems(g.value).Err? ==> o == Fail(500, Detail(ToQuestionItems(g.value).error)))
        && (g.Ok? && ToQuestionItems(g.value).Ok? ==>
              o == Respond(QuizResponse(req.goal, req.difficulty, ToQuestionItems(g.value).value)))
    ensures !o.Invalid?
    ensures o.Crash? ==> o.error == NameError("logger")
  {
    match Admit(cfg.retrievalGoals, cfg.difficulties, cfg.maxQuestions, req)
    case Err(h) => Fail(h.status, h.detail)
    case Ok(n) =>
      Answer(RetrieveQuiz(backend.bank, req.goal, req.difficulty, n, backend.extract, backend.tfidf, backend.draws),
             req.goal, req.difficulty)
  }

  /** The `try` block of `generate_retrieval` after the retriever's call: the
      entries converted to `QuestionItem`s and returned with the request's
      goal and difficulty, with a caught error turned into a 500. */
  function Answer(g: Result<seq<Item>, PyError>, goal: string, difficulty: string): (o: Outcome)
    ensures g.Err? && Caught(g.error) ==> o == Fail(500, Detail(g.error))
    ensures g.Err? && !Caught(g.error) ==> o == Crash(g.error)
    ensures g.Ok? && ToQuestionItems(g.value).Err? ==> o == Fail(500, Detail(ToQuestionItems(g.value).error))
    ensures g.Ok? && ToQuestionItems(g.value).Ok? ==> o == Respond(QuizResponse(goal, difficulty, ToQuestionItems(g.value).value))
    ensures o.Respond? ==> g.Ok? && |o.response.questions| == |g.value|
    ensures !o.Invalid?
  {
    match g
    case Err(e) => Guard(e)
    case Ok(qs) =>
      match ToQuestionItems(qs)
      case Err(e) => Guard(e)
      case Ok(items) => Respond(QuizResponse(goal, difficulty, items))
  }

  /** `POST /generate`: request validation, then the endpoint of the mode. */
  function Handle(cfg: Config, raw: RawRequest, model: ModelBackend, retrieval: RetrievalBackend): (o: Outcome)
    requires cfg.defaultNum >= 1 && cfg.maxQuestions >= 1
    ensures o.Invalid? <==> ValidateRequest(raw, cfg.defaultNum).Err?
    ensures o.Respond? ==> |o.response.questions| <= cfg.maxQuestions
    ensures o.Fail? && o.status == 400 ==> o.detail != ClampMessage
    ensures var v := ValidateRequest(raw, cfg.defaultNum);
      v.Ok? ==>
        && (cfg.mode == ModelMode ==> o == GenerateModel(cfg, v.value, model))
        && (cfg.mode == RetrievalMode ==> o == GenerateRetrieval(cfg, v.value, retrieval))
  {
    match ValidateRequest(raw, cfg.defaultNum)
    case Err(fields) => Invalid(fields)
    case Ok(req) => Dispatch(cfg, req, model, retrieval)
  }

  /** The endpoint installed for the configured mode, on a validated request. */
  function Dispatch(cfg: Config, req: Request, model: ModelBackend, retrieval: RetrievalBackend): (o: Outcome)
    requires req.numQuestions >= 1 && cfg.maxQuestions >= 1
    ensures !o.Invalid?
    ensures cfg.mode == ModelMode ==> o == GenerateModel(cfg, req, model)
    ensures cfg.mode == RetrievalMode ==> o == GenerateRetrieval(cfg, req, retrieval)
    ensures o.Respond? ==> |o.response.questions| <= cfg.maxQuestions
    ensures o.Fail? && o.status == 400 ==> o.detail != ClampMessage
  {
    ClampNeverRejects(cfg, req);
    if cfg.mode == ModelMode then GenerateModel(cfg, req, model) else GenerateRetrieval(cfg, req, retrieval)
  }

  /** A validated request has a positive count, so `clamp_num`'s own 400 is
      unreachable from the endpoint. */
  lemma ClampNeverRejects(cfg: Config, req: Request)
    requires req.numQuestions >= 1 && cfg.maxQuestions >= 1
    ensures Admit(cfg.modelGoals, cfg.difficulties, cfg.maxQuestions, req).Err? ==>
      Admit(cfg.modelGoals, cfg.difficulties, cfg.maxQuestions, req).error.detail != ClampMessage
    ensures Admit(cfg.retrievalGoals, cfg.difficulties, cfg.maxQuestions, req).Err? ==>
      Admit(cfg.retrievalGoals, cfg.difficulties, cfg.maxQuestions, req).error.detail != ClampMessage
  {
    assert ("Unsupported goal: " + req.goal)[0] != ClampMessage[0];
    assert ("Unsupported difficulty: " + req.difficulty)[0] != ClampMessage[0];
  }
}
