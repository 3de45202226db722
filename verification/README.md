# Smart Quiz — a Dafny model of the quiz generators and their HTTP front end

Smart Quiz serves one endpoint, `POST /generate`. It takes a goal (a target
role such as "Amazon SDE"), a difficulty and a question count, and returns a
quiz. At startup the configuration selects one of two generators:

- **model mode** samples rows of a dataset and writes the questions with
  neural models. Each question is either multiple choice, with an answer and
  shuffled options built from the nearest distractors, or short answer.
- **retrieval mode** picks a seed question of the goal from a question bank
  and extracts its topics. It then ranks the bank by TF-IDF similarity plus a
  topic bonus and keeps the eligible entries, with a fallback when too few
  match.

The model is written in pure functions over immutable data:

- Every random choice takes its value from an explicit stream of naturals
  (`Draws`). `random.sample`, `random.shuffle` and `random.choice` therefore
  hold for every possible draw.
- Every neural model, the TF-IDF vectoriser, the topic extractor and the file
  system are function-typed parameters.
- A JSON entry is an `Item` whose missing keys are `None`.
- A Python exception is an `Err` carrying the exception class (`PyError`).

Modules:

- `Base`: `Option`, `Result`, `PyError`.
- `Seqs`: sequence facts.
- `Draws`: random draws.
- `Ranking`: the stable descending sort cut to its top k.
- `PyStr`: `lower`, `strip` and `in` on strings.
- `Items`: quiz entries.
- `DataModel`: `data_model.py`.
- `QuizModel`: `quiz_model.py`.
- `QuestionMatcher`: `question_matcher.py`.
- `QuizRetrieval`: `quiz_retrieval.py`.
- `Api`: `main.py`.

The retrieval matcher has two defects, listed under Findings below. `Match`
and `Fallback` model the matcher as written. `MatchCorrected` and
`FallbackByPosition` are the repaired versions, and `RetrieveQuizCorrected`
runs on the repaired matcher.

## Model

| member | source | states |
|---|---|---|
| Api.Startup | app/main.py:47-60 | The configuration is accepted exactly when the four required settings are present, both counts are at least 1 (defaults 5 and 10), and the mode is "model" or "retrieval". A failed setting gives a ValidationError, which is checked before the mode. The first failing setting names the ValidationError. When every setting is valid, the only error is the RuntimeError "generator_mode must be 'model' or 'retrieval'". The goal and difficulty lists are the configured ones, unchanged. |
| Api.StartupDefaults | app/main.py:52-53 | Leaving out both counts yields default_num_questions 5 and max_questions 10. |
| Api.ValidateRequest | app/main.py:65-68 | A request is valid exactly when goal and difficulty are present and the count, if given, is positive. A missing count takes the configured default. On failure the error lists "goal" exactly when the goal is missing, "difficulty" exactly when the difficulty is missing, and "num_questions" exactly when a non-positive count was given. |
| Api.ClampNum | app/main.py:122-126 | A count of 0 or less is rejected with 400 "num_questions must be ≥ 1". Otherwise the result is min(n, max_questions): at most both, equal to one of them, and at least 1. |
| Api.ClampIdempotent | app/main.py:122-126 | Clamping a clamped count gives the same result. |
| Api.ToQuestionItem | app/main.py:71-80 | An entry converts exactly when type, question, answer, difficulty and topic are all present. The fields are copied, options are kept, and the first missing field gives a ValidationError. |
| Api.ToQuestionItems | app/main.py:146 | The list converts exactly when every entry converts. The result then matches entry by entry; otherwise the error is a ValidationError. |
| Api.Admit | app/main.py:136-141 | The goal is checked first ("Unsupported goal: g"), then the difficulty ("Unsupported difficulty: d"), then the count is clamped. |
| Api.GenerateModel | app/main.py:135-150 | A rejected request gives the rejection as its status and detail. An admitted request runs the generator on the clamped count. Its quiz is answered with one converted question per entry, each either multiple choice with its answer among its options or short answer without options. A caught error (ValueError, RuntimeError, ValidationError) becomes a 500 carrying its message. Any other error escapes the handler. A response echoes goal and difficulty and has at most max_questions questions. |
| Api.ModelItemsConvert | app/main.py:146 | Every entry the model generator produces converts to a QuestionItem and keeps its kind. |
| Api.GenerateRetrieval | app/main.py:155-170 | A rejected request gives the rejection. For an admitted request, a retriever error escapes as the NameError on `logger`. A quiz whose entries all convert is answered with those items, echoing the request's goal and difficulty. An entry that fails to convert gives a 500 naming the missing field. A response has at most max_questions questions. |
| Api.Answer | app/main.py:164-170 | Converted entries are returned with the given goal and difficulty, one item per entry. A conversion failure, or a caught generator error, becomes a 500 carrying its message. Any other error escapes. |
| Api.Handle | app/main.py:65-68 | The result is a 422 exactly when request validation fails. A response never exceeds max_questions. clamp_num's own 400 is never returned. A valid request is answered by generate_model in model mode and by generate_retrieval in retrieval mode. |
| Api.Dispatch | app/main.py:131-170 | The endpoint is generate_model in model mode and generate_retrieval otherwise. On a validated request it never answers 422, a response has at most max_questions questions, and clamp_num's own 400 is never returned. A valid request is answered by generate_model in model mode and by generate_retrieval in retrieval mode. |
| Api.ClampNeverRejects | app/main.py:141 | For a validated request, a rejection from the endpoint checks is never clamp_num's message. |
| DataModel.LoadShape | app/model_quiz/data_model.py:4-7 | A list document is returned as is. An object yields its "data" member, or an empty list when it has none. Any other document raises. |
| DataModel.LoadShapeDataWrapper | app/model_quiz/data_model.py:7 | Rows wrapped as the "data" member load the same as the bare list. |
| DataModel.FilterDataset | app/model_quiz/data_model.py:9-11 | The result keeps exactly the rows whose lowercased goal equals the lowercased, stripped request goal and whose lowercased difficulty equals the difficulty as given. It is a subsequence of the dataset. A kept row occurs as often as in the dataset, and any other row does not occur. |
| DataModel.FilterDatasetIdempotent | app/model_quiz/data_model.py:9-11 | Filtering twice gives the same rows as filtering once. |
| DataModel.UpperCaseDifficultyMatchesNothing | app/model_quiz/data_model.py:11 | A difficulty containing an upper-case letter selects no row. |
| DataModel.GoalIsNormalised | app/model_quiz/data_model.py:10 | Two goals that agree after lowercasing and stripping select the same rows. |
| DataModel.FilterDatasetAppend | app/model_quiz/data_model.py:11 | Filtering distributes over concatenation. |
| QuizModel.McqCount | app/model_quiz/quiz_model.py:70 | max(1, int(0.6·n)) is at least 1. It is at most n for n ≥ 1, and below n for n ≥ 2. |
| QuizModel.McqCountIsSixTenths | app/model_quiz/quiz_model.py:70 | For n ≥ 2 the count is the integer part of 0.6·n. |
| QuizModel.TypeList | app/model_quiz/quiz_model.py:71 | The list holds McqCount(n) "mcq" and n − McqCount(n) "short_answer", nothing else, and has n elements for n ≥ 1. |
| QuizModel.ShuffledTypeCounts | app/model_quiz/quiz_model.py:71-72 | Shuffling the type list keeps both counts and its length. |
| QuizModel.BestOfIsFirstPeak | app/model_quiz/quiz_model.py:30-37 | The loop keeps the first answer that reaches the highest score above the floor. It keeps the original answer when no score exceeds the floor. Failing models are skipped. |
| QuizModel.PeakIsMax | app/model_quiz/quiz_model.py:34-35 | No QA score exceeds the peak. A peak above the floor is reached by some answer. |
| QuizModel.ChooseAnswer | app/model_quiz/quiz_model.py:29-38 | When the best QA score exceeds 0.3, the answer is the first answer reaching that score. Otherwise it is the original. |
| QuizModel.ExtractAnswersWithQa | app/model_quiz/quiz_model.py:27-39 | zip length (the shortest input). Each position gets the 0.3-threshold choice of its own context, question and original. |
| QuizModel.Nearest | app/model_quiz/quiz_model.py:50-53 | min(k, len(pool)) members of the pool, none taken more often than the pool holds it. No pool element left out is more similar to the answer than one chosen. |
| QuizModel.NearestDominates | app/model_quiz/quiz_model.py:51-53 | Taking the pool elements at the top positions, no element left out is more similar to the answer than one taken. |
| QuizModel.GetDistractors | app/model_quiz/quiz_model.py:42-54 | The call succeeds exactly when every non-empty pool has an answer at its index; otherwise it raises IndexError. An empty pool gives []. Any other pool gives its top-k nearest members, as a sub-multiset of the pool. |
| QuizModel.Options | app/model_quiz/quiz_model.py:89-91 | The options are distinct and contain the answer and every distractor, and nothing else. There are at least two exactly when some distractor differs from the answer. |
| QuizModel.OptionsMembers | app/model_quiz/quiz_model.py:89-90 | A shuffle of the first occurrences of distractors plus answer contains the answer and every distractor, and nothing else. |
| QuizModel.OptionsCount | app/model_quiz/quiz_model.py:89 | Distinct options made of the answer and the distractors number at least two exactly when some distractor differs from the answer. |
| QuizModel.BuildEntry | app/model_quiz/quiz_model.py:79-92 | An entry has the row's type, topic and difficulty and the given question. If it is multiple choice, its answer is the given answer. Its distinct options hold every given distractor and the answer, and nothing else. If it is short answer, its answer is the stripped context and it has no options. |
| QuizModel.Assemble | app/model_quiz/quiz_model.py:74-92 | One built entry per selected row, with that row's shuffled type. Entry i carries the i-th generated question. A multiple-choice entry i answers with the i-th QA answer, and its options contain the i-th distractor list. |
| QuizModel.Distractors | app/model_quiz/quiz_model.py:66-76 | The distractor call on the QA answers and the rows' pools cannot fail. Each list it returns is drawn from its row's pool. |
| QuizModel.AssembledShapes | app/model_quiz/quiz_model.py:78-92 | Every assembled entry has a valid shape, comes from its row, and carries its type. |
| QuizModel.AssembledTypes | app/model_quiz/quiz_model.py:71-82 | When the sample is as long as the request, the assembled entries' types are a permutation of the type list. |
| Draws.SamplePositions | app/model_quiz/quiz_model.py:65 | random.sample takes k distinct positions of the pool. |
| Draws.Shuffle | app/model_quiz/quiz_model.py:72 | random.shuffle keeps the length and the multiset of elements, and keeps distinct elements distinct. |
| QuizModel.Selected | app/model_quiz/quiz_model.py:65 | random.sample returns k rows. |
| QuizModel.SelectedFromPool | app/model_quiz/quiz_model.py:65 | The sampled rows come from the pool. |
| QuizModel.Entries | app/model_quiz/quiz_model.py:66-92 | One well-shaped entry per selected row, built from that row with the shuffled type at its position. Entry i carries generated question i. A multiple-choice entry i answers with QA answer i among distinct options. Those options include every element of distractor list i, and each option is one of the row's distractors or the answer. For a full sample, the multiset of types is that of the type list. |
| QuizModel.MissingKey | app/model_quiz/quiz_model.py:66-67 | No error exactly when every sampled row has "context" and "correct_answer". A row without "context" gives KeyError("context"), since contexts are read first. KeyError("correct_answer") arises only when every context is present. |
| QuizModel.SelectedKeys | app/model_quiz/quiz_model.py:65-67 | When every pool row has both keys, so does every sampled row. |
| QuizModel.QuizFromRows | app/model_quiz/quiz_model.py:66-92 | The sampled rows give a quiz exactly when they all have both keys. Otherwise the error is a KeyError, and it is KeyError("context") whenever a row lacks a context. The quiz has one well-shaped entry per row, built from that row with the shuffled type at its position. Its questions, multiple-choice answers and options are the generated question, the QA answer and the row's distractors plus that answer. For a full sample its types are a permutation of the type list. |
| QuizModel.QuizFromPool | app/model_quiz/quiz_model.py:65-92 | The result is a quiz exactly when every sampled row has context and correct_answer; rows left out of the sample are never read. Otherwise it is KeyError "context" or "correct_answer", and it is KeyError("context") whenever a sampled row lacks a context. The quiz has min(n, len(pool)) well-shaped entries. Each is built from its sampled row, with the generated question, and for multiple choice the QA answer and that row's distractors plus the answer as options. |
| QuizModel.ShuffledTypesValid | app/model_quiz/quiz_model.py:71-72 | The shuffled type list has at least n elements, each "mcq" or "short_answer". |
| QuizModel.RunModelQuiz | app/model_quiz/quiz_model.py:57-94 | An unsupported goal or difficulty raises ValueError "Invalid goal or difficulty: g, d". An empty pool raises RuntimeError "No matching samples found". A negative count raises random.sample's ValueError. Past those checks, the only errors are KeyErrors. Complete rows always give a quiz, which echoes goal and difficulty and has min(n, len(pool)) well-shaped entries. Each entry is built from its sampled row, with the generated question, and for multiple choice the QA answer and that row's distractors plus the answer as options. |
| QuizModel.RunModelQuizSucceeds | app/model_quiz/quiz_model.py:57-94 | Past the goal, pool and count checks, the quiz succeeds exactly when every sampled row has context and correct_answer; rows left out of the sample are never read. A sampled row without a context gives KeyError("context"). |
| QuizModel.ModelQuizTypeSplit | app/model_quiz/quiz_model.py:70-72 | When the pool covers the request, exactly McqCount(n) entries are "mcq" and the rest are "short_answer". |
| QuizModel.ModelQuizSamplesDistinctRows | app/model_quiz/quiz_model.py:65 | The entries come from distinct pool positions, each entry from its own row. |
| QuestionMatcher.BuildBank | app/retrieval_quiz/question_matcher.py:7-27 | The bank fails, with RuntimeError "No questions loaded…", exactly when every file of an accepted goal yields nothing. Otherwise it is non-empty and holds exactly the questions of accepted, loaded files. |
| QuestionMatcher.CollectSources | app/retrieval_quiz/question_matcher.py:9-24 | Every bank entry comes from a file of an accepted goal, and every question of such a file is in the bank. |
| QuestionMatcher.CollectAppend | app/retrieval_quiz/question_matcher.py:9-24 | Loading is compositional over the list of domain files. |
| QuestionMatcher.SkippedGoalAddsNothing | app/retrieval_quiz/question_matcher.py:10-11 | A domain file whose lowercased goal is not a retrieval goal contributes nothing. |
| QuestionMatcher.NothingLoaded | app/retrieval_quiz/question_matcher.py:26-27 | An empty bank means every accepted file was missing, unreadable or empty. |
| QuestionMatcher.Texts | app/retrieval_quiz/question_matcher.py:29-32 | There is one corpus text per bank entry. Text i is entry i's context and question, joined by a space and stripped. |
| QuestionMatcher.Scores | app/retrieval_quiz/question_matcher.py:47-53 | Each score lies between its TF-IDF similarity and that plus 0.2. It exceeds the similarity exactly when some topic and the entry's topic are substrings of one another. |
| QuestionMatcher.EmptyTopicGetsBonus | app/retrieval_quiz/question_matcher.py:52-53 | An entry without a topic gets the bonus as soon as any topic is given. |
| QuestionMatcher.NoTopicsNoBonus | app/retrieval_quiz/question_matcher.py:52 | With no topics, no entry gets the bonus. |
| QuestionMatcher.Candidates | app/retrieval_quiz/question_matcher.py:55-56 | min(50, n) distinct positions. No position left out scores above one kept. |
| QuestionMatcher.CandidatesKeepBest | app/retrieval_quiz/question_matcher.py:55-56 | Which positions become candidates follows the stable sort: every position left out scores lower than each candidate, or scores the same and comes later. Among equal scores, the earliest positions are kept. |
| Ranking.TopK | app/retrieval_quiz/question_matcher.py:55 | min(k, n) positions, in stable descending order of score. Each one comes before every position left out. |
| Ranking.TopKOrder | app/retrieval_quiz/question_matcher.py:55 | The top positions are distinct and come by non-increasing score, equal scores in position order. No position left out scores higher than one kept. |
| QuestionMatcher.ShuffledTopDominates | app/retrieval_quiz/question_matcher.py:56 | Shuffling the top positions keeps their dominance over the rest. |
| QuestionMatcher.EligibleGoal | app/retrieval_quiz/question_matcher.py:61-66 | An eligible entry is of the goal. With no difficulty and no types, eligibility is exactly goal equality. |
| QuestionMatcher.ScanIsFilterPrefix | app/retrieval_quiz/question_matcher.py:59-72 | The loop picks the first max(1, max_q) eligible candidates in order, or all of them when there are fewer. |
| QuestionMatcher.ScanProperties | app/retrieval_quiz/question_matcher.py:58-72 | The picks are distinct eligible candidates. The loop returns early exactly when it has max(1, max_q) picks. Otherwise it has picked every eligible candidate. |
| QuestionMatcher.FirstPhase | app/retrieval_quiz/question_matcher.py:55-72 | The candidate scan yields distinct eligible positions among the candidates. It returns early exactly at max(1, max_q). A short scan missed no eligible candidate. |
| QuestionMatcher.Scored | app/retrieval_quiz/question_matcher.py:68-70 | One copy per picked position. Copy i equals the bank entry at pick i except for its "score", which is that entry's score. |
| QuestionMatcher.Match | app/retrieval_quiz/question_matcher.py:46-74 | Matching succeeds exactly when the candidates hold at least max(1, max_q) eligible entries. It then returns that many entries, each carrying a score and eligible. Otherwise it raises NameError on `logger`. |
| QuestionMatcher.MatchPicks | app/retrieval_quiz/question_matcher.py:55-72 | When matching returns, its entries are the scored copies of the first max(1, max_q) eligible candidates, in shuffled candidate order. |
| QuestionMatcher.FirstPhaseIsPrefix | app/retrieval_quiz/question_matcher.py:58-72 | The candidate loop returns early exactly when there are max(1, max_q) eligible candidates. It then holds the first that many of them. |
| QuestionMatcher.FirstPhaseScored | app/retrieval_quiz/question_matcher.py:58-72 | The first phase fills exactly when there are max(1, max_q) eligible candidates. It then picks the first max(1, max_q) of them, and their copies are scored and eligible. |
| QuestionMatcher.MatchRaisesOnShortBank | app/retrieval_quiz/question_matcher.py:74 | A one-entry bank asked for two questions raises in match. The corrected matcher answers the same call. |
| QuestionMatcher.Fallback | app/retrieval_quiz/question_matcher.py:76-84 | The fallback raises AttributeError exactly when the difficulty is None and some entry is of the goal. A None difficulty that does not raise returns `selected` unchanged. Otherwise `selected` stays a prefix. For a given difficulty, min(max_q - len(selected), number of comprehension entries) entries are appended. These are shuffled bank entries of the goal and difficulty, with a matching type, that are not whole-dictionary members of `selected`. |
| QuestionMatcher.FallbackDraws | app/retrieval_quiz/question_matcher.py:76-84 | For a given difficulty, the appended entries are drawn from the comprehension without repetition: no entry is appended more often than it occurs there. |
| QuestionMatcher.ExtendDraws | app/retrieval_quiz/question_matcher.py:76-84 | What Extend appends is a sub-multiset of the comprehension, so each bank position is used at most once. |
| QuestionMatcher.Extend | app/retrieval_quiz/question_matcher.py:76-84 | For a given difficulty, `selected` stays a prefix. Exactly min(max_q - len(selected), n) entries are appended, where n counts the comprehension's entries; when `selected` is longer than max_q, Python's negative slice gives max(0, n + max_q - len(selected)). Every appended entry is a bank entry of the goal and difficulty with a matching type that is not a whole-dictionary member of `selected`. |
| QuestionMatcher.ExtendLength | app/retrieval_quiz/question_matcher.py:84 | Appending the slice `[:max_q - len(selected)]` of a shuffled pool adds min(max_q - len(selected), len(pool)) entries. A negative bound drops entries from the end, adding max(0, len(pool) + max_q - len(selected)). |
| QuestionMatcher.ExtraFromPool | app/retrieval_quiz/question_matcher.py:83-84 | A prefix of a shuffled pool has the slice's length, and it is a sub-multiset of the pool: each pool element is drawn at most as often as it occurs. |
| QuestionMatcher.FallbackGuardIsVacuous | app/retrieval_quiz/question_matcher.py:81 | Against scored copies, the guard `q not in selected` excludes nothing. |
| QuestionMatcher.FallbackRepeatsPick | app/retrieval_quiz/question_matcher.py:76-84 | A bank with one eligible entry, after picking that entry once, returns it twice. |
| QuestionMatcher.FallbackByPosition | app/retrieval_quiz/question_matcher.py:76-84 | The corrected fallback keeps the same error. It keeps `picked` as a prefix and adds only unpicked, eligible positions without repeats. It fills up to max_q or until the eligible positions run out. |
| QuestionMatcher.ExtendByPosition | app/retrieval_quiz/question_matcher.py:76-84 | On a given difficulty, the extension has the prefix, distinctness and fill properties of the corrected fallback. |
| QuestionMatcher.ExtendFacts | app/retrieval_quiz/question_matcher.py:83-84 | Extending by a shuffled prefix of positions keeps the prefix and distinctness, and has the stated length. |
| QuestionMatcher.ExtraDistinct | app/retrieval_quiz/question_matcher.py:76-84 | The shuffled extra positions are distinct, and also distinct from the picked ones. |
| QuestionMatcher.FallbackIsEligible | app/retrieval_quiz/question_matcher.py:61-80 | An entry the fallback accepts (lines 78-80) passes the first phase's tests for every difficulty, the empty one included. |
| QuestionMatcher.PhasesAgree | app/retrieval_quiz/question_matcher.py:61-66 | With a non-empty difficulty, both phases test the same entries (lines 78-80 against 61-66). |
| QuestionMatcher.FallbackCovers | app/retrieval_quiz/question_matcher.py:76-82 | Picked positions plus fallback positions cover every eligible position. |
| QuestionMatcher.MatchPositions | app/retrieval_quiz/question_matcher.py:46-86 | The corrected match picks distinct positions of the goal, at most max_q of them. Every one of them passes the first phase's tests. For a non-empty difficulty, the count reaches max_q whenever the bank has that many eligible entries. The only error is the None-difficulty AttributeError. |
| QuestionMatcher.Refill | app/retrieval_quiz/question_matcher.py:74-86 | After a first phase that stopped short, the repaired fallback gives distinct positions of the goal that extend the picks. There are at most max_q of them, and all pass the first phase's tests. For a non-empty difficulty, there are exactly max_q when the bank has that many eligible entries. |
| QuestionMatcher.PickedGoal | app/retrieval_quiz/question_matcher.py:61-62 | Picked positions are of the goal. |
| QuestionMatcher.FallbackGoal | app/retrieval_quiz/question_matcher.py:76-84 | Every position of the combined result is of the goal and passes the first phase's tests, for every difficulty. |
| QuestionMatcher.Picks | app/retrieval_quiz/question_matcher.py:68-70 | Each pick is a copy of its bank entry, and the first-phase picks carry their score. |
| QuestionMatcher.MatchCorrected | app/retrieval_quiz/question_matcher.py:46-86 | The entries are copies at MatchPositions. They are of the goal and at most max_q of them. For a non-empty difficulty, there are exactly max_q when enough entries are eligible. |
| QuestionMatcher.MatchCorrectedAgreesWhenFilled | app/retrieval_quiz/question_matcher.py:58-72 | Whenever the match as written succeeds, the corrected match returns the same quiz. |
| QuizRetrieval.GoalQuestions | app/retrieval_quiz/quiz_retrieval.py:14-17 | The result holds exactly the bank entries of the goal, ignoring case. |
| QuizRetrieval.ChooseSeed | app/retrieval_quiz/quiz_retrieval.py:23 | The seed is one of the goal's questions. |
| QuizRetrieval.SeedTopics | app/retrieval_quiz/quiz_retrieval.py:24-25 | The topics are never empty. They are the extractor's topics when it finds any. |
| QuizRetrieval.Plan | app/retrieval_quiz/quiz_retrieval.py:14-35 | No match call is made exactly when the goal has no questions. Otherwise match gets the goal, max_q = num, the difficulty, ["mcq", "short_answer"] and non-empty topics. |
| QuizRetrieval.QuizTypesAreLower | app/retrieval_quiz/quiz_retrieval.py:34 | The requested types are already lower case. |
| QuizRetrieval.EligibleFits | app/retrieval_quiz/quiz_retrieval.py:29-35 | An entry eligible for the match call fits the request. |
| QuizRetrieval.FitAll | app/retrieval_quiz/quiz_retrieval.py:29-35 | Every eligible entry fits. |
| QuizRetrieval.RetrieveQuiz | app/retrieval_quiz/quiz_retrieval.py:13-35 | A goal without questions gives []. Otherwise the result is exactly `match` on the planned call. A quiz never has more than max(1, num) entries, and each is a scored copy of a bank entry. For a goal with questions it has exactly max(1, num) entries that fit the goal, the difficulty and the two types. The only error is NameError on `logger`. |
| QuizRetrieval.RetrieveQuizSucceeds | app/retrieval_quiz/quiz_retrieval.py:13-35 | Retrieval succeeds exactly when the goal has no questions, or when the shuffled candidates of the planned call hold max(1, num) entries eligible for the goal, the difficulty and the two types. |
| QuizRetrieval.MatchCopies | app/retrieval_quiz/question_matcher.py:68-70 | Every entry `match` returns is a bank entry carrying a score. |
| QuizRetrieval.RetrieveQuizCorrected | app/retrieval_quiz/quiz_retrieval.py:13-35 | On the corrected matcher the call always succeeds. It returns [] for an unknown goal and at most num entries of the goal. Every entry fits the request: goal, type and, when given, difficulty. For a non-empty difficulty, there are exactly num of them when the bank has enough fitting entries. |
| QuizRetrieval.CorrectedMatchCall | app/retrieval_quiz/quiz_retrieval.py:29-35 | The corrected matcher, called as retrieve_quiz calls it, satisfies the retrieval guarantees. |
| QuizRetrieval.CorrectedFits | app/retrieval_quiz/quiz_retrieval.py:29-35 | Every corrected match entry fits the request, the empty difficulty included. |

## Left out

- Neural models and I/O are parameters: the T5 question generator, the grammar corrector, the QA pipelines, SBERT similarity, the TF-IDF vectoriser, the spaCy topic extractor, and reading files and config.json. Their internals (tokenisation, truncation, batching, beam search, stop words) are not modelled.
- `USE_QA` is the constant True in app/model_quiz/config_model.py, so answers always go through QA. The branch that keeps the original answers is not modelled.
- Logging and the timing and CORS middleware are not modelled, except the undefined `logger` in the matcher. The health endpoint and the uvicorn entry point are also left out.
- The two entrypoint wrappers only forward their arguments. The model calls the generators directly.
- Similarities and scores are real numbers. Floating-point rounding, NaN and `float()` are not modelled.
- PyStr.Lower: models `str.lower` on ASCII letters only. Other Unicode case mappings are not modelled.
- QuizModel.GetDistractors: `argsort(descending=True)` is not stable in torch. The model breaks ties by position, and its contract states only the dominance that holds for any tie order. `squeeze()` on a one-element pool gives a 0-d tensor in torch; that case is modelled as an ordinary one-element pool.
- The prompt template of `generate_questions` is built (`QuizModel.Prompt`) but its text is stated in no contract, since its only consumer is the generator parameter.
- JSON values of the wrong type are not modelled: a non-string field, a non-list `distractors`, a bank file holding an object instead of a list.
- Api.ToQuestionItem: pydantic reports every failing field. The model reports the first missing one, and `Detail` renders a ValidationError as its field name rather than pydantic's full message.
- Api.Startup: `AppConfig` validation reports every failing setting. The model names only the first, in declaration order, as the field of its ValidationError.
- Api.ValidateRequest: a count that is not an integer, and extra keys in the body, are not modelled.
- A bank or model that fails to load while the service imports is not modelled. The RuntimeError of `QuestionMatcher.__init__` is modelled by BuildBank.
- The order of topics from the extractor (a Python set) is whatever the extractor parameter returns.

## Findings

| source | as written | input that shows it | evidently intended | confidence | as-written member | corrected member |
|---|---|---|---|---|---|---|
| app/retrieval_quiz/question_matcher.py:74 | `logger.warning(...)` refers to a name that is defined neither in the method nor at module level; `__init__` receives `logger` but does not store it. Every call in which the first phase finds fewer than max(1, max_q) eligible candidates raises NameError before the fallback runs. | A bank with one entry of goal "g", difficulty "d", and `match(["g"], "g", max_q=2, difficulty="d")` | The warning is logged through the logger passed to `__init__`, and the fallback at lines 76-86 fills the quiz | not executed | QuestionMatcher.Match (with QuestionMatcher.MatchRaisesOnShortBank) | QuestionMatcher.MatchCorrected |
| app/retrieval_quiz/question_matcher.py:81 | `q not in selected` compares a bank dictionary with the picked copies. Those copies carry an extra "score" key (line 69), so they never compare equal, and the guard excludes nothing. Entries picked in the first phase are appended again. | Once line 74 no longer raises: a bank with one eligible entry, max_q=2, one first-phase pick; the result holds that entry twice | The fallback adds only entries not already picked (by position) | not executed | QuestionMatcher.Fallback (with QuestionMatcher.FallbackGuardIsVacuous and QuestionMatcher.FallbackRepeatsPick) | QuestionMatcher.FallbackByPosition |
