# AI tutor service: mastery score and response normaliser

A Dafny model of the deterministic logic inside `AIEducatorService`
(`backend/ai_service.py`) of an AI tutoring backend:

- **Mastery scorer** (`calculate_mastery_score`): the percentage of correct
  attempts, less five points per hint used (at most twenty), floored at zero
  and rounded to two decimals. Module `MasteryScorer` (`mastery.dfy`).
- **Response normaliser**: the block that every `generate_*` method applies to
  the language model's reply. It trims the text. It strips a "```json" fence
  (slice `[7:-3]`) or, failing that, a bare "```" fence (slice `[3:-3]`), then
  trims again. It decodes the text with `json.loads` and shapes the result for
  the capability. When decoding fails it returns that capability's fixed
  fallback. Module `ResponseNormalizer` (`normalizer.dfy`) models this as one
  function, `Normalize`, whose argument `Capability` says which of the six
  methods it stands for.

Supporting modules:

- `PyStr` (`pystr.dfy`) gives Python's `str.strip()`, `str.startswith()` and
  slicing with negative, clamped bounds. `str.isspace()` uses Python's own
  whitespace set.
- `Json` (`json.dfy`) models the values `json.loads` returns (with NaN and
  the infinities as constructors of their own), `dict.get` with a default,
  and Python truth testing.
- `Wrappers` (`wrappers.dfy`) holds `Option`.

Design choices:

- Every operation is a pure function. The source mutates nothing: its only
  field, the API key, is set once and only used for the model call, which is
  not modelled.
- `json.loads` is a parameter, `decode: string -> Option<Json>`. `None` stands
  for `JSONDecodeError`.
- Scores are exact reals. `round(x, 2)` rounds `100 * x` to the nearest
  integer, and on an exact tie to the even one, as Python's `round` does.
- Two behaviours of the source are worth knowing; the model keeps both:
  - Solution, progress summary, lesson plan and diagnostic return the decoded
    value without checking it against the fields their prompts ask for
    (`DecodedPassesThrough`).
  - Only `JSONDecodeError` is caught (line 62), so hints and problems raise
    `AttributeError` when the decoded value is not a dict. See Findings.

## Model

| member | source | states |
|---|---|---|
| `MasteryScorer.MasteryScore` | backend/ai_service.py:148-163 | the score is 0.0 with no attempts; it always lies in [0, 100]; it has at most two decimals; it is within 0.005 of the unrounded `max(0, base - penalty)`, and on an exact tie it is the hundredth with an even last digit |
| `MasteryScorer.NoAttemptsScoresZero` | backend/ai_service.py:150-151 | an empty attempt list scores exactly 0.0 whatever hints were used |
| `MasteryScorer.CorrectCount` | backend/ai_service.py:153 | the correct count is at most the number of attempts; it is 0 exactly when no attempt is correct and equals the number of attempts exactly when all are |
| `MasteryScorer.CorrectCountAlike` | backend/ai_service.py:153 | attempt lists judged alike position by position have the same correct count |
| `MasteryScorer.MissingCorrectIsIncorrect` | backend/ai_service.py:153 | replacing an attempt that lacks the "correct" key by `{"correct": False}` leaves the score unchanged |
| `MasteryScorer.CorrectnessIsTruthiness` | backend/ai_service.py:153 | "correct" is truth-tested: the string "false" and NaN count as correct; 0, "" and a missing key count as incorrect |
| `MasteryScorer.IsCorrect` | backend/ai_service.py:153 | an attempt is correct when `a.get('correct', False)` is truthy |
| `MasteryScorer.TotalHints` | backend/ai_service.py:154 | `sum(len(h) for h in hints_used)`, summed front to back |
| `Json.Get` | backend/ai_service.py:58-60 | `dict.get(key, default)`: the key's value when present, the default otherwise |
| `Json.Truthy` | backend/ai_service.py:153 | Python truth testing: `None`, `False`, zero, "", `[]` and `{}` are false; everything else, NaN and the infinities included, is true |
| `MasteryScorer.BaseScore` | backend/ai_service.py:157 | the base score lies in [0, 100]; it is 100 exactly when every attempt is correct and 0 exactly when none is |
| `MasteryScorer.RatioAtMostOne` | backend/ai_service.py:157 | `correct_count / len(attempts)` is a share in [0, 1]; it is 1 only for all and 0 only for none |
| `MasteryScorer.HintPenalty` | backend/ai_service.py:160 | the penalty never exceeds 20; it is 5 per hint up to four hints and 20 from four hints on |
| `MasteryScorer.ExactScore` | backend/ai_service.py:157-162 | the unrounded score lies in [0, 100] and between `base - 20` and `base` |
| `MasteryScorer.RoundHalfEven` | backend/ai_service.py:163 | the result is an integer within 0.5 of the argument, and the even one on an exact tie |
| `MasteryScorer.Round2` | backend/ai_service.py:163 | `round(x, 2)` has at most two decimals, is within 0.005 of `x`, and on an exact tie is the hundredth with an even last digit |
| `MasteryScorer.RoundUnitBounds` | backend/ai_service.py:162-163 | rounding a value in [0, 100] to two decimals stays in [0, 100] |
| `MasteryScorer.RoundHalfEvenMonotone` | backend/ai_service.py:163 | rounding never reverses the order of two reals |
| `MasteryScorer.Round2Monotone` | backend/ai_service.py:163 | rounding to two decimals never reverses the order of two reals |
| `MasteryScorer.PenaltyIsCapped` | backend/ai_service.py:160-163 | however many hints are used, the score is at least the rounded `max(0, base_score - 20)` |
| `MasteryScorer.MoreHintsNeverHelp` | backend/ai_service.py:154-163 | the score is non-increasing in the total number of hints |
| `MasteryScorer.SameTotalSameScore` | backend/ai_service.py:154-163 | two hint histories with the same total give the same score |
| `MasteryScorer.TotalHintsAppend` | backend/ai_service.py:154 | hint totals add up over concatenated hint histories |
| `MasteryScorer.TotalHintsFlatten` | backend/ai_service.py:154 | the hint total is the length of all hint lists laid end to end |
| `MasteryScorer.TotalHintsRemove` | backend/ai_service.py:154 | taking one hint list out of the history takes exactly its length off the total |
| `MasteryScorer.TotalHintsPermutation` | backend/ai_service.py:154 | the total hint count is the same for any reordering of the hint lists |
| `MasteryScorer.HintOrderDoesNotMatter` | backend/ai_service.py:154 | any reordering of the hint lists (same multiset) gives the same score |
| `MasteryScorer.HintSpreadDoesNotMatter` | backend/ai_service.py:154 | how hints are spread over lists, and whether the lists line up with attempts, does not affect the score |
| `MasteryScorer.AllCorrectScoresHundred` | backend/ai_service.py:153-163 | any non-empty all-correct attempt list with no hints scores 100.0 |
| `MasteryScorer.OneCorrectScoresHundred` | backend/ai_service.py:148-163 | `[{"correct": True}]` with no hints scores 100.0 |
| `MasteryScorer.OneOfTwoScoresFifty` | backend/ai_service.py:148-163 | one correct out of two with no hints scores 50.0 |
| `PyStr.LStrip` | backend/ai_service.py:50 | `lstrip()` returns a suffix of its input; everything it drops is whitespace; it does not start with whitespace |
| `PyStr.RStrip` | backend/ai_service.py:50 | `rstrip()` returns a prefix of its input; everything it drops is whitespace; it does not end with whitespace |
| `PyStr.Strip` | backend/ai_service.py:50 | `strip()` returns text with neither end whitespace; it is empty exactly when the input is all whitespace |
| `PyStr.StripUnique` | backend/ai_service.py:50 | whitespace, then trimmed text, then whitespace, strips to exactly that text |
| `PyStr.StripTrimmed` | backend/ai_service.py:50 | `strip()` leaves trimmed text unchanged, so it is idempotent |
| `PyStr.StripPadded` | backend/ai_service.py:50 | whitespace added around text does not change what `strip()` returns |
| `PyStr.StripSpacePrefix` | backend/ai_service.py:50 | leading whitespace does not change what `strip()` returns |
| `PyStr.StripSpaceSuffix` | backend/ai_service.py:50 | trailing whitespace does not change what `strip()` returns |
| `PyStr.LStripSpacePrefix` | backend/ai_service.py:50 | leading whitespace does not change what `lstrip()` returns |
| `PyStr.RStripSpaceSuffix` | backend/ai_service.py:50 | trailing whitespace does not change what `rstrip()` returns |
| `PyStr.LStripAppend` | backend/ai_service.py:50 | once `lstrip()` reaches a non-space character it keeps the rest unchanged |
| `PyStr.AllSpaceConcat` | backend/ai_service.py:50 | text is all whitespace exactly when both of its parts are |
| `PyStr.IsSpace` | backend/ai_service.py:50 | `str.isspace()` on one character: Python's whitespace set, including the Unicode separators |
| `PyStr.StartsWith` | backend/ai_service.py:51-53 | `str.startswith(prefix)`: the prefix is an initial segment of the text |
| `PyStr.SliceBound` | backend/ai_service.py:52 | a slice bound lands in [0, len]; a negative bound counts from the end; a bound outside the text is clamped |
| `PyStr.Slice` | backend/ai_service.py:52 | a slice is never longer than the text |
| `PyStr.SliceUnwraps` | backend/ai_service.py:52 | `(p + s + q)[len(p):-len(q)]` is `s` for non-empty `q` |
| `PyStr.SliceCrossed` | backend/ai_service.py:52 | a slice whose stop lands at or before its start is empty |
| `ResponseNormalizer.Clean` | backend/ai_service.py:50-54 | the cleaned text is trimmed and no longer than the reply; an unfenced reply only gets trimmed |
| `ResponseNormalizer.JsonFencedText` | backend/ai_service.py:51-52 | "```json" + s + "```" is trimmed, takes the "```json" branch, and slices back to `s` |
| `ResponseNormalizer.BareFencedText` | backend/ai_service.py:53-54 | "```" + s + "```", with `s` not starting with "json", skips the "```json" branch, takes the bare branch, and slices back to `s` |
| `ResponseNormalizer.BareFenceIsNotJsonFence` | backend/ai_service.py:51-53 | "```" + s + "```" starts with "```json" only if `s` starts with "json" |
| `ResponseNormalizer.CleanJsonFence` | backend/ai_service.py:50-52 | "```json" + s + "```", with any surrounding whitespace, cleans to `s.strip()` |
| `ResponseNormalizer.CleanBareFence` | backend/ai_service.py:50-54 | "```" + s + "```", with any surrounding whitespace and `s` not starting with "json", cleans to `s.strip()` |
| `ResponseNormalizer.JsonFenceTestedFirst` | backend/ai_service.py:51-54 | a "```json" fence matches both prefixes; the seven-character rule is the one applied, and the bare rule would have kept "json" |
| `ResponseNormalizer.FencedLikeUnfenced` | backend/ai_service.py:48-56 | for every capability, a fenced reply gives the same outcome as the unfenced reply, when the reply does not itself start with a fence |
| `ResponseNormalizer.SameTextSameOutcome` | backend/ai_service.py:48-56 | two replies that clean to the same text give the same outcome |
| `ResponseNormalizer.ShortJsonFenceIsEmpty` | backend/ai_service.py:51-52 | a trimmed reply of at most ten characters starting with "```json" cleans to "" |
| `ResponseNormalizer.UnclosedFenceLosesTail` | backend/ai_service.py:51-52 | a reply that opens a "```json" fence without closing it loses its last three characters |
| `ResponseNormalizer.HintsFallback` | backend/ai_service.py:64-68 | the three fallback hints, the first two built from topic and difficulty |
| `ResponseNormalizer.SolutionFallback` | backend/ai_service.py:101-105 | the placeholder solution: one step, an answer and an explanation |
| `ResponseNormalizer.ProgressFallback` | backend/ai_service.py:199-204 | the placeholder summary: one entry per list and a motivational message |
| `ResponseNormalizer.LessonPlanFallback` | backend/ai_service.py:246-250 | the placeholder plan: one objective, one activity and two materials |
| `ResponseNormalizer.PracticeActivity` | backend/ai_service.py:248 | the single fallback activity, lasting `session_length` minutes |
| `ResponseNormalizer.DiagnosticFallback` | backend/ai_service.py:289-291 | the placeholder assessment: no questions |
| `ResponseNormalizer.Fallback` | backend/ai_service.py:62-291 | the fallback of each of the six `except JSONDecodeError` blocks (lines 62-68, 100-105, 145-146, 198-204, 245-250, 288-291): the hints fallback has three entries; the problems fallback is `[]`; every other fallback is a dict |
| `ResponseNormalizer.Shape` | backend/ai_service.py:56-61 | hints and problems raise `AttributeError` exactly on a decoded non-dict; hints give three values, taken from keys "hint1".."hint3" with default ""; problems give the "problems" entry with default `[]`; other capabilities return the decoded value |
| `ResponseNormalizer.Normalize` | backend/ai_service.py:48-68 | an undecodable reply gives the capability's fallback; a decoded reply is shaped for the capability; only hints and problems can raise; hints always return three values |
| `ResponseNormalizer.UndecodableFallsBack` | backend/ai_service.py:62-291 | in each of the six `except JSONDecodeError` blocks (lines 62-68, 100-105, 145-146, 198-204, 245-250, 288-291), for every capability a reply that does not decode returns the fallback and raises nothing |
| `ResponseNormalizer.HintsOutcome` | backend/ai_service.py:56-68 | hints: on a decode failure, the three fallback sentences built from topic and difficulty; on a dict, three values, each hint key's value or "" when the key is missing; an error exactly when a non-dict decodes |
| `ResponseNormalizer.HintsExampleText` | backend/ai_service.py:50-52 | the fenced reply "```json\n{...}\n```" cleans to the bare JSON document |
| `ResponseNormalizer.HintsExample` | backend/ai_service.py:50-61 | that reply, decoded to hints "a", "b", "c", yields `["a", "b", "c"]` |
| `ResponseNormalizer.ProblemsOutcome` | backend/ai_service.py:136-146 | problems: `[]` on a decode failure; on a dict, `[]` when "problems" is missing and its value otherwise |
| `ResponseNormalizer.SolutionOutcome` | backend/ai_service.py:100-105 | solution: on a decode failure, a dict with the single placeholder step |
| `ResponseNormalizer.ProgressOutcome` | backend/ai_service.py:198-204 | progress summary: on a decode failure, a dict with all four summary fields |
| `ResponseNormalizer.LessonPlanOutcome` | backend/ai_service.py:245-250 | lesson plan: on a decode failure, exactly one activity whose `time_minutes` is `session_length` |
| `ResponseNormalizer.DiagnosticOutcome` | backend/ai_service.py:288-291 | diagnostic: on a decode failure, `{"questions": []}` |
| `ResponseNormalizer.DecodedPassesThrough` | backend/ai_service.py:92-287 | (lines 92-99, 190-197, 237-244, 280-287) solution, progress summary, lesson plan and diagnostic return the decoded value unchanged and unchecked |
| `ResponseNormalizer.HintsRaiseOnList` | backend/ai_service.py:56-62 | the reply "[]" makes hints raise `AttributeError`; the corrected normaliser returns the fallback instead |
| `ResponseNormalizer.NormalizeTotal` | backend/ai_service.py:62-68 | the corrected normaliser always returns a value; hints always give three; it agrees with `Normalize` wherever that returns, and gives the fallback where that raises |

## Findings

| source | as written | input that shows it | evidently intended | confidence | as-written member | corrected member |
|---|---|---|---|---|---|---|
| backend/ai_service.py:56-62 | `hints_data.get(...)` on whatever `json.loads` returned; only `JSONDecodeError` is caught | a reply of `[]` (or `"text"`, `42`, `null`) to `generate_hints` raises `AttributeError`; `generate_practice_problems` (lines 143-146) does the same | unusable model output gives the fallback and never reaches the caller as an exception | high (not executed) | `ResponseNormalizer.HintsRaiseOnList` | `ResponseNormalizer.NormalizeTotal` |

## Left out

- The call to the language model (`_create_chat`, `LlmChat`, `send_message`) and the prompt templates are left out. They are foreign calls with no logic; the reply is a parameter.
- Reading `EMERGENT_LLM_KEY` from the environment (lines 6-12) is process configuration and is left out.
- `json.loads` itself is left out. The `decode` parameter stands for it; its grammar, and errors other than `JSONDecodeError`, are not modelled.
- The request layer (`backend/server.py`), the ORM tables (`backend/models.py`) and the browser client (`frontend/static/js/app.js`) are not part of this model. They route, persist and render; they do not compute.
- `async` suspension is left out. Each method does its work after the single awaited call, so the model starts from the reply.
- MasteryScorer.MasteryScore: models exact real arithmetic, not IEEE-754 doubles. Rounding error in `/` and `* 100` before `round(…, 2)` is not captured.
- MasteryScorer.MasteryScore: does not distinguish the `int` 0 that `max(0, …)` yields from the float 0.0. The two are equal numbers.
- MasteryScorer.MasteryScore: attempts are dicts and hint lists are lists of strings, as the request schema declares. Other Python values, whose `.get` or `len` would raise or behave differently, are not modelled.
- The prompt of `generate_progress_summary` counts correct attempts again (line 183). It only feeds the prompt, so it is left out with the prompts.
