# claw-hunt API core in Dafny

A model of the three pieces of logic at the centre of the claw-hunt API, with proofs about them:

- **Scoring engine** (`Scoring`, in `scoring.dfy`). The speed score is clamped and linear in latency. The quality estimate has four bands on the trimmed content length. The final score weights quality 70/30 against speed. JavaScript numbers are exact `real`s.
- **Job routes** (`Jobs`, in `jobs.dfy`). The class `Jobs.Store` holds the tables the route handlers touch:
  - jobs;
  - escrows, keyed by job;
  - users, keyed by handle;
  - submissions;
  - the append-only audit log.

  Each handler is a method on the store: `POST /jobs`, `GET /jobs/:id`, `POST /jobs/:id/submissions` and `POST /jobs/:id/score`. It validates its body against the zod schema, which is stated as a predicate. It then looks up what it needs and writes. Every method keeps the store invariant `Valid()`, which says:
  - every job is OPEN and has one LOCKED escrow holding its reward;
  - handles and ids are unique, and the id counter is fresh;
  - every job's requester and every submission's worker is a known user, every submission and every audit record belongs to a known job, and every audit record's actor, when it has one, is a known user;
  - a SCORED submission's scores are the scoring library's values for its latency and the rating it was given.
- **API-key gate** (`Auth`, in `auth.dfy`). The `onRequest` hook is a pure decision. It depends on the optional configured key, the request URL cut at the first `?`, and the `x-api-key` header.
- **JavaScript string semantics** (`JsString`, in `js_string.dfy`):
  - `.length` counts UTF-16 code units;
  - `trim()` removes the ECMAScript white-space and line-terminator characters;
  - `split(sep)` always yields at least one piece, none containing the separator, and joining the pieces with the separator gives the string back.
- `Wrappers` (in `wrappers.dfy`) holds `Option` and `Result`.

## Model

| member | source | states |
|---|---|---|
| Scoring.EstimateQualityFromContent | apps/api/src/lib/scoring.ts:6-12 | the estimate lies in [0.35, 0.85]; its band values, monotonicity and indifference to padding are `Scoring.QualityBands`, `Scoring.QualityMonotone` and `Scoring.QualityIgnoresSurroundingWhitespace` |
| Scoring.ComputeFinalScore | apps/api/src/lib/scoring.ts:14-16 | the 70/30 weighted score; its value, bounds and monotonicity are `Scoring.FinalScoreExample`, `Scoring.FinalScoreBounds` and `Scoring.FinalScoreMonotone` |
| Scoring.QualityForLength | apps/api/src/lib/scoring.ts:8-11 | the if-chain on the trimmed length; its band values and monotonicity are `Scoring.QualityBands` and `Scoring.BandsMonotone` |
| Scoring.CalculateSpeed | apps/api/src/lib/scoring.ts:1-4 | the speed score lies in [0, 1] for every latency of either sign |
| Scoring.SpeedAtZero | apps/api/test/scoring.test.ts:5-9 | zero latency scores 1 |
| Scoring.SpeedClampedAbove | apps/api/src/lib/scoring.ts:2-3 | every non-positive latency is clamped to 1 |
| Scoring.SpeedClampedBelow | apps/api/test/scoring.test.ts:5-9 | every latency of 10000 ms or more, so 10000 and 20000 too, scores 0 |
| Scoring.SpeedLinear | apps/api/src/lib/scoring.ts:2-3 | on [0, 10000] the score is 1 - latency/10000 |
| Scoring.SpeedMonotone | apps/api/src/lib/scoring.ts:2-3 | a larger latency never scores higher |
| Scoring.QualityBands | apps/api/src/lib/scoring.ts:6-12 | the estimate is 0.35, 0.55, 0.7 or 0.85, each exactly when the trimmed length is in its band (below 80, 80-199, 200-399, 400 and up) |
| Scoring.BandsMonotone | apps/api/src/lib/scoring.ts:8-11 | a longer length never falls into a lower band |
| Scoring.QualityMonotone | apps/api/src/lib/scoring.ts:7-11 | content with a longer trimmed length never gets a lower estimate |
| Scoring.QualityIgnoresSurroundingWhitespace | apps/api/src/lib/scoring.ts:7 | whitespace added before and after the content does not change the estimate |
| Scoring.TrimmedLengthOfPlain | apps/api/src/lib/scoring.ts:7 | for a string with no whitespace at either end and no character above U+FFFF, the measured length is its character count |
| Scoring.ShortScoresBelowLong | apps/api/test/scoring.test.ts:11-13 | "short" gets a strictly lower estimate than a string of 500 'x' characters |
| Scoring.FinalScoreExample | apps/api/test/scoring.test.ts:15-17 | quality 0.8 and speed 0.5 give exactly 0.71 |
| Scoring.FinalScoreBounds | apps/api/src/lib/scoring.ts:14-16 | quality and speed in [0, 1] give a final score in [0, 1] |
| Scoring.FinalScoreMonotone | apps/api/src/lib/scoring.ts:14-16 | raising quality or speed never lowers the final score |
| JsString.IsWhitespace | apps/api/src/lib/scoring.ts:7 | the characters `trim()` removes: the ECMAScript white-space and line-terminator code points (U+0009-U+000D, U+0020, U+00A0, U+1680, U+2000-U+200A, U+2028, U+2029, U+202F, U+205F, U+3000, U+FEFF); its use is carried by `JsString.TrimStart`, `JsString.TrimEnd` and `JsString.TrimDecomposes` |
| JsString.Trim | apps/api/src/lib/scoring.ts:7 | `String.prototype.trim`; what it returns is fixed by `JsString.TrimDecomposes` (the input is whitespace, then the trim, then whitespace, and the trim has no whitespace at either end) together with `JsString.TrimOfPadded` (that middle part is unique) |
| JsString.Utf16Length | apps/api/src/lib/scoring.ts:7 | `.length` lies between the number of characters and twice that |
| JsString.TrimStart | apps/api/src/lib/scoring.ts:7 | the result is a suffix of the input, what it drops is all whitespace, and it starts with non-whitespace or is empty |
| JsString.TrimEnd | apps/api/src/lib/scoring.ts:7 | the result is a prefix of the input, what it drops is all whitespace, and it ends with non-whitespace or is empty |
| JsString.TrimDecomposes | apps/api/src/lib/scoring.ts:7 | every string is its trim padded with whitespace on both sides, and the trim has no whitespace at either end |
| JsString.TrimOfPadded | apps/api/src/lib/scoring.ts:7 | trimming a string with no whitespace at either end, padded with whitespace, gives that string back |
| JsString.TrimOfTrimmed | apps/api/src/lib/scoring.ts:7 | a string with no whitespace at either end is its own trim |
| JsString.TrimIdempotent | apps/api/src/lib/scoring.ts:7 | trimming twice is trimming once |
| JsString.TrimIgnoresPadding | apps/api/src/lib/scoring.ts:7 | extra whitespace on either side does not change the trim |
| JsString.Split | apps/api/src/plugins/auth.ts:10 | `split` always yields at least one piece |
| JsString.BeforeFirst | apps/api/src/plugins/auth.ts:10 | the part before the first separator: a prefix without the separator, followed by it unless it is the whole string |
| JsString.SplitFirst | apps/api/src/plugins/auth.ts:10 | the first piece of `split` is the part before the first separator |
| JsString.SplitPiecesHaveNoSeparator | apps/api/src/plugins/auth.ts:10 | no piece contains the separator |
| JsString.JoinSplit | apps/api/src/plugins/auth.ts:10 | joining the pieces with the separator gives the string back |
| Auth.RequestPath | apps/api/src/plugins/auth.ts:10 | the path is a prefix of the URL with no `?`, and it is followed by `?` unless it is the whole URL |
| Auth.OnRequest | apps/api/src/plugins/auth.ts:8-16 | the hook only ever rejects with 401 Unauthorized, and only when a key is configured and the header differs from it; when it admits is `Auth.NoKeyAdmitsAll`, `Auth.HealthIsPublic` and `Auth.KeyRequired` |
| Auth.ValidConfiguredKey | apps/api/src/config/env.ts:8 | the configured key is optional and, when set, at least 8 UTF-16 units long; `Auth.ConfiguredKeyIsEnforced` shows every such key switches the gate on |
| Auth.ConfiguredKeyIsEnforced | apps/api/src/config/env.ts:8 | every key of at least 8 characters, as the configuration accepts, switches the gate on: a non-public path is admitted exactly when the header carries the key |
| Auth.NoKeyAdmitsAll | apps/api/src/plugins/auth.ts:9 | with no key configured, every request is admitted |
| Auth.PathWithoutQuery | apps/api/src/plugins/auth.ts:10 | a URL without `?` is its own path |
| Auth.PathBeforeQuery | apps/api/src/plugins/auth.ts:10 | the path of `p?q` is `p` when `p` has no `?` |
| Auth.HealthIsPublic | apps/api/src/plugins/auth.ts:5-10 | `/health` and `/health?...` are admitted whatever key is configured and whatever header is sent |
| Auth.NearMissesAreGuarded | apps/api/src/plugins/auth.ts:5-15 | `/healthz`, `/health/` and `/jobs` without the key get 401 Unauthorized |
| Auth.KeyRequired | apps/api/src/plugins/auth.ts:12-15 | with a key configured, a non-public path is admitted exactly when the header equals the key; otherwise it gets 401 Unauthorized |
| Auth.SplitFallbackUnreachable | apps/api/src/plugins/auth.ts:10 | `split('?')` always has a first piece, so the `?? request.url` fallback is never taken |
| Jobs.IsInteger | apps/api/src/routes/jobs.ts:8 | zod's `.int()` on a number: it equals its floor; `Jobs.Store.CreateJob` and `Jobs.Store.CreateSubmission` store that integer, and their ensures say it equals the input |
| Jobs.LengthBetween | apps/api/src/routes/jobs.ts:6-14 | zod's `.min(lo).max(hi)` on a string, counted in UTF-16 units as `.length` counts; it is what `Jobs.ValidCreateJob` and `Jobs.ValidCreateSubmission` test |
| Jobs.AuditEvent.Action | apps/api/src/routes/jobs.ts:55-159 | the action tag of an audit record; `Jobs.Store.CreateJob`, `Jobs.Store.AddSubmission` and `Jobs.Store.ScoreSubmission` ensure the record they append carries JOB_CREATED, SUBMISSION_CREATED and SUBMISSION_SCORED respectively |
| Jobs.ValidCreateJob | apps/api/src/routes/jobs.ts:5-10 | the job body schema: title of 3 to 200 and prompt of 1 to 10000 UTF-16 units, a positive integer reward, a date; `Jobs.Store.CreateJob` succeeds exactly when it holds |
| Jobs.ValidCreateSubmission | apps/api/src/routes/jobs.ts:12-16 | the submission body schema: worker handle of 1 to 64 and content of 1 to 20000 UTF-16 units, a non-negative integer latency; `Jobs.Store.CreateSubmission` answers ValidationError exactly when it fails |
| Jobs.ValidScore | apps/api/src/routes/jobs.ts:18-21 | the scoring body schema: a rating in [0, 1]; `Jobs.Store.ScoreSubmission` answers ValidationError exactly when it fails |
| Jobs.RouteCalculateSpeed | apps/api/src/routes/jobs.ts:25-28 | the route's own speed function equals the library's for every input |
| Jobs.RouteScore | apps/api/src/routes/jobs.ts:143 | the inline 70/30 formula equals the library's final score |
| Jobs.RouteScoreBounds | apps/api/src/routes/jobs.ts:142-143 | for a valid rating and a stored latency, speed and score lie in [0, 1] |
| Jobs.ScoredSubmissionInRange | apps/api/src/routes/jobs.ts:145-153 | a submission scored by the route carries quality, speed and final score in [0, 1] |
| Jobs.Upsert | apps/api/src/routes/jobs.ts:97-101 | get-or-create by handle: an existing user is reused untouched; otherwise one user is added under a fresh id; other users are kept |
| Jobs.UpsertIdempotent | apps/api/src/routes/jobs.ts:97-101 | a second upsert of the same handle changes nothing and returns the same user |
| Jobs.InvariantAfterUpsert | apps/api/src/routes/jobs.ts:41-46 | a get-or-create keeps handles and ids unique and the invariant intact |
| Jobs.InvariantAfterNewJob | apps/api/src/routes/jobs.ts:34-65 | inserting an OPEN job with its LOCKED escrow and JOB_CREATED record under the fresh id keeps the invariant |
| Jobs.InvariantAfterStore | apps/api/src/routes/jobs.ts:103-122 | storing a consistent submission of a known job and worker, plus one audit record, keeps the invariant |
| Jobs.Store.CreateJob | apps/api/src/routes/jobs.ts:31-68 | an invalid body is a ValidationError with nothing changed, and the call succeeds exactly when the body is valid; on success: one new OPEN job with the given fields under a fresh id, one LOCKED escrow holding the reward, the system-requester user created the first time and reused afterwards, exactly one audit record appended, with no actor, the reward and the tag JOB_CREATED; submissions untouched |
| Jobs.Store.GetJob | apps/api/src/routes/jobs.ts:70-86 | the job, its escrow and exactly the submissions of that job, or JobNotFound for an unknown id; changes nothing |
| Jobs.Store.CreateSubmission | apps/api/src/routes/jobs.ts:88-125 | ValidationError for an invalid body and JobNotFound for an unknown job, both with nothing changed; succeeds exactly when neither applies, storing the given latency |
| Jobs.Store.AddSubmission | apps/api/src/routes/jobs.ts:97-122 | the worker is reused or created; one PENDING submission without scores is stored under a fresh id; exactly one record by the worker, tagged SUBMISSION_CREATED, is appended; jobs and escrows are untouched |
| Jobs.Store.ScoreSubmission | apps/api/src/routes/jobs.ts:127-175 | an invalid rating is a ValidationError, and an id missing under this job is SubmissionNotFound even if it exists under another job, both with nothing changed; on success the three scores are overwritten with the rating, the library speed and the library final score (in [0, 1]), the status becomes SCORED, latency, content, job and worker are kept, no other submission, job, escrow or user changes, exactly one record by the worker, tagged SUBMISSION_SCORED and carrying rating, speed and score, is appended, and the reply carries the formula label |

## Left out

- `apps/api/src/index.ts`, `apps/api/src/plugins/prisma.ts` and `apps/api/src/plugins/redis.ts` are not part of this model. They are server start-up and connection wiring, and no handler uses Redis. The same file also never registers the key gate; the model covers the gate anyway.
- `apps/api/src/config/env.ts` is not part of this model beyond its `API_KEY` rule, `Auth.ValidConfiguredKey` (optional, at least 8 characters). The configured key is a parameter of `Auth.OnRequest`.
- The error handler (`apps/api/src/plugins/error-handler.ts`) is reduced to its first case: a failed schema check becomes the `Jobs.ApiError` value ValidationError (400). Its DatabaseError and InternalServerError cases come from database and runtime failures, which are not modelled. The two 404 bodies, JobNotFound and SubmissionNotFound, are sent by the routes themselves and are modelled as `Jobs.ApiError` values.
- Zod parsing internals are not modelled; the schemas are predicates on already-decoded fields. `z.coerce.date()` is abstracted to `Option<int>`, where `None` means the input does not coerce to a valid date. A body with a missing or wrongly-typed field is not represented.
- Prisma's string ids are fresh natural numbers from one counter. The `min(1)` checks on the `:id` path parameter and on `submissionId` are therefore not modelled; an empty id would never name a stored record anyway.
- Timestamps (`createdAt`, audit times) and the `include` shaping of replies are not modelled. The default PENDING status and empty scores of a new submission come from the database schema, which is not part of this model; the model takes those defaults.
- JavaScript numbers are exact reals. IEEE-754 rounding and NaN or infinity inside `Math.min`/`Math.max` are not modelled. Integer counts (`rewardTokens`, `latencyMs`) are unbounded, which ignores the database column width.
- Strings are sequences of Unicode scalar values, so a lone UTF-16 surrogate half cannot be written down. `Jobs.LengthBetween` and `Scoring.TrimmedLength` count two units for each character above U+FFFF.
- The writes of one handler are not transactional in the source: the submission and its audit record are separate calls. A failure between them, and concurrent requests, are not modelled; each method is one atomic step.
- The content-length quality estimate is modelled and proved, but no route reaches it: the scoring route requires an explicit rating.
- Settlement, escrow release, payouts, WINNER promotion and job completion are not modelled, because no code for them exists. The invariant therefore states that every job stays OPEN with a LOCKED escrow and that no submission is a WINNER.
