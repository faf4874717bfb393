# QuizBank business rules in Dafny

QuizBank is a Django REST API for a crowd-sourced quiz question bank. Users
register, verify their e-mail, log in and submit questions. Each question has
a category, a difficulty, a type ("True / False" or "multiple-choice"), a
correct answer and up to three incorrect answers. Staff users verify
questions, and only verified questions are listed publicly. A scraper feeds
scraped questions into the create endpoint.

This project models the rules under the framework plumbing. Database tables
are sequences of rows in table order. Each table's invariant (unique ids,
foreign keys, the verification triple) is kept by every method that writes a
row.

- `Wrappers`, `Tables`, `Text`: `Option`/`Result`, and the queryset
  operations the code uses:
  - `filter`, `.count()`, slicing, and lookup by key;
  - `str.strip()` with Python's whitespace set, ASCII case-insensitive containment, `int()`, and `str()` on integers.
- `QuizModels` (`quiz/models.py`):
  - the `Category`, `Question` and `InCorrectAnswer` rows;
  - the `clean` check on the verification triple, `verify` and `unverify`;
  - the True / False answer limit;
  - the `QuizDb` class, whose methods are the model `save`s, `objects.create` and `bulk_create`;
  - the managers, the count statics, `last_created`/`last_verified`, the
    per-category count dictionary, and the sort keys of `random_all`.
- `QuizSerializers` (`quiz/serializers.py`):
  - field validation and `validate` of `QuestionPublicSerializer`;
  - `create` of a question with its answer rows;
  - the partial `update` that overwrites existing answer rows by position.
- `QuizViews` (`quiz/views.py`):
  - the public listing pipeline (filters, `limit`, the cap of 50, and the search branch);
  - the verification endpoint;
  - the statistics view with its `on` selector;
  - the per-user question statistics.
- `AuthModels` (`authentication/models.py`): the user row, the `UserDb`
  class (`create_user`, `save`) and the user and question counters.
- `AuthSerializers` (`authentication/serializers.py`): login, registration,
  resending verification, password change, profile update, reset request and
  new password, each as its ordered checks followed by its `save`.
- `AuthViews` (`authentication/views.py`): the staff toggle, the e-mail
  verification flip and the password-reset link check.
- `Permissions`, `ExceptionHandler`, `ApiConnector` (`common/permissions.py`,
  `common/exception.py`, `scraper/api_connector.py`):
  - the two permission predicates;
  - the error-envelope rewrite;
  - the scraper's file dispatch and item formatter.

Library primitives are parameters:
- `slugify`, base64 decoding and the NFKC normalisation of usernames are functions passed in;
- `PasswordResetTokenGenerator.check_token` is a predicate passed in;
- the outcome of JWT decoding is a datatype passed in;
- what opening and JSON-decoding a file gives is a function passed in;
- the current time is a parameter.

Passwords are stored as the accepted text, because hashing is a library
primitive, so `check_password` is equality. `random_all`'s random order is a
permutation of the verified rows, passed as a parameter. The scraper's random
difficulty is an index into its list, also passed as a parameter.

Two failure paths of the code are modelled as outcomes:
- On a table with no question, or no verified question, `last_created` /
  `last_verified` read `.date_created` / `.date_verified` of `None`, which
  raises. `LastCreated`, `LastVerified` and `FullStatistics` return `None`
  for that failure.
- Registration checks uniqueness against the username and e-mail as typed,
  but `create_user` stores them normalised: the username in NFKC form and
  the e-mail with its domain lower-cased. Where stored strings compare
  exactly (case-sensitively, as on PostgreSQL), a clash that only shows
  after normalisation passes validation and fails on the database's unique
  constraint. `Register` returns `RegisterIntegrityError` in that case.

## Model

| member | source | states |
|---|---|---|
| QuizModels.Clean | backend/quiz/models.py:108-115 | accepts a question exactly when it has a verifier iff it is verified, and a date whenever it is verified; names the first failed check |
| QuizModels.CleanIgnoresDateOfUnverified | backend/quiz/models.py:108-115 | an unverified question without a verifier passes whatever its date holds |
| QuizModels.Verified | backend/quiz/models.py:161-165 | `verify(user)` leaves the question verified by `user` at `now`, consistent, every other field unchanged |
| QuizModels.Unverified | backend/quiz/models.py:167-171 | `unverify` clears the triple to the defaults, every other field unchanged |
| QuizModels.VerifyThenUnverify | backend/quiz/models.py:161-171 | verify then unverify restores a fresh question exactly |
| QuizModels.ReverifyOverwrites | backend/quiz/models.py:161-165 | verifying again overwrites verifier and date: only the last call counts |
| QuizModels.CategoryIndex | backend/quiz/models.py:42-48 | lookup of a category by primary key: found exactly when the id is stored, at a row with that id |
| QuizModels.QuestionIndex | backend/quiz/models.py:75-103 | lookup of a question by primary key: found exactly when the id is stored |
| QuizModels.AnswerIndex | backend/quiz/models.py:174-178 | lookup of an answer row by primary key: found exactly when the id is stored |
| QuizModels.NewAnswerRows | backend/quiz/serializers.py:52-57 | the rows `bulk_create` inserts: one per pending pair, in order, with consecutive fresh ids |
| QuizModels.AnswersOfAppend | backend/quiz/models.py:183-199 | adding one answer row raises a question's answer count by one exactly when the row belongs to it |
| QuizModels.AnswersOfFreshRows | backend/quiz/serializers.py:48-59 | rows appended for a question that had none are exactly its answers afterwards |
| QuizModels.AnswersValidReplace | backend/quiz/models.py:197-199 | re-saving an answer row under its own id keeps ids unique and foreign keys valid |
| QuizModels.AnswersValidAppend | backend/quiz/models.py:197-199 | inserting an answer row under the next id keeps ids unique and foreign keys valid |
| QuizModels.QuizDb.SaveCategory | backend/quiz/models.py:42-55 | an empty slug is replaced by `slugify(name)`; the row is inserted or replaced unless another category holds the name or slug, in which case nothing changes |
| QuizModels.QuizDb.SaveQuestion | backend/quiz/models.py:117-119 | `save` runs `clean` first: a rejected triple is never written and the table is unchanged; otherwise exactly that row is replaced |
| QuizModels.QuizDb.CreateQuestion | backend/quiz/models.py:117-119 | `objects.create`: refused iff `clean` fails; otherwise the row is appended under a fresh id |
| QuizModels.QuizDb.VerifyQuestion | backend/quiz/models.py:161-165 | only the verified question's row changes, to `Verified` of it; the table invariant is kept |
| QuizModels.QuizDb.UnverifyQuestion | backend/quiz/models.py:167-171 | only that row changes, to `Unverified` of it |
| QuizModels.QuizDb.SaveIncorrectAnswer | backend/quiz/models.py:183-199 | refused exactly for a new row on a True / False question that already has an answer, leaving the table unchanged; an accepted new row on a True / False question leaves it exactly one answer; rows with an id and multiple-choice questions are never refused |
| QuizModels.QuizDb.BulkCreateAnswers | backend/quiz/serializers.py:57 | `bulk_create` appends all pending rows without running `clean` |
| QuizModels.VerifiedRows | backend/quiz/models.py:24-26 | the verified manager holds exactly the verified rows |
| QuizModels.UnverifiedRows | backend/quiz/models.py:37-39 | the unverified manager holds exactly the unverified rows |
| QuizModels.VerifiedPlusUnverified | backend/quiz/models.py:137-147 | verified count + unverified count = all questions |
| QuizModels.NoOfDifficulty | backend/quiz/models.py:149-159 | a difficulty count never exceeds the total |
| QuizModels.DifficultyCountsAddUp | backend/quiz/models.py:149-159 | when every difficulty is one of the choices, easy + medium + hard = all questions |
| QuizModels.LastCreated | backend/quiz/models.py:121-126 | the largest `date_created`, failing exactly on an empty table |
| QuizModels.LastVerified | backend/quiz/models.py:128-135 | the largest `date_verified` among verified rows, failing exactly when none is verified |
| QuizModels.CategoryCountMapKeys | backend/quiz/models.py:57-72 | the dictionary has one key per category name |
| QuizModels.CategoryCountMapValues | backend/quiz/models.py:57-72 | with unique names, each entry is that category's question count, zero included |
| QuizModels.SumOfCountsStep | backend/quiz/models.py:57-72 | one more question adds the number of categories carrying its category id |
| QuizModels.UniqueIdCountedOnce | backend/quiz/models.py:42-48 | with unique category ids, a stored id belongs to exactly one category |
| QuizModels.NotPresentCountedZero | backend/quiz/models.py:42-48 | an id no category has is counted by none |
| QuizModels.CategoryCountsSumToTotal | backend/quiz/models.py:57-72 | since each question has exactly one stored category, the per-category counts sum to the total |
| QuizModels.ZeroCountsOfEmpty | backend/quiz/models.py:57-72 | with no questions every category count is zero |
| QuizModels.QuestionsCountCategory | backend/quiz/models.py:57-72 | the loop builds the `setdefault` dictionary: keys are the category names, values the counts |
| QuizModels.RandomAllKeysAsWritten | backend/quiz/models.py:28-34 | `random_all`'s two sort keys as written: both come from the ascending list |
| QuizModels.RandomAllNeverDescending | backend/quiz/models.py:29-32 | as written, no descending key is ever used |
| QuizModels.RandomAllKeys | backend/quiz/models.py:28-34 | corrected: an ascending key followed by a descending key |
| QuizSerializers.Values | backend/quiz/serializers.py:5-8 | the supplied answers in field order: one entry per supplied answer, answer 1 first, answer 2 after it, answer 3 last, nothing else |
| QuizSerializers.CharFieldErrors | backend/quiz/serializers.py:5-8 | a `CharField`: "required" exactly for a missing required value; "blank" exactly for a value that strips to empty where blank is not allowed; "too long" exactly when the trimmed value exceeds the maximum; "null characters" exactly when the trimmed value contains U+0000 |
| QuizSerializers.ChoiceFieldErrors | backend/quiz/models.py:77-80 | a choice field accepts exactly a value among the choices, or a missing optional value |
| QuizSerializers.Validate | backend/quiz/serializers.py:36-46 | rejects exactly a True / False payload with more than one answer; crashes on one without answers; every other type passes |
| QuizSerializers.IsValid | backend/quiz/serializers.py:11-46 | any field error is reported as such; without field errors, `validate` on the trimmed payload decides: pass accepts the trimmed payload, more than one True / False answer is reported under `incorrect_answer_fields`, a True / False payload without answers raises |
| QuizSerializers.AcceptedFullPayload | backend/quiz/serializers.py:5-46 | accepted full data has every required field, a stored category, valid choices and one to three answers |
| QuizSerializers.AcceptedTrueFalseHasOneAnswer | backend/quiz/serializers.py:36-46 | accepted True / False data carries at most one answer |
| QuizSerializers.NewQuestion | backend/quiz/serializers.py:48-51 | the created question copies text, difficulty, type, correct answer, explanation ("" when absent) and category from the payload, is owned by the requester, created now, unverified by default and passes `clean` |
| QuizSerializers.Pending | backend/quiz/serializers.py:52-56 | one pending pair per supplied answer, in order, each pointing at the new question |
| QuizSerializers.Options | backend/quiz/serializers.py:33-34 | the option column of the rows, in order |
| QuizSerializers.PendingRows | backend/quiz/serializers.py:52-56 | the loop collects one unsaved row per supplied value, in order, each attached to the new question |
| QuizSerializers.Create | backend/quiz/serializers.py:48-59 | the question is appended under a fresh id; the new question's answers are exactly the supplied values in order; accepted True / False data yields at most one answer |
| QuizSerializers.Given | backend/quiz/serializers.py:76-78 | a supplied value replaces the current one, an absent one keeps it |
| QuizSerializers.Patched | backend/quiz/serializers.py:64-78 | every supplied key is assigned, every absent field keeps its value, the category changes only when supplied, the verification triple is untouched |
| QuizSerializers.PatchedByEmptyPayload | backend/quiz/serializers.py:76-78 | an empty payload leaves the question as it was |
| QuizSerializers.Overrides | backend/quiz/serializers.py:79-87 | the keys written by the loop are exactly the ids of the rows visited |
| QuizSerializers.OverwriteById | backend/quiz/serializers.py:79-87 | overwriting keeps the row count, ids and owners; only rows with a new value change, and only their option |
| QuizSerializers.OverwriteNothing | backend/quiz/serializers.py:79-87 | no values, no change |
| QuizSerializers.OverwriteStep | backend/quiz/serializers.py:79-87 | writing one more key equals overwriting that single row in place |
| QuizSerializers.OverridesSnoc | backend/quiz/serializers.py:79-87 | one more loop turn adds the row's id with its value |
| QuizSerializers.IndexOfUniqueId | backend/quiz/serializers.py:79-87 | with unique ids, overwriting does not move a row |
| QuizSerializers.OverwriteLoopStep | backend/quiz/serializers.py:79-87 | saving row `j` with value `j` is one more step of the overwrite |
| QuizSerializers.OverwriteAnswers | backend/quiz/serializers.py:79-87 | existing rows are overwritten in order with the supplied values; surplus values are ignored; too few values raise IndexError after the earlier rows were saved; no row is added or removed |
| QuizSerializers.Update | backend/quiz/serializers.py:61-88 | the question row becomes the patched question; answers are left alone when none are supplied, and otherwise overwritten by position with the IndexError case as above |
| QuizViews.LimitOf | backend/quiz/views.py:41-47 | a limit is applied exactly when `int()` parses it to a non-negative number; anything else is ignored |
| QuizViews.SearchResult | backend/quiz/views.py:48-51 | the verified questions whose text or explanation contains the search text, ignoring ASCII case |
| QuizViews.FilteredListing | backend/quiz/views.py:32-52 | only rows passing every given filter, in shuffled order: a prefix of the filtered rows whose length is the smallest of their number, the limit and 50 |
| QuizViews.PermutationMembers | backend/quiz/models.py:28-34 | a reordering of the verified rows has the same members |
| QuizViews.GetQueryset | backend/quiz/views.py:25-52 | only verified questions; without search, exactly the filtered listing: a prefix of the shuffled filtered rows of length min(count, limit, 50); with search, exactly the verified matches, whatever the other parameters |
| QuizViews.FilterCount | backend/quiz/views.py:32-40 | a filter keeps every copy of a passing row and none of a failing one |
| QuizViews.FilterPermutation | backend/quiz/views.py:26-40 | filtering commutes with reordering |
| QuizViews.ListingIsCompleteUnderCap | backend/quiz/views.py:25-52 | without search or limit and under the cap, the listing is exactly the filtered verified rows, whatever the random order |
| QuizViews.SearchIgnoresOtherParameters | backend/quiz/views.py:48-51 | with search, category, difficulty, type and limit make no difference |
| QuizViews.VerificationPost | backend/quiz/views.py:114-125 | an unknown id gives 404 and changes nothing; otherwise `verify` with the requester and now, and 200 |
| QuizViews.VerificationDelete | backend/quiz/views.py:127-138 | an unknown id gives 404 and changes nothing; otherwise `unverify` and 200 |
| QuizViews.Sections | backend/quiz/views.py:150-168 | the five sections: all = verified + unverified questions, the easy / medium / hard counts (adding up to all when every difficulty is a choice), one entry per category name with its question count, total users and the number of staff rows, and the two timestamps |
| QuizViews.FullStatistics | backend/quiz/views.py:150-168 | the response fails exactly when `last_created` or `last_verified` fails |
| QuizViews.StatisticsFailWithoutVerified | backend/quiz/views.py:150-168 | the statistics fail exactly when no question is verified |
| QuizViews.Select | backend/quiz/views.py:169-189 | a known `on` keeps exactly that key with the full entry; an absent or unknown one keeps all five |
| QuizViews.StatisticsGet | backend/quiz/views.py:150-190 | fails exactly when the full statistics fail; otherwise the full statistics narrowed by `on`: one entry equal to the full one for a known name, all five otherwise |
| QuizViews.UserQuestionStat | backend/quiz/views.py:273-284 | 404 exactly for an unknown user; otherwise the number of the user's questions, of those verified and of those unverified, the last two adding up to the first |
| AuthModels.UserIndex | backend/authentication/models.py:7-11 | lookup of a user by primary key: found exactly when the id is stored |
| AuthModels.LookupId | backend/authentication/views.py:64-70 | `User.objects.get(id=...)` on a decoded integer: a row with that id or none exists |
| AuthModels.UsernameIndex | backend/authentication/models.py:7-11 | the row with a username, or none exists |
| AuthModels.EmailIndex | backend/authentication/serializers.py:57-60 | the row with an e-mail, or none exists |
| AuthModels.LastIndexOf | backend/authentication/serializers.py:43-45 | the last `@` of the address, or none exists |
| AuthModels.NormalizeEmail | backend/authentication/serializers.py:43-45 | `create_user` trims the address and lower-cases the domain after the last `@`, keeping the local part |
| AuthModels.NewUser | backend/authentication/serializers.py:43-45 | a new user is active, unverified, not staff, with the normalised username and the normalised e-mail |
| AuthModels.UserDb.CreateUser | backend/authentication/serializers.py:43-45 | refused exactly when the normalised username or normalised e-mail is taken, changing nothing; otherwise appended under a fresh id |
| AuthModels.UserDb.Save | backend/authentication/models.py:7-11 | refused exactly when another user holds the username or e-mail; otherwise only that row changes |
| AuthModels.SameKeysNoClash | backend/authentication/models.py:7-11 | re-saving a user with its own username and e-mail never clashes |
| AuthModels.TotalStaff | backend/authentication/models.py:25-27 | the number of staff rows: at most the total, and zero exactly when nobody is staff |
| AuthModels.QuestionsOf | backend/authentication/models.py:29-30 | exactly the questions created by the user |
| AuthModels.UserCountsAddUp | backend/authentication/models.py:29-36 | a user's verified + unverified counts = their question count |
| AuthModels.FreshUserHasNoQuestions | backend/authentication/models.py:29-36 | a user no question points at has zero in all three counts |
| AuthSerializers.CharErrors | backend/authentication/serializers.py:12-14 | a trimmed `CharField` is accepted exactly when present or optional, non-blank unless allowed, within its length bounds and free of null characters; a null character is reported exactly when present |
| AuthSerializers.Authenticate | backend/authentication/serializers.py:22-24 | a match has that username, that password and is active; none matches otherwise |
| AuthSerializers.Login | backend/authentication/serializers.py:19-27 | field errors exactly when rejected; then bad credentials give "Invalid Credentials", an unverified user "verification required", and a verified active user with matching credentials is logged in as that user |
| AuthSerializers.WrongPasswordBeforeVerification | backend/authentication/serializers.py:19-27 | a wrong password is reported as invalid credentials even for an unverified user |
| AuthSerializers.ValidateRegister | backend/authentication/serializers.py:36-50 | field errors are returned exactly when present; then mismatching passwords are reported, and matching ones are accepted; accepted data has a free username and e-mail and matching passwords |
| AuthSerializers.Register | backend/authentication/views.py:42-56 | field errors and mismatch change nothing; success appends the new user, without `password2`; the database refuses exactly when valid data clashes only after normalising the username or e-mail |
| AuthSerializers.EmailErrors | backend/authentication/serializers.py:56-60 | accepted exactly for a present, non-blank, null-free, stored e-mail; otherwise "required", "blank", "null characters" or "unknown e-mail"; no length cap |
| AuthSerializers.ResendVerification | backend/authentication/serializers.py:53-70 | rejects an unknown e-mail; sends exactly when the user is not yet verified |
| AuthSerializers.RequestPasswordReset | backend/authentication/serializers.py:105-123 | rejects an unknown e-mail; sends a reset link exactly when the user is verified |
| AuthSerializers.ResendAndResetAreExclusive | backend/authentication/serializers.py:53-123 | for a known e-mail exactly one of the two sends |
| AuthSerializers.ChangePasswordErrors | backend/authentication/serializers.py:73-85 | a wrong old password is reported exactly when the field is valid and does not check; accepted exactly when both fields are valid and the old password checks |
| AuthSerializers.ChangePassword | backend/authentication/serializers.py:82-89 | a rejection leaves the password unchanged; on success only the password changes, the new one checks, and the old one checks only if it equals the new |
| AuthSerializers.PatchedUser | backend/authentication/serializers.py:97-102 | only supplied keys change; id, e-mail, password and flags are kept; an empty payload changes nothing |
| AuthSerializers.UpdateProfile | backend/authentication/views.py:139-149 | field errors or a username taken by another user change nothing; otherwise only that user's row is patched |
| AuthSerializers.DecodeUidOfEncodedId | backend/authentication/serializers.py:138-140 | a uid encoded from `str(id)` decodes back to `id` |
| AuthSerializers.ValidateNewPassword | backend/authentication/serializers.py:133-146 | checks in order, first failure wins: field errors, mismatch, undecodable uid, unknown user, bad token; when all pass, the user the uid names is resolved |
| AuthSerializers.SetNewPassword | backend/authentication/serializers.py:148-150 | on success only the resolved user's password changes, to `new_password1`; on failure nothing changes |
| AuthViews.WithStaff | backend/authentication/views.py:234-260 | only the flag of that user changes |
| AuthViews.GrantThenRevoke | backend/authentication/views.py:222-266 | granting then revoking restores the table |
| AuthViews.UserStaffPost | backend/authentication/views.py:222-243 | unknown id 404; a staff user gets 400 "failed" unchanged; otherwise the flag is set and 200 |
| AuthViews.UserStaffDelete | backend/authentication/views.py:245-266 | unknown id 404; a staff user loses the flag with 200; otherwise 400 "success" unchanged |
| AuthViews.EmailVerificationGet | backend/authentication/views.py:60-86 | expired, undecodable or unknown-user tokens fail with their messages and change nothing; an unverified user is verified with 200; a verified one gets 400 "failed" unchanged |
| AuthViews.VerifyPasswordToken | backend/authentication/views.py:168-201 | undecodable uid 401, unknown user 404, failed token 401; 200 echoing token and uid exactly when the uid names a user whose token checks |
| AuthViews.LinkCheckAgreesWithReset | backend/authentication/views.py:168-201 | the link check answers 200 exactly when the new-password request with those credentials succeeds |
| Permissions.StaffPassesBoth | backend/common/permissions.py:10-12 | a staff user is granted every method by both predicates |
| Permissions.NonStaffGrants | backend/common/permissions.py:13-25 | other users: read-only grants exactly GET, HEAD, OPTIONS; write-only exactly POST; no method passes both |
| ExceptionHandler.Get | backend/common/exception.py:7-9 | `dict.get`: a missing key gives `None`; otherwise the value of the first entry with that key |
| ExceptionHandler.Envelope | backend/common/exception.py:6-14 | exactly `status`, `message`, `error`; status "error"; message is `detail`; error is "" for a truthy detail, else the truthy `error`, else the whole body; a non-dict body raises |
| ExceptionHandler.CustomExceptionHandler | backend/common/exception.py:4-15 | handled exactly when DRF handled the exception and the body is a dict; the status code is kept and the body becomes the envelope; otherwise it raises |
| ExceptionHandler.NotFoundEnvelope | backend/common/exception.py:4-15 | a 404 `{"detail": "Not found."}` becomes status "error", that message and an empty error |
| ApiConnector.ConnectionFactory | backend/scraper/api_connector.py:25-33 | a path not ending in ".json" is refused without reading; a ".json" path gives a connector holding the decoded file, or the decode ValueError, or the OSError of a missing or unreadable file |
| ApiConnector.ConnectTo | backend/scraper/api_connector.py:35-44 | the connector; `None` exactly for a refused extension or undecodable contents; an unreadable file raises, and that error is not a ValueError |
| ApiConnector.ListedFilesHaveHandler | backend/scraper/api_connector.py:25-44 | a listed file always has a handler: `connect_to` on it gives `None` exactly when its contents do not decode |
| ApiConnector.JsonFiles | backend/scraper/api_connector.py:67-73 | exactly the listed files ending in ".json" |
| ApiConnector.Format | backend/scraper/api_connector.py:75-100 | a missing answer list raises; otherwise question, correct answer and explanation are copied, the category is the connector's |
| ApiConnector.FormatAnswerShape | backend/scraper/api_connector.py:79-89 | multiple-choice exactly for more than one answer; True / False carries only answer 1; multiple-choice the first three; zero or two answers are swallowed |
| ApiConnector.FormatDataForApiAsWritten | backend/scraper/api_connector.py:75-100 | the difficulty comes from 'eazy', 'medium', 'hard' |
| ApiConnector.EazyIsRejected | backend/scraper/api_connector.py:93 | as written, an item drawing 'eazy' is refused by the create endpoint's difficulty choices |
| ApiConnector.FormatDataForApi | backend/scraper/api_connector.py:75-100 | corrected: the difficulty comes from 'easy', 'medium', 'hard' |
| ApiConnector.FormattedDifficultyIsValid | backend/scraper/api_connector.py:91-99 | corrected, every formatted item passes the endpoint's difficulty and type choices |
| Text.ParseIntShow | backend/authentication/serializers.py:119 | `int(str(n)) == n` for every integer |

## Left out

- ORM internals: transactions, `refresh_from_db`, pagination, and `get_object_or_404` beyond the 404 reply. Tables are plain sequences.
- HTTP routing, generic-view list/retrieve/destroy wrappers, response envelopes of successful calls, and the URL configuration.
- E-mail sending and the Celery task: I/O. Resend and reset return whether a mail would be sent.
- JWT issuance and decoding, password hashing, `authenticate`'s backend, `PasswordResetTokenGenerator`, base64 and `slugify`: library primitives, given as parameters or datatypes.
- The random number generator. The listing order is any permutation of the verified rows, and `random_all`'s key indices and the scraper's difficulty index are parameters. `random_all`'s ordering by its keys is not modelled, only which keys it uses.
- Image and avatar fields, and `date_created` beyond passing "now".
- The e-mail and username syntax validators of Django's user model, and the `max_length` of the answer options and the category name.
- Case folding: `icontains` and e-mail normalisation are modelled for ASCII letters only. Unicode folding is not modelled.
- Deleting a category (the sentinel `SET` handler): category deletion is not part of this model.
- The scraper's file system access (its outcome is a parameter), the `requests.post` calls, `ApiConnector.run`/`send_data_to_api`, and the HTML scraper: file and network I/O.
- `LoginSerializer.save`/`get_tokens_for_user`, `UserListView`, `CustomTokenRefreshView` and the feedback app: token issuance and framework CRUD.
- QuizModels.NoOfDifficulty: states only the bound; how the three difficulty counts relate to the total is stated by `DifficultyCountsAddUp`.
- QuizViews.GetQueryset: with search, the rows are stated as a set of members, not in table order.
- QuizSerializers.OverwriteAnswers: the existing answer rows are visited in table order. The source iterates `incorrect_answers.all()` without an ordering, so the database chooses which row receives which supplied value; the model does not capture any other visiting order.
- QuizSerializers.Update: its answer overwrite inherits the table-order visiting of `OverwriteAnswers`.
- String comparison: stored usernames, e-mails, slugs and category names compare exactly (case-sensitively, as PostgreSQL does). Under a case-insensitive database collation, such as MySQL's utf8mb4 defaults, the uniqueness checks would also refuse values that differ only in case; that behaviour is not modelled.
- `int()` on non-ASCII digits: Python also accepts other Unicode decimal digits; the model parses ASCII digits (with `_` separators) only.
- QuizViews.LimitOf: a negative `limit` is treated as ignored, which follows Django 4.0 and later, where slicing a queryset with a negative index raises ValueError and the view catches it; under older Django releases the error is an AssertionError that escapes.
- The `EmailField` syntax validator of the resend and reset requests: an address that is not an e-mail address is reported as unknown rather than as invalid.
- Integer widths: ids, counts and limits are unbounded integers. The source's database columns are 64-bit, and no overflow is modelled.

## Findings

| source | as written | input that shows it | evidently intended | confidence | as-written member | corrected member |
|---|---|---|---|---|---|---|
| backend/quiz/models.py:32 | the second sort key is drawn from the ascending list `order_field_asc` | any call of `random_all`: both keys are ascending and `order_field_desc` is never used | draw the second key from `order_field_desc` | high, not executed | QuizModels.RandomAllNeverDescending | QuizModels.RandomAllKeys |
| backend/scraper/api_connector.py:93 | the difficulty is drawn from 'eazy', 'medium', 'hard' | any item with one incorrect answer when the draw picks the first entry: 'eazy' is not among the difficulty choices, so the create endpoint answers 400 | 'easy' | high, not executed | ApiConnector.EazyIsRejected | ApiConnector.FormattedDifficultyIsValid |
