# Job-posting checker: analysis store and scoring backend, modelled in Dafny

The system lets a signed-in user paste a job description, have it classified as fake or
real, keep the results in the browser, and ask a backend to rank them by authenticity
and by fit with the user's profession. This project models the two places where that
system has logic of its own:

- **The analysis store** (`JobAnalysisService`, `AnalysisStore.dfy`). One browser
  storage entry holds the analyses of every user, newest first. Reads filter it by the
  owner's e-mail; `add` prepends; `delete` filters out an id whatever the owner;
  `clearAll` filters out one user's records. The entry is the class `Store`: a field
  `records: seq<Record>` and a flag `unreadable` for an entry that does not parse.
  `getAll`, `getLatest`, `getById` and `getStats` are functions of that state; `add`,
  `delete` and `clearAll` are methods that rewrite it. The record id and timestamp,
  which the client takes from the clock, are parameters.
- **The Flask backend** (`backend/app.py`):
  - `Auth.dfy`: the `token_required` guard.
  - `Ranking.dfy`: `rank_jobs`. It holds the per-entry scoring, the loop that collects
    the scored entries, and the stable sort that puts safe jobs first and orders each
    group by composite score.
  - `Users.dfy`: `signup`, `login` and `update_user` over a user table keyed by e-mail.
    The table is the class `UserTable` with a `map<string, User>`.

`Common.dfy` holds the shapes both sides share, such as the classifier's confidence
object. `Text.dfy` holds the case mapping and whitespace stripping the code applies.

Three points about the store as the code behaves:

- `delete` removes every record with the given id, not only the first.
- `add` stores no résumé text, résumé file name or CV match score.
- The store has no active-résumé operations.

## Model

| member | source | states |
|---|---|---|
| `AnalysisStore.Filter` | my-react-app/src/components/Dashboard/JobAnalysisService.js:70-72 | `filter` returns exactly the stored records its callback accepts, and never more records than it was given |
| `AnalysisStore.FilterPreserves` | my-react-app/src/components/Dashboard/JobAnalysisService.js:12 | a filtered list is a subsequence of the stored order and keeps each accepted record as often as it was stored |
| `AnalysisStore.FilterAppend` | my-react-app/src/components/Dashboard/JobAnalysisService.js:51 | filtering a prepended list filters the new record and the old list separately, so `add` prepends to each user's view |
| `AnalysisStore.FilterCommutes` | my-react-app/src/components/Dashboard/JobAnalysisService.js:70-72 | filtering by owner and by id can happen in either order, so deleting from the whole list deletes from each user's view |
| `AnalysisStore.FilterAbsorbs` | my-react-app/src/components/Dashboard/JobAnalysisService.js:89-91 | a stricter second filter absorbs the first; this gives "other users unchanged" for `clearAll` and idempotence of `delete` |
| `AnalysisStore.FilterDisjointLength` | my-react-app/src/components/Dashboard/JobAnalysisService.js:116-122 | two filters that never accept the same record keep at most as many records as there are |
| `AnalysisStore.FilterFirst` | my-react-app/src/components/Dashboard/JobAnalysisService.js:28 | the head of a filtered list is the first stored element the callback accepts, which is what `find` returns |
| `AnalysisStore.Percentage` | my-react-app/src/components/Dashboard/JobAnalysisService.js:128-129 | a percentage is non-negative and times the total gives 100 times the count |
| `AnalysisStore.PercentageSum` | my-react-app/src/components/Dashboard/JobAnalysisService.js:128-129 | the fake and real percentages add up to at most 100 |
| `AnalysisStore.Store.GetAll` | my-react-app/src/components/Dashboard/JobAnalysisService.js:6-17 | exactly the stored records owned by the e-mail, with their multiplicities and in stored order; empty for an empty e-mail or an unparseable entry |
| `AnalysisStore.Store.GetLatest` | my-react-app/src/components/Dashboard/JobAnalysisService.js:20-23 | null iff the user has no records; otherwise the user's record stored first, no record of theirs before it |
| `AnalysisStore.Store.GetById` | my-react-app/src/components/Dashboard/JobAnalysisService.js:26-29 | null iff none of the user's records has the id; otherwise the first of them with the id, never another user's |
| `AnalysisStore.Store.GetStats` | my-react-app/src/components/Dashboard/JobAnalysisService.js:102-131 | total is the user's record count; fake and real count verdicts equal to "fake"/"real" in any case; fake + real <= total; all zero with no records; percentages are non-negative and sum to at most 100 |
| `AnalysisStore.Store.Add` | my-react-app/src/components/Dashboard/JobAnalysisService.js:32-61 | throws and writes nothing for an unparseable entry or an empty e-mail; otherwise prepends a record carrying the e-mail, confidence, explanation and description, which becomes the user's latest; other users' views are unchanged |
| `AnalysisStore.Store.Delete` | my-react-app/src/components/Dashboard/JobAnalysisService.js:64-80 | removes every record with the id whoever owns it and keeps the rest in order; true even if nothing matched; afterwards no user finds the id; a repeat changes nothing; false and no write for an unparseable entry |
| `AnalysisStore.Store.ClearAll` | my-react-app/src/components/Dashboard/JobAnalysisService.js:83-99 | removes all and only the user's records; every other user's view is unchanged, order included; false and no write for an unparseable entry |
| `Auth.BearerToken` | backend/app.py:72-73 | a header starting with "Bearer " loses exactly those 7 characters; any other header is the token as is |
| `Auth.BearerRoundTrip` | backend/app.py:72-73 | the header `Bearer <token>` that the client sends yields the token back |
| `Auth.Authenticate` | backend/app.py:63-81 | every denial is 401; a missing or empty header is "Token is missing"; the request passes iff the token decodes to an e-mail that is registered, as that user |
| `Auth.ClientHeaderAuthenticates` | backend/app.py:66-77 | a client sending `Bearer <token>` for a token naming a registered e-mail is let through as that user |
| `Auth.AuthenticatedCarriesClaim` | backend/app.py:75 | in a table whose rows sit under their own e-mails, the user let through has the e-mail the token carries |
| `Text.Strip` | backend/app.py:208 | the stripped string is a slice of the input with only whitespace outside it, and it neither starts nor ends with whitespace, so exactly the surrounding whitespace is removed |
| `Users.NormaliseEmail` | backend/app.py:208 | the normalised e-mail is the lower-cased submitted one with exactly its surrounding whitespace removed: a slice of it, with only whitespace outside and none at either end |
| `Users.NormalisedIsLower` | backend/app.py:208 | the normalised e-mail has no ASCII capital |
| `Users.NormaliseIdempotent` | backend/app.py:208 | lower-casing and stripping an already normalised e-mail changes nothing |
| `Users.SignupDecision` | backend/app.py:204-227 | signup answers only 400, 409 or 500 when it refuses, and a row it accepts has an e-mail not yet registered |
| `Users.SignupRejects` | backend/app.py:204-210 | 400 when the name, e-mail or password is missing or empty; 500 exactly when those are present and the profession is JSON null |
| `Users.SignupAccepts` | backend/app.py:212-220 | accepted iff complete, profession not null, the normalised e-mail has '@' and '.', the password has at least 6 characters and the e-mail is free; 409 iff all of that holds but the e-mail is taken |
| `Users.SignupRow` | backend/app.py:222-228 | the new row has the given name and password, the normalised e-mail, and the stripped profession, or no profession when that is empty |
| `Users.SignupStoresNormalised` | backend/app.py:208 | the e-mail a signup stores is in normalised form and contains '@' |
| `Users.Login` | backend/app.py:259-287 | 400 for a missing e-mail or password; success iff the normalised e-mail is registered and the password checks, returning that row; 401 otherwise |
| `Users.SignupThenLogin` | backend/app.py:262-267 | after a successful signup the same e-mail and password log in as the new user |
| `Users.SignupThenLoginStored` | backend/app.py:232-237 | after a successful signup the stored e-mail, which the token carries, logs in with the same password |
| `Users.UserTable.Signup` | backend/app.py:218-230 | on acceptance inserts exactly one row under its e-mail, which was free, and answers 201; otherwise leaves the table unchanged and answers the decision's status |
| `Users.UserTable.UpdateUser` | backend/app.py:318-339 | name changes only for a non-empty name; profession changes only when given and not null; e-mail, password and all other rows stay |
| `Ranking.Similarity` | backend/app.py:86-109 | never negative; 0 when either text is empty or the encoder fails; 100 times the cosine when both texts are non-empty and the cosine is positive, 0 when it is not; at most 100 when the cosine is at most 1 |
| `Ranking.ProfessionKey` | backend/app.py:123 | a missing or empty profession becomes "student"; any other is lower-cased and stripped |
| `Ranking.DefaultProfessionKey` | backend/app.py:123 | the fallback "Student" normalises to "student" |
| `Ranking.RealConfidence` | backend/app.py:134-137 | the confidence of the first entry labelled REAL in any case; none iff every entry is labelled otherwise; an error when the scan meets an unlabelled entry first or the REAL entry has no confidence |
| `Ranking.BaseRealScore` | backend/app.py:132-137 | 100 times the first REAL confidence; 0 with no confidence object or no REAL entry; fails exactly when the scan fails |
| `Ranking.ProfessionAlert` | backend/app.py:157-160 | the profession alert is never the CRITICAL alert |
| `Ranking.ScoreItem` | backend/app.py:126-186 | an entry is skipped exactly when reading its confidences raises; otherwise the result carries the entry, the user's profession and the base score |
| `Ranking.SafetyAndRelevance` | backend/app.py:139-146 | safe iff base >= 50; risk LOW iff safe, HIGH iff unsafe; relevant iff the profession similarity exceeds 10 |
| `Ranking.AlertRules` | backend/app.py:149-160 | CRITICAL iff unsafe, whatever the relevance; the profession alert iff irrelevant with base > 60; no alert otherwise |
| `Ranking.PersonalizedRules` | backend/app.py:149-157 | relevant gives min(1.2·base, 100); irrelevant with base > 60 gives 0.6·base; otherwise base |
| `Ranking.CompositeRules` | backend/app.py:162-169 | a CV match exists iff the entry is safe and has a résumé; then composite = 0.6·personalized + 0.4·CV; otherwise composite = personalized |
| `Ranking.ScoresArePercentages` | backend/app.py:131-169 | with probabilities as confidences and cosines at most 1, the base, personalised, CV and composite scores lie in [0, 100] |
| `Ranking.Insert` | backend/app.py:189-192 | inserting adds exactly one occurrence of the entry |
| `Ranking.KeyAtLeast` | backend/app.py:189-192 | `a` may precede `b` exactly when the key `(is_safe, composite_score)` of `a` is at least that of `b` in Python's tuple order, with `False` below `True` |
| `Ranking.InsertOrdered` | backend/app.py:189-192 | inserting into a ranked list keeps it ranked |
| `Ranking.SortRanked` | backend/app.py:189-192 | the sorted list is a permutation of its input; safe entries precede unsafe ones; composite scores do not increase within a safety group |
| `Ranking.InsertStable` | backend/app.py:189-192 | an inserted entry goes ahead of the entries with its key, and the order among the others is kept |
| `Ranking.SortStable` | backend/app.py:189-192 | entries with equal keys keep their submission order |
| `Ranking.Processed` | backend/app.py:124-186 | the processed list is no longer than the input; it holds every entry that scores and nothing else, each as its own scoring |
| `Ranking.ProcessedSingle` | backend/app.py:124-186 | one entry yields its scoring when it scores and nothing when it is skipped |
| `Ranking.ProcessedAppend` | backend/app.py:124-186 | processing a concatenation is processing each part in turn, so every scoring entry appears once per occurrence, in submission order |
| `Ranking.RankJobs` | backend/app.py:114-194 | status 200; the result is the sorted processed entries; empty input gives an empty result; the result is ranked; it is a permutation of the processed entries; equal keys keep their order; every entry that scores appears and nothing else |
| `Ranking.RankJobsRoute` | backend/app.py:63-116 | a request that fails token_required gets that 401 and no ranking; one that passes gets status 200 and the ranking for the user the token names |

## Left out

- Browser storage and JSON are abstracted. The storage entry is a list of records plus an "unparseable" flag, and an absent entry reads as the empty list. A write is assumed to read back as written.
- Stored values that parse but are not a list of records count as unparseable. Records without a `userEmail` are not modelled.
- A failing `localStorage.setItem`, for example a full quota, is not modelled. The only failure modelled is an entry that does not parse.
- `Date.now()` and `toLocaleString()` are parameters of `Add`. Ids are not claimed unique, because the code does not make them so.
- AnalysisStore.Store.GetStats: the percentages are exact quotients. The `toFixed(1)` strings the code returns are not modelled.
- Ranking.Similarity: the `round(..., 1)` of the similarity is not modelled. A consequence: a similarity just above 10.0 that the code rounds down to 10.0 makes `is_relevant` false there but true in the model.
- Ranking.ScoreItem: the returned `base_real_score`, `personalized_score` and `composite_score` are the exact values; the code returns them rounded to one decimal.
- Ranking.Processed: the fields that `**item` passes through unread (`id`, `userEmail`, `timestamp` and any others) are not modelled; an entry carries only the description, the résumé text and the confidence object. Two analyses that agree on those are equal values here, which is why multiplicity is stated through `ProcessedAppend`.
- Ranking.SortRanked: it sorts by the exact composite score. The code sorts by the value rounded to one decimal, so two entries whose scores round equal keep their submission order there but are ordered by exact score here.
- The sentence-transformer model is out of scope. Its cosine similarity is a function parameter that returns nothing when the encoder raises.
- Case mapping (`toLowerCase`, `lower`, `upper`) covers ASCII letters only. Unicode mappings such as the Kelvin sign lower-casing to "k" are not modelled. Whitespace stripping uses Python's full `isspace` set.
- JWT encoding and decoding are out of scope. The decoded e-mail claim is a function parameter, and token expiry lives inside it. Signup and login do not model issuing a token.
- Password hashing is modelled as storing the password and comparing it for equality.
- Database failures are not modelled: a commit that raises and is rolled back with status 500 in `signup` or `update_user`.
- The model assumes every request has a JSON body and that its members are strings or null. A request without a body raises. A non-string `email` or `password` raises (`.lower()`, `len`, `check_password_hash`), and so does a non-null, non-string `profession` in `signup` (`.strip()`); those paths are not modelled. A truthy non-string `name` (such as `123`) is stored by `signup` and `update_user` without raising; the model only admits string names.
- `rank_jobs` entries that raise for reasons other than those modelled are not covered: a confidence entry that is not an object, a `confidences` value that is not a list, or a confidence that is not a number. The modelled reasons are an unlabelled entry before the REAL one and a REAL entry without a confidence.
- Python's in-place `list.sort` is modelled as a function returning the sorted sequence, which `RankJobs` assigns. The list is local to the request, so nothing else observes it in place.
- Seeding the default users, and the read-only routes `verify`, `get_user`, `protected` and `users/count`, are not modelled. These routes only echo the authenticated row or count the table.
- The React views, session restore in `App.jsx`, the file-text extraction and the keyword override are not modelled. The first two are rendering and state glue. Neither JobAnalysisService.js nor backend/app.py contains the keyword override or the file-text extraction.
