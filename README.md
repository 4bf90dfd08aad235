# treeHole user controller, modelled in Dafny

This project models the user controller of the treeHole journaling
backend (`backend/controller/UserControllers.js`). It covers three parts:

- **Like/unlike toggle** (`likeJournalHelper`). A user's `likes` and a
  journal's `likedby` are the two stored sides of one "liked" relation. The
  toggle validates the body and resolves the token. It finds both
  documents, and answers at once when both sides already hold the requested
  direction. Otherwise it `push`es or `pull`s on both sides and saves both
  documents in one transaction.
- **Liked-journals projection** (`getLikedJournalsByUserToken`). Each
  journal the user liked loses its `author_id`, and so does each of its
  comments. Its `likedby` list is replaced by the count `likesNum`. Private
  journals are then dropped.
- **Identity handlers** (`signUp`, `login`, `refreshUserIdToken`,
  `changePassword`). Each checks its required request fields and calls the
  identity provider. It maps a provider error to a reply, then reads or
  writes the user collection. Login creates a missing local record.

Layout, one module per file:

- `Http.dfy`: the reply envelope, the truthiness test on request fields,
  and the shared mapping from provider errors to replies.
- `Documents.dfy`: users, journals, comments, the database, the injected
  database faults, and the relation invariants `Consistent` and
  `WellFormed`.
- `Lists.dfy`: Mongoose's `pull` on an id list.
- `LikeToggle.dfy`: the toggle as a function `Toggle` from the database
  before the request to the reply and the database after it, with its
  properties.
- `Identity.dfy`: the four identity handlers as functions, with their
  properties.
- `LikedJournals.dfy`: the projection, `populate`, and the handler.
- `UserController.dfy`: class `Store` holds the two collections as fields.
  Its methods `SignUp`, `Login` and `LikeJournalHelper` update the store step
  by step, the way the controller does. Each is proved to leave exactly the
  state its specification function gives.

Outside calls are parameters:
- The identity provider's answer is a `Provider<T>`: granted tokens, or an
  error with or without a message.
- The handler's call to its own `users/info/secure` route is a
  `TokenLookup`.
- Which database step throws is a `Faults` record.

A reply is `Ok(body)` (status 200), `Fail(status, message)`, or `Unanswered`
when the handler throws outside any `try`. Whether and how the request is
then answered is up to the runtime: the controller does not fix it.

The model follows the code in three places where it is easy to assume
otherwise:
- The record that login creates carries the email from the request, not
  one returned by the provider (lines 183-187).
- A provider failure with no error body is not answered with 500. The
  `catch` block itself throws while reading
  `firebaseErr.response.data.error.message`, so the handler throws and
  the controller itself sends nothing.
- `refreshUserIdToken` reports a failing read as 'Internal Server Error',
  not 'Database Error' (line 345).

## Model

| member | source | states |
|---|---|---|
| `Http.ProviderFailure` | backend/controller/UserControllers.js:65-76 | a provider error with a non-empty message gives exactly 400 with that message; one without gives exactly 500 'Firebase Server Error'; no error body makes the handler throw (`Unanswered`); never a 200 |
| `Lists.Pull` | backend/controller/UserControllers.js:403-404 | after `pull(x)` no occurrence of `x` remains, and a list without `x` is returned unchanged |
| `Lists.PullCounts` | backend/controller/UserControllers.js:403-404 | `pull(x)` removes exactly the occurrences of `x`: every other element keeps its count, and the length drops by the count of `x` |
| `Lists.PullConcat` | backend/controller/UserControllers.js:403-404 | `pull` keeps relative order: pulling from `a + b` is pulling from `a`, then from `b`, and concatenating |
| `Lists.PullSubset` | backend/controller/UserControllers.js:403-404 | an element survives `pull(x)` if and only if it was in the list and is not `x` |
| `Lists.PullUndoesPush` | backend/controller/UserControllers.js:400-404 | pulling `x` after pushing `x` onto a list that lacked it gives back the original list |
| `Lists.PullNoDuplicates` | backend/controller/UserControllers.js:403-404 | `pull` never introduces a repeated element |
| `LikeToggle.ToggleRejectsInvalidBody` | backend/controller/UserControllers.js:363-369 | a missing or empty `journalId` or `idToken` gives 400 'Invalid request body', whatever the token lookup would give, and the store is unchanged |
| `LikeToggle.ToggleMissingDocument` | backend/controller/UserControllers.js:379-383 | when the resolved user or the journal does not exist, the reply is 500 'Database Error' and the store is unchanged |
| `LikeToggle.ToggleShortCircuit` | backend/controller/UserControllers.js:384-392 | a like where both sides already hold the pair, or an unlike where neither does, answers 200 with the same `journalId` and writes nothing, even if a transaction step would have failed |
| `LikeToggle.ToggleTreatsOtherTypesAsUnlike` | backend/controller/UserControllers.js:384-405 | every `type` other than 'like' behaves exactly as 'unlike' |
| `LikeToggle.ToggleLikeOutcome` | backend/controller/UserControllers.js:399-408 | after a successful like, `journalId` is in the user's `likes` and `userid` in the journal's `likedby`. Either nothing was written, or each list is the old one plus exactly one appended id. No other document changes and no key is added or removed |
| `LikeToggle.ToggleUnlikeOutcome` | backend/controller/UserControllers.js:402-408 | after a successful unlike, no occurrence of `journalId` remains in `likes` and none of `userid` in `likedby`. Both lists are the old ones `pull`ed, so the order of the rest is kept. No other document changes |
| `LikeToggle.ToggleAllOrNothing` | backend/controller/UserControllers.js:396-411 | any reply other than 200 leaves the store unchanged; a 200 either leaves it unchanged or replaces both documents by their toggled versions |
| `LikeToggle.ToggleFaultRollsBack` | backend/controller/UserControllers.js:396-411 | a throw while opening the transaction, in either save or in the commit gives 500 'Database Error', and both documents keep their prior state |
| `LikeToggle.ToggleKeepsConsistent` | backend/controller/UserControllers.js:396-411 | when the two sides of the relation agree before a toggle, they agree after it |
| `LikeToggle.ToggleKeepsWellFormed` | backend/controller/UserControllers.js:396-411 | the toggle keeps the sides in agreement and stores only ids of existing documents |
| `LikeToggle.ToggleKeepsDuplicateFree` | backend/controller/UserControllers.js:384-404 | on a consistent store without repeated ids, the toggle introduces none |
| `LikeToggle.ToggleWrites` | backend/controller/UserControllers.js:396-413 | a fault-free toggle that does not short-circuit answers 200 and stores both toggled documents |
| `LikeToggle.LikeTwiceIsNoOp` | backend/controller/UserControllers.js:384-387 | a second like straight after a successful one returns the same reply and changes nothing |
| `LikeToggle.LikeThenUnlikeRestores` | backend/controller/UserControllers.js:399-404 | liking a pair that neither side holds, then unliking it, restores the store exactly |
| `LikeToggle.LikeOverDisagreementDuplicates` | backend/controller/UserControllers.js:385-401 | when the user lists the journal but the journal does not list the user, a like answers 200, records the user in `likedby`, and stores the journal id in `likes` once more, so it appears there at least twice |
| `Identity.SignUpRejects` | backend/controller/UserControllers.js:45-76 | signUp without `email`, `password` or `name` gives 400 'Invalid request body' whatever the provider would answer; a provider error gives the shared mapping; neither writes |
| `Identity.SignUpOutcome` | backend/controller/UserControllers.js:78-104 | signUp succeeds if and only if the body is valid, the provider grants the account, and the insert of a new `_id` does not throw. It then stores `{name, email}` with no likes under `localId` and answers with that record. On a duplicate `_id` or a failing save the reply is 500 'Sign Up successful Database error'. Every failure writes nothing |
| `Identity.LoginRejects` | backend/controller/UserControllers.js:144-175 | login without `email` or `password` gives 400 before the provider call; a provider error gives the shared mapping; neither writes |
| `Identity.LoginCreatesMissingRecord` | backend/controller/UserControllers.js:178-190 | login with no local record stores `{name: 'Please update your name', email: request email, likes: []}` under the provider's `localId` and answers with it |
| `Identity.LoginFindsExistingRecord` | backend/controller/UserControllers.js:178-206 | login with a local record answers with that record and writes nothing |
| `Identity.LoginWritesOnlyNewRecord` | backend/controller/UserControllers.js:177-193 | login never touches journals and writes at most the one placeholder record, only under a `localId` that had none |
| `Identity.LoginTwiceCreatesOnce` | backend/controller/UserControllers.js:178-190 | a second login with the same outcome finds the record the first created: same reply, nothing written |
| `Identity.InsertKeepsWellFormed` | backend/controller/UserControllers.js:79-85 | inserting a record with no likes under a fresh id keeps the store well formed |
| `Identity.SignUpKeepsWellFormed` | backend/controller/UserControllers.js:79-85 | signUp keeps the store well formed |
| `Identity.LoginKeepsWellFormed` | backend/controller/UserControllers.js:183-188 | login keeps the store well formed |
| `Identity.RefreshRejects` | backend/controller/UserControllers.js:312-346 | refresh without `grant_type` or `refresh_token` gives 400 before the provider call; a provider error gives the shared mapping; a failing read gives 500 'Internal Server Error' |
| `Identity.RefreshReadsOnly` | backend/controller/UserControllers.js:340-354 | a granted refresh answers 200 with the stored record when there is one and with no user data otherwise |
| `Identity.ChangePasswordRejects` | backend/controller/UserControllers.js:480-507 | changePassword without `token` or `password` gives 400 before the provider call; a provider error gives the shared mapping |
| `Identity.ChangePasswordOutcome` | backend/controller/UserControllers.js:509-528 | after the provider accepts the password, a failing read gives 500 'Database Error', a missing record makes the handler throw (`Unanswered`), and a found record the new tokens with that record |
| `LikedJournals.StripAll` | backend/controller/UserControllers.js:448-459 | the `map` step keeps length and order; each view keeps its journal's id, title, date, image, weather, content and privacy, carries the length of `likedby` as `likesNum`, and keeps every comment in order with its id, date, content, anonymous and edited flags, dropping only the author |
| `LikedJournals.HidePrivate` | backend/controller/UserControllers.js:461-464 | a view survives the `filter` if and only if it was in the input and its privacy is not PRIVATE |
| `LikedJournals.ProjectIsFilterThenStrip` | backend/controller/UserControllers.js:448-464 | the projection, written as map then filter, equals the reference definition: filter the journals, then strip them |
| `LikedJournals.ProjectConcat` | backend/controller/UserControllers.js:448-464 | the projection keeps input order: projecting `a + b` is projecting `a`, then `b`, and concatenating |
| `LikedJournals.ProjectMembers` | backend/controller/UserControllers.js:448-464 | a view is in the projection if and only if it strips some non-private input journal. So no output is PRIVATE, and each output's `likesNum` is its journal's `likedby` length |
| `LikedJournals.Populate` | backend/controller/UserControllers.js:440 | every populated document is the stored journal for an id in `likes`; every liked id with a stored journal is populated |
| `LikedJournals.ProjectListsUnlessPrivate` | backend/controller/UserControllers.js:461-464 | a journal in the input is listed if and only if it is not private |
| `LikedJournals.LikedJournalsErrors` | backend/controller/UserControllers.js:424-446 | 400 without a token; 500 'Server Error' when the lookup fails; 500 'Database Error' when the read throws or the user is missing |
| `LikedJournals.LikedJournalListedUnlessPrivate` | backend/controller/UserControllers.js:424-466 | a journal the user liked is in the reply if and only if it is not private; liked private journals are hidden |
| `UserController.Store.SignUp` | backend/controller/UserControllers.js:39-105 | updates the store exactly as `Identity.SignUp` says, never touches journals, and keeps the store well formed |
| `UserController.Store.Login` | backend/controller/UserControllers.js:138-207 | updates the store exactly as `Identity.Login` says, never touches journals, and keeps the store well formed |
| `UserController.Store.LikeJournalHelper` | backend/controller/UserControllers.js:362-414 | the staged transaction leaves the store exactly as `LikeToggle.Toggle` says. Any reply other than 200 leaves both collections unchanged, and the store stays well formed |
| `UserController.Store.LikeJournal` | backend/controller/UserControllers.js:416-418 | is the toggle with `type` 'like' |
| `UserController.Store.UnlikeJournal` | backend/controller/UserControllers.js:420-422 | is the toggle with `type` 'unlike' |
| `UserController.LikeLikeUnlike` | backend/controller/UserControllers.js:384-404 | using only the method contracts: like, like again, then unlike on a pair neither side holds leaves the store as it was |

## Left out

- Every call to the identity provider and the self-call to
  `users/info/secure` are not modelled as network calls. They are inputs:
  a `Provider<T>` outcome and a `TokenLookup` outcome.
- `getUserInfo`, `getUserInfoSecure` and `getUserInfoById` are not part of
  this model. The toggle and the projection use only the outcome of the
  secure route.
- Mongoose mechanics are not modelled: sessions, `populate`'s query, and
  casting between ObjectIds and strings. Ids are strings compared by
  equality. `populate` is assumed to keep the order of `likes`, to repeat a
  repeated id, and to drop an id that has no journal.
- The transaction is modelled as staged writes that only the commit
  installs. The source never calls `abortTransaction` or `endSession`; the
  open transaction's timeout and lock effects are not modelled.
- Concurrent requests on the same user and journal are not modelled; their
  ordering is up to the database.
- A request field that is a non-string JSON value (a number, a boolean) is
  not modelled. Fields are absent or strings, and JavaScript truthiness is
  "present and non-empty".
- The reply to a signUp whose local save failed reports the error but does
  not undo the provider account. The model keeps only this error reply.
- User fields other than name, email and likes (`collections`, `__v`) are
  not modelled. Neither are the HTTP status set on `res` apart from the
  envelope, nor the routes.
- The React components and the client-side journal services are not part
  of this model. They hold UI state and thin HTTP wrappers only.
- `LikedJournals.StripJournal`: removing `author_id` and `likedby` is
  enforced by the view types, which lack those fields, not by a stated
  contract.
