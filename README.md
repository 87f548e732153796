# Aventis task and session core, modelled in Dafny

Aventis is a student-productivity web application. Its backend keeps each user's tasks and issues the session tokens. Its client shows the tasks and lets the user toggle, add and delete them. This project models that core and proves properties of the model:

- **Task store** (`task_store.dfy`, `task_model.dfy`). A collection of tasks read and written only through the filter "this id, owned by the caller, not soft-deleted".
  - It covers create, list (filter, sort, page), read, update and soft delete.
  - The update includes the rule that stamps or clears the completion time.
  - The schema's validators, setters and defaults become validity predicates.
- **Sessions** (`auth.dfy`, `user_model.dfy`). A user collection with registration, login, logout and refresh-token rotation. Each user holds at most one stored refresh token.
  - Usernames and emails are normalised.
  - The password is hashed before it is saved, and checked at login.
  - Access and refresh tokens carry different claims and are signed with different secrets.
- **Problem of the day** (`coding.dfy`). The difficulty colours, the mapping from a Codeforces rating to a difficulty, the contest-id filter and the link of the chosen problem.
- **Client task page** (`task_page.dfy`).
  - The optimistic completion toggle and its rollback.
  - Removal after a confirmed delete.
  - The title check before submitting a task.
  - The priority border colours.
  - The split of pending tasks into a current list and an upcoming list, each sorted.
  - The statistics.
- **Landing-page task list** (`task_section.dfy`). Five starting tasks, adding and toggling.
- `common.dfy` and `sequences.dfy` hold shared pieces:
  - options and results;
  - the error kinds of the handlers;
  - JavaScript's `trim`, `toLowerCase` and substring search;
  - a stable sort and a filter with the facts proved about them.

How the model is set up:
- **State.** The handlers that change state are methods of classes over maps and sequences: `TaskStore.Store`, `Auth.UserTable`, `TaskPage.Page` and `TaskSection.Section`. Each state-changing method states its whole new state. The pure logic is functions and lemmas.
- **Time** is a parameter: an integer for server time stamps, a day number in the client.
- **Server replies** the client waits for are parameters of its methods.
- **bcrypt and jsonwebtoken** are symbolic. `Hash` is injective and never the identity, and `Compare(pw, h)` holds exactly when `h == Hash(pw)`. A token is a datatype carrying its claims, the secret that signed it and its issue time.

## Model

| member | source | states |
|---|---|---|
| `Common.TrimEmptyIff` | Backend/controllers/auth.controller.js:10 | a value trims to the empty string exactly when all its characters are white space |
| `Common.TrimLowerCommute` | Backend/models/user.model.js:11-12 | the `lowercase` and `trim` setters give the same result in either order |
| `Common.ContainsImpliesContainsIgnoreCase` | Backend/controllers/task.controller.js:52-53 | the case-insensitive search finds every literal occurrence |
| `Sequences.SortSorted` | Backend/controllers/task.controller.js:65 | sorting by a total preorder yields an ordered sequence |
| `Sequences.SortPermutation` | Frontend/src/pages/TaskPage.jsx:321 | sorting yields a permutation of its input |
| `Sequences.WherePartition` | Frontend/src/pages/TaskPage.jsx:319-325 | two mutually exclusive filters whose union is a third together pick out exactly the third's elements, with multiplicities |
| `Sequences.WhereAppend` | Frontend/src/pages/TaskPage.jsx:298 | a filter distributes over concatenation, so it keeps the input order |
| `TaskModel.IsValidObjectId` | Backend/controllers/task.controller.js:7 | defines a well-formed request id: 24 hexadecimal digits in either case |
| `TaskModel.CastObjectId` | Backend/controllers/task.controller.js:109 | a valid request id casts to a valid id in the database's lower-case form, digit by digit, and a lower-case id casts to itself |
| `TaskModel.CastObjectIdIgnoresCase` | Backend/controllers/task.controller.js:109 | two valid request ids reach the same document exactly when they spell the same digits up to letter case |
| `TaskModel.SchemaValid` | Backend/models/task.model.js:5-16 | defines what the validators and trim setters guarantee of a stored task: a trimmed title of 3 to 100 characters and an optional trimmed description of at most 500 |
| `TaskModel.ValidTask` | Backend/models/task.model.js:5-55 | defines a stored task: schema-valid, with a completion time only while completed, and a deletion time exactly when soft-deleted |
| `TaskModel.ParseNamesRoundTrip` | Backend/models/task.model.js:17-28 | each status and priority enum member is accepted back as itself |
| `TaskModel.NewTask` | Backend/models/task.model.js:5-52 | creation fails, with a validation error, exactly when the trimmed title is missing or outside 3..100, the trimmed description is over 500, or a given status or priority is outside its enum; a created task is valid, has the trimmed title, the trimmed description or none, the given due date, no completion or deletion time, both time stamps at now, and defaults `pending` and `medium` |
| `TaskModel.NextCompletedAt` | Backend/controllers/task.controller.js:140-150 | moving into "completed" from another status stamps now; moving out of "completed" to another status clears it; no (or an empty) status, and every update on the same side of "completed", keeps it |
| `TaskModel.ApplyUpdate` | Backend/controllers/task.controller.js:137-156 | an accepted update keeps a valid task valid, sets each given field, keeps the absent ones, recomputes completion by `NextCompletedAt`, stamps `updatedAt`, and leaves id, owner, creation time and deletion state alone |
| `TaskModel.SetFields` | Backend/controllers/task.controller.js:137 | the `$set` of an accepted update keeps id, owner, creation time and deletion state, sets the given status and the decided completion time, stamps `updatedAt`, and keeps the schema's validity |
| `TaskModel.SoftDeleted` | Backend/controllers/task.controller.js:179-183 | a soft delete marks the task deleted at now and stamps `updatedAt`; it keeps title, description, status, priority, due date, completion time, owner and creation time, and keeps the task valid |
| `TaskStore.View` | Backend/controllers/task.controller.js:109 | the caller's view holds exactly the stored tasks the caller owns that are not deleted, unchanged |
| `TaskStore.ForeignTaskLooksMissing` | Backend/controllers/task.controller.js:109-114 | another user's task, or a deleted one, leaves the caller's view exactly as if it did not exist |
| `TaskStore.SelectExactly` | Backend/controllers/task.controller.js:47-55 | the match stage keeps exactly the stored tasks that satisfy owner, not-deleted, status, priority and search conditions |
| `TaskStore.SortSpecOf` | Backend/controllers/task.controller.js:60 | the default order is `createdAt` descending; with `sortBy` the order is ascending exactly when `sortOrder` is "asc" |
| `TaskStore.TaskOrderIsTotalPreorder` | Backend/controllers/task.controller.js:60 | every sort field, in either direction, orders all tasks (missing < numbers < strings) |
| `TaskStore.EffectivePage` | Backend/controllers/task.controller.js:45 | a given page of at least 1 is used as it is; an absent or smaller one becomes 1 |
| `TaskStore.EffectiveLimit` | Backend/controllers/task.controller.js:45 | a given page size of at least 1 is used as it is; an absent or smaller one becomes 10 |
| `TaskStore.Window` | Backend/controllers/task.controller.js:57-59 | page `p` of size `l` is the slice starting at `(p-1)*l`, of length `l` or the remainder, empty past the end |
| `TaskStore.WindowSorted` | Backend/controllers/task.controller.js:86 | a page of a sorted list is sorted |
| `TaskStore.SortedSelection` | Backend/controllers/task.controller.js:63-65 | after sorting, the matched list still holds exactly the matching stored tasks |
| `TaskStore.Store.CreateTask` | Backend/controllers/task.controller.js:14-36 | a falsy title fails with 400 and stores nothing; otherwise the result is `NewTask` for the caller, and a created task is stored, owned by the caller and visible to them |
| `TaskStore.Store.GetById` | Backend/controllers/task.controller.js:100-117 | a malformed id gives 400; otherwise the result is the caller's live task under the id the request id casts to (any letter case), or 404 |
| `TaskStore.Store.List` | Backend/controllers/task.controller.js:43-93 | the page holds only the caller's live tasks that meet the status, priority and search conditions, sorted by the requested order; every matching task is in the sorted list being paged; page, limit and total are reported |
| `TaskStore.Store.CompletedAtField` | Backend/controllers/task.controller.js:140-150 | the pre-read puts `completedAt` into the update only for a status that is given, and only for a task the caller can see; whatever it decides, that task ends with the completion time `NextCompletedAt` prescribes |
| `TaskStore.Store.Update` | Backend/controllers/task.controller.js:124-163 | malformed id gives 400; no truthy field gives 400; a field the validators refuse fails validation; then the caller's live task under the cast id is replaced by `ApplyUpdate`, or 404; the store stays valid |
| `TaskStore.Store.Delete` | Backend/controllers/task.controller.js:170-190 | malformed id gives 400; if the cast id is not in the caller's view, 404; else that task is replaced by `SoftDeleted` and no longer visible |
| `TaskStore.DeleteTwice` | Backend/controllers/task.controller.js:179-187 | after a successful delete, deleting the same id again fails with 404 and the stored deletion time stays the first one |
| `UserModel.Normalize` | Backend/models/user.model.js:7-21 | a normalised username or email is lower-case and trimmed, and a normal value is left as it is |
| `UserModel.NormalizeIdempotent` | Backend/models/user.model.js:11-12 | normalising twice is normalising once |
| `UserModel.HashInjective` | Backend/models/user.model.js:43 | different passwords have different hashes |
| `UserModel.Compare` | Backend/models/user.model.js:48 | defines `bcrypt.compare` on the symbolic hash: an attempt matches a stored hash exactly when that is its hash |
| `UserModel.PreSave` | Backend/models/user.model.js:41-45 | a modified password is stored as its hash; an unmodified one is stored as it was |
| `UserModel.SavedPasswordChecks` | Backend/models/user.model.js:47-49 | a stored hash accepts exactly the password it was made from |
| `UserModel.UnmodifiedSaveKeepsPassword` | Backend/models/user.model.js:42 | a later save that does not modify the password keeps login working; hashing the hash again would lock the user out |
| `UserModel.IsPasswordCorrect` | Backend/models/user.model.js:47-49 | the check holds exactly when the stored hash is the hash of the attempt, i.e. for the one password that was saved |
| `UserModel.ValidUser` | Backend/models/user.model.js:5-39 | defines a stored user: username and email normalised, full name trimmed, a hashed password, and a stored token that is a refresh token for that user |
| `UserModel.AccessToken` | Backend/models/user.model.js:51-64 | the access token carries id, email, username and full name and is signed with the access secret |
| `UserModel.RefreshToken` | Backend/models/user.model.js:67-77 | the refresh token carries only the id and is signed with the refresh secret |
| `UserModel.Verify` | Backend/controllers/auth.controller.js:127-130 | verification gives the claims exactly for a token signed with the expected secret |
| `UserModel.TokensAreNotInterchangeable` | Backend/models/user.model.js:51-77 | an access token never verifies as a refresh token or the reverse, and a refresh token verifies back to its user's id |
| `UserModel.AccessTokenAsWritten` | Backend/models/user.model.js:57 | the token as written: access claims of the user, signed with the access secret |
| `UserModel.AccessTokenLosesFullName` | Backend/models/user.model.js:57 | as written the full-name claim is always absent; as intended it is the user's full name |
| `Auth.RefreshReplyAsWritten` | Backend/controllers/auth.controller.js:148-158 | the refresh reply as written carries the new access token |
| `Auth.RefreshReplyOf` | Backend/controllers/auth.controller.js:148-158 | the intended reply carries both tokens the util issued |
| `Auth.RefreshReplyLosesToken` | Backend/controllers/auth.controller.js:148-157 | as written the reply never carries a refresh token; as intended it carries exactly the stored one |
| `Auth.Blank` | Backend/controllers/auth.controller.js:10 | defines the blank test: a field that is present and trims to the empty string; an absent field passes |
| `Auth.Identifies` | Backend/controllers/auth.controller.js:14-20 | defines the `$or` of email and username after the setters; an absent value matches no user |
| `Auth.TrimOfLower` | Backend/controllers/auth.controller.js:26 | lower-casing the username before the setters changes nothing |
| `Auth.UserTable.Register` | Backend/controllers/auth.controller.js:7-44 | a present blank field gives 400; an email or username already taken gives 409; an absent username fails with an internal error (`toLowerCase` of undefined) and an absent email, full name or password fails validation; all leave the table unchanged; with all four present one user is added with normalised username and email, trimmed full name, hashed password and no token, returned without its secrets; uniqueness is kept |
| `Auth.UserTable.Login` | Backend/controllers/auth.controller.js:46-91 | no truthy identifier gives 400, no matching user 404, a wrong password 401, all with the table unchanged and no token issued; success returns a matching user whose password checks, with both tokens, and stores the refresh token on that user only |
| `Auth.UserTable.IssueTokens` | Backend/controllers/auth.controller.js:66 | both tokens are signed for the user and the refresh token is stored on that user, password untouched |
| `Auth.UserTable.Logout` | Backend/controllers/auth.controller.js:94-117 | the caller's stored refresh token is removed and every other user is unchanged |
| `Auth.UserTable.Refresh` | Backend/controllers/auth.controller.js:119-165 | no token, a token not signed with the refresh secret, an unknown user, or a token different from the stored one give 401 with the table unchanged; a token passing all four checks is accepted, and the stored token is replaced by a new one, which is returned with a new access token |
| `Auth.UserTable.GetCurrentUser` | Backend/controllers/auth.controller.js:167-175 | the authenticated user is returned without password or refresh token |
| `Auth.ReplayFails` | Backend/controllers/auth.controller.js:138-148 | once a refresh token has been used, presenting it again fails with 401 |
| `Auth.SameSecondReplaySucceeds` | Backend/controllers/auth.controller.js:138-148 | a refresh in the same second as the token's issue mints the same token, so presenting the old one a second time also succeeds |
| `Auth.LogoutRevokes` | Backend/controllers/auth.controller.js:95-105 | after logout no refresh token of that user is accepted |
| `Coding.DifficultyColor` | Backend/controllers/coding.controller.js:7-14 | easy, medium and hard, in any case, are green, yellow and red; anything else is gray |
| `Coding.DifficultyColorIgnoresCase` | Backend/controllers/coding.controller.js:13 | the colour does not depend on letter case |
| `Coding.DifficultyColorAsWritten` | Backend/controllers/coding.controller.js:13 | as written, a key naming an inherited object member yields that member; every other key agrees with the intended colour |
| `Coding.InheritedMemberIsNotAColor` | Backend/controllers/coding.controller.js:13 | a difficulty that lower-cases to "constructor" yields the inherited constructor as written and gray as intended |
| `Coding.ConstructorIsLowerCase` | Backend/controllers/coding.controller.js:13 | "constructor" is its own lower case, so it is an input of the previous row |
| `Coding.CodeforcesDifficulty` | Backend/controllers/coding.controller.js:17-23 | no rating or 0 is Medium; otherwise below 1200 Easy, 1200 to 1699 Medium, 1700 and up Hard; the colour is always `DifficultyColor` of the name |
| `Coding.DifficultyMonotone` | Backend/controllers/coding.controller.js:20-22 | among rated problems a higher rating never gives an easier difficulty |
| `Coding.ValidProblems` | Backend/controllers/coding.controller.js:95 | the filtered list holds only listed problems with a contest id |
| `Coding.ValidProblemsComplete` | Backend/controllers/coding.controller.js:95 | every listed problem with a contest id is kept |
| `Coding.ValidProblemsAppend` | Backend/controllers/coding.controller.js:95 | the filter keeps the list order |
| `Coding.ProblemLink` | Backend/controllers/coding.controller.js:108 | the link starts with the problem-set URL and ends with a slash and the index |
| `Coding.ProblemLinkInjective` | Backend/controllers/coding.controller.js:108 | the link determines the contest id and the index |
| `Coding.NatToStringInjective` | Backend/controllers/coding.controller.js:108 | different contest ids print differently |
| `Coding.CodeforcesPotd` | Backend/controllers/coding.controller.js:88-112 | as intended: no or an empty list, or no problem with a contest id, gives 404; otherwise the card is that of a listed problem with a contest id, with its link and difficulty |
| `Coding.CodeforcesPotdAsWritten` | Backend/controllers/coding.controller.js:116-125 | as written every error of the handler becomes 500, its own 404s included; a card is the intended one |
| `Coding.NoProblemIsInternalError` | Backend/controllers/coding.controller.js:90-99 | with no problem or none with a contest id, the handler as written answers 500 where 404 was meant |
| `Coding.LeetCodePotd` | Backend/controllers/coding.controller.js:49-62 | a reply without a question gives 404, and only then; the card is a LeetCode card with the question's title, links into the site and carries the question's difficulty and colour |
| `TaskPage.NewStatus` | Frontend/src/pages/TaskPage.jsx:164 | the toggle sends "pending" exactly when the task was marked completed, "completed" otherwise |
| `TaskPage.Toggled` | Frontend/src/pages/TaskPage.jsx:166-170 | the optimistic update changes only the tasks with the id, to the flipped flag and new status; length and other tasks are unchanged |
| `TaskPage.RolledBack` | Frontend/src/pages/TaskPage.jsx:195-199 | the rollback changes only the tasks with the id, back to the passed flag and the status it stands for |
| `TaskPage.RollbackRestores` | Frontend/src/pages/TaskPage.jsx:166-199 | when the toggled task's flag and status agreed, a failed toggle leaves the list exactly as before |
| `TaskPage.ShownTaskAgrees` | Frontend/src/pages/TaskPage.jsx:319-325 | a shown (pending) task without a set flag agrees with the flag its card passes |
| `TaskPage.Without` | Frontend/src/pages/TaskPage.jsx:298 | after a delete the list holds exactly the tasks with other ids |
| `TaskPage.WithoutKeepsOrder` | Frontend/src/pages/TaskPage.jsx:298 | removal keeps the other tasks in order |
| `TaskPage.TitleCheckMatchesSchema` | Frontend/src/pages/TaskPage.jsx:205-208 | every title the page refuses the server refuses too; of the rest the server refuses exactly those over 100 characters |
| `TaskPage.PriorityColor` | Frontend/src/pages/TaskPage.jsx:309-316 | high, medium and low get red, amber and emerald borders, exactly; anything else slate |
| `TaskPage.UrgentGetsDefaultBorder` | Frontend/src/pages/TaskPage.jsx:309-316 | of the schema's priorities only "urgent" gets the default border |
| `TaskPage.CurrentTasks` | Frontend/src/pages/TaskPage.jsx:319-321 | exactly the pending tasks with no due day or one not after today, with multiplicities, sorted by due day with a missing one as 0 |
| `TaskPage.UpcomingTasks` | Frontend/src/pages/TaskPage.jsx:323-325 | exactly the pending tasks due after today, with multiplicities, sorted by due day |
| `TaskPage.CurrentAndUpcomingPartitionPending` | Frontend/src/pages/TaskPage.jsx:319-325 | the two lists are disjoint and together hold every pending task as often as it occurs |
| `TaskPage.StatsAgreeWithLists` | Frontend/src/pages/TaskPage.jsx:444-456 | the pending figure is the size of the two lists together; completed plus pending never exceeds the total |
| `TaskPage.Page.constructor` | Frontend/src/pages/TaskPage.jsx:119-150 | without a token nothing is fetched and the list is empty; an accepted reply's documents become the list, none carrying a completion flag, or an empty list without documents; a refused token leaves the list empty and no message; any other failure leaves it empty and shows the reply's message or the fetch fallback |
| `TaskPage.Page.ToggleTaskCompletion` | Frontend/src/pages/TaskPage.jsx:158-201 | without a token only the error is set, to the handler's own message; otherwise the optimistic update is applied, kept on success or an authentication refusal, and rolled back with the error message on any other failure |
| `TaskPage.Page.HandleDeleteClick` | Frontend/src/pages/TaskPage.jsx:260-263 | the clicked task becomes the one to delete |
| `TaskPage.Page.ConfirmDeleteTask` | Frontend/src/pages/TaskPage.jsx:266-307 | without a token or a chosen task only the error is set, to the handler's own message; on success the task is removed and the choice cleared; on failure the list is kept and the error shown |
| `TaskPage.Page.HandleNewTaskSubmit` | Frontend/src/pages/TaskPage.jsx:203-257 | a title shorter than 3 after trimming is refused with the page's message and nothing is sent; without a token the handler's own message is set; on success the created task is appended; on failure the list is kept and the reply's message or the fallback shown |
| `TaskSection.InitialItems` | Frontend/src/components/TaskSection.jsx:38-44 | five open tasks numbered 1 to 5 |
| `TaskSection.NumberedIdsUnique` | Frontend/src/components/TaskSection.jsx:56 | ids that are positions plus one are unique |
| `TaskSection.Added` | Frontend/src/components/TaskSection.jsx:51-64 | blank text leaves the list unchanged; else the old list is a prefix and one open medium task with the trimmed text and id length+1 follows |
| `TaskSection.AddedStaysNumbered` | Frontend/src/components/TaskSection.jsx:56 | adding keeps every id equal to its position plus one |
| `TaskSection.ToggledItems` | Frontend/src/components/TaskSection.jsx:66-70 | toggling flips the tasks with the id and keeps length and all others |
| `TaskSection.ToggleTwiceIsIdentity` | Frontend/src/components/TaskSection.jsx:66-70 | toggling the same id twice gives back the list |
| `TaskSection.ToggleTouchesOne` | Frontend/src/components/TaskSection.jsx:66-70 | in a numbered list, toggling changes exactly the task at position id-1, or nothing when the id is out of range |
| `TaskSection.Section.constructor` | Frontend/src/components/TaskSection.jsx:38-44 | the section starts with the five tasks, numbered |
| `TaskSection.Section.HandleAddTask` | Frontend/src/components/TaskSection.jsx:51-64 | the list becomes `Added` of the old one and stays numbered |
| `TaskSection.Section.HandleToggleComplete` | Frontend/src/components/TaskSection.jsx:66-70 | the list becomes `ToggledItems` of the old one and stays numbered |

## Left out

This section lists first what the model does not cover, then the assumptions about libraries that the model makes, then the contracts that are deliberately weaker than the source.

What the model does not cover:
- **HTTP layer.** Express routing, cookies and their options, response envelopes and status codes are not modelled; errors are the kinds in `Common.Error`. The `verifyJWT` middleware is not part of this model: the caller's id is a parameter.
- **Auth controller as written.** `auth.controller.js` does not import `ApiResponse` or `jwt`. At line 148 it calls `generateAccessAndRefereshTokens`, a name that is not defined. As written those paths throw. The model follows the evident intent: the imports are present and the util is named `generateAccessAndRefreshTokens`. Its behaviour is assumed in `Auth.UserTable.IssueTokens`: sign both tokens and store the refresh token with a save that leaves the password unmodified. The util's file is not part of this model.
- **bcrypt and jsonwebtoken.**
  - Hashing is symbolic and salts are not modelled.
  - Signatures are a secret tag.
  - Token expiry times and the clock check in `jwt.verify` are not modelled.
  - An incoming refresh token is a token or absent; a string that is not a token at all is not represented (it would also give 401).
- **String functions.** `trim` removes ECMAScript white space and line terminators, with Unicode 15's space separators. `toLowerCase` is modelled on ASCII letters only.
- **`ObjectId.isValid`.** It is modelled as 24 hexadecimal digits in either case, cast to the lower-case form the database prints. The library's acceptance of any 12-character string is not modelled.
- **Joins and projections of the list.** The `$lookup`/`$unwind`/`$project` owner join of the list, the `populate` of the read, and the `select: false` hiding of `isDeleted`/`deletedAt` in replies are not modelled. Replies are whole task records.
- **`$regex`.** The search pattern is read as a literal substring; regular-expression syntax is not modelled.
- **Casting.** A due date is an integer or absent. Invalid dates (a Mongoose cast error) and non-string body fields are not modelled. The unreachable `if (!task)` 500 branches are not modelled either.
- **Nondeterminism and time.**
  - The random choice of a Codeforces problem is the parameter `draw`; the card is problem `draw % n` of the `n` suitable ones.
  - `retrievedAt`, like every clock read, is not modelled.
  - The fetched problem list and LeetCode reply are parameters.
  - The LeetCode card's `date` field is not modelled.
  - An HTTP client error, which both coding handlers pass on with its own status, is not modelled.
- **Documents as values.** The pre-save hook is a function on the password field rather than an in-place change of a document object, because stored users are values in the user map.
- **Client state.** The first fetch of the task page is the page's constructor, with the reply as a parameter; a later re-fetch when the token changes is not modelled. In the client, navigation, `localStorage`, loading and modal flags, and the form fields reset after a submit are not modelled. In `TaskSection.jsx` the input text is a parameter of `HandleAddTask`, and clearing it afterwards is not modelled.
- **Concurrency.** Two refreshes racing, or the unique index catching a duplicate registration, are not observable in this sequential model.

Assumptions about library behaviour (the model's reading of Mongoose and the libraries it uses):
- **Query setters.** Query values pass through the schema's `lowercase`/`trim` setters, as they do on save.
- **Absent query keys.** An absent identifier in the `$or` of register and login matches no user.
- **Absent update fields.** A field absent (`undefined`) from an update's `$set` is left unchanged.
- **Timestamps.** `findOneAndUpdate` also stamps `updatedAt`.
- **Paging input.** `aggregatePaginate` falls back to page 1 and limit 10 for an absent or non-positive value.
- **Sort order.** String sort keys compare by code point.

Contracts stated deliberately weaker than the source:
- `TaskStore.Store.List`: ties between equal sort keys are broken by insertion order, where MongoDB leaves the order of ties unspecified. `totalDocs` is stated as the length of the matched sequence, not as a count over the map's keys.
- `Auth.UserTable.Login`: when several users match the identifiers (the email of one and the username of another), the model picks any one of them, where MongoDB returns the first in natural order.
- `Auth.ReplayFails`: requires the clock to have moved past the second the token was issued in. Token issue times have a resolution of one second, so within that second the rotated token equals the old one and the old one is accepted again; `Auth.SameSecondReplaySucceeds` proves this.
- `UserModel.Hash`: stands for bcrypt only through injectivity and its fixed prefix; real hashes are salted and not injective in this sense.

## Findings

| source | as written | input that shows it | evidently intended | confidence | as-written member | corrected member |
|---|---|---|---|---|---|---|
| Backend/models/user.model.js:57 | claim `fullName: this.fullName`, while the schema field is `fullname` | any user, e.g. full name "Ada L": the claim is `undefined` (`UserModel.AccessTokenLosesFullName`) | the access token carries the user's full name | not executed; high | `UserModel.AccessTokenAsWritten` | `UserModel.AccessToken` |
| Backend/controllers/auth.controller.js:148 | `const {accessToken, newRefreshToken} = ...` reads a property the util's `{accessToken, refreshToken}` result lacks | any accepted refresh, once the missing `jwt` import and the misspelled util name on the same line are corrected: the new token is stored but the reply's `refreshToken` is `undefined`, so the client's next refresh cannot present it (`Auth.RefreshReplyLosesToken`) | the reply carries the rotated refresh token | not executed; high | `Auth.RefreshReplyAsWritten` | `Auth.RefreshReplyOf` |
| Backend/controllers/coding.controller.js:13 | `colors[difficulty.toLowerCase()] \|\| 'bg-gray-600'` on a plain object literal | difficulty "constructor": the result is the inherited `Object` function, not a class name (`Coding.InheritedMemberIsNotAColor`, `Coding.ConstructorIsLowerCase`) | gray for every difficulty other than easy, medium and hard | not executed; high for the lookup, low that LeetCode sends such a value | `Coding.DifficultyColorAsWritten` | `Coding.DifficultyColor` |
| Backend/controllers/coding.controller.js:116-125 | the `catch` answers every error that is not the HTTP client's with 500, including the 404s the `try` throws at lines 91 and 98 | an empty problem list (`problems = []`), or one without contest ids: the reply is 500 (`Coding.NoProblemIsInternalError`) | 404 when no suitable problem exists, as the thrown errors say, and as `getLeetCodePotd` does by rethrowing (line 75) | not executed; high | `Coding.CodeforcesPotdAsWritten` | `Coding.CodeforcesPotd` |
