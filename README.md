# Mathisi core, modelled in Dafny

Mathisi is a note-taking app. A React Native client talks to a Rust (axum and
sea-orm) server. The server stores notes, uploaded files and users; its
source also contains handlers for quizzes generated from notes, which the
server does not route (see `NotesQuiz` below). This project models the parts of both sides that carry
logic you can state, and proves properties about them.

**Client session state machines**
- The quiz screen's session (`QuizMenu`): question index, score, streak, selection, per-answer verdicts, answered and completion flags.
  - `QuizMenu.QuestionMenu` is a class whose handlers overwrite those fields in place.
  - Each handler is proved against a specification function on a `Session` value.
- The flash-card carousel's cyclic index (`FlashCards`).
- The quiz tab's mode selector (`QuestionTab`).
- The feed-sync counter context (`FeedSync`).

**Client stores with subscribers**, as classes whose methods change their fields:
- the AI-note attachment draft (`AiNoteDraft`);
- the AI-note status bridge (`AiNoteStatusBridge`);
- the auth-token cache in front of the device's secure storage (`AuthToken`).

**Client pure helpers**
- The note card (`ArticleCard`): the relative-time label, vote and bookmark toggles, vote normalisation, and the excerpt.
- The searchable feed (`ArticleFeed`).
- The registration form's error mapping and confirm-password rule (`RegisterForm`).
- JavaScript's `trim`, `includes` and string truthiness (`JsText`).
- Order-preserving filtering and mapping (`Seqs`).

**Server handlers**, over a `Db.Database` object whose tables are maps and sequences:
- `GET`/`PATCH` of one note (`NotesId`) and of one file (`FilesId`);
- reading and generating a note's quiz (`NotesQuiz`), as `server/src/routes/api/notes/quiz.rs` is written. That file is not declared as a module in `server/src/routes/api/notes/mod.rs` (line 1 declares only `mod id;`), so these two handlers are not compiled into the running server;
- the note response, note creation and the caller's note list (`Notes`);
- a user's public profile, profile picture and public notes (`UserId`).

Only the data each handler actually uses is modelled. The picture upload also models axum's default 2 MiB limit on a `Bytes` request body, which is applied before the handler runs.

These are inputs or parameters rather than modelled behaviour:
- the clock;
- the parsed date;
- the AI reply;
- whether a secure-storage call fails;
- Unicode `toLowerCase`.

## Model

| member | source | states |
|---|---|---|
| QuizMenu.Verdicts | client/components/quiz/quiz/question-menu.tsx:105-110 | one verdict per answer; exactly the right answer is Correct; the chosen one is Incorrect iff it is wrong; every other answer is Revealed; none is Default |
| QuizMenu.Defaults | client/components/quiz/quiz/question-menu.tsx:33 | one Default verdict per answer of the question |
| QuizMenu.AnswerEffect | client/components/quiz/quiz/question-menu.tsx:96-121 | once the question is answered, an answer press changes nothing; otherwise it sets the selection and the answered flag and shows the verdicts; a right answer adds 1 to score and streak; a wrong one keeps the score and resets the streak; question and completion stay |
| QuizMenu.NextEffect | client/components/quiz/quiz/question-menu.tsx:123-147 | on the last question only `quizComplete` is set; otherwise it moves to the next question, clears the selection and the answered flag, resets the verdicts to Default, and keeps score and streak |
| QuizMenu.RestartEffect | client/components/quiz/quiz/question-menu.tsx:149-156 | a restart from any state gives the mount-time snapshot of lines 29-37, and that snapshot satisfies the session invariant |
| QuizMenu.StepKeepsInv | client/components/quiz/quiz/question-menu.tsx:96-156 | every event keeps the invariant: streak ≤ score ≤ questions answered; answered iff a selection exists; verdicts match the selection; complete only on the last question |
| QuizMenu.RunKeepsInv | client/components/quiz/quiz/question-menu.tsx:96-156 | any sequence of events keeps that invariant |
| QuizMenu.ScoreBounds | client/components/quiz/quiz/question-menu.tsx:96-158 | from mount, after any events, streak ≤ score ≤ question + (answered ? 1 : 0) ≤ number of questions |
| QuizMenu.ExampleAllCorrect | client/components/quiz/quiz/question-menu.tsx:6-22 | the shipped questions are well formed; answering them right scores 3 with a streak of 3, and the last advance completes the quiz |
| QuizMenu.Step | client/components/quiz/quiz/question-menu.tsx:96-156 | an event never moves the question index out of range |
| QuizMenu.QuestionMenu.constructor | client/components/quiz/quiz/question-menu.tsx:29-37 | the screen mounts in the initial snapshot, which satisfies the invariant |
| QuizMenu.QuestionMenu.HandleAnswer | client/components/quiz/quiz/question-menu.tsx:96-121 | the fields become exactly `AfterAnswer` of the old ones, and the invariant is kept |
| QuizMenu.QuestionMenu.NextQuestion | client/components/quiz/quiz/question-menu.tsx:123-147 | the fields become exactly `AfterNext` of the old ones, and the invariant is kept |
| QuizMenu.QuestionMenu.RestartQuiz | client/components/quiz/quiz/question-menu.tsx:149-156 | the fields become the initial snapshot, and the invariant is kept |
| FlashCards.PrevIndex | client/components/quiz/flash-cards/flash-card-menu.tsx:29-37 | for an index in range, the result is in range and equals (index − 1 + n) mod n |
| FlashCards.NextIndex | client/components/quiz/flash-cards/flash-card-menu.tsx:38-45 | for an index in range, the result is in range and equals (index + 1) mod n |
| FlashCards.NextPrevInverse | client/components/quiz/flash-cards/flash-card-menu.tsx:29-45 | next then prev, and prev then next, return to the same card |
| FlashCards.NextTimesWraps | client/components/quiz/flash-cards/flash-card-menu.tsx:38-45 | k presses of next move to (index + k) mod n |
| FlashCards.WrapSuccessor | client/components/quiz/flash-cards/flash-card-menu.tsx:38-45 | one more press of next advances the wrapped position by one |
| FlashCards.FullCycle | client/components/quiz/flash-cards/flash-card-menu.tsx:38-45 | n presses of next return to the start |
| FlashCards.SingleCardStays | client/components/quiz/flash-cards/flash-card-menu.tsx:29-45 | with one card, both buttons keep index 0 |
| FlashCards.FlashCardMenu.Position | client/components/quiz/flash-cards/flash-card-menu.tsx:56 | the "i/n" label's i lies in [1, n] |
| FlashCards.FlashCardMenu.constructor | client/components/quiz/flash-cards/flash-card-menu.tsx:27 | the index starts at 0 |
| FlashCards.FlashCardMenu.Prev | client/components/quiz/flash-cards/flash-card-menu.tsx:29-37 | the index becomes `PrevIndex` of the old one and stays in range |
| FlashCards.FlashCardMenu.Next | client/components/quiz/flash-cards/flash-card-menu.tsx:38-45 | the index becomes `NextIndex` of the old one and stays in range |
| FlashCards.FlashCardMenu.PressRandom | client/components/quiz/flash-cards/flash-card-menu.tsx:62-64 | the Random button has no handler, so the index is unchanged |
| QuestionTab.GetNode | client/components/quiz/question-tab.tsx:27-60 | 0 renders the chooser, 1 renders the flash cards, and any other value renders the quiz (each iff) |
| QuestionTab.Controls | client/components/quiz/question-tab.tsx:31-58 | a back control is rendered iff the flash cards are shown; the quiz is rendered with no control at all |
| QuestionTab.ReachableSelections | client/components/quiz/question-tab.tsx:23-62 | from the initial selection, any sequence of presses on rendered controls stays in {0, 1, 2}, and the quiz offers no way back |
| QuestionTab.FollowStays | client/components/quiz/question-tab.tsx:23-60 | from a selection in {0, 1, 2}, presses stay in that set, and once on the quiz they stay on the quiz |
| QuestionTab.QuestionTabScreen.constructor | client/components/quiz/question-tab.tsx:62 | the selection starts at 0, the chooser |
| QuestionTab.QuestionTabScreen.ChooseFlashCards | client/components/quiz/question-tab.tsx:35 | the selection becomes 1, which shows the flash cards |
| QuestionTab.QuestionTabScreen.ChooseQuiz | client/components/quiz/question-tab.tsx:41 | the selection becomes 2, which shows the quiz |
| QuestionTab.QuestionTabScreen.GoBack | client/components/quiz/question-tab.tsx:23-25 | the selection becomes 0, which shows the chooser |
| FeedSync.CounterCountsDispatches | client/reducer/forcereload.tsx:10-17 | about `FeedSync.ForceReducer` (`forceReducer`): after k dispatches from the initial 0 the counter is k, and it strictly increases |
| FeedSync.UseFeedSync | client/reducer/forcereload.tsx:26-29 | inside a provider returns its value; outside one fails with "useFeedSync must be used within FeedSyncProvider" |
| FeedSync.FeedSyncProvider.constructor | client/reducer/forcereload.tsx:15 | the counter starts at 0 |
| FeedSync.FeedSyncProvider.Context | client/reducer/forcereload.tsx:20 | the context value carries the current counter, and `useFeedSync` returns it |
| FeedSync.FeedSyncProvider.ForceUpdate | client/reducer/forcereload.tsx:10-12 | the counter becomes `forceReducer` of the old one, which is larger |
| AiNoteDraft.WithoutId | client/lib/state/ai-note-draft.ts:38 | keeps exactly the entries with another id, each as often as it occurs, in their order (a subsequence) |
| AiNoteDraft.AddThenRemoveRestores | client/lib/state/ai-note-draft.ts:28-40 | adding one attachment with a fresh id and then removing that id restores the list |
| AiNoteDraft.AiNoteDraftStore.Emit | client/lib/state/ai-note-draft.ts:13-15 | every subscriber is called exactly once, and no one else is |
| AiNoteDraft.AiNoteDraftStore.Subscribe | client/lib/state/ai-note-draft.ts:17-18 | the listener joins the subscriber set |
| AiNoteDraft.AiNoteDraftStore.Unsubscribe | client/lib/state/ai-note-draft.ts:19 | exactly that listener leaves the set |
| AiNoteDraft.AiNoteDraftStore.AddAttachments | client/lib/state/ai-note-draft.ts:28-35 | an empty batch changes nothing and notifies no one; otherwise the list becomes old ++ batch and each subscriber is notified once |
| AiNoteDraft.AiNoteDraftStore.RemoveAttachment | client/lib/state/ai-note-draft.ts:37-40 | the list becomes `WithoutId(old, id)`, and each subscriber is notified even if nothing was removed |
| AiNoteDraft.AiNoteDraftStore.ClearAttachments | client/lib/state/ai-note-draft.ts:42-49 | the list ends empty; on an empty list no one is notified, otherwise each subscriber is notified once |
| AiNoteDraft.UnsubscribedListenerScenario | client/lib/state/ai-note-draft.ts:17-49 | across an add, a remove and a clear, the subscribed listener is called twice and the unsubscribed one never; `AiNoteDraft.AiNoteDraftStore.GetSnapshot` (`getSnapshot`, line 22) returns the added attachment after the add and nothing after the remove |
| AiNoteStatusBridge.StatusBridge.constructor | client/lib/state/ai-note-status-bridge.ts:6-8 | no handlers, remembered status "", remembered uploading false |
| AiNoteStatusBridge.StatusBridge.Register | client/lib/state/ai-note-status-bridge.ts:10-13 | replaces the handlers and delivers the remembered status and uploading flag to the new ones, in that order |
| AiNoteStatusBridge.StatusBridge.Unregister | client/lib/state/ai-note-status-bridge.ts:14-18 | clears the handlers only if they are still the ones it registered |
| AiNoteStatusBridge.StatusBridge.EmitStatus | client/lib/state/ai-note-status-bridge.ts:21-24 | always remembers the message; forwards it only when handlers are registered |
| AiNoteStatusBridge.StatusBridge.EmitUploading | client/lib/state/ai-note-status-bridge.ts:26-29 | always remembers the flag; forwards it only when handlers are registered |
| AiNoteStatusBridge.StaleUnregisterScenario | client/lib/state/ai-note-status-bridge.ts:10-18 | unregistering replaced handlers keeps the newer registration |
| AiNoteStatusBridge.ReplayScenario | client/lib/state/ai-note-status-bridge.ts:10-24 | values emitted while nothing is registered are the first and only deliveries the next registrant gets |
| AuthToken.TokenStore.GetAuthToken | client/lib/auth/token.ts:6-19 | a set cache (a cached null included) is returned without a storage call; otherwise one read of key "token" caches and returns the stored value, or null when it is absent or the read fails |
| AuthToken.TokenStore.SetAuthToken | client/lib/auth/token.ts:21-41 | the cache takes the token; a truthy token is written under "token", while null or "" deletes the key; a failed write leaves storage unchanged; every subscribed listener receives the token once |
| AuthToken.TokenStore.Subscribe | client/lib/auth/token.ts:43-44 | the listener joins the set |
| AuthToken.TokenStore.Unsubscribe | client/lib/auth/token.ts:45 | exactly that listener leaves the set |
| AuthToken.SetThenGetScenario | client/lib/auth/token.ts:21-32 | after a set, a read returns the new token without a storage read, even when persisting failed |
| AuthToken.ColdReadScenario | client/lib/auth/token.ts:6-19 | the first read caches what storage gave (null when absent or failing); the second returns the same with no further storage call |
| AuthToken.UnsubscribeScenario | client/lib/auth/token.ts:34-46 | a listener that unsubscribed is not called by a later set; one still subscribed is called with the token |
| ArticleCard.Upvote | client/components/article-card.tsx:93 | never a downvote; clears the vote exactly when it was an upvote |
| ArticleCard.Downvote | client/components/article-card.tsx:102 | never an upvote; clears the vote exactly when it was a downvote |
| ArticleCard.ToggleProperties | client/components/article-card.tsx:93-116 | a second press of the same vote button undoes the first unless it started from the opposite vote; bookmarking negates, and twice is the identity |
| ArticleCard.NormaliseVote | client/components/article-card.tsx:40-48 | −1 and 1 are kept; every other server value shows as 0 |
| ArticleCard.NormaliseIdempotent | client/components/article-card.tsx:40-48 | normalising is the identity on a card vote |
| ArticleCard.ElapsedSeconds | client/components/article-card.tsx:130 | the floor of the elapsed milliseconds / 1000, clamped at 0 for future timestamps |
| ArticleCard.Bucket | client/components/article-card.tsx:131-147 | "just now" iff under 60 seconds; otherwise floor(seconds / unit) ≥ 1 for the largest unit in the table that fits |
| ArticleCard.CountBounds | client/components/article-card.tsx:131-145 | a count is at least 1 and stays below the next larger unit: months ≤ 12, weeks ≤ 4, days ≤ 6, hours ≤ 23, minutes ≤ 59 |
| ArticleCard.UnitWord | client/components/article-card.tsx:143 | the unit gets an "s" iff the count exceeds 1 |
| ArticleCard.Decimal | client/components/article-card.tsx:143 | `${count}`: a non-empty string of decimal digits that denotes the count, "0" for zero and no leading zero otherwise |
| ArticleCard.DecimalOfDigits | client/components/article-card.tsx:143 | the inverse direction: a digit string without a leading zero (or "0") is how its own value prints |
| ArticleCard.TimeAgo | client/components/article-card.tsx:127-148 | the label is the rendering of the bucket; "just now" iff the date does not parse or under a minute elapsed; otherwise the count and unit of the largest fitting unit |
| ArticleCard.Excerpt | client/components/article-card.tsx:25 | at most 180 characters; empty iff the first 180 characters are all whitespace; otherwise it starts and ends with non-whitespace and sits in the first 180 characters with only whitespace before and after it |
| ArticleCard.Head | client/components/article-card.tsx:25 | `slice(0, 180)`: the prefix of length 180, or the whole of a shorter content |
| ArticleCard.ExcerptUnique | client/components/article-card.tsx:25 | any whitespace-bounded core of the first 180 characters that neither starts nor ends with whitespace is the excerpt |
| JsText.Trim | client/components/article-card.tsx:25 | the result is empty iff the string is all whitespace; otherwise it starts and ends with non-whitespace; it sits in the string with only whitespace before and after it |
| JsText.TrimUnique | client/components/article-card.tsx:25 | `trim` is determined by those properties: any such core of the string is its trim |
| ArticleCard.ArticleCardState.constructor | client/components/article-card.tsx:22-23 | the vote starts at 0 and the bookmark at the server's `user_bookmark` |
| ArticleCard.ArticleCardState.PressUpvote | client/components/article-card.tsx:93 | the vote becomes `Upvote` of the old vote |
| ArticleCard.ArticleCardState.PressDownvote | client/components/article-card.tsx:102 | the vote becomes `Downvote` of the old vote |
| ArticleCard.ArticleCardState.PressBookmark | client/components/article-card.tsx:116 | the bookmark flag is negated |
| ArticleCard.ArticleCardState.Render | client/components/article-card.tsx:40-48 | corrected effect: the vote is reset to the normalised server vote only on the first render or when `user_vote` changed |
| ArticleCard.PressSticksScenario | client/components/article-card.tsx:40-48 | with the corrected effect, a press survives the re-render it causes, and a second press undoes it |
| ArticleCard.PressIsUndoneAsWritten | client/components/article-card.tsx:40-48 | about `ArticleCard.VoteAfterPressAsWritten` (the effect with no dependency list): as written, every press is overwritten by the server vote: an upvote on a card whose server vote is 0 shows 0 again |
| ArticleCard.PressSticks | client/components/article-card.tsx:40-48 | about `ArticleCard.VoteAfterPress` (the effect depending on `user_vote`): corrected: a press sticks while the server vote is unchanged, and a new server vote still wins |
| ArticleFeed.FilteredNotes | client/components/article-feed.tsx:22-33 | a blank query returns the feed (a missing feed is empty); otherwise it keeps exactly the notes whose lower-cased title or content includes the lower-cased query, each as often as it occurs in the feed; the result is an order-preserving subsequence of the feed |
| ArticleFeed.UntrimmedQueryMatters | client/components/article-feed.tsx:24-31 | the query is matched untrimmed: " a" finds nothing in a note titled "a" that "a" finds |
| ArticleFeed.RefreshNeverRefetchesAsWritten | client/components/article-feed.tsx:69-72 | about `ArticleFeed.OnRefreshAsWritten` (`onRefresh` as written): as written, pull-to-refresh clears the query but never refetches |
| ArticleFeed.RefreshRefetchesAndShowsAll | client/components/article-feed.tsx:69-72 | about `ArticleFeed.OnRefresh` (`onRefresh` calling `refetch()`): corrected: refresh refetches once and, with the query cleared, shows the whole feed |
| ArticleFeed.StaleFeedAsWritten | client/components/article-feed.tsx:22-33 | about `ArticleFeed.RenderAsWritten` (the memo with deps `[searchQuery]`): as written, the list memoised while the feed was loading stays empty after the notes arrive |
| ArticleFeed.RenderIsFresh | client/components/article-feed.tsx:22-33 | about `ArticleFeed.Render` (the memo depending on the feed too): corrected: with the feed as a dependency, every render shows the filter of the current feed and query |
| Seqs.Filter | client/components/article-feed.tsx:28 | keeps exactly the elements that satisfy the predicate (membership both ways), each kept element as often as it occurs in the input |
| Seqs.Map | server/src/routes/api/notes/quiz.rs:83-90 | one output per input, each the function applied to the input at the same position |
| Seqs.FilterIsSubsequence | client/components/article-feed.tsx:28 | the filtered list is an order-preserving subsequence of the input |
| Seqs.FilterAppend | client/lib/state/ai-note-draft.ts:38 | filtering a concatenation filters each part |
| RegisterForm.ExtractMessage | client/components/auth/register-form.tsx:42-57 | a thrown string comes back unchanged; a string `error` containing the username key gives the username message, checked before the email key; one containing only the email key gives the email message; any other string `error` passes through; everything else gives the generic message |
| RegisterForm.MessageOrigin | client/components/auth/register-form.tsx:42-57 | the message is one of the form's three texts or the text that was thrown |
| RegisterForm.UsernameBeforeEmail | client/components/auth/register-form.tsx:47-52 | an error naming both keys is reported as the username clash |
| RegisterForm.ObjectsWithoutTextAreGeneric | client/components/auth/register-form.tsx:44-56 | an object without a string `error` gives the generic message |
| RegisterForm.ValidateConfirm | client/components/auth/register-form.tsx:202 | passes iff the confirmation equals the password; otherwise fails with "Passwords do not match" |
| RegisterForm.ConfirmSymmetric | client/components/auth/register-form.tsx:202 | swapping the two fields gives the same verdict |
| NotesId.GetNote | server/src/routes/api/notes/id.rs:39-44 | NotFound iff the id is absent; otherwise the stored note, with no ownership or visibility check |
| NotesId.ApplyEditNote | server/src/routes/api/notes/id.rs:84-96 | each present field replaces the stored one and each absent field keeps it; id, owner and creation time never change |
| NotesId.EmptyEditIsIdentity | server/src/routes/api/notes/id.rs:86-96 | an all-None patch changes nothing |
| NotesId.EditIdempotent | server/src/routes/api/notes/id.rs:86-96 | applying the same patch twice equals applying it once |
| NotesId.EditsCompose | server/src/routes/api/notes/id.rs:86-96 | two patches in a row act as one patch in which the later fields win |
| NotesId.EditNoteHandler | server/src/routes/api/notes/id.rs:73-100 | NotFound before the ownership check; a non-owner gets Unauthorized and the table is unchanged; the owner's patch rewrites only that row and the updated row is returned |
| NotesId.EditThenGetScenario | server/src/routes/api/notes/id.rs:39-100 | reading a note after a title edit gives the old row with the new title |
| FilesId.GetFile | server/src/routes/api/files/id.rs:37-42 | NotFound iff the id is absent; otherwise the stored bytes, with no ownership check |
| FilesId.ApplyEditFile | server/src/routes/api/files/id.rs:82-90 | the filename is replaced iff given; `ocr` becomes Some(x) iff given and otherwise keeps its old value, None included; data, owner and creation time never change |
| FilesId.OcrNeverCleared | server/src/routes/api/files/id.rs:88-90 | no edit can clear a present OCR text |
| FilesId.EditFileIdempotent | server/src/routes/api/files/id.rs:84-90 | the same patch twice equals it once, and an empty patch changes nothing |
| FilesId.EditFileHandler | server/src/routes/api/files/id.rs:71-94 | NotFound before the ownership check; a non-owner gets Unauthorized and the table is unchanged; the owner's patch rewrites only that row; the response carries the id and the resulting filename |
| FilesId.RenameKeepsDataScenario | server/src/routes/api/files/id.rs:37-94 | renaming a file leaves its bytes as they were |
| NotesQuiz.Related | server/src/routes/api/notes/quiz.rs:76-91 | every question returned comes, with title, answers and correct copied, from a row of that quiz |
| NotesQuiz.RelatedComplete | server/src/routes/api/notes/quiz.rs:76-79 | every row of the quiz contributes its question |
| NotesQuiz.RelatedIsFiltered | server/src/routes/api/notes/quiz.rs:76-91 | the questions are exactly the rows whose quiz id matches, filtered in table order and then converted one by one |
| NotesQuiz.RelatedNewRows | server/src/routes/api/notes/quiz.rs:183-203 | reading back a quiz whose rows were all appended after other quizzes' rows gives exactly the appended questions, in order |
| NotesQuiz.GetQuizes | server/src/routes/api/notes/quiz.rs:61-91 | NotFound for a missing note; a private note of another user, and a permitted note without a quiz, give NotFound("Quiz not found for this note"); success iff the note is the caller's or public and has a quiz, and then all its questions come back |
| NotesQuiz.PrivateLooksMissing | server/src/routes/api/notes/quiz.rs:66-74 | a stranger gets, for a private note, exactly the answer a note without a quiz gives |
| NotesQuiz.NewRowsAt | server/src/routes/api/notes/quiz.rs:183-192 | inserted row k is question k under the new quiz id, with the k-th next serial id |
| NotesQuiz.CreateQuiz | server/src/routes/api/notes/quiz.rs:121-204 | in order: NotFound, Forbidden for any non-owner (public note or not), Conflict for an existing quiz, then the AI's two failures, all before anything is written; on success one quiz and, in order, one row per parsed question, the response carries the parsed questions, and `get_quizes` returns that same response |
| NotesQuiz.InsertQuestions | server/src/routes/api/notes/quiz.rs:181-199 | the question rows grow by exactly one row per question, in order, and the response list equals the parsed questions |
| NotesQuiz.CreateTwiceScenario | server/src/routes/api/notes/quiz.rs:132-141 | a second create for the same note gives Conflict, and the first quiz is still what `get_quizes` returns |
| Notes.ToResponse | server/src/routes/api/notes/mod.rs:31-62 | stored fields are copied; `user_vote` is in {−1, 0, 1}, 1 iff an upvote row and −1 iff a downvote row of the caller; the bookmark iff the caller's save row exists; `saves` counts the note's save rows |
| Notes.OthersDoNotShow | server/src/routes/api/notes/mod.rs:34-49 | another user's vote or save does not change the caller's vote or bookmark |
| Notes.ResponseFromArray | server/src/routes/api/notes/mod.rs:66-76 | one response per note, in the notes' order |
| Notes.CreateNote | server/src/routes/api/notes/mod.rs:106-117 | a new row under the next serial id, owned by the caller, stamped `now`, private unless the body says otherwise; no other row changes |
| Notes.InsertNewestFirst | server/src/routes/api/notes/mod.rs:154 | the result has the same elements plus the new note |
| Notes.InsertKeepsOrder | server/src/routes/api/notes/mod.rs:154 | inserting keeps a list newest first |
| Notes.InsertKeepsDistinct | server/src/routes/api/notes/mod.rs:154 | inserting a note with a new id keeps ids distinct |
| Notes.SelectNewestFirst | server/src/routes/api/notes/mod.rs:152-155 | exactly the stored rows the filter selects, newest first, each once |
| Notes.GetNotes | server/src/routes/api/notes/mod.rs:148-161 | exactly the caller's notes, newest first, each once, each as the caller's response |
| UserId.FromUser | server/src/routes/api/user/id.rs:35-43 | id, username and creation time copied; `has_profile_picture` iff a picture is stored |
| UserId.PublicViewHidesSecrets | server/src/routes/api/user/id.rs:35-43 | the public view does not depend on the e-mail or password |
| UserId.GetUser | server/src/routes/api/user/id.rs:62-67 | NotFound("User not found") iff the id is absent; otherwise the public view |
| UserId.GetProfilePicture | server/src/routes/api/user/id.rs:119-133 | NotFound for a missing user, then for a missing picture; otherwise the stored bytes, unchanged, as image/png |
| UserId.SetProfilePictureUnder | server/src/routes/api/user/id.rs:154-184 | with a body limit `limit`: 413 for a body over the limit whoever sends it, then Unauthorized for another user's id, BadRequest over 2 MiB, NotFound for a missing user; on success 204 and only that user's picture changes, and reading it back gives the bytes |
| UserId.SetProfilePicture | server/src/routes/api/user/id.rs:154-184 | under axum's default 2 MiB body limit: 413 for a body over 2 MiB whoever sends it, never "Image too large"; otherwise Unauthorized, NotFound or 204 with the picture stored, as above |
| UserId.SizeLimitScenario | server/src/routes/api/user/id.rs:159-172 | exactly 2 MiB is accepted; one byte more is refused with 413, for the owner and for anyone else; the profile then reports a picture |
| UserId.RaisedLimitScenario | server/src/routes/api/user/id.rs:162-172 | with a body limit above 2 MiB the handler decides: the owner's oversized picture is "Image too large", a stranger's upload is Unauthorized, and the profile is unchanged |
| UserId.GetUserNotes | server/src/routes/api/user/id.rs:88-97 | exactly that user's public notes, newest first, each once, each with the caller's vote and bookmark |

## Left out

- NotesQuiz.GetQuizes, NotesQuiz.CreateQuiz: `server/src/routes/api/notes/quiz.rs` is never declared with `mod quiz;`, so neither handler is routed and the running server has no quiz endpoints. The model follows the file as written, as if it were routed.

- Animations, styles and rendering are not modelled. This covers the `Animated` sequences of the quiz screen, its floating-point progress and percentage, and the card flip of `flash-card.tsx`.
- The fade-out callback of `nextQuestion` is modelled together with the press as one step. React's batching, asynchronous state updates and stale closures are out of scope.
- `console.warn`/`console.error` calls are dropped. The secure-storage failures around them are modelled as boolean inputs.
- Network calls, the image picker and OCR upload, the login/register `onSubmit` flows, the fetch middleware and the auth context are not modelled. Neither are screens that only lay out components.
- The `required`/`minLength`/`pattern` rule tables of the forms are evaluated by react-hook-form, which is not part of this model. Only the `confirmPassword` closure is modelled.
- `toLowerCase` is a parameter (`lower`) of `ArticleFeed.FilteredNotes`, because Unicode case mapping is not modelled.
- `Date.now()` and `new Date(..).getTime()` are inputs of `ArticleCard.TimeAgo`. An unparsable date is `None`, which `timeAgo` turns into "just now" through NaN.
- ArticleCard.Excerpt: `slice(0, 180)` counts UTF-16 code units, while the model counts Dafny characters. The two differ only for characters outside the Basic Multilingual Plane.
- JsText.Trim: the whitespace table covers JavaScript's WhiteSpace and LineTerminator code points. Surrogate pairs are not modelled.
- AuthToken.TokenStore.GetAuthToken: each call is one atomic step, so the model does not capture an interleaving of `await`s. A read that is still waiting on storage writes the cache when it resumes (client/lib/auth/token.ts:12). If `setAuthToken` ran meanwhile (client/lib/auth/token.ts:22), the stale stored value overwrites the new token in the cache. This is a lost update.
- AuthToken.TokenStore.SetAuthToken: listeners are a set, and the model says what each one receives, not the order in which JavaScript's `Set` calls them. A listener that throws is modelled only by the fact that the others are still called.
- AiNoteDraft.AiNoteDraftStore.Emit: as above, the order of calls among subscribers is not modelled. Subscribers are identified by a number standing for the callback's identity.
- `useSyncExternalStore` wiring in `ai-note-draft.ts` is React plumbing and is not modelled beyond `getSnapshot`.
- Database errors (every `.await?`) are not modelled. Each handler is modelled on the path where the database answers.
- The AI request itself (the prompt, the model id, `n(1)`) and a failure of the chat call are not modelled. The reply enters `NotesQuiz.CreateQuiz` as an `AiOutcome`.
- NotesQuiz.GetQuizes: `find_related` has no `ORDER BY`. The model returns the rows in insertion order, which is what the order-preservation property relies on.
- Notes.SelectNewestFirst: the query is modelled as a scan of the serial ids below the next id. Rows with equal `created_at` come out in an order the database does not fix, and the model promises nothing about it.
- Notes.ToResponse: `saves` is a `u64` count cast to `i32`. The model uses an unbounded count, ignoring wrap-around beyond 2^31 − 1 saves.
- NotesId.GetNote, NotesId.EditNoteHandler: `note.into()` converts the row into a `NoteResponse`, but no conversion from a note row alone supplies the caller-specific fields of that response. The model returns the stored row.
- `get_bookmarked_notes` (`notes/mod.rs:173-192`) is not modelled. It is a join whose filter adds nothing `ToResponse` does not already show.
- The entity files, `main.rs`, `init.rs`, `state.rs` and routing are plumbing and are not modelled. Neither are login/registration hashing, token generation, the auth middleware, the multipart upload of `files.rs`, the one-query `feed.rs` and the older duplicate route files.
- Integer widths: ids and counters are unbounded integers, while the source uses 32-bit serial ids. Overflow of the serial keys is not modelled.

## Findings

| source | as written | input that shows it | evidently intended | confidence | as-written member | corrected member |
|---|---|---|---|---|---|---|
| client/components/article-card.tsx:40-48 | the vote effect has no dependency list, so it runs after every render, including the one a button press causes, and writes the server's `user_vote` back | a card whose `user_vote` is 0; press upvote; the re-render resets the vote to 0 | the effect depends on `user_vote` and runs only when it changes, so a press stays visible | not executed | ArticleCard.PressIsUndoneAsWritten | ArticleCard.PressSticks |
| client/components/article-feed.tsx:69-72 | `refetch` is evaluated but never called in `onRefresh` | any pull-to-refresh: the query is cleared but no new data is requested | `refetch()` is called | not executed | ArticleFeed.RefreshNeverRefetchesAsWritten | ArticleFeed.RefreshRefetchesAndShowsAll |
| client/components/article-feed.tsx:22-33 | the memo lists only `searchQuery` as a dependency, so a new `feed` with the same query reuses the old list | the first render while the notes are loading (feed `[]`, query ""), then the notes arrive with the query still "": the list stays empty | `feed` is a dependency as well, so the list always filters the current feed | not executed | ArticleFeed.StaleFeedAsWritten | ArticleFeed.RenderIsFresh |
| server/src/routes/api/user/id.rs:168-172 | the handler refuses pictures over 2 MiB with 400 "Image too large", but the `Bytes` extractor (server/src/routes/api/user/id.rs:159) already refuses any body over axum's default 2 MiB limit with 413, and the user routes never raise that limit | a 2_097_153-byte body, sent by the owner or by another user: 413 in both cases, never 400 and never 401 | the route raises its body limit (as server/src/routes/api/files.rs:24 does for uploads), so that the ownership check and the 2 MiB check decide | not executed | UserId.SetProfilePicture | UserId.SetProfilePictureUnder |
