# nanotes: verified model

A Dafny model of the parts of nanotes that are hard to get right, with proofs over every input, every interleaving or
every run. `dafny verify dfyconfig.toml` checks the whole project.

## What is modelled

- **The scrolling feed** (`Schema`, `Paging`, `Cursor`, `Calendar`, `Fields`, `Timestamps`, `FeedProtocol`, `FeedTheorems`,
  `CompleteFeed`, `Repository`, `DashboardFeed`). The tables with the schema's keys, foreign keys and cascades; the Kotlin
  page query with its row-value cursor; base64url cursors; fixed-width timestamp text; and the client's load-more machine,
  also as an object. In `FeedProtocol` each SQL statement is one step, a create or an edit reads the clock in one step and reaches the database in a later one,
  and requests may fail at any point.
- **Saving while others save** (`UpdateProtocol`, `UpdateTheorems`, `Guards`, `GivenVersions`, `MentionMail`, `Snapshots`,
  `MailOnce`, `Service`, `Uninterrupted`). Every call of the Rust note service, and every checkbox click on a card, is a program counter over
  single SQL statements; any number of calls interleave with deletes, shares and new users, and any of them may break off.
  The history of each note, the recorded mentions and the mails sent are kept as logs. `Service` is the same service as
  imperative code, and `Uninterrupted` ties the two: a call left alone does what the plain service promises.
- **Task lists** (`TaskList`). The line pattern and the fence pattern as scanners with a grammar beside them; the four
  functions as loops over arrays of lines.
- **Small lexers** (`SqlText`, `Placeholders`, `Mentions`). The statement splitters of Kotlin and Go, the two placeholder
  rewriters, path escaping, and reading and completing mentions.
- **Migrations** (`Migrations`), with crashes, restarts and several processes, and **login requests** (`LoginRequests`,
  `PythonTime`), with creates and consumes interleaved.
- **Other timestamps** (`TimeFmt`): the variable-width text of the Rust backend.

## What came out differently from the documentation

- `Timestamps.kt` formats with `yyyy`, the year of era. Year 0 prints like year 1 and does not read back, and years past 9999
  print with a sign that sorts first; the text order is chronological for years 1 to 9999
  (`Timestamps.RoundTrip`, `Timestamps.OrderHoldsFromYear1To9999`).
- `timefmt.rs` calls its text sortable. Text order agrees with time only for instants at least one unit of the earlier
  one's printed precision apart: `12:00:00Z` sorts after `12:00:00.5Z` (`TimeFmt.TextOrder`).
- The writers read the clock before the statement takes the database's lock, so two edits can commit in the opposite order
  of their stamps. Keys still never go down for clients that send a version they were given, because the version check
  rejects the earlier stamp.
- `notify_mentions` has a branch that skips unknown users "rather than fail the save". It is never taken: the foreign key
  of `note_mentions` has already failed the save (`MentionMail.NoUnknownUserIsSkipped`).
- A user can be mailed twice about a note: exactly when two saves that name the user take their snapshot of the recorded
  mentions before the user is recorded (`Snapshots.TwoMailsExactly`, `MailOnce.OverlappingSavesMailTwice`). It cannot happen
  when the saves of a note take turns up to their last record.
- A save that names an unknown user changes the note and then fails; a card that toggled a box rolls back what the store
  keeps (`Service.NoteService.Update`, `Service.NoteCard.ToggleTask`).
- Display names are put into mention tokens unescaped: a name with a `]` makes a token that mentions nobody
  (`Mentions.InsertedMentionIsRead`). An unclosed `@[name](` before the cursor swallows the inserted mention; an
  unclosed `@[` does not.
- The Kotlin and Go splitters trim slightly different characters (U+001C to U+001F, U+0085), so that they can differ on texts
  without comments (`SqlText.DisputedSeparator`); which comments mislead the Go one is exactly known
  (`SqlText.SplittersCutAlike`).

## Model

| member | source | states |
|---|---|---|
| FeedProtocol.StepKeepsStore | backend-quarkus/src/main/kotlin/app/nanotes/backend/notes/NoteRepository.kt:21-79 | every step of creates, edits, deletes, shares and requests keeps the store invariant: good stamps not after the clock, ids used once, a pending edit that can still commit has no older stamp than its note |
| FeedProtocol.StepNeverLowersKeys | backend-quarkus/src/main/kotlin/app/nanotes/backend/notes/NoteRepository.kt:64-75 | no step gives a surviving note a lower sort key, and a note appears only by its own pending create |
| FeedProtocol.StepKeepsFeed | frontend-vue/src/composables/useNoteFeed.ts:18-34 | every step keeps the loaded items strictly descending and distinct, the cursor naming the last of them |
| FeedProtocol.FeedNeverRepeats | frontend-vue/src/composables/useNoteFeed.ts:18-34 | over every interleaving, failed requests included, the feed never holds one note twice |
| FeedTheorems.StayingNoteAppearsOnce | frontend-vue/src/composables/useNoteFeed.ts:11-34 | a note visible under an unchanged key at every page query is in the finished feed exactly once |
| FeedTheorems.ScrollEnds | frontend-vue/src/composables/useNoteFeed.ts:18-34 | if creates see a strictly later clock, the pages of a scroll number at most the notes stored or being created at the first query divided by the limit, rounded up |
| FeedTheorems.LoadAlone | frontend-vue/src/composables/useNoteFeed.ts:18-34 | a feed that has more to come can load at any time, and a load nothing disturbs appends exactly the page under its cursor |
| FeedTheorems.TwoNotesCanShareAStamp | backend-quarkus/src/main/kotlin/app/nanotes/backend/notes/NoteRepository.kt:21-32 | two creates can store one and the same timestamp, so that the id in the key is needed |
| FeedTheorems.BudgetIsCounted | frontend-vue/src/composables/useNoteFeed.ts:18-34 | the number the pages of a scroll are measured by is the count of notes stored or being created at a first-page query of the run |
| FeedTheorems.ShownNotesWereTrue | frontend-vue/src/composables/useNoteFeed.ts:11-34 | over every interleaving, whatever the feed shows was at some moment of the run that note as stored: text, owner, edit time, publicness, and the permission its viewer had |
| FeedTheorems.CreateStoresItsNote | backend-quarkus/src/main/kotlin/app/nanotes/backend/notes/NoteRepository.kt:21-32 | a create, whenever it commits, stores the owner and texts it was begun with at version 1, under the stamp it read then |
| FeedTheorems.EditStoresItsTexts | backend-quarkus/src/main/kotlin/app/nanotes/backend/notes/NoteRepository.kt:64-75 | an edit, whenever it commits, stores its texts and stamp if and only if the version is still the one it expects, and touches no other note |
| CompleteFeed.CompleteFeedIsTheVisibleNotes | backend-rust/src/notes/service.rs:72-89 | the complete feed lists a note with permission p if and only if the point lookup returns it with p, lists it once, and is in descending order |
| CompleteFeed.ScrollIsScroll | backend-quarkus/src/main/kotlin/app/nanotes/backend/notes/NoteRepository.kt:90-135 | following the cursors from any bound returns all and only the visible notes under it, each item telling its note as stored |
| Paging.QueryAnswersPages | backend-quarkus/src/main/kotlin/app/nanotes/backend/notes/NoteRepository.kt:90-135 | every known cursor is answered with exactly its page: the newest visible rows under it, each with its note's own title, content, owner, permission and publicness, and a next cursor naming the last of them if and only if rows are left |
| Paging.UnknownCursorIsRefused | backend-quarkus/src/main/kotlin/app/nanotes/backend/notes/NoteRepository.kt:90-97 | a cursor that cannot be read is refused as such, and no other cursor is, whatever the tables hold |
| Paging.NewestSelects | backend-quarkus/src/main/kotlin/app/nanotes/backend/notes/NoteRepository.kt:111 | ORDER BY with LIMIT picks rows of the set, as many as there are up to the limit |
| Paging.NewestOrders | backend-quarkus/src/main/kotlin/app/nanotes/backend/notes/NoteRepository.kt:111 | the rows picked descend, and every row cut off is below all of them |
| Paging.BelowIsStrictTotal | backend-quarkus/src/main/kotlin/app/nanotes/backend/notes/NoteRepository.kt:106 | the row-value comparison is a strict total order on (updated_at, id) |
| Paging.RowKeepsItsKey | backend-quarkus/src/main/kotlin/app/nanotes/backend/notes/NoteRepository.kt:113-127 | a mapped row prints the row's own key again and tells its note as stored: title, content, owner, whether it has a public link, and the permission the lookup resolves |
| Schema.StatementsKeepIntegrity | backend-python/app/migrations/0001_init.sql:14-45 | every statement keeps keys, foreign keys, the permission check and unique tokens, never changes an owner and never lowers a version |
| Schema.GuardKeepsOwnersUnshared | backend-rust/src/notes/service.rs:219-224 | the guard against sharing with oneself keeps owners out of their notes' share rows |
| Schema.RunsKeepIntegrity | backend-rust/src/notes/service.rs:212-236 | both hold after any run of statements in which the owner check before each share was made in its own state or any earlier one: by the share the note has the same owner or is gone |
| Schema.OwnersStay | backend-rust/src/notes/service.rs:193-199 | over a run that reuses no id, a note stored at two moments has one owner |
| Schema.StatementsDecideAccess | backend-rust/src/notes/repository.rs:142-160 | a statement decides the access of its own note and user as it says and changes nobody else's |
| Schema.StatementsStayOnTheirNote | backend-python/app/migrations/0001_init.sql:14-45 | a statement leaves the row, the link, the shares and the mentions of every other note, and all users, as they were |
| Schema.StatementsWriteTheirRow | backend-rust/src/notes/repository.rs:59-140 | what each statement leaves of the row and the public link of the note it names |
| Schema.StatementsWriteTheirUser | backend-rust/src/notes/repository.rs:142-160 | what each statement leaves of the shares and mentions of the note it names, user by user |
| Schema.DeleteTakesOneNote | backend-python/app/migrations/0001_init.sql:14-45 | deleting a note leaves nothing about it in any table, and everything about every other note |
| Schema.InsertMentionsRecords | backend-rust/src/notes/repository.rs:350-362 | recording mentions succeeds exactly if the note and all users exist, then has recorded all of them, and touches nothing else |
| Cursor.BytesRoundTrip | backend-quarkus/src/main/kotlin/app/nanotes/backend/notes/Cursor.kt:18-19 | base64url decoding inverts unpadded encoding (sections 4 and 5 of RFC 4648) |
| Cursor.GroupsAreBits | backend-quarkus/src/main/kotlin/app/nanotes/backend/notes/Cursor.kt:18-19 | three bytes become four characters with the same 24 bits, the highest first; a shorter last group is padded with zero bits |
| Cursor.AlphabetIs | backend-quarkus/src/main/kotlin/app/nanotes/backend/notes/Cursor.kt:18 | the characters are those of the URL-safe alphabet, section 5 of RFC 4648 |
| Cursor.DecodesEncodings | backend-quarkus/src/main/kotlin/app/nanotes/backend/notes/Cursor.kt:26-42 | the decoder accepts exactly the texts over the alphabet whose length is not one over a multiple of four, unpadded or padded to a multiple of four |
| Cursor.NoDotInEncoding | backend-quarkus/src/main/kotlin/app/nanotes/backend/notes/Cursor.kt:24 | the separator is outside the alphabet, so the first '.' splits a cursor |
| Cursor.FieldsAreRead | backend-quarkus/src/main/kotlin/app/nanotes/backend/notes/Cursor.kt:21-42 | any two nonempty texts are read back from their fields, the timestamp before the full stop and the id behind it |
| Cursor.CursorRoundTrip | backend-quarkus/src/main/kotlin/app/nanotes/backend/notes/Cursor.kt:21-42 | a cursor decodes to the key it was made from if and only if the id is not empty |
| Cursor.CursorNamesStoredKey | backend-quarkus/src/main/kotlin/app/nanotes/backend/notes/NoteRepository.kt:123-131 | a cursor made from a parsed column names that column's text |
| Timestamps.RoundTrip | backend-quarkus/src/main/kotlin/app/nanotes/backend/db/Timestamps.kt:15-22 | parsing inverts formatting if and only if the year is at least 1 |
| Timestamps.FormatIsSpelled | backend-quarkus/src/main/kotlin/app/nanotes/backend/db/Timestamps.kt:15-18 | in years 1 to 9999 the text has date and time in fixed columns, nine decimals and a Z, and its numbers are those of the instant |
| Timestamps.ResolveIs | backend-quarkus/src/main/kotlin/app/nanotes/backend/db/Timestamps.kt:15-22 | exactly which numbers are read as an instant, and as which: a day past the end of its month counts as its last day, and 24:00 as the end of the day |
| Timestamps.YearsAreWritten | backend-quarkus/src/main/kotlin/app/nanotes/backend/db/Timestamps.kt:15-22 | only years of exactly four digits, or of more with a plus sign, are read |
| Timestamps.OrderEmbedding | backend-quarkus/src/main/kotlin/app/nanotes/backend/db/Timestamps.kt:7-18 | in years 1 to 9999 text order is chronological order, equal texts are equal instants, and all texts are equally long |
| Timestamps.OrderHoldsFromYear1To9999 | backend-quarkus/src/main/kotlin/app/nanotes/backend/db/Timestamps.kt:7-18 | of the ranges of years that meet 1 to 9999, text order is chronological on all instants of the range if and only if the range lies inside |
| Timestamps.YearZeroCollides | backend-quarkus/src/main/kotlin/app/nanotes/backend/db/Timestamps.kt:16 | an instant of year 0 and a later one of year 1 share a text |
| Timestamps.YearTenThousandSortsFirst | backend-quarkus/src/main/kotlin/app/nanotes/backend/db/Timestamps.kt:16 | an instant of year 10000 sorts before an earlier one of year 9999 |
| Calendar.CivilOfIsValid | backend-quarkus/src/main/kotlin/app/nanotes/backend/db/Timestamps.kt:16 | every instant has a valid civil date and time that denotes it |
| Calendar.CivilOfInverts | backend-quarkus/src/main/kotlin/app/nanotes/backend/db/Timestamps.kt:16 | and every valid civil date and time is that of its instant |
| Calendar.ChronologicalOrder | backend-quarkus/src/main/kotlin/app/nanotes/backend/db/Timestamps.kt:16 | instants are ordered as their civil fields are, year first |
| TimeFmt.ParseFormat | backend-rust/src/timefmt.rs:9-17 | parsing inverts printing for years 0 to 9999, whatever the number of decimals |
| TimeFmt.FormatIsSpelled | backend-rust/src/timefmt.rs:9-11 | a whole second is printed without a fraction and any other instant with the fewest of three, six or nine decimals that tell it; the numbers are those of the instant |
| TimeFmt.WideYearIsSpelled | backend-rust/src/timefmt.rs:9-11 | a year outside 0 to 9999 is printed with its sign and at least four digits, and the rest as in any other year |
| TimeFmt.NanosecondsRoundDown | backend-rust/src/timefmt.rs:13-17 | a fraction of any number of digits is read as the whole nanoseconds in it |
| TimeFmt.Reprint | backend-rust/src/timefmt.rs:9-17 | printing a parsed text returns the same text if and only if the year is in 0 to 9999 |
| TimeFmt.TextOrderIsChronological | backend-rust/src/timefmt.rs:1-11 | an earlier instant's text sorts first if and only if the other instant is at least one unit of the earlier one's printed precision later |
| TimeFmt.TextOrder | backend-rust/src/timefmt.rs:1-11 | the text order of any two instants, by their times and printed precisions |
| Repository.NoteRepository.Update | backend-quarkus/src/main/kotlin/app/nanotes/backend/notes/NoteRepository.kt:64-75 | commits exactly if the stored version is the expected one; not-found takes precedence over conflict; a conflict changes nothing and shows the stored note |
| Repository.NoteRepository.Create | backend-quarkus/src/main/kotlin/app/nanotes/backend/notes/NoteRepository.kt:21-32 | a new note starts at version 1; a taken id or an unknown owner changes nothing |
| Repository.NoteRepository.Delete | backend-quarkus/src/main/kotlin/app/nanotes/backend/notes/NoteRepository.kt:77-79 | nothing about a deleted note is left in any table; every other note keeps its row, its link, its shares and its mentions, and every user stays |
| Repository.NoteRepository.InsertOrChangeShare | backend-quarkus/src/main/kotlin/app/nanotes/backend/notes/NoteRepository.kt:164-173 | the new tables of an upsert, and when it fails |
| Repository.NoteRepository.CreatePublicShare | backend-quarkus/src/main/kotlin/app/nanotes/backend/notes/NoteRepository.kt:187-198 | the new tables of a (re)publication, and when it fails |
| Repository.NoteRepository.AddMentions | backend-quarkus/src/main/kotlin/app/nanotes/backend/notes/NoteRepository.kt:220-228 | the loop of inserts stops at the first failing row and keeps the earlier ones |
| Repository.NoteRepository.ListPage | backend-quarkus/src/main/kotlin/app/nanotes/backend/notes/NoteRepository.kt:90-135 | the row-mapping loop and the cut answer as the page function that Paging proves to give each page, with each item telling its note as stored |
| DashboardFeed.NoteFeed.StartLoadMore | frontend-vue/src/composables/useNoteFeed.ts:18-24 | a call while one is in flight, or after the last page, sends nothing; otherwise the current cursor is sent |
| DashboardFeed.NoteFeed.PageArrived | frontend-vue/src/composables/useNoteFeed.ts:24-33 | a page that answers the cursor keeps the items descending and the cursor on the last one; while the tables stand still the feed shows only visible notes, misses none that is not still to come, and at its end is the complete feed |
| DashboardFeed.NoteFeed.RequestFailed | frontend-vue/src/composables/useNoteFeed.ts:28-33 | a failure moves neither cursor nor items nor the end mark |
| DashboardFeed.NoteFeed.LoadMore | frontend-vue/src/composables/useNoteFeed.ts:18-34 | one loadMore against the store: a full page towards the complete feed, or no change |
| DashboardFeed.PageKeepsFeed | frontend-vue/src/composables/useNoteFeed.ts:24-27 | appending a page under the cursor keeps the feed in order, whatever the tables are by then |
| DashboardFeed.PageMissesNone | frontend-vue/src/composables/useNoteFeed.ts:24-27 | every visible note stays shown or under the new cursor |
| UpdateProtocol.StepKeepsVersions | backend-rust/src/notes/service.rs:91-183 | every step of any call, of any interleaving, keeps the invariant that ties versions, histories, snapshots and answers together |
| UpdateTheorems.VersionCountsCommits | backend-rust/src/notes/repository.rs:104-127 | a stored note's version is one plus its committed edits, it holds the title and body the last one stored, and the k-th edit expected version k |
| UpdateTheorems.OneCommitPerVersion | backend-rust/src/notes/repository.rs:104-127 | of all updates of a note expecting one version at most one commits |
| UpdateTheorems.UpdatedIsAhead | backend-rust/src/notes/service.rs:126-145 | a successful update has put exactly its title and body into the history right after the version it expected, and answers with that or a later version as it was stored |
| UpdateTheorems.ConflictIsAhead | backend-rust/src/notes/service.rs:126-139 | a conflict shows a version newer than the one sent, for clients that send a version they were given |
| UpdateTheorems.RevisionsStay | backend-rust/src/notes/repository.rs:104-127 | a committed revision keeps its place and body for the rest of the run |
| UpdateTheorems.ToggleTransformsPredecessor | frontend-react/src/components/NoteCard.tsx:60-75 | every committed checkbox toggle stored exactly the version just before it with its box set: same title, toggled body |
| UpdateTheorems.ToggledNoteIsTheFold | frontend-react/src/components/NoteCard.tsx:60-75 | a note edited by toggles only keeps its title and holds its first body with the committed toggles applied in version order |
| UpdateTheorems.OrderIsIrrelevant | frontend-react/src/utils/taskList.ts:80-91 | toggles of distinct boxes give one body in any order |
| UpdateTheorems.LastTickShows | frontend-react/src/utils/taskList.ts:80-91 | no toggle is lost: a box shows the last state it was set to |
| Guards.PermitRefusesReaders | backend-rust/src/notes/service.rs:110-125 | a share row that says read ends the update Forbidden and no share row ends it NotFound, with tables, history and mails unchanged; otherwise the update goes on |
| Guards.OnlyEditorsEdit | backend-rust/src/notes/service.rs:110-145 | over every run from the empty tables, each committed edit is by the note's creator or by a user whom some share statement of the run gave edit permission |
| Guards.OnlyViewersToggle | frontend-react/src/components/NoteCard.tsx:60-75 | over every run, a toggle is sent only for creators and users some share statement of the run names |
| Guards.TitlesAreNeverEmpty | backend-rust/src/notes/service.rs:91-145 | over every run, no version of any note has an empty title |
| Guards.StepIsGuarded | backend-rust/src/notes/service.rs:91-183 | every step of any interleaving keeps the checks in force |
| GivenVersions.AnsweredVersionsMayBeSent | backend-rust/src/notes/service.rs:126-145 | over every run, a client answered with a note, saved or in conflict, counts as given that version, and may send its next update with it |
| Uninterrupted.UpdateAlone | backend-rust/src/notes/service.rs:110-183 | an update that nobody interrupts, stepped statement by statement to its end, is answered and changes tables and mails exactly as the plain service promises |
| Uninterrupted.CreateAlone | backend-rust/src/notes/service.rs:91-108 | the same for a create: one note at version 1 with the texts given, its mentions, and mails only if it is saved |
| Uninterrupted.ToggleAlone | frontend-react/src/components/NoteCard.tsx:60-75 | a click that nobody interrupts is an update that toggles the stored body, for anybody who may see the note, and NotFound for anybody else |
| Uninterrupted.AloneIsARun | backend-rust/src/notes/service.rs:91-183 | a call left alone is a run of the interleaved protocol in which only it takes steps, and it comes to an end |
| MentionMail.StepKeepsMail | backend-rust/src/notes/service.rs:147-183 | every step keeps the invariant on recorded mentions and mails |
| MentionMail.SavedMailsTheNewlyMentioned | backend-rust/src/notes/service.rs:147-183 | a finished save has recorded all its mentions and mailed exactly those not in its snapshot, the actor excepted, in order |
| MentionMail.RefusedMailsNobody | backend-rust/src/notes/service.rs:126-145 | a conflict, a refusal or a failed mention insert has mailed nobody |
| MentionMail.MailedWereRecorded | backend-rust/src/notes/service.rs:160-181 | at every moment whoever has been mailed was already recorded as mentioned, is a user, was named by the call, and is not its actor |
| MentionMail.NoUnknownUserIsSkipped | backend-rust/src/notes/service.rs:169-172 | the mail loop never meets an unknown user |
| Snapshots.StepKeepsRecord | backend-rust/src/notes/repository.rs:339-362 | every step keeps the mention table, the record of inserts and the snapshots together: a snapshot holds exactly the users recorded before it was taken |
| Snapshots.SavedMailsTheUnrecorded | backend-rust/src/notes/service.rs:124-183 | over every interleaving a finished save has mailed exactly the users it names, its actor excepted, that had not been recorded when its snapshot was taken |
| Snapshots.TwoMailsExactly | backend-rust/src/notes/service.rs:124-183 | once all saves are finished, a user has two mails about a note if and only if two saves of it name the user, neither is by the user, and both took their snapshot before the user was recorded |
| MailOnce.OneMailPerUserAndNote | backend-rust/src/notes/service.rs:91-183 | if the saves of each note take turns from snapshot to last record, and mention lists have no repetition, no user is mailed twice about a note, unfinished and broken saves included |
| MailOnce.OverlappingSavesMailTwice | backend-rust/src/notes/service.rs:124-143 | a run of two overlapping saves that mails one user twice about one note |
| Service.NoteService.List | backend-quarkus/src/main/kotlin/app/nanotes/backend/notes/NoteService.kt:39-44 | for a viewer any limit, twelve if it is not positive, and every known cursor, is answered with exactly its page, items telling their notes as stored; an unknown cursor is refused; anybody else gets the sample note |
| Service.NoteService.Get | backend-rust/src/notes/service.rs:72-89 | answers with a permission if and only if the viewer has one; a missing share looks like a missing note |
| Service.NoteService.NotifyMentions | backend-rust/src/notes/service.rs:147-183 | records first; mails exactly the newly mentioned, or nobody if a row or the actor is missing |
| Service.NoteService.Create | backend-rust/src/notes/service.rs:91-108 | the answer, the tables and the mails of a create; a note is stored even if its mentions then fail |
| Service.NoteService.Update | backend-rust/src/notes/service.rs:110-145 | exactly which answer is given when; the tables change exactly if the version is current and the actor may edit, and only a save that goes through mails |
| Service.NoteService.ShareWithUser | backend-rust/src/notes/service.rs:212-236 | which refusal is given when; a share gives exactly that user exactly that permission, changes nobody else's access, mails the user, and keeps integrity and owners unshared |
| Service.NoteService.RevokeShare | backend-rust/src/notes/service.rs:259-269 | exactly an owner's existing share is taken back and no other row of any table changes; that user has no access left and nobody else's changes |
| Service.NoteService.CreatePublicShare | backend-rust/src/notes/service.rs:271-280 | which refusal is given when; only this note's token changes, publishing again leaves the old token to no note, and no two notes share one |
| Service.NoteService.RevokePublicShare | backend-rust/src/notes/service.rs:282-291 | exactly an owner's existing link is taken back, and no other row of any table changes |
| Service.NoteService.Delete | backend-rust/src/notes/service.rs:185-191 | missing and forbidden are told apart; afterwards nothing about the note is stored and nobody has access to it, while every other note keeps its row, link, shares and mentions, and everybody the access to it they had |
| Service.NoteCard.Click | frontend-react/src/components/NoteCard.tsx:60-62 | the optimistic body has the clicked box as asked and as many boxes as before; what was shown is kept for the rollback |
| Service.NoteCard.ToggleTask | frontend-react/src/components/NoteCard.tsx:60-75 | the toggle is saved exactly if the actor may edit the note, its title is not empty and everybody its toggled body mentions is a user; then the card shows what is stored, else what it showed before, and the tables are as they were unless only the mentions failed |
| TaskList.ScanIsTheMatch | frontend-react/src/utils/taskList.ts:12 | the line scanner finds a decomposition if and only if the pattern allows it, so the match is unique |
| TaskList.RewritesScan | frontend-react/src/utils/taskList.ts:34-38 | a rewritten task line is a task line and no fence, as it was before |
| TaskList.RenderedLineIs | frontend-react/src/utils/taskList.ts:25-41 | for every document: after normalising, each unfenced task line has the marker "- " if it had none and else its own, the mark "x" if it was "x" or "X" and else " ", and its indent, space and rest unchanged; no other line changes |
| TaskList.RenderedTextIs | frontend-react/src/utils/taskList.ts:34-38 | the same as text: the exact line written for every spelling the pattern allows |
| TaskList.ToggledLineIs | frontend-react/src/utils/taskList.ts:80-91 | a toggle writes "x" or " " into the box with as many task lines before it as the index says, changes no other group of that line, and no other line |
| TaskList.TasksAreOutsideFences | frontend-react/src/utils/taskList.ts:50-62 | a line has a check box if and only if it matches the pattern and an even number of fences precede it |
| TaskList.FencesAlternate | frontend-react/src/utils/taskList.ts:27-33 | a line is inside a fenced block if and only if an odd number of fences precede it |
| TaskList.RanksCount | frontend-react/src/utils/taskList.ts:43-63 | a box is numbered by the task lines before its own |
| TaskList.FenceIs | frontend-react/src/utils/taskList.ts:13 | a fence is white space, then three back quotes or three tildes, then anything |
| TaskList.ClassesAre | frontend-react/src/utils/taskList.ts:12-13 | the character classes of the patterns, spelled out |
| TaskList.RenderingCommutesWithToggling | frontend-react/src/utils/taskList.ts:25-91 | normalising after a toggle is toggling after normalising, for every document, index and state |
| TaskList.NormalizingIsIdempotent | frontend-react/src/utils/taskList.ts:25-41 | a second normalisation changes nothing |
| TaskList.RewritesKeepStructure | frontend-react/src/utils/taskList.ts:25-91 | neither rewrite changes the number of boxes or lines or which lines are fenced, and normalising keeps every box's state |
| TaskList.ToggleIsRead | frontend-react/src/utils/taskList.ts:80-91 | after a toggle its box reads as asked, every other box as before, and at most its own line differs |
| TaskList.TogglesCompose | frontend-react/src/utils/taskList.ts:80-91 | toggles of different boxes commute and the later toggle of one box wins |
| TaskList.OutOfRangeToggleChangesNothing | frontend-react/src/utils/taskList.ts:74-91 | an index without a box returns the input |
| TaskList.NormalizeTaskLines | frontend-react/src/utils/taskList.ts:25-41 | the loop with its fence flag computes the normalisation that RenderedLineIs spells out |
| TaskList.ForEachTaskLine | frontend-react/src/utils/taskList.ts:45-63 | visits the task lines outside fences in document order, each with its rank as index, and all of them |
| TaskList.CountTaskItems | frontend-react/src/utils/taskList.ts:66-72 | counts the rendered boxes |
| TaskList.SetTaskItemChecked | frontend-react/src/utils/taskList.ts:80-91 | the callback loop computes the toggle that ToggledLineIs spells out |
| Text.JoinSplit | frontend-react/src/utils/taskList.ts:26-40 | joining the lines of a text gives the text |
| Text.SplitJoin | frontend-react/src/utils/taskList.ts:26-40 | lines without a newline survive joining and splitting |
| SqlText.SplitStatementsKotlin | backend-quarkus/src/main/kotlin/app/nanotes/backend/db/Migrator.kt:77-107 | the loop that skips to the end of a comment computes the statements of the three-mode lexer |
| SqlText.SplitStatementsGo | backend-go/internal/db/db.go:177-200 | the loop without comments computes the statements of the lexer without its comment mode |
| SqlText.PiecesRebuildTheText | backend-quarkus/src/main/kotlin/app/nanotes/backend/db/Migrator.kt:77-107 | the untrimmed pieces with ';' between them are the input |
| SqlText.PiecesAreWhole | backend-quarkus/src/main/kotlin/app/nanotes/backend/db/Migrator.kt:69-76 | no piece holds a top-level ';': split again it is one piece |
| SqlText.SplittersCutAlike | backend-go/internal/db/db.go:173-200 | the splitters cut alike if and only if no ';' follows an odd number of apostrophes in comments, or stands in a comment after an even number of apostrophes |
| SqlText.QuietCommentsAreHarmless | backend-go/internal/db/db.go:173-200 | comments without apostrophes and ';', and texts without comments, never mislead the splitter without comments |
| SqlText.CommentsAre | backend-quarkus/src/main/kotlin/app/nanotes/backend/db/Migrator.kt:82-92 | the comments are exactly the stretches from two hyphens in code to the end of the line |
| SqlText.SplitRejoinSplit | backend-quarkus/src/main/kotlin/app/nanotes/backend/db/Migrator.kt:77-107 | the statements joined with newline and ';' split to the same statements |
| SqlText.SplittersAgree | backend-go/internal/db/db.go:173-200 | where they cut alike the splitters keep the same statements if and only if no piece, its common white space trimmed, begins or ends with a character only one of them trims |
| SqlText.ApostropheInAComment | backend-go/internal/db/db.go:177-200 | an apostrophe in a comment makes the splitter without comments miss a ';' |
| SqlText.DisputedSeparator | backend-go/internal/db/db.go:177-200 | a text without comments on which the two keep different statements |
| Placeholders.ToDollarPlaceholders | backend-rust/src/db/rebind.rs:13-35 | the peeking loop keeps the length and replaces exactly the '?' before a digit outside string literals |
| Placeholders.RewritingIsIdempotent | backend-rust/src/db/rebind.rs:13-35 | a second rewriting changes nothing |
| Placeholders.MirrorInverts | backend-rust/src/db/rebind.rs:4-12 | the mirror rewriting gives the query back if and only if it had no "$" placeholder outside literals |
| Placeholders.Rebind | backend-go/internal/db/rebind.go:35-58 | the counting loop computes the rewriting that PlaceholdersAreNumbered spells out; other engines' queries are unchanged |
| Placeholders.PlaceholdersAreNumbered | backend-go/internal/db/rebind.go:40-56 | the k-th "?" outside string literals becomes "$" and digits that read back as k without a leading zero; every other character is copied |
| Placeholders.ItoaDenotes | backend-go/internal/db/rebind.go:52 | the digits printed for a number read back as it, without a leading zero |
| Placeholders.NumeralIsItoa | backend-go/internal/db/rebind.go:52 | a number has one such numeral |
| Placeholders.RewritersAgree | backend-go/internal/db/rebind.go:29-58 | counting the unnumbered query equals rewriting the numbered one if and only if its placeholders carry the numerals of 1, 2, 3 in order |
| Placeholders.EscapeSqliteUriPath | backend-go/internal/db/rebind.go:12-27 | the one-pass loop escapes so that no '#' or '?' is left and percent-decoding gives the path back |
| Placeholders.EscapeIsThreeReplacements | backend-go/internal/db/rebind.go:5-11 | one pass equals three successive whole-string replacements with '%' first |
| Placeholders.DecodeRecoversThePath | backend-go/internal/db/rebind.go:12-27 | percent-decoding (section 2.1 of RFC 3986) recovers every path |
| Placeholders.DistinctPathsStayDistinct | backend-go/internal/db/rebind.go:5-11 | distinct paths escape to distinct texts |
| Placeholders.PercentMustComeFirst | backend-go/internal/db/rebind.go:10-11 | with '%' escaped last the result is right if and only if the path has no '#' and no '?' |
| Mentions.ExtractMentionedUserIds | frontend-react/src/utils/mentions.ts:9-15 | the loop lists every id read by the pattern exactly once and no other; an id is listed after those that appear before it |
| Mentions.DedupKeepsOrder | frontend-react/src/utils/mentions.ts:10-14 | the list follows the order of first appearance |
| Mentions.HitsAreSpelled | frontend-react/src/utils/mentions.ts:6 | a match starts exactly where the text spells @[name](id), the name without a ']', the id without a ')', neither empty; it yields that id and ends there |
| Mentions.FirstMentionIsRead | frontend-react/src/utils/mentions.ts:9-15 | reading takes the first such place and goes on behind it |
| Mentions.NoMentionIsRead | frontend-react/src/utils/mentions.ts:9-15 | and reads nothing where there is none |
| Mentions.FindMentionQuery | frontend-react/src/utils/mentions.ts:28-35 | finds the query exactly when the text up to the cursor ends in '@', at its start or after white space, and at most 32 user-name characters; start and end are the places of the '@' and of the cursor |
| Mentions.InsertedMentionIsRead | frontend-react/src/utils/mentions.ts:37-41 | completing a mention adds exactly its user between the mentions read before and after it, if and only if the display name has no ']' and no earlier mention lacks its closing parenthesis; with a ']' the token mentions nobody |
| Mentions.InsertedMentionIsExtracted | frontend-react/src/utils/mentions.ts:9-41 | the extracted list is then the de-duplicated earlier ids, the new one unless its name has a ']', and the later ones |
| Migrations.MigrationsAreAPrefix | backend-rust/src/db/mod.rs:116-155 | over every run of crashes, restarts and concurrent processes the migrations executed are a prefix of the list, each once and in order, exactly they are recorded, and a finished process leaves its release applied |
| Migrations.StartedRunnerFinishes | backend-rust/src/db/mod.rs:116-155 | a process that nothing disturbs runs what is missing of its release, and all of it |
| Migrations.CrashedRunnerIsResumed | backend-rust/src/db/mod.rs:116-155 | a process that crashes, wherever it was, can be started again and then finishes the release |
| Migrations.StepKeepsPrefix | backend-rust/src/db/sqlite.rs:136-149 | every check, transaction, start and crash keeps that |
| Migrations.ExtensionCondition | backend-rust/src/db/mod.rs:125-130 | a release that keeps the old files extends the old list if and only if every new name sorts after every old one |
| Migrations.Database.RunMigration | backend-rust/src/db/sqlite.rs:136-149 | the script and its record, or neither |
| Migrations.Database.Migrate | backend-rust/src/db/mod.rs:116-155 | the loop resumes where the last process stopped and stops exactly before the failing file |
| LoginRequests.StepKeepsStore | backend-python/app/auth/store.py:75-110 | every step of every create and consume keeps the store's invariant |
| LoginRequests.GrantedOnceInTime | backend-python/app/auth/store.py:94-110 | over every interleaving a state is returned at most once, with the verifier and redirect it was created with, and never more than ten minutes after the clock reading it was created with |
| LoginRequests.RefusedForCause | backend-python/app/auth/store.py:75-101 | a consume finds no row only for an unknown or a used state, or more than ten minutes after its creation, so no sweep takes a usable one |
| LoginRequests.TakenIsGrantedIfInTime | backend-python/app/auth/store.py:104-110 | a consume that has its row is granted if and only if no more than ten minutes have passed |
| LoginRequests.LoginAlone | backend-python/app/auth/store.py:75-110 | a login that nothing disturbs runs to its end and is granted its own verifier and redirect if and only if it is back within ten minutes |
| LoginRequests.RequestsStartWithTheirLogin | backend-python/app/auth/store.py:75-92 | over every interleaving, a request carries the redirect of a login begun in the run, and its ten minutes run from the clock reading that login began with |
| LoginRequests.SweepRemovesTheExpired | backend-python/app/auth/store.py:79-81 | the sweep, comparing text, removes exactly the rows that expired before the time it was given |
| LoginRequests.AuthStore.ConsumeOidcRequest | backend-python/app/auth/store.py:94-110 | the row is gone whatever the answer; the request is returned exactly up to its expiry |
| LoginRequests.AuthStore.LogIn | backend-python/app/api/routes_auth.py:63-75 | a login gets its own request back exactly if it returns within ten minutes, and nothing the second time |
| LoginRequests.AuthStore.CreateOidcRequest | backend-python/app/auth/store.py:75-92 | no unexpired request is lost and every expired one is gone; the new request is late exactly after ten minutes |
| PythonTime.IsoOrder | backend-python/app/timeutil.py:16-19 | the text order of printed datetimes is chronological |
| PythonTime.IsoRoundTrip | backend-python/app/timeutil.py:16-25 | reading gives back every datetime printed |
| PythonTime.IsoIsSpelled | backend-python/app/timeutil.py:16-19 | the text has date and time in fixed columns, six decimals and a Z, and its numbers are those of the instant |

## Left out

- FeedTheorems.ScrollEnds: the bound counts the notes being created at the first query together with those stored, because a create reads the clock before its insert is visible.
- FeedProtocol.FeedNeverRepeats: assumes a clock that does not go back, years 1 to 9999, ids never used twice, and clients that send a version they were given.
- Cursor.CursorRoundTrip: ids are ASCII (generated UUIDs are); UTF-8 encoding of other characters and malformed byte sequences are not modelled.
- Timestamps.RoundTrip: instants have no end here; Java's end with year 1,000,000,000 and its year field with 999,999,999.
- TimeFmt.ParseFormat: the reader is modelled for the texts the printer writes; offsets other than `Z`, lower-case letters and leap seconds, which chrono also accepts, are not.
- PythonTime.IsoRoundTrip: the reader is modelled for the six-decimal form the printer writes only.
- Mentions.InsertedMentionIsRead: not for empty display names, nor for those with a ']' and also a '(' or '@', where the text behind the ']' may spell a mention of its own; nor for ids with ')' or '@', which user ids do not have.
- UpdateTheorems.ConflictIsAhead: says nothing for a client that invents a version; such a client may be shown an older one.
- MailOnce.OneMailPerUserAndNote: taking turns is enough but not needed; what is needed, user by user, is stated by TwoMailsExactly.
- SqlText.SplittersAgree: says nothing of texts the two cut differently, where the lists of statements could still coincide.
- Service.NoteService.Update: one call without interruption; its interleavings are UpdateProtocol's, joined to it by Uninterrupted.UpdateAlone.
- Migrations.Database.Migrate: takes the sorted file list; the sort itself is the library's. PostgreSQL's run of single statements in one transaction has the same effect as the batch modelled.
- The Rust cursor (JSON inside base64) and the Rust page query: the same query over a text order that is not chronological, so nothing is claimed for it while others write.
- Characters are Unicode scalar values; JavaScript's and Java's UTF-16 code units and Go's bytes are not distinguished, since every character the lexers look at is ASCII or white space.
- Columns no property depends on: creation times, avatars, the public flag's effect on a note's answer, permissions attached to an update's answer.
- Deleting users, changing their names, and revoking a permission between its check and the write.
- Mail delivery: a mail is an entry in a log; a mailer's failure is not reported by the source either.
- Fresh ids, tokens and states: assumed, with nothing proved about randomness.
- The integer width of versions (64 bits in SQLite and Rust, 32 in Kotlin): no note reaches it.
- HTTP routes, cookies, CORS, OIDC discovery and token checks, rendering, configuration and user search.
- The React feed hook, which captures its end mark in a closure: the Vue composable is modelled.
- Python's migration runner, which commits a script before recording it, and the other backends' consume, where select and delete are two statements.
