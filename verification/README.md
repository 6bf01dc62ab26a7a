# A verified model of the blog platform's stateful core

The platform keeps its guarantees in tables: an outbox relayed by several workers, articles
whose bodies live in an object store, credentials that may be used once, an engagement log
with projections, a migration history. This project models those tables, the statements and
services that change them, and the two text algorithms behind them (the Markdown heading
index and the page cursor), and proves what they keep over every run.

## How it is modelled

Each component has one module.

| module | what it holds |
|---|---|
| `Outbox` | the `outbox_events` rows, the drain, and the relay of any number of workers that claim, deliver, commit or crash |
| `Keyset` | the paging scheme: a page as the first rows after a cursor, and scans over a set that changes between fetches |
| `Content`, `Articles` | the article tables with their constraints, the object store, edits split into put and commit |
| `Feed`, `Comments`, `Catalog` | the three listings that page by keys, over their own tables and runs |
| `RefreshTokens`, `Otp`, `AdminLogin` | the three credential state machines |
| `Engagement` | the dedupe claims, the log, the recent-views projection, and the merge on sign-in |
| `Migrator` | discovery, the history check, and concurrent runners |
| `Slug`, `Headings`, `Cursor` | slugs and keys, the heading index, and base64url cursors |

The same pattern recurs. Code that changes rows is a method of a class holding the table; its
contract equates the new table with a function of the old one. A run is a sequence of labelled
steps, each enabled where the system may take it, and a step uses those same functions. The
main results are lemmas over every valid run. A transaction is one step that commits everything
or nothing; where the source leaves a transaction on purpose, so that a record survives a
refusal, the step keeps that record; where one use case takes two transactions, or acts outside
the database, it is several steps and other calls run in between.

## Assumptions

- Constraints are those of the migrations (`src/blogs/database/migrations/`), under the errors
  the repositories translate them into (`src/blogs/repository/base.py:30-82`). Checks that the
  request contracts already imply, such as non-blank titles, are left to them.
- Time is an integer clock that never goes back. Columns filled by a database default follow
  it too. Ids and newly minted secrets are fresh.
- SHA-256 is an injective constructor. A secret is represented by its digest, an object key by
  its two parts, an address by its normalised form.
- Transactions are atomic. A random delay is any delay under its ceiling; a delivery, a parse,
  a password check and a provider call may go any way they can.
- Parsing a Markdown source into a body, tokens and metadata is a parameter. Lines are split
  where the token stream's line numbers say, and heading lines do not go back.
- `Engagement.Event.writtenBy`, `Engagement.Merge` and the difference between a refused and a
  rejected admin attempt are bookkeeping for the statements of theorems; no query reads them.

## Where the code differs from its documentation

- `src/blogs/services/blog_service.py:308-312` says the bytes never change under a given hash.
  The hash covers the body only, so an edit with the same text under new frontmatter overwrites
  the live object, even when it is refused afterwards (`Articles.RefusedEditChangesServedBytes`).
  An edit to another text and back to the first under other frontmatter does it too, though
  neither put touches what is served at the time (`Articles.EditingAwayAndBackChangesServedBytes`).
  The exact condition for any stretch of any run with one hash at both ends is that the last
  source put for the article with that body differs from the bytes served before
  (`Articles.ServedUnderSameHash`); from one step to the next it is that such a put starts
  (`Articles.ServedBytesChangeExactly`). Hash, word count and sections still agree with what is
  served.
- `src/blogs/contracts/blog.py:143-157` lets a patch give any status. The statement sets no archive
  time, so status archived is refused unless the article was archived before
  (`Articles.ArchivingByEditIsRefused` is an input); the same goes for a position without a series
  (`Articles.CommitsExactly` has the exact condition).
- `src/blogs/api/routers/admin_blogs.py:128-140` offers the listing of drafts. It fails, rather than
  pages, when the page would end with an article that was never published: the exact condition
  is in `Feed.List`, an input in `Feed.TwoDraftsBreakListing`. The public feed never does.
- `src/blogs/database/migrator.py:82` says a gap in the numbering is fine. A file that later
  fills the gap is executed after higher versions (`Migrator.LateFileRunsLast`); order is kept
  exactly when every pending version is above all recorded ones.
- `src/blogs/adapters/markdown/parser.py:158-159` counts repeats of a base only. Headings whose
  slugs are "a", "a" and "a-2" share an anchor (`Headings.RepeatMeetsSuffix`), and the later
  section wins in the table (`Articles.SharedAnchorKeepsLater`). Anchors are distinct, and all
  sections stored, exactly when no base is the suffixed form another heading takes.
- `src/blogs/repository/content.py:257-261` says paging cannot skip or repeat a row. That holds
  for articles and, by the same scheme, for comments, whose keys are immutable. The catalogues
  page alike, but an item that is removed and saved again can be skipped, and exactly when it is
  overtaken (`Catalog.ItemMissedExactlyWhenOvertaken`).
- A relayed event that is due at this very instant, rather than overdue, can be passed by events
  with lower ids: by a batch that fails with zero delays, under any settings that retry
  (`Outbox.DueNowCanBePassed`), or under any settings by events staged at that instant. Ids sort
  in creation order within a process (`src/blogs/core/ids.py`), so the second takes two writers in
  the same instant (`Outbox.DueNowCanBePassedByNewcomers`). The event with the lowest id, now and
  among those staged later, cannot be passed (`Outbox.OverdueEventIsClaimed`).

## Model

| member | source | states |
|---|---|---|
| Outbox.RelaySafety | src/blogs/workers/outbox.py:117-156 | over every interleaving of workers and crashes: no event is held twice, attempts equals its committed failures, it is dead exactly at the limit, published only after a delivery, and delivered at most once more than its drains rolled back |
| Outbox.SettledIsFinal | src/blogs/repository/outbox.py:62-71 | no run changes any column of a published or dead row again |
| Outbox.CommitUsesTries | src/blogs/workers/outbox.py:134-152 | a committed drain uses up at least one remaining try per event it held |
| Outbox.DrainsAreBounded | src/blogs/workers/outbox.py:117-156 | with no new events every committed drain, whatever fails or crashes in between, is paid for by a try left at the start |
| Outbox.EnoughDrainsSettleAll | src/blogs/workers/outbox.py:117-156 | so a run without new events that commits as many drains as there were tries left ends with every event published or dead |
| Outbox.StuckExactlyWhenSettled | src/blogs/repository/outbox.py:62-71 | a relay without open drains can never claim again exactly when every event is published or dead |
| Outbox.DrainsToTheEnd | src/blogs/workers/outbox.py:76-90 | from every such state some run without new events ends with every event published or dead |
| Outbox.PendingCanBeClaimed | src/blogs/repository/outbox.py:29-71 | while any staged or failed event is pending and no drain is open, waiting makes some batch claimable |
| Outbox.NoTriesLeftMeansDrained | src/blogs/workers/outbox.py:135 | no tries are left exactly when every event is published or dead |
| Outbox.CommitShortensQueue | src/blogs/repository/outbox.py:66-68 | a committed drain of a lone worker takes a full batch from the events ahead of one that waits |
| Outbox.OverdueEventIsClaimed | src/blogs/repository/outbox.py:62-71 | with one worker an event that is overdue, or just due with the lowest id, and has r pending events ahead is claimed within r / limit + 1 committed drains begun since, plus the one that may be open at the start, whatever crashes |
| Outbox.DueNowCanBePassed | src/blogs/workers/outbox.py:50-52 | under any settings that retry, the same fails for an event that is just due with lower ids pending: a batch of them that fails with zero delays passes it |
| Outbox.DueNowCanBePassedByNewcomers | src/blogs/repository/outbox.py:66-68 | and under any settings at all, events staged at that instant with lower ids pass it |
| Outbox.BackoffDoublesThenCaps | src/blogs/workers/outbox.py:46-52 | the retry ceiling starts at two seconds, doubles, and stays at ten minutes from the tenth failure on |
| Outbox.OutboxTable.Claim | src/blogs/repository/outbox.py:62-75 | the earliest due pending rows nobody holds, at most the limit, in order of time and id |
| Outbox.OutboxTable.MarkPublished | src/blogs/repository/outbox.py:77-87 | the named rows and no others become published with the error cleared, and how many there were |
| Outbox.OutboxTable.MarkFailed | src/blogs/repository/outbox.py:89-109 | one more attempt, a truncated error, the next time, and dead or pending again; an unknown id changes nothing |
| Outbox.OutboxTable.Attempt | src/blogs/workers/outbox.py:129-141 | a failed delivery is recorded at once, with the drawn delay counted from the drain's time as its next attempt, and touches no other row; a success changes nothing yet |
| Outbox.OutboxTable.Drain | src/blogs/workers/outbox.py:117-156 | a whole drain publishes what it delivered, puts each failure off by the delay drawn for it, within its ceiling, with one more attempt and a cut error, dead at the last, leaves all other rows alone and reports how many succeeded |
| Outbox.CommitMeans | src/blogs/workers/outbox.py:122-152 | every committed drain of any relay run does exactly that, row by row |
| Outbox.SettleMeans | src/blogs/repository/outbox.py:77-109 | settling a batch gives each row of it the columns its outcome calls for and changes no other |
| Outbox.DrainIsARun | src/blogs/workers/outbox.py:117-156 | the whole-drain method is one of the relay's runs |
| Keyset.FetchPage | src/blogs/repository/content.py:303-317 | the limit + 1 query gives the first rows after the cursor, whether more follow, and the cursor of the last |
| Keyset.PageIsDetermined | src/blogs/repository/content.py:290-301 | rows, cursor and limit determine the page |
| Keyset.ScanDescends | src/blogs/repository/content.py:284-313 | however the table changes between fetches, a scan descends strictly |
| Keyset.ScanMissesNothing | src/blogs/repository/content.py:284-313 | a key present at every fetch is returned |
| Keyset.ScanInventsNothing | src/blogs/repository/content.py:284-313 | every key returned was present at the fetch that returned it |
| Keyset.MissedMeansGone | src/blogs/repository/content.py:284-313 | a key is missed only if it is absent at a fetch that starts above it |
| Keyset.ScanRepeatsNoRow | src/blogs/repository/content.py:257-261 | if keys only move forward in time no row is returned twice, not even under a new key |
| Keyset.QuietScanIsOneBigPage | src/blogs/repository/content.py:252-317 | over an unchanged table paging equals sorting everything and returning it once |
| Feed.List | src/blogs/repository/content.py:252-317 | adding one clause after another gives the page over exactly the rows that match the whole filter, those never published first; it fails exactly when the page would end with one of them and more follow |
| Feed.PublishedListingIsByKeys | src/blogs/repository/content.py:252-317 | while published articles are dated the public feed never fails and lists by keys alone |
| Feed.TwoDraftsBreakListing | src/blogs/repository/content.py:308-312 | a run that adds two drafts, after which the listing of drafts by pages of one fails |
| Feed.FeedScanIsExact | src/blogs/repository/content.py:252-317 | with any publishing, editing and archiving between fetches of the public feed: no fetch fails, descending order, no article twice, all that matched throughout, only ones that matched at their fetch |
| Feed.PublishedIsListedAtOnce | src/blogs/services/blog_service.py:121-144 | an article published as such is in the feed, in those of its categories and in that of its series as soon as it commits |
| Feed.ArchivedLeavesFeed | src/blogs/repository/content.py:242-250 | archiving gives status and time and takes that article, and no other, out of every public feed |
| Feed.FilterMeans | src/blogs/repository/content.py:262-276 | the listed rows are those that pass every clause, dated or not |
| Feed.RunKeepsDates | src/blogs/repository/content.py:208-210 | articles are never removed and a publication time once set never changes |
| Comments.CommentTable.Run | src/blogs/repository/interaction.py:65-141 | each comment statement either changes its one row or is refused by the first check, index or foreign key in the way and changes nothing |
| Comments.StatementMeans | src/blogs/repository/interaction.py:65-141 | when each statement goes through, owner and admin tests included, and the one row it writes |
| Comments.BodyFitsExactly | src/blogs/database/migrations/003_interaction.sql:13-14 | a body fits exactly if 1 to 10000 characters are left between the blanks at its ends |
| Comments.BlankBodyDoesNotFit | src/blogs/database/migrations/003_interaction.sql:13-14 | a body of blanks only is refused, however long |
| Comments.CommentTable.RepliesTo | src/blogs/repository/interaction.py:170-177 | the live replies to a set of roots, all of them, once, oldest first |
| Comments.CommentTable.GroupByParent | src/blogs/repository/interaction.py:178-180 | every parent gets its own replies in the order they came |
| Comments.UnderKeepsOrder | src/blogs/repository/interaction.py:178-187 | grouping keeps order and loses, adds and misfiles no reply |
| Comments.CommentTable.ThreadsFor | src/blogs/repository/interaction.py:168-188 | every root of the page carries exactly its live replies, oldest first |
| Comments.CommentTable.ListThreads | src/blogs/repository/interaction.py:143-197 | a page of live roots in key order with their exact threads; nothing for a zero limit |
| Comments.ThreadPageMeans | src/blogs/repository/interaction.py:143-197 | a page shows live roots of the article, newest first, each with exactly its live replies, oldest first, and the cursor of the last root |
| Comments.ThreadsAreFlatAndRootsUnique | src/blogs/database/migrations/003_interaction.sql:22-56 | in every reachable table threads are one level deep within one article and a user has at most one live root on it |
| Comments.TraceKeeps | src/blogs/repository/interaction.py:114-141 | comments stay, keep place and creation time, and deletion is final |
| Comments.ThreadScanIsExact | src/blogs/repository/interaction.py:143-197 | with comments coming and going between fetches: newest first, no root twice, all that are live at both ends, each live when returned |
| Catalog.CatalogTable.AddItem | src/blogs/repository/interaction.py:378-398 | saving again keeps the time and replaces the note only by a given one |
| Catalog.SaveMeans | src/blogs/repository/interaction.py:382-390 | a first save takes time and note, a later one only a given note |
| Catalog.ListingMeans | src/blogs/repository/interaction.py:409-424 | a catalogue's listing has each of its articles once, under the time it was saved |
| Catalog.RemovedItemLeavesListing | src/blogs/repository/interaction.py:400-404 | removing an item takes its key and no other out of its catalogue's listing |
| Catalog.SavingAgainKeepsKey | src/blogs/repository/interaction.py:382-390 | saving in place keeps the key, removing first gives a new one, and removing a first save undoes it |
| Catalog.CatalogTable.ListItems | src/blogs/repository/interaction.py:406-446 | the page over exactly the catalogue's items |
| Catalog.ItemScanRepeatsNothing | src/blogs/repository/interaction.py:406-446 | no item is returned twice, even if it is removed and saved again meanwhile |
| Catalog.ReturnedUnderFirstKey | src/blogs/repository/interaction.py:410-415 | an item saved throughout is only returned under the key it had at the first fetch, or one given at that very instant |
| Catalog.ItemMissedExactlyWhenOvertaken | src/blogs/repository/interaction.py:406-446 | an item saved at every fetch is missed exactly when between two fetches its key moves from below the cursor to above it |
| Catalog.OvertakenMeansSavedAgain | src/blogs/repository/interaction.py:382-404 | and that takes removing it and saving it again since the earlier of the two |
| Catalog.ResavedItemCanBeMissed | src/blogs/repository/interaction.py:382-390 | a concrete scan that misses such an item |
| RefreshTokens.FamiliesArePaths | src/blogs/services/auth_service.py:606-642 | in every reachable state a family is one simple path of successors from the row named like it to its single unconsumed row, with one user, all revoked or all live |
| RefreshTokens.OneSuccessorPerSecret | src/blogs/repository/identity.py:435-451 | in any run a secret buys at most one successor, and none once consumed |
| RefreshTokens.RefreshAnswers | src/blogs/services/auth_service.py:606-655 | each answer exactly, told from the row with the digest: revoked before expired before spent, which names the family; else one new row of the same user and family, or a refused user and no change |
| RefreshTokens.ReuseIsDetected | src/blogs/services/auth_service.py:644-665 | presenting a spent token of a live family leaves the call pending under it, and going on revokes every row of it for reuse |
| RefreshTokens.RotationSucceeds | src/blogs/services/auth_service.py:621-642 | a live unspent token is traded in for exactly one new live row of its family |
| RefreshTokens.RevokingMeans | src/blogs/repository/identity.py:453-471 | revoking stamps the live rows of the family, or of the user, with time and reason and nothing else |
| RefreshTokens.ClosingRevokes | src/blogs/services/auth_service.py:657-686 | committing a reuse answer, a sign-out or a password change leaves every row of the family revoked and adds none |
| RefreshTokens.RevokedFamiliesStayDead | src/blogs/services/auth_service.py:644-665 | after that no run, with other refreshes in between, adds a row to the family or changes one |
| RefreshTokens.Registry.Create | src/blogs/repository/identity.py:397-426 | inserts one unconsumed, unrevoked row |
| RefreshTokens.Registry.Consume | src/blogs/repository/identity.py:435-451 | wins exactly on a live unconsumed row, links the successor, and changes nothing otherwise |
| RefreshTokens.Registry.RefreshFirst | src/blogs/services/auth_service.py:606-655 | answers Unknown, Revoked, Expired, Spent, Rotated or UserRefused exactly when the presented row calls for it, and changes the table only by a rotation |
| RefreshTokens.Registry.RefreshSecond | src/blogs/services/auth_service.py:657-660 | revokes every live row of the family and counts them |
| RefreshTokens.Registry.RevokeSession | src/blogs/services/auth_service.py:667-686 | signs out one family or all of the user's, does nothing for a token of somebody else, and counts the rows newly revoked |
| RefreshTokens.Registry.SetAdminPassword | src/blogs/services/auth_service.py:571-591 | for an admin stores the new hash and revokes every session together, otherwise refuses and changes nothing |
| Otp.GuessesAreBounded | src/blogs/services/auth_service.py:125-148 | from any reachable state, with no accepted code, at most max_attempts x (T / cooldown + 2) guesses for an address are answered mismatch or expired |
| Otp.AcceptedAtMostOnce | src/blogs/repository/identity.py:313-367 | a code is accepted at most once in any run and never after it was burned |
| Otp.MatchedMeansBurned | src/blogs/repository/identity.py:338-367 | the verdict is "matched" exactly when the statement burned the row |
| Otp.VerdictExactly | src/blogs/repository/identity.py:313-367 | the verdict on any guess at an issued code follows from its lifetime, the number of guesses before and the code: accepted within time and limit, else exhausted before expired before mismatch |
| Otp.GuessMeans | src/blogs/services/auth_service.py:216-254 | a right code in time and within the limit is burned and accepted, or for an account that may not sign in left as it was; any other guess costs an attempt and says why |
| Otp.RequestMeans | src/blogs/services/auth_service.py:125-148 | a request is served exactly when every live code of the slot is as old as the cooldown, with a code that lives for its whole lifetime |
| Otp.IssuesAreSpaced | src/blogs/services/auth_service.py:126-136 | codes issued to an address with none accepted are a cooldown apart |
| Otp.ChallengeTable.LatestLive | src/blogs/repository/identity.py:299-311 | a newest unconsumed challenge of the address and purpose, or none if there is none |
| Otp.ChallengeTable.ConsumeIfMatching | src/blogs/repository/identity.py:313-367 | counts the attempt on the newest live challenge, burns it only on a match in time and within the limit, and touches no other row |
| Otp.ChallengeTable.RequestOtp | src/blogs/services/auth_service.py:125-148 | issues exactly when no live challenge is younger than the cooldown |
| Otp.ChallengeTable.VerifyOtp | src/blogs/services/auth_service.py:216-254 | a refusal keeps the counted attempt; a match that cannot be completed restores the challenge |
| AdminLogin.WindowBoundsComparisons | src/blogs/services/auth_service.py:471-535 | any closed window with no recorded success holds at most max_failed_logins failed comparisons |
| AdminLogin.AnswersMean | src/blogs/services/auth_service.py:481-542 | on an address that is not locked a wrong password is refused and logged as a failure, the right one signs in and is logged as a success; on a locked one every attempt is refused and logged |
| AdminLogin.CountedExactly | src/blogs/repository/identity.py:184-196 | a failure counts exactly if it is recent enough and later than every success of the address |
| AdminLogin.SuccessClearsSlate | src/blogs/repository/identity.py:177-183 | after a recorded success nothing that failed before is counted and the next attempt is evaluated |
| AdminLogin.SilenceReopens | src/blogs/repository/identity.py:184-196 | an attempt after more than a window of silence is always evaluated |
| AdminLogin.RefusalExtendsLock | src/blogs/services/auth_service.py:485-494 | a refused attempt counts against every later attempt for a whole window |
| AdminLogin.HammeringNeverReopens | src/blogs/services/auth_service.py:481-494 | attempts that keep coming fast enough on a locked address are all refused and none is compared |
| AdminLogin.LoginAttempts.CountRecentFailures | src/blogs/repository/identity.py:177-197 | the failures since the cutoff that are later than the last success |
| AdminLogin.LoginAttempts.PasswordLogin | src/blogs/services/auth_service.py:471-542 | the answer and the one row logged for each outcome of the password check and for a lock; a raise after a right password logs nothing |
| Articles.ArticlesAgreeWithObjects | src/blogs/services/blog_service.py:114-144 | in every reachable state an article can be served, re-parsing what is served gives its hash, word count and sections, its row passes the checks (published and archived ones carry their times), and slugs are unique |
| Articles.StoredSectionsTileServedBody | src/blogs/adapters/markdown/parser.py:129-133 | in every reachable state stored anchors are keys, the sections of the served body tile it, and the table holds exactly those sections if and only if anchors are distinct |
| Articles.SharedAnchorKeepsLater | src/blogs/repository/content.py:369-374 | of headings with slugs "a", "a", "a-2" two rows are stored, the last of them the third heading's |
| Articles.PinsNeverDangle | src/blogs/repository/content.py:538-551 | in every reachable state a pin targets an existing section of another article, and no other pin repeats it |
| Articles.EditCommitsExactlyWhenPinsKept | src/blogs/repository/content.py:346-396 | a content edit whose names resolve and whose row fits the table commits exactly when its headings include every pinned anchor, and is otherwise refused for a pin |
| Articles.ServedUnderSameHash | src/blogs/services/blog_service.py:305-323 | between any two states of any run in which an article has the same hash it serves at the end the last source put for it with that body, else what it served before; so the bytes under a hash change exactly when that put differs |
| Articles.ServedBytesChangeExactly | src/blogs/services/blog_service.py:187-195 | from one step to the next under an unchanged hash, the served bytes change exactly when the step starts an edit whose body is the served one and whose source is not |
| Articles.RefusedEditChangesServedBytes | src/blogs/services/blog_service.py:308-312 | a refused edit that changes the bytes under an unchanged row |
| Articles.EditingAwayAndBackChangesServedBytes | src/blogs/services/blog_service.py:308-312 | two accepted edits, away and back, that leave other bytes under the first hash though neither put changes what is served at the time |
| Articles.ArchivingByEditIsRefused | src/blogs/database/migrations/002_content.sql:74-75 | a published article whose patch to status archived is refused |
| Articles.CommitsExactly | src/blogs/database/migrations/002_content.sql:39-105 | a new article or an edit commits exactly when its slug is free or its article exists, its series and distinct categories exist, its row fits the table (archived only if archived before, a position only with a series, a slug that is a key of at most 120 characters), and no pinned anchor would go |
| Articles.CommitIsLocal | src/blogs/services/blog_service.py:197-240 | a committed edit changes no other article, no other article's sections and no pin |
| Articles.CommitSetsArticle | src/blogs/services/blog_service.py:121-144 | a committed edit sets key, hash, word count and sections together, or with no new source none of them |
| Articles.CommitAppliesNew | src/blogs/services/blog_service.py:127-141 | a committed new article has the slug, title, status, position, categories and series it was given, its time if published, and was never archived |
| Articles.CommitAppliesPatch | src/blogs/repository/content.py:197-211 | of a committed change every column given holds what was given and every other what it held before |
| Articles.NewRefusedFor | src/blogs/services/blog_service.py:121-141 | the first thing wrong with a refused new article: series, checks, slug taken, slug unreadable, repeated category, unknown category |
| Articles.ChangeRefusedFor | src/blogs/services/blog_service.py:197-225 | the first thing wrong with a refused change: article, series, archive time, position, repeated category, unknown category |
| Articles.RepeatedChangeIsNoOp | src/blogs/services/blog_service.py:197-240 | a change made again at any later time commits and leaves every table as it is |
| Articles.CommitDatesArticle | src/blogs/repository/content.py:203-211 | the edit that first publishes an article sets the publication time to its own, and no other edit touches it |
| Articles.CommitKeepsPinned | src/blogs/repository/content.py:357-361 | a section with a pin into it survives a committed edit |
| Articles.BlogService.Run | src/blogs/services/blog_service.py:170-260 | a refused edit restores the tables and keeps the object it put; an invalid source changes nothing |
| Articles.BlogService.Publish | src/blogs/services/blog_service.py:121-144 | row, categories and sections commit together, every column as given, or the first constraint in the way is reported |
| Articles.BlogService.Update | src/blogs/services/blog_service.py:197-240 | the patch and the content commit together, columns not given staying as they were, or the first constraint in the way is reported |
| Articles.BlogService.ReplaceSections | src/blogs/repository/content.py:346-396 | the table becomes the list's, or nothing changes when a pinned section would go |
| Articles.BlogService.Retire | src/blogs/services/blog_service.py:262-284 | archives exactly a present article that is not archived, setting status and time and nothing else |
| Articles.BlogService.PinSection | src/blogs/repository/content.py:512-553 | a pin is created, or refused for the first constraint it breaks: itself, a repeat, a missing article, a missing section |
| Articles.UnpinningLiftsRefusal | src/blogs/repository/content.py:555-558 | removing a pin lets an edit it stood against commit, unless another pin points into a section that edit drops |
| Articles.UnpinUndoesPin | src/blogs/services/interaction_service.py:361-371 | removing a pin just made gives the tables back; while it is there it cannot be made again |
| Articles.BlogService.ResolveSlug | src/blogs/services/blog_service.py:355-373 | the base if free, else the first free suffix from two up, else the fallback; only the fallback may be taken |
| Content.SectionStore.ReplaceRows | src/blogs/repository/content.py:355-385 | deleting what the list lacks and upserting the rest leaves exactly one row per anchor of the list, with no trace of the old rows |
| Content.TableOfAnchors | src/blogs/repository/content.py:355-369 | the anchors of the table are exactly the list's |
| Content.TableOfKeepsLast | src/blogs/repository/content.py:369-374 | among equal anchors the last section is the one stored |
| Engagement.KeysCoincideOnlyForSameClient | src/blogs/services/engagement_service.py:97-103 | dedupe keys are equal exactly for the same actor and client key, or the same defaulted id |
| Engagement.RecordedOncePerKey | src/blogs/repository/engagement.py:60-80 | over any run a key is reported as recorded exactly once if it ends up claimed, else never |
| Engagement.KeysAndRowsInBijection | src/blogs/repository/engagement.py:71-107 | in every reachable state claimed keys and event rows correspond one to one |
| Engagement.KeylessIsNeverDuplicate | src/blogs/services/engagement_service.py:99-103 | a write without a client key is never taken for a duplicate |
| Engagement.ViewsMatchLogFromEmpty | src/blogs/services/engagement_service.py:107-120 | in every reachable state the view row of an actor and article exists exactly if the log has views, with their number and first and last times |
| Engagement.ViewsMatchLog | src/blogs/repository/interaction.py:450-466 | any run keeps that agreement, through duplicates, refusals, rollbacks and merges |
| Engagement.ViewOwnersMatchLog | src/blogs/repository/interaction.py:461-463 | over any run a view row has an owner exactly when a view it counts has, the owner of one of them, and is never un-attributed |
| Engagement.MergeConservation | src/blogs/services/auth_service.py:701-725 | the events counted by staged merges are exactly the anonymously written events now owned, each by the account its actor was merged into |
| Engagement.MergeMeans | src/blogs/services/auth_service.py:701-725 | the merge of a met, unmerged actor gives it the account, gives the account every event and view of it that had no owner, changes no other row, and stages their number if there were any |
| Engagement.SignInClaimsHistory | src/blogs/services/auth_service.py:695-725 | after a committed sign-in a met actor has an account, and if it was merged just now none of its events or views is without an owner |
| Engagement.RecordMeans | src/blogs/services/engagement_service.py:85-120 | what is stored of an event, under which key, and how the view row of its actor and article moves |
| Engagement.OwnersAreFinal | src/blogs/repository/identity.py:523-533 | an event's owner and an actor's account are set at most once and never change, and no row is lost |
| Engagement.EngagementLog.Append | src/blogs/repository/engagement.py:56-107 | claims first, and inserts only for the winner |
| Engagement.EngagementLog.RecordEvent | src/blogs/services/engagement_service.py:107-147 | claim, row and projection commit together; only a view of an unknown article fails, and then claim and row are undone |
| Engagement.EngagementLog.AttributeToUser | src/blogs/repository/engagement.py:169-181 | only the actor's unattributed rows change, and their number is returned |
| Engagement.EngagementLog.MergeOnSignIn | src/blogs/services/auth_service.py:695-725 | leaves no event or view of the actor without an owner, marks the actor, changes no other row, and stages and returns the number moved |
| Migrator.UpgradesApplyInOrder | src/blogs/database/migrator.py:138-186 | with concurrent and crashing runners over a directory that only gains higher versions, the schema is a prefix of the sorted files, each executed once in order, and the history is exactly theirs |
| Migrator.EditedHistoryIsRefused | src/blogs/database/migrator.py:119-135 | a runner is refused exactly when an applied file is missing or has other text, and changes nothing then |
| Migrator.LockStarts | src/blogs/database/migrator.py:146-152 | a runner with a stale listing is refused, any other has exactly the rest pending |
| Migrator.OrderKeptExactlyWhenPendingIsNewer | src/blogs/database/migrator.py:79-84 | execution order equals version order exactly when all pending versions are above the recorded ones |
| Migrator.LateFileRunsLast | src/blogs/database/migrator.py:82-83 | a file that fills a gap passes the check and runs after higher versions |
| Migrator.Discover | src/blogs/database/migrator.py:79-109 | all SQL files, as named and read, in version order; refused exactly for a bad name or a repeated version, whichever comes first |
| Migrator.Database.Upgrade | src/blogs/database/migrator.py:147-184 | executes and records the pending files up to the first that fails |
| Migrator.TurnMeans | src/blogs/database/migrator.py:157-186 | a file that applies is executed last and recorded with name and digest, one that fails leaves no trace, and the lock is given up at the end |
| Migrator.RecordingKeepsText | src/blogs/database/migrator.py:162-172 | every file recorded is found under its version with its name and the digest of its text |
| Headings.LineStarts | src/blogs/adapters/markdown/parser.py:137-139 | each entry is the length of the text before its line, the last the length of the body |
| Headings.OffsetsDelimitLines | src/blogs/adapters/markdown/parser.py:135-142 | a line is the text between its offset and the next |
| Headings.Collect | src/blogs/adapters/markdown/parser.py:144-152 | the titled headings with the offset of their line |
| Headings.NextAnchor | src/blogs/adapters/markdown/parser.py:157-162 | the counter per base yields the anchor fixed by the heading's rank among equal bases |
| Headings.Index | src/blogs/adapters/markdown/parser.py:126-176 | every heading with its anchor and span |
| Headings.FoundMeans | src/blogs/adapters/markdown/parser.py:144-152 | exactly the tokens that open a titled heading on a known line are found, in order, each with its level, trimmed title and the offset of its own line |
| Headings.IndexMeans | src/blogs/adapters/markdown/parser.py:154-176 | every entry's level, title, start, end and anchor: the slug or the position, and a suffix that counts the headings before it with the same base |
| Headings.TrimMeans | src/blogs/adapters/markdown/parser.py:149 | trimming takes white space off both ends and nothing else |
| Headings.DecimalMeans | src/blogs/adapters/markdown/parser.py:157-162 | suffixes are decimal numbers without leading zeros |
| Headings.SectionsTileBody | src/blogs/adapters/markdown/parser.py:129-133 | sections cover the body from the first heading to the end with no gap or overlap, numbered from zero |
| Headings.RepeatMeetsSuffix | src/blogs/adapters/markdown/parser.py:158-162 | three headings, two of which share an anchor |
| Headings.AnchorsAreKeys | src/blogs/adapters/markdown/parser.py:157-162 | every anchor is in the key grammar, the base or the base with its rank |
| Headings.SuffixedIsInjective | src/blogs/adapters/markdown/parser.py:162 | base and rank can be read back from a suffixed anchor |
| Headings.AnchorsDistinctExactly | src/blogs/adapters/markdown/parser.py:158-162 | anchors are pairwise distinct exactly when no base is the suffixed form another heading takes |
| Slug.SlugIsKeyWithinLimit | src/blogs/adapters/markdown/parser.py:36-48 | a slug is empty or in the key grammar, fits, and is cut only between words unless the first word alone is too long |
| Slug.SlugifyIsIdempotent | src/blogs/adapters/markdown/parser.py:36-48 | slugging a slug changes nothing |
| Slug.FullSlugJoinsWords | src/blogs/adapters/markdown/parser.py:44-45 | before any cut a slug is the lowered words joined by single hyphens |
| Slug.FullSlugKeepsLetters | src/blogs/adapters/markdown/parser.py:44-45 | before any cut a slug has every letter and digit of the lowered text, in order, and otherwise only hyphens |
| Slug.LowerMeans | src/blogs/adapters/markdown/parser.py:44 | lowering changes capital letters to small ones and nothing else |
| Slug.KeyTuple | src/blogs/adapters/markdown/parser.py:58-69 | the distinct non-empty keys in order of first appearance |
| Cursor.CursorRoundTrip | src/blogs/repository/base.py:116-128 | every payload comes back from its cursor, which carries no padding |
| Cursor.EncodeIsUnpaddedAndPad | src/blogs/repository/base.py:118 | an encoding is its significant characters and the padding its length calls for |
| Cursor.AlphabetIsUrlSafe | src/blogs/repository/base.py:118 | the alphabet is that of section 5 of RFC 4648 |
| Cursor.GroupIsBigEndian | src/blogs/repository/base.py:118 | four characters are the 24 bits of three bytes from the most significant on, as in section 4 of RFC 4648 |
| Cursor.StrippingRemovesPad | src/blogs/repository/base.py:118 | stripping removes exactly the padding |
| Cursor.TruncatedCursorRefusedExactly | src/blogs/repository/base.py:121-133 | of alphabet text, exactly lengths one above a multiple of four fail to decode |

## Left out

- Routers, middleware, envelopes, settings, logging, the policy matrix and the error catalogue: plumbing or finite tables.
- JWT, scrypt, PKCE, OAuth over HTTP, MinIO, the mail client and the sheet reader: foreign calls.
- CommonMark tokenising, YAML frontmatter and NFKD folding: library code; tokens, metadata and ASCII text are inputs.
- Word counting and summaries: columns no other rule depends on.
- The JSON text inside a cursor, and base64 characters outside the alphabet that the decoder skips: the round trip is bytes to bytes.
- Trending scores and other analytics queries: floating point over read-only aggregates.
- Payloads of staged events other than merges: the relay's guarantees do not depend on them.
- LISTEN/NOTIFY wake-ups, the worker's own advisory lock, pools and timeouts: polling makes them irrelevant to safety.
- Interleaving of single statements under READ COMMITTED: each transaction is one step.
- The development bypass of one-time codes, and mail text, addresses of clients and user agents: no bearing on the invariants.
- Deleting expired challenges, expired refresh tokens and old login attempts: no service calls these statements. `RefreshTokens.FamiliesArePaths` depends on it, since deleting a token clears the link to it.
- The naming of catalogues: single-row statements.
- Markers: single-row upserts whose contract would repeat the statement. For the same reason staging one event, removing one pin and removing one item have no row of their own above; runs and the lemmas named there use them.
- The 16-bit width of the attempt columns: beyond it a further guess or failure is an unhandled error.
- Whether an article may be read, checked before comments and saves; and saves into a catalogue that is not there.
- UPDATE statements over many rows are functions on the whole table, except where a loop is shown; the order in which the database visits rows is not modelled.
- Outbox.OverdueEventIsClaimed: asks for an event that is overdue, or due with the lowest id, because for any other merely due it can fail (`Outbox.DueNowCanBePassed`).
