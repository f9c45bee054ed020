# DevCampfire core, modelled in Dafny

DevCampfire is a social app for developers: GitHub sign-in, friends drawn from GitHub
followers, direct messages and group rooms backed by a Postgres database, and a
publish/subscribe channel per conversation for live messages. This project models its
deterministic core:

- **The database and its route handlers.** The tables of `src/db/schema.ts` (users,
  conversations, participants, messages) with their defaults, unique columns, foreign keys and
  cascades, plus minimal read-watermark and project records. A `Store` class holds the tables
  and an id counter that hands out fresh ids. Each route handler is one atomic step over it:
  - resolve-or-create a DM;
  - list the caller's DMs with participants, latest message, unread count and limit;
  - list rooms;
  - post a message and publish its `new-message` event;
  - create a project;
  - the online, in-app and prefix-search user queries;
  - the status update.

  Handlers that write are methods with `modifies store`, specified either by a pure function
  of the old tables (`ConversationsRoute.Resolve`) or by ensures that give every table's new
  contents. Read-only handlers are functions.
- **GitHub-derived computations.** Follower/following projections and mutuals by login, and
  the top-seven language ranking. The upstream responses are inputs.
- **Client-side logic.** The friends list pipeline: tab, cross-tab search with
  de-duplication by id, pages of six, enrichment and existence-status records, page
  controls. Also:
  - repository filtering and sorting;
  - mention completion;
  - the direct-message list, card and chat area: selection, search, preview, send guard,
    channel append, near-bottom test, mark-as-read guards;
  - the mock chat and private-messaging views;
  - the discovery and collaboration filters;
  - the mobile navigation badges.

  State a component updates in place is a class with `modifies` clauses. Derived lists are
  functions of their inputs.

Session, clock (`now`), upstream GitHub responses and request bodies are parameters. A body
that is not valid JSON is `None`. Ids are natural numbers taken from the store's counter.
Timestamps are integers.

Modules follow the source files: `Schema`, `Store`, `ConversationsRoute`, `DmsRoute`,
`RoomsRoute`, `MessagesRoute`, `ProjectsRoute`, `UsersRoutes` (online, in-app, search),
`StatusRoute`, `ConnectionsRoute`, `LanguagesRoute`, `Friends`, `ProfileRepos`,
`MentionDisplay`, `DirectMessages`, `DmOverview`, `ChatArea`, `ChatSection`,
`PrivateMessaging`, `Discovery` (developers and projects tabs), `DiscoverySection`,
`CollabSection`, `MobileNav`. Shared shapes and helpers sit in `DbCustoms`, `GithubTypes`,
`Auth`, `Channels`, `Strings`, `Seqs`, `Sorting`, `Keyboard` and `Options`.

Where the code departs from what its comments, names and types, or the usual REST conventions, suggest, the model follows the code:

- `POST /api/db/messages` answers 200, not 201. It neither trims nor rejects empty content,
  does not bump the conversation's `updatedAt` and does not check membership.
- A missing `targetUsername` in the DM resolve gives 404: no row matches a null username.
- The DM listing returns a `sender` object on the latest message but no `senderId`. For a
  caller with a session `dbId` the overview card's "You: " prefix therefore never appears
  (`DmOverview.ListedPreviewHasNoYou`); without one, `undefined === undefined` holds and every
  listed message is prefixed "You: " (`DmOverview.SignedOutPreviewHasYou`).
- The overview card listens for `update-conversation`, but no modelled route publishes that
  event; only `new-message` is published.
- The overview card writes the event into the conversation object it was given. The model
  keeps that object as a field of the card.
- Project creation inserts the group conversation before a possible foreign-key failure on
  the owner. A 500 then leaves that conversation behind, as modelled in `ProjectsRoute.Post`.

## Model

| member | source | states |
|---|---|---|
| Schema.NewUser | src/db/schema.ts:19-40 | a new `users` row has role user, status offline, no optional fields, empty settings and both timestamps at now |
| Schema.NewConversation | src/db/schema.ts:45-60 | a new `conversations` row carries the given type, name and creator, with both timestamps at now |
| Schema.NewParticipant | src/db/schema.ts:62-74 | a new participant row is not an admin and joined now |
| Schema.NewMessage | src/db/schema.ts:76-93 | a new `messages` row carries conversation, sender and content, with both timestamps at now |
| Schema.InsertUser | src/db/schema.ts:19-23 | an insert into `users` succeeds exactly when id, GitHub username and (non-null) email are all unused, and then appends the row |
| Schema.InsertUserKeepsUnique | src/db/schema.ts:20-23 | an accepted insert keeps the primary-key and both unique constraints over the whole table |
| Schema.RowsOf | src/app/api/db/conversations/route.ts:39-44 | the participant rows of a conversation are exactly its rows, in table order |
| Schema.UserById | src/db/schema.ts:20 | the lookup by primary key finds a row with that id, and finds none exactly when no row has it |
| Schema.DeleteConversationCascades | src/db/schema.ts:64-66 | deleting a conversation removes every participant row and message of it, keeps every other row in order, and leaves all foreign keys valid |
| Schema.DeleteUserCascades | src/db/schema.ts:50-52 | deleting a user removes their participant rows, their messages, the conversations they created and those conversations' rows; every other row of those four tables stays, in order; read rows and projects are untouched; all foreign keys stay valid |
| Store.Store.constructor | src/db/schema.ts:19-93 | a database starts from tables whose ids are below the id counter, whose foreign keys hold and whose unique columns are unique |
| Store.Store.InsertConversation | src/db/schema.ts:45-60 | the insert succeeds exactly when `createdBy` is null or names a user; on success the row with the next fresh id is appended, otherwise nothing changes; other tables are untouched |
| Store.Store.InsertParticipants | src/db/schema.ts:62-74 | a multi-row insert adds all rows, with consecutive fresh ids, exactly when the conversation and every user exist, and adds none otherwise |
| Store.Store.InsertMessage | src/db/schema.ts:76-93 | the insert succeeds exactly when the conversation and the sender exist; on success the new row is appended, otherwise nothing changes |
| Store.Store.InsertProject | src/app/api/db/projects/route.ts:30-37 | appends one `projects` row with the next fresh id and the given fields, leaving the other tables as they were |
| Store.ParticipantRows | src/app/api/db/conversations/route.ts:71-74 | the rows of one multi-row insert: one per user id, in order, with consecutive ids and default columns |
| ConversationsRoute.UserByUsername | src/app/api/db/conversations/route.ts:14-17 | the lookup by `github_username` returns a row with that username, and none exactly when no row has it |
| ConversationsRoute.ParticipantUserIds | src/app/api/db/conversations/route.ts:39-44 | one id per participant row of the conversation, in row order, each that row's `userId`, so `ids.length` counts rows; an id occurs exactly when some row of the conversation has it |
| ConversationsRoute.DmConversations | src/app/api/db/conversations/route.ts:31-34 | the selected conversations are exactly the stored ones of type dm |
| ConversationsRoute.FindDm | src/app/api/db/conversations/route.ts:36-53 | a found conversation passes the test (both ids included, exactly two ids); nothing is found exactly when no conversation passes it |
| ConversationsRoute.CallerOf | src/app/api/db/conversations/route.ts:11-19 | the caller is a stored user, found by the session's username |
| ConversationsRoute.TargetOf | src/app/api/db/conversations/route.ts:21-28 | the target is a stored user, found by `targetUsername` |
| ConversationsRoute.Resolve | src/app/api/db/conversations/route.ts:6-84 | only a 201 changes the database; 401 exactly when the body parses but the session has no username; 404 exactly when the caller or the target is not found; a 200 names a stored dm conversation |
| ConversationsRoute.Post | src/app/api/db/conversations/route.ts:6-84 | the handler's new database and reply are those of `Resolve` on the old database, and the store stays valid |
| ConversationsRoute.Scan | src/app/api/db/conversations/route.ts:37-53 | the loop's result is the first conversation passing the membership test |
| ConversationsRoute.InsertDm | src/app/api/db/conversations/route.ts:61-74 | the two inserts append the dm conversation created by the caller and its two participant rows, using three fresh ids |
| ConversationsRoute.FindDmIsFirst | src/app/api/db/conversations/route.ts:38-52 | a found conversation has no earlier conversation in the list that passes the test |
| ConversationsRoute.FindDmSnoc | src/app/api/db/conversations/route.ts:38-52 | a conversation added at the end of the list is only found when no earlier one passes the test |
| ConversationsRoute.ParticipantUserIdsAppend | src/app/api/db/conversations/route.ts:39-44 | rows for other conversations do not change a conversation's participant ids |
| ConversationsRoute.NewDmParticipants | src/app/api/db/conversations/route.ts:70-74 | the new conversation's participant ids are exactly caller then target |
| ConversationsRoute.OldDmParticipants | src/app/api/db/conversations/route.ts:70-74 | creating a dm leaves every existing conversation's participant ids as they were |
| ConversationsRoute.ResolveCreated | src/app/api/db/conversations/route.ts:55-79 | a 201 happens only when both users exist and no stored dm passes the test, and then the dm rows are created |
| ConversationsRoute.CreateDmRows | src/app/api/db/conversations/route.ts:61-74 | creating a dm appends exactly one conversation and two participant rows, touches no other table, keeps the foreign keys valid, and the new conversation passes the test |
| ConversationsRoute.DmParticipantRows | src/app/api/db/conversations/route.ts:69-73 | the dm insert writes two participant rows for the new conversation, the caller's first, with the next two ids |
| ConversationsRoute.CreateDmKeepsRefs | src/app/api/db/conversations/route.ts:61-74 | the created rows keep every foreign key valid and every id below the counter |
| ConversationsRoute.ResolveIdempotent | src/app/api/db/conversations/route.ts:36-59 | repeating a request that answered 200 or 201 answers 200 with the same conversation id and inserts nothing |
| ConversationsRoute.SecondCallFindsNewDm | src/app/api/db/conversations/route.ts:38-53 | after a creation the scan's first match for that pair is the new conversation |
| ConversationsRoute.ExistingIsFirstMatch | src/app/api/db/conversations/route.ts:38-58 | a 200 names the first dm, in store order, whose participant ids include both users and number exactly two |
| ConversationsRoute.SelfDmMatchesAnyPair | src/app/api/db/conversations/route.ts:45-52 | when the caller targets themselves, any two-participant dm that includes the caller matches, whoever the other participant is |
| DmsRoute.ViewOf | src/app/api/db/conversations/dms/route.ts:125-131 | a participant or sender view copies the user's id, name, username, image and status |
| DmsRoute.Limit | src/app/api/db/conversations/dms/route.ts:28-30 | a missing or empty parameter, or one not starting with a digit, gives no cap; a leading decimal number above zero is the cap; a cap is never zero |
| DmsRoute.CallerConversationIds | src/app/api/db/conversations/dms/route.ts:32-38 | the ids are exactly the conversations the caller has a participant row in |
| DmsRoute.CallerDms | src/app/api/db/conversations/dms/route.ts:44-66 | the selected conversations are exactly the stored dms among the caller's conversation ids |
| DmsRoute.JoinUsers | src/app/api/db/conversations/dms/route.ts:71-76 | the inner join gives one view per row whose user exists, in row order, each the projection of that row's user |
| DmsRoute.Newest | src/app/api/db/conversations/dms/route.ts:93-97 | the newest message exists exactly for a non-empty list, is one of its messages, and no message is newer |
| DmsRoute.JoinedMessages | src/app/api/db/conversations/dms/route.ts:93-95 | the conversation's messages are those whose sender still exists |
| DmsRoute.ReadRow | src/app/api/db/conversations/dms/route.ts:99-108 | the read row found belongs to this conversation and caller, and none is found exactly when no such row exists |
| DmsRoute.UnreadMessages | src/app/api/db/conversations/dms/route.ts:110-119 | the unread messages are exactly the conversation's messages created strictly after the watermark, whoever sent them |
| DmsRoute.Summaries | src/app/api/db/conversations/dms/route.ts:69-144 | one summary per listed conversation, in the same order |
| DmsRoute.List | src/app/api/db/conversations/dms/route.ts:13-151 | the handler answers 401 exactly when the session has no `dbId` |
| DmsRoute.NewerIsTotalPreorder | src/app/api/db/conversations/dms/route.ts:55 | ordering by `updatedAt` descending is a total preorder |
| DmsRoute.NoParticipantRowsNoDms | src/app/api/db/conversations/dms/route.ts:40-42 | the early empty reply agrees with the general query: no participant rows means no conversations |
| DmsRoute.OrderedDmsFacts | src/app/api/db/conversations/dms/route.ts:44-66 | the ordered list holds the caller's dms, each no more often than stored, newest activity first, as many as a cap allows, none of those cut off newer than a kept one, and all of them without a cap |
| DmsRoute.NewestCut | src/app/api/db/conversations/dms/route.ts:44-66 | `ORDER BY updated_at DESC LIMIT n` keeps a sub-multiset of the rows, each at least as new as every row left out |
| DmsRoute.ListedDms | src/app/api/db/conversations/dms/route.ts:13-146 | every listed conversation is a dm the caller participates in, listed no more often than stored; they come newest first; their number is that of the caller's dms capped by the limit; no dm the limit leaves out is newer than a listed one; without a limit every one is listed |
| DmsRoute.LatestIsNewest | src/app/api/db/conversations/dms/route.ts:78-97 | the latest message is a stored message of the conversation whose sender exists, with that message's id, content, createdAt and updatedAt and its sender's view, and no such message is newer; it is null exactly when there is none |
| DmsRoute.ParticipantsComplete | src/app/api/db/conversations/dms/route.ts:71-76 | with valid foreign keys the participants are one view per row of the conversation, in row order, each its user's id, name, githubUsername, imageUrl and status; every row's user is listed, the caller's among them |
| DmsRoute.JoinUsersMembers | src/app/api/db/conversations/dms/route.ts:71-76 | a view is in the join exactly when it is the view of the user of a row whose user exists |
| DmsRoute.UnreadAntitone | src/app/api/db/conversations/dms/route.ts:110-121 | a later watermark leaves a subsequence of the unread messages, so the count never grows |
| DmsRoute.UnreadWatermark | src/app/api/db/conversations/dms/route.ts:117 | without a read row the watermark is the epoch; a watermark at or after every message leaves nothing unread |
| RoomsRoute.List | src/app/api/db/conversations/rooms/route.ts:7-24 | 401 exactly when the session has no user id; otherwise the groups are exactly the stored group conversations, in store order |
| RoomsRoute.ListIgnoresMembership | src/app/api/db/conversations/rooms/route.ts:16-21 | participant rows play no part: every room is listed to every signed-in user |
| RoomsRoute.ListAfterInsert | src/app/api/db/conversations/rooms/route.ts:16-21 | a conversation added as a group is listed last; an added dm changes nothing |
| MessagesRoute.PushServer.constructor | src/app/api/db/messages/route.ts:44-48 | the event log starts empty |
| MessagesRoute.PushServer.Trigger | src/app/api/db/messages/route.ts:44-48 | a trigger appends one event with its channel, name and payload |
| MessagesRoute.FullMessageOf | src/app/api/db/messages/route.ts:27-42 | the re-fetched message carries the row's id, content and timestamps and the sender's id, name, image and username |
| MessagesRoute.Post | src/app/api/db/messages/route.ts:8-51 | 401 exactly without a session; a message is sent exactly when the body has both fields, the session a `dbId` and both foreign keys hold; then one row is appended, the joined message is returned and one `new-message` event goes to that conversation's channel; otherwise no row and no event; other tables are untouched |
| MessagesRoute.PostedMessageIsUnread | src/app/api/db/messages/route.ts:16-24 | a posted message is unread for every reader whose watermark is older, the sender included |
| MessagesRoute.PostElsewhereKeepsUnread | src/app/api/db/messages/route.ts:16-24 | posting in one conversation leaves every other conversation's unread list as it was |
| ProjectsRoute.Post | src/app/api/db/projects/route.ts:6-48 | 401 exactly when the body parses and the session has no user id, with nothing stored; otherwise a group conversation is always inserted and, when the owner exists, the owner's participant row and the project follow and 201 returns the project, else 500 with the conversation left behind |
| UsersRoutes.SummaryOf | src/app/api/db/users/online/route.ts:32-39 | a returned user carries the row's id, username, name and image |
| UsersRoutes.Matching | src/app/api/db/users/online/route.ts:20-28 | the selected rows keep store order and are exactly those whose username was requested, and online when that is asked for |
| UsersRoutes.OnlineUsers | src/app/api/db/users/online/route.ts:7-40 | 500 exactly for an unparsable body; 401 exactly for a parsed body without a session; an empty or non-array list gives no users; otherwise the summaries of the requested online users |
| UsersRoutes.InAppUsers | src/app/api/db/users/in-app/route.ts:5-25 | 500 exactly for an unparsable body and never 401; an empty or non-array list gives no users; otherwise the summaries of every requested user |
| UsersRoutes.OnlineAndInAppMembers | src/app/api/db/users/online/route.ts:20-39 | the online route returns exactly the requested users that are online; the in-app route returns exactly the requested users, whatever their status |
| UsersRoutes.MapMembers | src/app/api/db/users/in-app/route.ts:17-24 | a summary is returned exactly when it summarises one of the selected rows |
| UsersRoutes.OnlineWithinInApp | src/app/api/db/users/in-app/route.ts:12-15 | the online selection is a subsequence of the in-app one for the same names |
| UsersRoutes.SearchResultOf | src/app/api/db/users/search/route.ts:17-24 | a result carries the row's id, name, username, image and bio |
| UsersRoutes.SearchLimit | src/app/api/db/users/search/route.ts:10 | an absent or empty limit parameter means 5 |
| UsersRoutes.Search | src/app/api/db/users/search/route.ts:7-30 | 401 exactly without a session username; an empty query returns no results |
| UsersRoutes.SearchResults | src/app/api/db/users/search/route.ts:17-29 | every result is a stored user whose username starts with the query; there are at most `limit` of them; they are the first matching users in store order, and all of them when fewer than the limit |
| StatusRoute.Touched | src/app/api/db/users/status/route.ts:14-20 | a row with a different username is unchanged; the matching row gets the body's status, when given, and `lastActiveAt` now |
| StatusRoute.WithStatus | src/app/api/db/users/status/route.ts:14-20 | the update changes each row, in place and in order, as `Touched` says |
| StatusRoute.WithStatusKeepsKeys | src/app/api/db/users/status/route.ts:14-20 | the update keeps every id, username and email, so unique constraints and foreign keys hold, and applying it twice is applying it once |
| StatusRoute.WithStatusEffect | src/app/api/db/users/status/route.ts:16-19 | only `status` and `lastActiveAt` of the matching row change; every other column and row stays |
| StatusRoute.Post | src/app/api/db/users/status/route.ts:6-23 | 401 without a session username, 500 for an unparsable body, else 200 whether or not a row matched; only the users table changes, and only on 200 |
| ConnectionsRoute.Lite | src/app/api/github/connections/route.ts:39-53 | a listed user carries the upstream id, login as username and avatar URL |
| ConnectionsRoute.Logins | src/app/api/github/connections/route.ts:33 | the set holds exactly the logins of the followed users |
| ConnectionsRoute.Mutuals | src/app/api/github/connections/route.ts:36 | the mutuals are the followers, in order, whose login some followed user has |
| ConnectionsRoute.Get | src/app/api/github/connections/route.ts:4-54 | 401 exactly without an access token; 400 exactly when either upstream call fails; otherwise followers and following mapped one to one, in order, and the mutuals mapped |
| ConnectionsRoute.MutualByLogin | src/app/api/github/connections/route.ts:33-36 | mutuality is decided by login alone, whatever the ids are |
| ConnectionsRoute.MutualLoginsSymmetric | src/app/api/github/connections/route.ts:33-36 | the mutuals' logins are the logins on both lists, whichever list is filtered |
| ConnectionsRoute.NotFollowedBackNotMutual | src/app/api/github/connections/route.ts:36 | a follower whose login is not followed is never a mutual |
| LanguagesRoute.RepoLanguages | src/app/api/github/languages/route.ts:29-33 | at most one language per repository is counted |
| LanguagesRoute.CountLanguages | src/app/api/github/languages/route.ts:27-33 | the loop yields the distinct truthy languages in first-seen order, and each one's count is the number of repositories with it, at least one |
| LanguagesRoute.TallyStep | src/app/api/github/languages/route.ts:30-32 | one more language appends a new key with count 1 or increments a known one, keeping the tally right |
| LanguagesRoute.CountStep | src/app/api/github/languages/route.ts:29-33 | one more repository adds its language exactly when it is truthy, and adds a key only when the language is new |
| LanguagesRoute.ByCountTotal | src/app/api/github/languages/route.ts:37 | the descending-count comparator is a total preorder |
| LanguagesRoute.Get | src/app/api/github/languages/route.ts:4-49 | 401 exactly without a token; an upstream failure exactly when the call is not ok, with its status; otherwise the repository count and the top languages |
| LanguagesRoute.CountIgnoresMissing | src/app/api/github/languages/route.ts:30-32 | one more repository raises a language's count by one exactly when it has that truthy language; the empty language is never counted |
| LanguagesRoute.EmptyNeverCounted | src/app/api/github/languages/route.ts:30 | the empty string never appears among the counted languages |
| LanguagesRoute.RankedLanguages | src/app/api/github/languages/route.ts:36-37 | the ranked list holds each truthy language exactly once, ordered by count descending |
| LanguagesRoute.TakeOfSorted | src/app/api/github/languages/route.ts:36-38 | cutting the ranked list to seven keeps it ordered by count, and nothing cut off has a larger count than what is kept |
| LanguagesRoute.TopLanguagesRanked | src/app/api/github/languages/route.ts:36-39 | at most seven distinct languages, each used, by count non-increasing, and none left out has a larger count than one kept |
| Channels.ConversationChannel | src/app/api/db/messages/route.ts:44-48 | the server's channel name is `conversation-` followed by the conversation id in decimal |
| Channels.ChannelInjective | src/app/api/db/messages/route.ts:44-48 | no two conversations share a server channel |
| Channels.ClientChannel | src/hooks/user-pusher.ts:12 | the client's channel name is `conversation-` followed by the id it holds |
| Channels.ClientMeetsServer | src/hooks/user-pusher.ts:12-15 | a client holding the decimal id subscribes to the very channel the server publishes on |
| Channels.ClientChannelInjective | src/hooks/user-pusher.ts:12 | distinct client ids give distinct channel names |
| DbCustoms.OtherParticipant | src/components/direct-messages/index.tsx:125-127 | the other participant is the first participant whose id is not the caller's, and there is none exactly when every participant's id is the caller's |
| DbCustoms.Title | src/components/direct-messages/index.tsx:155 | the title is never empty: the other participant's username when it is non-empty, else the name, else "friend" |
| DirectMessages.JoinContainsEach | src/components/direct-messages/index.tsx:35 | every username occurs in the space-joined usernames |
| DirectMessages.FilteredConversationsFacts | src/components/direct-messages/index.tsx:34-38 | a conversation is listed exactly when its name, or its joined usernames when it has no name, contains the query ignoring case; the list keeps the input order; an empty query lists all |
| DirectMessages.NamelessFoundByUsername | src/components/direct-messages/index.tsx:35-37 | a conversation without a name is found by any of its participants' usernames |
| DirectMessages.NamedIgnoresParticipants | src/components/direct-messages/index.tsx:35 | a named conversation is matched on its name alone, even an empty one |
| DirectMessages.FindConversation | src/components/direct-messages/index.tsx:33 | the position found holds the id and no earlier conversation has it; nothing is found exactly when no conversation has it |
| DirectMessages.CurrentConversation | src/components/direct-messages/index.tsx:33 | the current conversation is a listed one with the selected id; there is none exactly when nothing is selected or no conversation has that id |
| DirectMessages.MarkReadRequest | src/components/direct-messages/index.tsx:40-55 | a read request is sent exactly when an id is selected, there is a session user and the selected conversation exists and has a latest message; it names that conversation and that message |
| DirectMessages.TextsOf | src/components/direct-messages/index.tsx:164-177 | without a conversation or a latest message both texts are "No messages yet" |
| DirectMessages.RowTextsIgnoreRow | src/components/direct-messages/index.tsx:164-177 | as written, every row shows the same time and preview, whichever conversation it is |
| DirectMessages.RowTextsCounterexample | src/components/direct-messages/index.tsx:164-177 | with two conversations and the first selected, the second row shows the first one's message |
| DirectMessages.OwnRowTexts | src/components/direct-messages/dm-overview.tsx:82-100 | a row's texts are its own latest message's time and content, or "No messages yet" |
| DirectMessages.RowWith | src/components/direct-messages/index.tsx:122-180 | a row shows the other participant, its title, and the unread count as a badge exactly when it is positive |
| DirectMessages.RowOf | src/components/direct-messages/index.tsx:122-180 | as written, a row has its own participant, title and badge but the selected conversation's texts |
| DirectMessages.CorrectedRowOf | src/components/direct-messages/dm-overview.tsx:82-100 | the corrected row (see Findings): the same participant, title and badge with the row's own latest message or "No messages yet" |
| DmOverview.OverviewCard.constructor | src/components/direct-messages/dm-overview.tsx:18-20 | a card starts with its conversation, no recipient and no subscription |
| DmOverview.OverviewCard.Mount | src/components/direct-messages/dm-overview.tsx:22-45 | without a session `dbId` nothing changes; otherwise the recipient is the first other participant and the card subscribes to its own conversation's channel |
| DmOverview.OverviewCard.OnUpdate | src/components/direct-messages/dm-overview.tsx:31-36 | an event for this conversation replaces its latest message and update time; any other event changes nothing |
| DmOverview.OverviewCard.Cleanup | src/components/direct-messages/dm-overview.tsx:39-42 | the cleanup unsubscribes exactly the channel the card subscribed to, and leaves no subscription |
| DmOverview.PreviewFacts | src/components/direct-messages/dm-overview.tsx:91-100 | the preview is "No messages yet" without a latest message; otherwise the content, prefixed "You: " exactly when the sender is the caller |
| DmOverview.ListedPreviewHasNoYou | src/components/direct-messages/dm-overview.tsx:93 | for a caller with a session `dbId`, a latest message without `senderId`, as the listing supplies it, is never prefixed "You: " |
| DmOverview.SignedOutPreviewHasYou | src/components/direct-messages/dm-overview.tsx:93 | without a session `dbId`, a latest message without `senderId` is always prefixed "You: " |
| DmOverview.Badge | src/components/direct-messages/dm-overview.tsx:76-80 | the badge is shown, with the count, exactly when the unread count is positive |
| ChatArea.SendOutcome | src/components/direct-messages/chat-area.tsx:94-105 | nothing is posted exactly when the text is blank or the id is falsy; otherwise the trimmed text is posted to that conversation |
| ChatArea.PostedContentIsTrimmed | src/components/direct-messages/chat-area.tsx:95-97 | posted content is non-empty and neither starts nor ends with whitespace |
| ChatArea.ChatArea.constructor | src/components/direct-messages/chat-area.tsx:26-35 | the area starts with no messages, an empty input, not sending, nothing posted |
| ChatArea.ChatArea.Type | src/components/direct-messages/chat-area.tsx:34 | typing sets the input and nothing else |
| ChatArea.ChatArea.Send | src/components/direct-messages/chat-area.tsx:94-118 | a refused send changes nothing; otherwise one request is posted, the input cleared and the sending flag reset; the message list never changes |
| ChatArea.ChatArea.Deliver | src/components/direct-messages/chat-area.tsx:143-145 | a `new-message` event on this conversation's channel is appended at the end; any other event leaves the list |
| ChatArea.OtherChannelsIgnored | src/hooks/user-pusher.ts:9-15 | events on another conversation's channel are not listened to |
| ChatArea.IsNearBottom | src/components/direct-messages/chat-area.tsx:132-141 | near the bottom exactly when at most 100 pixels of content lie below the view |
| ChatArea.NearBottomMonotone | src/components/direct-messages/chat-area.tsx:136-140 | scrolling further down never leaves the near-bottom zone |
| ChatArea.DeliveredMessageMarksRead | src/components/direct-messages/chat-area.tsx:61-77 | once a listened-to event arrived the mark-as-read effect runs |
| ChatArea.MountedWithoutIdIsInert | src/components/direct-messages/index.tsx:188-193 | as mounted, without `conversationId`, the messages are never fetched (so the loading view stays), and nothing is ever posted, listened to or marked read |
| ChatArea.MountedWithIdSends | src/components/direct-messages/chat-area.tsx:20-30 | given the selected id as `conversationId`, non-blank text is posted to that conversation, trimmed |
| ChatSection.NewMessage | src/components/chat-section.tsx:80-90 | a sent message carries the input as typed, the user's name, login and avatar, "Just now", the text kind and the clock reading as id |
| ChatSection.MemberBadge | src/components/chat-section.tsx:113 | the member badge is the number of messages plus 47, so never below 47 |
| ChatSection.BadgeCountsAppends | src/components/chat-section.tsx:113 | each appended message raises the badge by one |
| ChatSection.ChatSection.constructor | src/components/chat-section.tsx:72-75 | the view starts on "general", with the fixture messages and an empty input |
| ChatSection.ChatSection.Type | src/components/chat-section.tsx:74 | typing sets the input only |
| ChatSection.ChatSection.Send | src/components/chat-section.tsx:77-94 | whitespace-only input changes nothing; otherwise the untrimmed input is appended as a new message after the earlier ones and the input is cleared |
| ChatSection.ChatSection.KeyPress | src/components/chat-section.tsx:96-101 | Enter without Shift sends as `Send` does; any other key changes nothing |
| CollabSection.FilteredSpacesFacts | src/components/collab-section.tsx:123-130 | a space is listed exactly when its name, description or a language contains the query ignoring case; the list keeps its order; an empty query lists all |
| CollabSection.Strip | src/components/collab-section.tsx:282-296 | the card shows the first three members at most, in order, and counts all of them |
| CollabSection.CollabSection.constructor | src/components/collab-section.tsx:120-121 | the view starts with an empty query and the dialog closed |
| CollabSection.CollabSection.Search | src/components/collab-section.tsx:213 | typing sets the query and leaves the dialog as it is |
| CollabSection.CollabSection.OpenDialog | src/components/collab-section.tsx:333 | the button opens the dialog and leaves the query |
| CollabSection.CollabSection.Create | src/components/collab-section.tsx:196-199 | the dialog's Create button only closes the dialog: the listed spaces are the same |
| Discovery.EmptySearchMatches | src/components/discovery/developers.tsx:34-39 | an empty query matches every card, whatever its fields hold |
| Discovery.FilteredDevelopersFacts | src/components/discovery/developers.tsx:33-52 | a developer is listed exactly when the search, the language select and the location select all keep them; the list keeps its order |
| Discovery.UnfilteredDevelopers | src/components/discovery/developers.tsx:33-52 | with no query and both selects on "all" every developer is listed |
| Discovery.SpecificFiltersNeverAdd | src/components/discovery/developers.tsx:41-49 | choosing a language or a location instead of "all" only removes developers |
| Discovery.LanguageIsEqualityNotSubstring | src/components/discovery/developers.tsx:41-45 | the language select compares whole names ignoring case, while the search box matches parts of them |
| Discovery.FilteredProjectsFacts | src/components/discovery/projects.tsx:55-62 | a project is listed exactly when its name, description or a language contains the query ignoring case; the list keeps its order; an empty query lists all |
| Discovery.LanguageBadges | src/components/discovery/developers.tsx:93-102 | up to three languages are shown as they are; beyond three, the first three and "+n" |
| Discovery.BadgesAccountForAll | src/components/discovery/developers.tsx:93-102 | the three shown languages and the number after "+" account for every language exactly once |
| DiscoverySection.SelectsIgnoredByProjects | src/components/discovery-section.tsx:181-188 | the language and location selects never change the project list |
| DiscoverySection.ShowFacts | src/components/discovery-section.tsx:160-188 | with no query and both selects on "all" both lists are complete; otherwise both keep their order |
| Friends.CurrentList | src/components/friends/index.tsx:51-66 | without connections the list is empty; otherwise the active tab's list, and the in-app tab is always empty |
| Friends.Ids | src/components/friends/index.tsx:82 | the ids of a list, one per user, in order |
| Friends.LastIndexWithId | src/components/friends/index.tsx:75-83 | the position holds the id and no later user has it: the entry a `Map` keeps after repeated sets |
| Friends.DedupById | src/components/friends/index.tsx:75-84 | the de-duplicated ids are the distinct ids in first-occurrence order, and each entry is the last user with its id |
| Friends.DedupByIdFacts | src/components/friends/index.tsx:75-84 | after de-duplication no id repeats, every entry comes from the input and no id is lost |
| Friends.FilteredList | src/components/friends/index.tsx:69-89 | without connections the list is empty; without a query it is the tab's list; with a query it keeps, in order, exactly the de-duplicated users of the three lists that match |
| Friends.SearchAcrossTabs | src/components/friends/index.tsx:72-88 | with a query the tab plays no part, every listed user matches and comes from one of the three lists, a de-duplicated user is listed exactly when it matches, and no id is listed twice |
| Friends.DedupSameId | src/components/friends/index.tsx:72-88 | two entries with the same id collapse into the later one |
| Friends.SearchUsesLastEntry | src/components/friends/index.tsx:72-88 | an id seen under two usernames keeps the later one, so searching the earlier username finds nobody |
| Friends.SubsequenceKeepsDistinctIds | src/components/friends/index.tsx:86-88 | filtering a list with distinct ids keeps them distinct |
| Friends.TotalPages | src/components/friends/index.tsx:91 | the page count is the least number of six-item pages that holds the list, zero exactly for an empty list |
| Friends.Page | src/components/friends/index.tsx:93-96 | a page holds at most six items: the slice starting at `(page - 1) * 6`, cut at the list's end, empty past it |
| Friends.PagesPrefix | src/components/friends/index.tsx:93-96 | pages 1 to k one after the other are the list's first `6k` items |
| Friends.PagesCoverList | src/components/friends/index.tsx:91-96 | pages 1 to `totalPages` put back together are the whole list |
| Friends.StatusColor | src/components/friends/index.tsx:98-109 | emerald exactly for "online", yellow exactly for "away", gray for anything else, compared case-sensitively |
| Friends.BadgeColorIsGray | src/components/friends/index.tsx:336-338 | the literal "Online" the avatar badge passes maps to gray |
| Friends.Missing | src/components/friends/index.tsx:130 | the users to enrich are exactly the page's users without an entry |
| Friends.Fetched | src/components/friends/index.tsx:147 | the kept results are exactly the fetches that produced a profile |
| Friends.FetchedAppend | src/components/friends/index.tsx:147 | `filter(Boolean)` keeps the order of the results: the profiles of a concatenation are those of each part, in turn |
| Friends.MergeEnriched | src/components/friends/index.tsx:149-155 | the updater's loop yields the record with every fetched profile assigned under its username, in order |
| Friends.MergedEntries | src/components/friends/index.tsx:149-155 | the merge writes exactly the fetched usernames, each with the last profile fetched for it, and keeps every other entry as it was |
| Friends.MarkLoading | src/components/friends/index.tsx:161-165 | the status pass marks each page user without an entry as loading and requests a check for exactly those |
| Friends.WithLoadingEntries | src/components/friends/index.tsx:162-164 | the pass keeps every existing entry and adds exactly the page's missing usernames, as loading |
| Friends.UncheckedMembers | src/components/friends/index.tsx:163-166 | checks are requested for exactly the page's usernames without an entry, and each is loading afterwards |
| Friends.Settle | src/components/friends/index.tsx:166-179 | a finished check sets the username to exists exactly when the response said so, else not-found, never leaves it loading, and keeps every other entry |
| Friends.PreviousPage | src/components/friends/index.tsx:273 | Previous never goes below page 1 and otherwise goes back one |
| Friends.NextPage | src/components/friends/index.tsx:299 | Next never goes beyond the last page and otherwise goes forward one |
| Friends.FriendsView.constructor | src/components/friends/index.tsx:36-40 | the view starts on the following tab, with no query, on page 1 |
| Friends.FriendsView.SelectTab | src/components/friends/index.tsx:185-187 | a tab click selects the tab and sends the page back to 1 |
| Friends.FriendsView.Search | src/components/friends/index.tsx:224-226 | a keystroke sets the query and sends the page back to 1 |
| Friends.FriendsView.Previous | src/components/friends/index.tsx:273 | the page becomes `PreviousPage` of the old one; tab and query stay |
| Friends.FriendsView.Next | src/components/friends/index.tsx:299 | the page becomes `NextPage` of the old one, never beyond the last; tab and query stay |
| Friends.FriendsView.GoTo | src/components/friends/index.tsx:289 | a numbered link sets the page to its number; tab and query stay |
| ProfileRepos.Languages | src/components/profile-repos.tsx:49-51 | a language is collected exactly when it is non-empty and some repository has it |
| ProfileRepos.StringLeTotalPreorder | src/components/profile-repos.tsx:52 | the default string order of `sort()` is a total preorder |
| ProfileRepos.AvailableLanguagesFacts | src/components/profile-repos.tsx:48-53 | the choices are the non-empty languages of the repositories, each once, in strictly ascending order |
| ProfileRepos.SortKeyOf | src/components/profile-repos.tsx:77-87 | "name" and "stars" select those orders; every other value sorts by update time |
| ProfileRepos.PrecedesTotalPreorder | src/components/profile-repos.tsx:76-88 | each of the three comparators is a total preorder |
| ProfileRepos.FilteredReposPermutation | src/components/profile-repos.tsx:56-90 | the list is a permutation of a sub-multiset of the repositories |
| ProfileRepos.FilteredReposMembers | src/components/profile-repos.tsx:57-74 | a repository is listed exactly when the search, the language filter and the type filter all keep it |
| ProfileRepos.FilteredReposSorted | src/components/profile-repos.tsx:76-88 | the list is ordered by the chosen key |
| ProfileRepos.SortModes | src/components/profile-repos.tsx:76-88 | by name ascending, by stars non-increasing, and by update time non-increasing with a missing time as 0 |
| ProfileRepos.EmptyQueryMatchesSearch | src/components/profile-repos.tsx:58-63 | an empty query matches every repository |
| ProfileRepos.NoFiltersKeepAll | src/components/profile-repos.tsx:56-90 | with no query and both selects on "all" every repository is listed |
| ProfileRepos.CountBadge | src/components/profile-repos.tsx:130 | the count badge is the number of kept repositories, never more than there are |
| MentionDisplay.TrailingWord | src/components/room-messages/mention-display.tsx:27 | the longest run of word characters at the end of the message |
| MentionDisplay.MentionStartIsTheMatch | src/components/room-messages/mention-display.tsx:26-29 | the pattern `@[\w]*$` matches at one position at most, and the model finds exactly that position |
| MentionDisplay.MatchIsLastAt | src/components/room-messages/mention-display.tsx:27 | the matched "@" is the last "@" of the message |
| MentionDisplay.Complete | src/components/room-messages/mention-display.tsx:26-29 | without a match the message is unchanged; with one, the text before the "@" followed by "@", the username and a space, which the result ends with |
| MentionDisplay.CompleteFacts | src/components/room-messages/mention-display.tsx:26-29 | where the pattern matches the text before the "@" survives and no later "@" exists; where it matches nowhere the message is unchanged |
| MentionDisplay.OnSelect | src/components/room-messages/mention-display.tsx:25-32 | selecting a user rewrites the message and always hides the list |
| PrivateMessaging.InitialSelection | src/components/private-messaging.tsx:121 | the first selection is `chatId` when it is truthy, else "sarah", and never empty |
| PrivateMessaging.CurrentMessages | src/components/private-messaging.tsx:128-129 | the selected chat's messages, and none when the record has no entry for it |
| PrivateMessaging.FilteredConversationsFacts | src/components/private-messaging.tsx:131-133 | a conversation is listed exactly when its name contains the query ignoring case; the list keeps its order; an empty query lists all |
| PrivateMessaging.UnreadTotalCoversSearch | src/components/private-messaging.tsx:170-173 | the header badge sums every conversation, so with non-negative counts it is at least the total of any search result |
| PrivateMessaging.PrivateMessaging.constructor | src/components/private-messaging.tsx:121-123 | the view starts on the initial selection with an empty input and query |
| PrivateMessaging.PrivateMessaging.Type | src/components/private-messaging.tsx:122 | typing sets the input only |
| PrivateMessaging.PrivateMessaging.Send | src/components/private-messaging.tsx:135-139 | whitespace-only input is kept; anything else is only cleared, and the selection stays |
| PrivateMessaging.PrivateMessaging.Search | src/components/private-messaging.tsx:181 | typing in the search box sets the query only |
| PrivateMessaging.PrivateMessaging.Select | src/components/private-messaging.tsx:197 | a row click selects that conversation and changes nothing else |
| PrivateMessaging.PrivateMessaging.Deselect | src/components/private-messaging.tsx:248 | the back button clears the selection and changes nothing else |
| PrivateMessaging.PrivateMessaging.KeyPress | src/components/private-messaging.tsx:141-146 | Enter without Shift sends as `Send` does; any other key changes nothing |
| MobileNav.NavItems | src/components/mobile-nav.tsx:19-62 | six items; Home carries the notification count and Chats the message count, each 0 when not given; every other badge is 0 |
| MobileNav.NavIdsDistinct | src/components/mobile-nav.tsx:25-62 | the six item ids are pairwise distinct |
| MobileNav.BadgeLabel | src/components/mobile-nav.tsx:85-88 | a badge is shown exactly for a positive count: "9+" above 9, else the digit |
| MobileNav.AtMostOneActive | src/components/mobile-nav.tsx:69 | at most one item is active for any current section |
| Strings.Trim | src/components/direct-messages/chat-area.tsx:97 | `trim()` returns a slice with whitespace only cut off at either end and none left at its ends |
| Strings.SkipLeading | src/components/direct-messages/chat-area.tsx:97 | the position found is the first one that is not whitespace; everything skipped is whitespace |
| Strings.SkipTrailing | src/components/direct-messages/chat-area.tsx:97 | the end found follows a non-whitespace character or is the start; everything cut off is whitespace |
| Strings.BlankIffAllWhitespace | src/components/chat-section.tsx:78 | `!s.trim()` holds exactly when every character is whitespace |
| Strings.EmptyQueryMatches | src/components/discovery/developers.tsx:35 | every string includes the empty query, ignoring case |
| Strings.NatToString | src/app/api/db/messages/route.ts:45 | a number renders as a non-empty string of decimal digits |
| Strings.NatToStringRoundTrip | src/app/api/db/messages/route.ts:45 | reading the rendered digits back gives the number |
| Strings.LeadingDigits | src/app/api/db/conversations/dms/route.ts:30 | the longest prefix made of decimal digits |
| Strings.ParseIntPrefix | src/app/api/db/conversations/dms/route.ts:30 | `parseInt` gives NaN exactly when the string does not start with a digit |
| Strings.StringLeTotal | src/components/profile-repos.tsx:52 | any two strings are ordered one way or the other |
| Strings.StringLeTransitive | src/components/profile-repos.tsx:52 | the string order is transitive |
| Strings.StringLeAntisymmetric | src/components/profile-repos.tsx:52 | two strings ordered both ways are equal |
| Strings.ContainsLower | src/components/direct-messages/index.tsx:36-37 | an occurrence survives lower-casing both strings |
| Seqs.Filter | src/components/collab-section.tsx:123 | `filter` keeps exactly the elements satisfying the predicate, in their order |
| Seqs.Map | src/app/api/github/connections/route.ts:39 | `map` gives one result per element, in order |
| Seqs.Take | src/app/api/github/languages/route.ts:38 | `slice(0, n)` gives the first n elements, or all when there are fewer |
| Seqs.Distinct | src/components/profile-repos.tsx:49-52 | `Array.from(new Set(s))` holds each element of s exactly once |
| Sorting.Sort | src/components/profile-repos.tsx:76 | the sort returns a permutation of its input |
| Sorting.SortSorted | src/components/profile-repos.tsx:76 | with a total-preorder comparator the sort's result is ordered |

## Left out

- Network and I/O: every `fetch`, the GitHub HTTP calls, Pusher delivery and its failures,
  the NextAuth session machinery and drizzle/Postgres themselves. Upstream replies, sessions
  and bodies are inputs, and a publish is an entry appended to `PushServer.log`.
- Concurrency: the per-conversation queries of the DM listing run concurrently in the
  source, and racing requests could both create a DM; each handler is one atomic step here.
- React rendering, effect timing and stale closures: effects are modelled as the state
  change they make once they run.
- SQL `LIKE` wildcards (`%` and `_` inside the query) and collation: the prefix search treats
  the query literally.
- Rows returned without `ORDER BY` are in store order, and ties under `ORDER BY` keep store
  order. The database promises neither.
- DmsRoute.Limit: leading whitespace and a sign before the digits are not modelled. Such
  strings give no cap, where `parseInt` would read them.
- UsersRoutes.SearchLimit: `Number(...)` of a non-numeric, negative or fractional string is
  not modelled; the limit is a natural number or absent.
- Enum casts: a status value outside the enum, which the database would reject, is not
  representable; the body's status is an optional enum value.
- Strings.Lower lower-cases ASCII letters only; full Unicode case mapping is left out.
- ProfileRepos.SortModes: the name order is code-point order, a stand-in for
  `localeCompare`'s locale collation.
- Strings.StringLe compares Unicode code points, while JavaScript's default `sort()` compares
  UTF-16 code units; the two orders differ only for characters outside the Basic
  Multilingual Plane, which the model does not distinguish.
- The in-place `filtered.sort(...)` of the repository tab is modelled on values, as a stable
  sort of the filtered copy (`Sorting.Sort`). It never reorders the input.
- Date parsing and `formatDistanceToNow`: `updatedAt` is an optional integer, and a row's
  time text is the raw timestamp.
- Object key order: `Object.entries` of the language counts is taken in first-seen order,
  which is what JavaScript gives for non-numeric keys. Integer-like language names are left
  out.
- `String.prototype.replace` treats `$` sequences in the replacement specially. A username
  containing `$&` or `$1` is not modelled.
- The mock-message lookup by chat id ignores inherited object keys such as `constructor`.
- Mock fixtures (chat messages, conversations, developers, projects, spaces) are constructor
  or function parameters, not the literal lists.
- `Array.isArray` on the usernames body: values that are arrays of non-strings are left out;
  the body's list is `Option<seq<string>>`.
- `openDM` in the friends view only posts to the DM route and logs the answer. The route it
  calls is modelled as `ConversationsRoute.Post`.
- The routes of the context files are not part of this model: message fetch and post under
  `/api/db/messages/dms/...`, conversation read marks, check-existence and the repos proxy.
  Their calls appear only as the requests the components send.
- ChatArea.ChatArea.Send does not distinguish a failed response from a successful one. Both
  end with the input cleared, and the toast is not modelled.
- ChatArea.ChatArea.constructor does not model the initial message fetch (I/O).
  `loadingMessages` and the hidden render without a session user are left out.

## Findings

| source | as written | input that shows it | evidently intended | confidence | as-written member | corrected member |
|---|---|---|---|---|---|---|
| src/components/direct-messages/index.tsx:164-177 | every row's time and preview read `currentConversation`, the selected conversation | conversation c1 with last message "hello" is selected; the row of c2, whose last message is "bye", shows "hello" | each row shows its own latest message, as the overview card in `dm-overview.tsx` does | not executed | DirectMessages.RowTextsCounterexample | DirectMessages.OwnRowTexts |
| src/components/direct-messages/index.tsx:188-193 | the chat area is mounted with a `dmId` prop, but it reads `conversationId` (`chat-area.tsx:20-30`), which is then undefined | any selected conversation: the mount fetch is skipped, so `loadingMessages` stays true and the composer never renders; no text could be posted and no channel event is listened to | the selected id is passed as `conversationId`, so text is posted to the selected conversation | not executed | ChatArea.MountedWithoutIdIsInert | ChatArea.MountedWithIdSends |
