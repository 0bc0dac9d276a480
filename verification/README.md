# Lemmy: models and proofs

A Dafny model of the parts of Lemmy (a federated link aggregator) that hold state machines, recursion and
arithmetic, with proofs of what they promise over every run. `dafny verify dfyconfig.toml` checks all of it.

The source changes state step by step, and so do the methods here. A method that changes state is proved against a
function on values (`CheckBucket`, `Deliver`, `Voted`, `Updated`, ...), and the lemmas prove what every sequence of such
steps keeps. What the step itself means is stated a second time without those functions, in terms of rows, messages, tasks,
tokens or text: `IsServed`, `IsDelivered`, `IsVote`, `Shows`, `HearsComment`, `AreTasks`, `IsScan` and the like. Database tables are maps, sets or sequences of rows with their unique indexes;
a handler, or the part of it under one lock, is one atomic step.

| file | what it models |
|---|---|
| `Fetcher.dfy`, `Database.dfy`, `ReplyChains.dfy` | fetching users, communities, posts and comments that refer to each other |
| `RateLimiter.dfy`, `RateLimited.dfy` | the token buckets, and the wrapper with its two lock sections |
| `ChatServer.dfy`, `Captcha.dfy` | the websocket rooms, message fan-out, and the captcha store |
| `Apub.dfy`, `Activities.dfy`, `ActivityQueue.dfy` | the admission check, the activity log, deliveries to followers |
| `Inbox.dfy` | the three inboxes: routing, de-duplication, Announce |
| `Replication.dfy`, `Follow.dfy`, `Votes.dfy` | two instances with a channel that may redeliver: follows and votes |
| `Relay.dfy` | a vote that reaches a third instance inside the community's Announce |
| `PostReplica.dfy` | a post written as a Page, read back, and updated or moderated from afar |
| `Moderators.dfy` | handing a community over, and learning its moderators elsewhere |
| `Mentions.dfy` | the mention scanner and its printer |
| `Paging.dfy`, `Bans.dfy` | windows of rows, and the loop that marks a banned user's comments |
| `Sequences.dfy`, `Wrappers.dfy` | iterator adaptors, Option and Result |

## How the fetcher is stated

Each of the mutually recursive methods ends because the request counter that it passes on never goes down: the
termination measure is what the counter has left, then the rank of the method. Whatever the network answers
(`remote` may answer every attempt differently, and objects may refer to each other in cycles), and whether a call
succeeds or fails anywhere, `Progress` holds from before to after: all references and unique indexes hold, no row is gone, no network id has
changed (a user's may change within its host), each new network id has passed the admission check, and every
request and attempt is paid for by the counter. When notes are answered under their own id and always with the same parent
(`FixedNotes`), `ChainsOk` is kept as well: stored parents are the network's parents, and older than their
replies. So a reply cycle on the network is never stored (`NetworkCycleIsNotStored`), and a fetch that leads into one fails
(`CycleCannotBeFetched`). Without that assumption a search can store one (`ChangedAnswerClosesACycle`): for all tables,
an upsert keeps the stored parents acyclic exactly when the chain of the form's parent does not lead to the row that the
upsert writes (`UpsertKeepsAcyclicIff`).

The clock is an arbitrary function of the number of requests made. The database may fail at any operation, unless it is
`reliable`: then no call ends in a database error, and the contracts say when it succeeds.

## Where the code differs from what it says

The model follows the code.

- Accepting a follow writes `pending = true`, the value that requesting it wrote (lemmy_db/src/community.rs:321).
- A disconnected session leaves its user, post and community rooms, but not its moderator room
  (lemmy_websocket/src/handlers.rs:45-60).
- The filter that should keep an instance from sending to itself compares with the host name with its port, so
  a configured port defeats it (lemmy_apub/src/activity_queue.rs:84-96): `OwnHostSkippedIff`.
- The shared inbox answers "not implemented" for an activity that it has just handled, exactly when that is addressed
  to a local user and no local community (lemmy_apub/src/inbox/shared_inbox.rs:88-100): `NotImplementedIff`.
- The id of an activity inside an Announce is looked up but not logged, so two Announces apply it twice, and so do an
  Announce and the activity itself (lemmy_apub/src/inbox/user_inbox.rs:254-258): `TwoAnnouncesApplyTwice`,
  `AnnouncedThenDelivered`. It is applied at most once in all runs exactly when no Announce can apply it at all:
  `AppliedAtMostOnceIff`.
- An activity inside an Announce is not checked against the receiver's bans, and a Dislike that the community's
  instance has no use for is passed on (lemmy_apub/src/inbox/community_inbox.rs:154-175,
  lemmy_apub/src/inbox/user_inbox.rs:237-280): `RelayedVotesConverge`.
- To an instance that is not admitted a Follow is silently not sent, and a vote is an error, but the row of both has
  been written by then (lemmy_apub/src/activity_queue.rs:47-65, lemmy_api/src/post.rs:302-325). With the bans these are
  the reasons for which two instances part: `FollowersAgreeIff`, `VotesAgreeIff`.
- Times are written with the offset of the sender and read back as local time, so they shift by it
  (lemmy_apub/src/objects/post.rs:193-202): `UpdateAgreesIff`.
- A comment or post in community 0, which is also the front page, would reach a listener there twice
  (lemmy_websocket/src/chat_server.rs:325-389): `CommentCount`, `PostAtMostOnce`. Stored communities are numbered from 1,
  so this message cannot come from the table.
- Fetching a comment refuses a locked post, searching for the same comment does not
  (lemmy_apub/src/fetcher.rs:195-202, lemmy_apub/src/fetcher.rs:501-505): `SearchStoresUnderALockedPost`. After the note
  is converted nothing else tells them apart: `LockIsTheDifference`.
- Two overlapping posts with one token both run, and one of the callers is told that it failed
  (lemmy_rate_limit/src/lib.rs:66-156): `OverlapCanRefuse`. Overlapping calls are all accepted, in every order and at
  all times, exactly when they are no more than the tokens and no more than the rate: `OverlapAcceptedIff`.
- The check for instances says that only one of the two lists may be used; with both, the allowlist wins and
  nothing panics (lemmy_apub/src/lib.rs:91-109): `CheckNeverPanics`.

## Model

| member | source | states |
|---|---|---|
| Fetcher.RequestsAreBounded | lemmy_apub/src/fetcher.rs:46-65 | any number of calls that share one counter pass the guard at most ten times in all and make at most thirty attempts, and keep everything `Progress` says |
| Fetcher.ChangedAnswerClosesACycle | lemmy_apub/src/fetcher.rs:195-202 | a note that is now answered as a reply to its own reply yields, from valid and acyclic tables, a form that the search stores as a cycle |
| Fetcher.UpsertKeepsAcyclicIff | lemmy_db/src/comment.rs:172-180 | for all tables and forms, an upsert keeps the stored parents acyclic exactly when the chain of the form's parent does not lead to the row it writes |
| ReplyChains.WriteKeepsAcyclicIff | lemmy_db/src/comment.rs:172-180 | the same for any write of one comment, new or known |
| Fetcher.CycleCannotBeFetched | lemmy_apub/src/fetcher.rs:473-516 | the fetch of a comment on a reply cycle of the network fails |
| Fetcher.LockIsTheDifference | lemmy_apub/src/fetcher.rs:195-202 | from one converted note, a fetch and a search end differently exactly when there is a form and its post is locked |
| Fetcher.SearchStoresUnderALockedPost | lemmy_apub/src/fetcher.rs:195-202 | a note for which a fetch answers that the post is locked, and a search stores the comment |
| Fetcher.StoredFetched | lemmy_apub/src/fetcher.rs:493-512 | a comment that came with its parents is stored one step further out than they are, with all chains right |
| Fetcher.StoredAsIs | lemmy_db/src/comment.rs:172-180 | the outcome of a converted note, row by row: nothing, or one row with what the form says and the parent that it leaves out |
| Fetcher.Onward | lemmy_apub/src/fetcher.rs:342-430 | `Progress` composes: rows, references, admission, requests and attempts over two stretches of a run add up to one |
| Fetcher.CheckObjectDomain | lemmy_apub/src/objects/mod.rs:44-59 | an id is accepted exactly when the object has one, it passes the admission check, and it has the expected host |
| Fetcher.Instance.Retry | lemmy_utils/src/request.rs:26-47 | succeeds exactly with the first attempt of three that did not time out, if that one brought an answer; between one and three attempts are made |
| Fetcher.Instance.FetchRemoteObject | lemmy_apub/src/fetcher.rs:54-86 | adds one to the counter; succeeds exactly with the answered object, if the counter is at most ten and the URL is admitted |
| Fetcher.Instance.UpsertUser | lemmy_db/src/user.rs:182-189 | writes the row that has the network id, or a new one, and no other |
| Fetcher.Instance.GetOrFetchUser | lemmy_apub/src/fetcher.rs:239-292 | a user that is local or written within a day is returned without a request; one that cannot be fetched is returned as it is; an unknown one becomes the answered person, and does so whenever that can be used; a failure writes nothing, a success at most the returned row |
| Fetcher.Instance.RefreshUser | lemmy_apub/src/fetcher.rs:252-272 | no answer: the known user, unchanged and without an error; an answer that cannot be used: an error; otherwise the row says what was answered and when, unless the new id is taken |
| Fetcher.Instance.CreateUser | lemmy_apub/src/fetcher.rs:274-289 | the row of the answered person, whenever a request may be made and the answer can be used; nothing else is written |
| Fetcher.Instance.UpsertCommunity | lemmy_db/src/community.rs:169-177 | writes the row that has the network id, or a new one, and no other |
| Fetcher.Instance.GetOrFetchCommunity | lemmy_apub/src/fetcher.rs:314-337 | ends for every network; a community that is local or written within a day is returned without a request; one that cannot be fetched is returned as it is; a newly learned one has the id of the answered group and all of its attributed users as moderators; no comment is touched |
| Fetcher.Instance.CommunityFromApub | lemmy_apub/src/objects/community.rs:113-196 | the row has the group's id, admitted and on the host of the URL, the time, and the first attributed user as creator: the known one if it was known, otherwise one from the host it names; only users are written |
| Fetcher.Instance.GetOrFetchUsers | lemmy_apub/src/fetcher.rs:361-376 | on success one stored user for every URI, in order, each from the host of its URI |
| Fetcher.Instance.JoinModerators | lemmy_apub/src/fetcher.rs:379-393 | exactly the users before the first one who is a moderator already join; they are distinct and new, and nothing else changes |
| Fetcher.Instance.AddModerators | lemmy_apub/src/fetcher.rs:361-393 | a community that was not known gets as moderators one user for every attributed URI, from its host, no two the same and all new, and nobody else; a known one gets none |
| Fetcher.Instance.StoreGroup | lemmy_apub/src/fetcher.rs:356-393 | the stored row is the one of the group, with its creator; if it was not known, the moderators are just the attributed users and those there were before |
| Fetcher.Instance.FetchRemoteCommunity | lemmy_apub/src/fetcher.rs:342-430 | ends for every network and keeps all integrity on every path; without an answer a known community is returned as it is and an unknown one is an error; a new one has every attributed user of the answered group as moderator |
| Fetcher.Instance.FetchOutbox | lemmy_apub/src/fetcher.rs:395-427 | asks for the outbox of the actor; if its first twenty pages have known local authors and communities, all of them that can be used are stored |
| Fetcher.Instance.StoreOutbox | lemmy_apub/src/fetcher.rs:401-427 | ends for every outbox; an unreadable item among the first twenty is an error; pages with known local authors and communities are all stored without a request |
| Fetcher.Instance.StorePage | lemmy_apub/src/fetcher.rs:407-426 | a page that cannot be converted is skipped, one with known local author and community is stored without a request; no comment is touched |
| Fetcher.Instance.UpsertPost | lemmy_db/src/post.rs:181-189 | writes the row that has the network id, or a new one, and no other |
| Fetcher.Instance.PostFromApub | lemmy_apub/src/objects/post.rs:107-213 | the form has the page's id, admitted and on the expected host, and the page's lock; creator and community come from the hosts that the page names, and are the known ones if they are known and local, in which case it succeeds exactly for a usable page |
| Fetcher.Instance.GetOrFetchCreatorAndCommunity | lemmy_apub/src/objects/post.rs:114-133 | creator and community are stored and come from the hosts that the page names, and are the known ones if they are known and local |
| Fetcher.Instance.GetOrFetchPost | lemmy_apub/src/fetcher.rs:436-467 | a known post is returned with nothing changed and nothing requested; the row of a fetched one says what the answered page says; a usable page with known local author and community is stored |
| Fetcher.Instance.FetchPost | lemmy_apub/src/fetcher.rs:449-464 | the fetched half of that: the row says what the answered page says |
| Fetcher.Instance.StoreFetchedPage | lemmy_apub/src/fetcher.rs:453-463 | the stored row says what the page says, and no comment is touched |
| Fetcher.Instance.UpsertComment | lemmy_db/src/comment.rs:172-180 | writes the row that has the network id, or a new one, and no other; a form without parent leaves the old parent |
| Fetcher.Instance.CommentFromApub | lemmy_apub/src/objects/comment.rs:96-152 | creator, post and parent are stored and come from the hosts that the note names; if all of them were known nothing changes and the form is the one the note yields; under fixed notes reply chains stay right and the parent is the network's |
| Fetcher.Instance.GetOrFetchCreatorAndPost | lemmy_apub/src/objects/comment.rs:102-121 | creator and post are stored and come from the hosts that the note names, and are the known ones if they were known; no comment is touched |
| Fetcher.Instance.StoreNote | lemmy_apub/src/fetcher.rs:493-512 | the row says what the note says and its post is not locked; the end is what the converted note makes of the tables at that point, or a database failure; under fixed notes it is a new row behind its parents |
| Fetcher.Instance.InsertComment | lemmy_apub/src/fetcher.rs:507-510 | a comment that came with its parents is one step further out than they are, so the upsert inserts |
| Fetcher.Instance.OverwriteComment | lemmy_apub/src/fetcher.rs:199-202 | an upsert with the true parent keeps every chain right |
| Fetcher.Instance.GetOrFetchParent | lemmy_apub/src/objects/comment.rs:123-134 | the comment on the host of the second entry, if there is one; under fixed notes it is that comment, stored behind its own parents |
| Fetcher.Instance.GetOrFetchComment | lemmy_apub/src/fetcher.rs:473-516 | ends for every network; a known comment is returned with nothing changed; a fetched one says what the answered note says, and ends as its form does if all that it names was known; under fixed notes no stored comment changes, chains stay right, and the result has the URL as its id |
| Fetcher.Instance.FetchComment | lemmy_apub/src/fetcher.rs:486-512 | an unknown comment is stored as the answered note says, under an open post; under fixed notes with the URL as its id and all chains right |
| Fetcher.Instance.FetchNote | lemmy_apub/src/fetcher.rs:491-492 | an answer of another kind is an error; a success has used up a request |
| Fetcher.Instance.GetOrFetchActor | lemmy_apub/src/fetcher.rs:222-233 | the community, or else the user, on the host of the URL; a known community that need not be fetched is returned as it is |
| Fetcher.Instance.SearchByApubId | lemmy_apub/src/fetcher.rs:105-215 | starts a counter of its own; without a host or an answer nothing changes; what it finds is on the host of the query, and a post or comment says what was answered; for an answer whose names are known it ends as told by `EndsAs`; reply chains stay right under fixed notes although it overwrites |
| Fetcher.Instance.StoreFound | lemmy_apub/src/fetcher.rs:150-212 | for every kind of answer: what is returned, what it says, and how the search ends if all that the answer names is known |
| Fetcher.Instance.StoreFoundNote | lemmy_apub/src/fetcher.rs:195-210 | the row says what the note says; the end is what the converted note makes of the tables at that point without asking for the lock, or a database failure; under fixed notes every chain stays right |
| ReplyChains.NetworkCycleIsNotStored | lemmy_apub/src/fetcher.rs:473-516 | no comment of a reply cycle on the network is ever stored |
| ReplyChains.NoStoredCycle | lemmy_apub/src/objects/comment.rs:125-134 | following stored parents any number of steps never comes back |
| ReplyChains.UpsertKeepsChains | lemmy_db/src/comment.rs:172-180 | storing a comment with its true parent keeps every chain right, in a new row and in a known one |
| ReplyChains.ReplyIsDeeper | lemmy_apub/src/objects/comment.rs:125-134 | fetching the parent of an unknown comment never stores that comment |
| Database.StepsAddUp | lemmy_apub/src/fetcher.rs:342-516 | keeping rows and admitting new ids is transitive over a run |
| Database.UserStep | lemmy_db/src/user.rs:182-189 | a write of a user keeps references, unique ids and admission |
| Database.CommunityStep | lemmy_db/src/community.rs:169-177 | a write of a community with a stored creator keeps references, unique ids and admission |
| Database.PostStep | lemmy_db/src/post.rs:181-189 | a write of a post with stored creator and community keeps references, unique ids and admission |
| Database.CommentStep | lemmy_db/src/comment.rs:172-180 | a write of a comment with stored creator, post and parent keeps references, unique ids and admission |
| RateLimiter.WindowBound | lemmy_rate_limit/src/rate_limiter.rs:56-113 | every window from s to t admits at most rate + (t - s) * rate / per consuming calls on a bucket, said in the two numbers of the limit, for every mixture of calls, although check-only calls refill without a cap |
| RateLimiter.CallIsCall | lemmy_rate_limit/src/rate_limiter.rs:67-106 | what one call does, without a division: d whole seconds bring d * rate tokens times per; a consuming call cuts to the rate and takes one token, a check does neither; it is admitted exactly with a whole token; an unused bucket starts with the rate |
| RateLimiter.ServedInFields | lemmy_rate_limit/src/rate_limiter.rs:56-113 | the same for the whole limiter: the bucket of the call, an unused one if there was none, and no other existing bucket |
| RateLimiter.CheckOnlyKeepsTokens | lemmy_rate_limit/src/rate_limiter.rs:67-106 | a call that only checks never takes tokens from a used bucket |
| RateLimiter.RunKeepsOk | lemmy_rate_limit/src/rate_limiter.rs:67-106 | in every run an allowance is the sentinel or not negative |
| RateLimiter.NoRefillUnderASecond | lemmy_rate_limit/src/rate_limiter.rs:67-79 | a bucket whose calls come under a second apart never grows, and admits at most what it held and at most the rate |
| RateLimiter.PatientCallAdmitted | lemmy_rate_limit/src/rate_limiter.rs:67-106 | a call `per` whole seconds after the last one is admitted |
| RateLimiter.ServeFrame | lemmy_rate_limit/src/rate_limiter.rs:35-113 | a call changes no other existing bucket, and makes unused ones of its own address only |
| RateLimiter.FreshBuckets | lemmy_rate_limit/src/rate_limiter.rs:35-53 | exactly the missing buckets of the address are made, unused |
| RateLimiter.TokensPay | lemmy_rate_limit/src/rate_limiter.rs:56-113 | what a bucket holds and can still gain pays for every admission of the rest of the run |
| RateLimiter.CallPays | lemmy_rate_limit/src/rate_limiter.rs:67-106 | no call makes a bucket worth more, and an admitted consuming call costs one token |
| RateLimiter.CheckBucketBounds | lemmy_rate_limit/src/rate_limiter.rs:67-106 | a call at an earlier time than the last one changes nothing, any other is recorded, and an admission leaves at most rate - 1 |
| RateLimiter.RefillBounds | lemmy_rate_limit/src/rate_limiter.rs:67-76 | a refill takes nothing away and never brings more than the exact elapsed time is worth |
| RateLimiter.UpdateBucket | lemmy_rate_limit/src/rate_limiter.rs:65-112 | the step by step update of one bucket has the outcome that the lemmas speak about |
| RateLimiter.RateLimiter.InsertIp | lemmy_rate_limit/src/rate_limiter.rs:35-53 | the nested maps gain the missing buckets of the address and nothing else |
| RateLimiter.RateLimiter.CheckRateLimitFull | lemmy_rate_limit/src/rate_limiter.rs:56-113 | the nested maps follow the one-map specification, verdict included, and do what one call means in the two numbers of the limit |
| RateLimited.SuccessesBounded | lemmy_rate_limit/src/lib.rs:66-156 | for every interleaving of lock sections, the calls on a bucket that return Ok, counted when they pay, obey the window bound |
| RateLimited.RunPays | lemmy_rate_limit/src/lib.rs:66-156 | for every interleaving, the calls that paid in a window are exactly the admissions in it |
| RateLimited.FailedFutureIsFree | lemmy_rate_limit/src/lib.rs:125-155 | after a failed future the limiter is as it was |
| RateLimited.QuietCallAccepted | lemmy_rate_limit/src/lib.rs:66-156 | a call that passed its first section is accepted by its second one if no other call took a token from the bucket in between and the clock did not go back |
| RateLimited.OverlapCanRefuse | lemmy_rate_limit/src/lib.rs:66-156 | a witness: two futures run on one token, and one caller is refused |
| RateLimited.OverlapAcceptedIff | lemmy_rate_limit/src/lib.rs:125-155 | overlapping Post or Register calls whose futures succeed are all accepted, for every order and all non-decreasing times of their last sections, exactly when they are no more than the tokens held and no more than the rate |
| RateLimited.EnoughTokens | lemmy_rate_limit/src/lib.rs:125-155 | with a token for each and no more calls than the rate, every order and timing accepts all |
| RateLimited.TokensNeeded | lemmy_rate_limit/src/rate_limiter.rs:67-106 | calls that are all accepted at one instant were paid for by what the bucket held, cut to the rate |
| RateLimited.OneCloses | lemmy_rate_limit/src/lib.rs:130-151 | a last section is accepted exactly if the refilled bucket, cut to the rate, holds a token, which it then loses |
| RateLimited.StepKeepsOk | lemmy_rate_limit/src/lib.rs:66-156 | success means a token was taken; Post and Register calls take one only on success; Message and Image calls under way have taken one |
| RateLimited.PaidOnlyOnSuccess | lemmy_rate_limit/src/lib.rs:66-156 | the same in every interleaving |
| RateLimited.FirstSection | lemmy_rate_limit/src/lib.rs:78-123 | the first section only checks for Post and Register, and consumes for Message and Image, which have paid when they go on |
| RateLimited.LastSectionIsFree | lemmy_rate_limit/src/lib.rs:125-155 | the last section of a Message or Image call, or after a failed future, touches no bucket |
| RateLimited.LastSectionPays | lemmy_rate_limit/src/lib.rs:130-151 | after a future that succeeded, Post and Register calls consume, and have paid exactly if they are admitted |
| RateLimited.WrapIsARun | lemmy_rate_limit/src/lib.rs:66-156 | two sections in a row are a run of the state machine |
| RateLimited.StepPays | lemmy_rate_limit/src/lib.rs:66-156 | a section adds a payer exactly when its limiter call is a consuming admission in the window |
| RateLimited.Wrapper.LockBefore | lemmy_rate_limit/src/lib.rs:78-123 | checks for Post and Register, where no token is lost, and consumes for Message and Image; and is the first section of the state machine |
| RateLimited.Wrapper.LockAfter | lemmy_rate_limit/src/lib.rs:125-155 | consumes for Post and Register after a success, and leaves the limiter alone otherwise; and is the second section of the state machine |
| RateLimited.Wrapper.Wrap | lemmy_rate_limit/src/lib.rs:66-156 | what both sections of a call that nothing overlaps find and leave; a Post or Register call whose future fails loses no token; one whose future ran and succeeded is accepted if time did not go back |
| ChatServer.ChatServer.Connect | lemmy_websocket/src/handlers.rs:21-39 | a session with an empty mailbox, in no new room |
| ChatServer.ChatServer.Disconnect | lemmy_websocket/src/handlers.rs:42-61 | the connection leaves its location and user, not its moderated community, and only if it had a session |
| ChatServer.ChatServer.JoinCommunityRoom | lemmy_websocket/src/chat_server.rs:107-134 | the rooms are the inverse image of one location per connection, which becomes the community |
| ChatServer.ChatServer.JoinModRoom | lemmy_websocket/src/chat_server.rs:136-157 | at most one moderated community per connection |
| ChatServer.ChatServer.JoinPostRoom | lemmy_websocket/src/chat_server.rs:159-186 | the location becomes the post, and the community room is left |
| ChatServer.ChatServer.JoinUserRoom | lemmy_websocket/src/chat_server.rs:188-206 | at most one user per connection |
| ChatServer.RoomSizesAddUp | lemmy_websocket/src/chat_server.rs:107-186 | post and community rooms together hold exactly the located connections, each once |
| ChatServer.TotalIsSize | lemmy_websocket/src/chat_server.rs:107-206 | rooms that are an inverse image hold every connection once |
| ChatServer.LeaveKeepsLocation | lemmy_websocket/src/chat_server.rs:112-119 | taking a connection out of every room is taking it out of the partial function |
| ChatServer.EnterKeepsLocation | lemmy_websocket/src/chat_server.rs:121-132 | putting it into one room is giving it that location |
| ChatServer.ChatServer.GetPostUsersOnline | lemmy_websocket/src/handlers.rs:194-204 | the number of connections located at the post |
| ChatServer.ChatServer.GetCommunityUsersOnline | lemmy_websocket/src/handlers.rs:206-216 | the number of connections located at the community |
| ChatServer.ChatServer.Sendit | lemmy_websocket/src/chat_server.rs:391-395 | one message for a live connection, nothing for a dead one |
| ChatServer.ChatServer.SendPostRoomMessage | lemmy_websocket/src/chat_server.rs:208-230 | each connection with a session that is located at the post and is not the sender gets the message once, and nobody else does |
| ChatServer.ChatServer.SendCommunityRoomMessage | lemmy_websocket/src/chat_server.rs:232-254 | the same for a community |
| ChatServer.ChatServer.SendUserRoomMessage | lemmy_websocket/src/chat_server.rs:301-323 | the same for the connections of a user |
| ChatServer.ChatServer.SendComment | lemmy_websocket/src/chat_server.rs:325-366 | dead connections and the sender get nothing; every message that is added is the comment without the sender's vote and id; one without recipients comes for the location, and one with them for each time that the user is named |
| ChatServer.ChatServer.SendPost | lemmy_websocket/src/chat_server.rs:368-389 | dead connections and the sender get nothing; every message that is added is the post without the sender's vote and id, one for each of the three places at which the connection is located |
| ChatServer.NamingAll | lemmy_websocket/src/chat_server.rs:325-366 | how many of a connection's messages carry the recipients, and how many carry none |
| ChatServer.CommentIsHeard | lemmy_websocket/src/chat_server.rs:325-366 | the content and the numbers of the messages that each mailbox gains |
| ChatServer.PostDelivered | lemmy_websocket/src/chat_server.rs:368-389 | the three rounds of a post add up to one message for each place |
| ChatServer.CommentCount | lemmy_websocket/src/chat_server.rs:325-366 | one copy for the location plus one for each time the user is named, and two for the front page in community 0 |
| ChatServer.PostAtMostOnce | lemmy_websocket/src/chat_server.rs:368-389 | nobody gets a post twice, exactly when it is not in community 0 or nobody listens there |
| Captcha.CaptchaStore.CheckCaptcha | lemmy_websocket/src/handlers.rs:226-243 | the in-place check follows the function that the lemmas speak about |
| Captcha.StoreHolds | lemmy_websocket/src/handlers.rs:218-243 | the store holds exactly the issued captchas that no check has named or found expired |
| Captcha.PassesIff | lemmy_websocket/src/handlers.rs:226-243 | for every clock, a check succeeds exactly when the id was issued with that answer and has not expired, and no check since then named it or found it expired |
| Captcha.PassesOnce | lemmy_websocket/src/handlers.rs:238-239 | with distinct ids no two checks of one id succeed, for every clock |
| Apub.ValidIff | lemmy_apub/src/lib.rs:43-110 | which hosts are admitted, for every configuration |
| Apub.BeforeColon | lemmy_apub/src/lib.rs:55-61 | the longest beginning of the host name without a colon |
| Apub.CheckNeverPanics | lemmy_apub/src/lib.rs:91-109 | the panic is unreachable for every configuration |
| ActivityQueue.FanOutIsExact | lemmy_apub/src/activity_queue.rs:84-96 | exactly the inboxes at the host and port of a remote follower, under our scheme, that are admitted and not at the own host name, each once |
| ActivityQueue.SharedInboxIs | lemmy_apub/src/activities/send/community.rs:183-197 | the inbox of a follower: the host, the port unless it is the default one, and our own scheme |
| ActivityQueue.OwnHostSkippedIff | lemmy_apub/src/activity_queue.rs:84-96 | the own inbox is left out for every list of followers, exactly when the configured name has no port or the inbox is not admitted anyway |
| ActivityQueue.RemoteInboxesAre | lemmy_apub/src/activities/send/community.rs:173-205 | the inboxes before filtering are those of the remote followers whose id has a host name |
| ActivityQueue.Sender.SendActivityInternal | lemmy_apub/src/activity_queue.rs:202-241 | when it succeeds; on success one task for each inbox in order, with the activity and the sender's name and key, and one log row; with federation off or no inbox nothing; a failure leaves some tasks short |
| ActivityQueue.Sender.SendToCommunityFollowers | lemmy_apub/src/activity_queue.rs:74-110 | exactly one task for each wanted inbox, with the activity and the community's name and key, and one local row in the log |
| ActivityQueue.Sender.SendToRemoteCommunity | lemmy_apub/src/activity_queue.rs:119-157 | an inbox that is not admitted gets nothing; otherwise one task, and the id is logged as local |
| Inbox.HandlersRunOnce | lemmy_apub/src/inbox/shared_inbox.rs:44-125 | for every sequence of requests at all inboxes, none of them handles the activity of a request (outside an Announce) twice, also if it failed |
| Inbox.KnownIsNeverApplied | lemmy_apub/src/inbox/mod.rs:38-51 | once an id is logged, neither a request nor an Announce around it has an effect |
| Inbox.OwnActivityNotReapplied | lemmy_apub/src/activity_queue.rs:216-238 | what a local user sent is not applied again when it comes back in an Announce |
| Inbox.TwoAnnouncesApplyTwice | lemmy_apub/src/inbox/user_inbox.rs:237-280 | whenever an Announce can apply an activity, two with ids of their own apply it twice |
| Inbox.AppliedAtMostOnceIff | lemmy_apub/src/inbox/user_inbox.rs:237-280 | in all runs Announces apply an activity at most once more, and Announces and inboxes together do, exactly when it is known, its id is not admitted, or nobody here is addressed by activities for users |
| Inbox.AnnouncedThenDelivered | lemmy_apub/src/inbox/user_inbox.rs:254-258 | an Announce around an activity and then the activity itself, at any inbox that handles it, apply it twice |
| Inbox.NeverAnnounced | lemmy_apub/src/inbox/user_inbox.rs:237-280 | no Announce ever applies an activity that is known, not admitted or has no audience |
| Inbox.InboxesHandleOnce | lemmy_apub/src/inbox/shared_inbox.rs:54-63 | from any state, requests handle an activity at most once more |
| Inbox.AudienceMatters | lemmy_apub/src/inbox/user_inbox.rs:168-199 | the user inbox takes something exactly on sites with a local user or a followed remote community |
| Inbox.NotImplementedIff | lemmy_apub/src/inbox/shared_inbox.rs:88-124 | the shared inbox says that it cannot handle what it has handled, exactly for an unknown activity to a local user and no local community that the user's handler finishes |
| Inbox.StepEffects | lemmy_apub/src/inbox/user_inbox.rs:80-280 | a step only adds to the log, and runs at most the handler of an id that was not in it |
| Inbox.DeliverIs | lemmy_apub/src/inbox/shared_inbox.rs:44-125 | for every inbox and activity: when it is logged, whose handlers run, when an Announce passes its content on (to the public, admitted, unknown, of a kind that is passed on), and what is answered |
| Inbox.UserInboxIsFor | lemmy_apub/src/inbox/user_inbox.rs:166-199 | activities for users address a local user, or first of all collections the followers of a remote community that has local ones |
| Inbox.FirstDecides | lemmy_apub/src/inbox/mod.rs:134-153 | the first addressed collection that is not of a local community decides: an unknown one is an error |
| Inbox.Inboxes.IsActivityAlreadyKnown | lemmy_apub/src/inbox/mod.rs:38-51 | whether the log has a row with the id |
| Inbox.Inboxes.CommunityInbox | lemmy_apub/src/inbox/community_inbox.rs:60-105 | what one request does to the log, whose handlers it runs, and what it is answered |
| Inbox.Inboxes.UserInbox | lemmy_apub/src/inbox/user_inbox.rs:80-125 | what one request does to the log, whose handlers it runs, and what it is answered |
| Inbox.Inboxes.SharedInbox | lemmy_apub/src/inbox/shared_inbox.rs:44-125 | what one request does to the log, whose handlers it runs, and what it is answered |
| Inbox.Inboxes.ReceiveMessage | lemmy_apub/src/inbox/user_inbox.rs:129-280 | who the user inbox is for, and what an Announce passes on |
| Replication.StepReplay | lemmy_apub/src/inbox/shared_inbox.rs:54-63 | a delivery, repeated or not, leaves what the receiver will end up with; an action changes it by its own activity |
| Replication.ReplayAppend | lemmy_apub/src/activity_queue.rs:230-238 | one more activity under way changes the outcome by itself alone |
| Replication.DeliverIsInOrder | lemmy_apub/src/inbox/shared_inbox.rs:54-63 | the next activity is applied when it is delivered, and nothing happens for one that comes again or too early |
| Replication.DeliveriesDrain | lemmy_apub/src/activity_queue.rs:230-238 | delivering what is under way drains the channel and leaves the receiver with the outcome |
| Follow.FollowersConverge | lemmy_apub/src/activities/send/user.rs:42-99 | in every run with redeliveries and late Accepts, what is under way turns the community's followers into the user instance's |
| Follow.FollowersAgree | lemmy_apub/src/inbox/community_inbox.rs:182-259 | both instances list the same followers when the channel is drained |
| Follow.FollowersAgreeIff | lemmy_apub/src/inbox/community_inbox.rs:182-277 | for all ban sets, the two tables agree on a pair in all runs that start in agreement, whenever the channel is drained, exactly when the pair is not banned and the inbox is admitted |
| Follow.PairConverges | lemmy_apub/src/activities/send/user.rs:42-99 | the rows of one unbanned pair converge, whatever the other rows are |
| Follow.SilenceBreaksAgreement | lemmy_apub/src/activity_queue.rs:47-65 | a witness: a Follow that is not sent leaves a row on one side |
| Follow.LateAcceptIsHarmless | lemmy_apub/src/inbox/user_inbox.rs:202-234 | no Accept brings back a follower who has unfollowed |
| Follow.BanBreaksAgreement | lemmy_apub/src/inbox/community_inbox.rs:261-277 | a witness for every ban set with the pair in it: the Undo is refused, and the two tables part |
| Follow.CommunityFollowers.Follow | lemmy_db/src/community.rs:302-310 | a row is inserted unless the pair has one |
| Follow.CommunityFollowers.FollowAccepted | lemmy_db/src/community.rs:311-323 | an accepted follow updates a row and never makes one |
| Follow.CommunityFollowers.Unfollow | lemmy_db/src/community.rs:324-336 | the row of the pair is gone, and only that one |
| Follow.UserInstance.SendFollow | lemmy_apub/src/activities/send/user.rs:42-71 | the pending row, and the Follow if the inbox is admitted |
| Follow.UserInstance.SendActivitySingleDest | lemmy_apub/src/activity_queue.rs:36-66 | an inbox that is not admitted gets nothing, and that is no error |
| Follow.UserInstance.FollowCommunity | lemmy_api/src/community.rs:499-509 | the pair has a row exactly after a follow, a row that is there stays, no other row changes, and an admitted inbox gets the Follow or its Undo |
| Follow.UserInstance.ReceiveAccept | lemmy_apub/src/inbox/user_inbox.rs:202-234 | fails without a row, changes no presence and no other row, and writes pending |
| Follow.CommunityInstance.ReceiveMessage | lemmy_apub/src/inbox/community_inbox.rs:108-259 | nothing for a banned user; otherwise the pair has a row exactly after a Follow, a row that is there stays, no other row changes, and a Follow is accepted |
| Votes.VotesConverge | lemmy_apub/src/activities/receive/post.rs:93-185 | under the condition of `VotesAgreeIff`, in every run with redeliveries each user's vote on each post ends up the same on both instances |
| Votes.VotesAgreeIff | lemmy_api/src/post.rs:282-325 | for all settings of both instances, the votes of a user on a post agree in all runs exactly when the voter's instance bans the user, or sends, and the replica neither bans the user nor lacks downvotes that the voter's instance has |
| Votes.FirstVoteIsLost | lemmy_apub/src/inbox/receive_for_community.rs:107-130 | otherwise one vote from empty tables is enough for them to part |
| Votes.OtherActKeepsVotes | lemmy_api/src/post.rs:282-325 | a refused vote, and anybody else's, leaves a user's vote alone on both sides |
| Votes.VotesConvergeWithoutDownvotes | lemmy_apub/src/inbox/receive_for_community.rs:107-130 | an instance without downvotes ends up with the run without its Dislikes |
| Votes.VotedVote | lemmy_api/src/post.rs:296-325 | a vote sets the voter's vote on that post and no other vote |
| Votes.VotedIsVote | lemmy_api/src/post.rs:302-325 | the vote of the user on the post is the new one, every other vote and score stays, and the post's score moves by the difference |
| Votes.VoteOfIsARow | lemmy_db/src/post.rs:235-251 | the vote of a user is the score of the one row there is |
| Votes.VotedKeepsRowsOk | lemmy_api/src/post.rs:296-325 | at most one row per user and post, with score 1 or -1 |
| Votes.TotalChanges | lemmy_api/src/post.rs:296-325 | the post's sum changes by exactly the new vote minus the old one, and no other sum does |
| Votes.ActKeepsSameVote | lemmy_apub/src/activities/receive/post_undo.rs:18-98 | the activity sent for a vote does to the replica what the vote did to the sender |
| Votes.RemovedRows | lemmy_db/src/post.rs:242-250 | exactly the rows of the user and post are deleted |
| Votes.RemovedTotal | lemmy_db/src/post.rs:242-250 | a removal lowers the post's sum by the removed vote |
| Votes.PostLikes.Remove | lemmy_db/src/post.rs:242-250 | the rows left are the ones that the lemmas speak about |
| Votes.PostLikes.Like | lemmy_db/src/post.rs:236-241 | a row is added unless the user has one for the post |
| Votes.VoterInstance.CreatePostLike | lemmy_api/src/post.rs:271-348 | a refused vote changes nothing; otherwise the user's vote is the score if that is 1 or -1 and none if not, all else stays, and the Like, Dislike or Undo is sent, or the vote is an error |
| Votes.VoterInstance.SendToCommunity | lemmy_apub/src/activity_queue.rs:135-153 | an inbox that is not admitted is an error, and gets nothing |
| Votes.ReplicaInstance.Receive | lemmy_apub/src/activities/receive/post.rs:93-185 | a Like makes the vote 1, a Dislike -1 if downvotes are on, an Undo none, and all else stays; nothing for a banned user or a Dislike where downvotes are off |
| Relay.RelayedVotesConverge | lemmy_apub/src/inbox/community_inbox.rs:142-175 | in every run with two redelivering channels and the Announces also coming back to the voter's instance, a third instance ends up with the voter's vote, under the condition for a direct channel with the community's bans; the community's downvote switch does not matter |
| Relay.RelayDrains | lemmy_apub/src/inbox/community_inbox.rs:169-175 | deliveries alone drain both channels, and the third instance then holds the outcome |
| Relay.ToCommunityOutcome | lemmy_apub/src/inbox/community_inbox.rs:122-175 | a delivery to the community's instance, repeated or not, leaves what the third instance will end up with |
| Relay.CastOutcome | lemmy_api/src/post.rs:296-325 | a vote changes what the third instance will end up with by its own activity |
| Relay.OtherStepsOutcome | lemmy_apub/src/inbox/user_inbox.rs:237-280 | an Announce delivered to the third instance, or back to the voter's, does not change it, and the voter's rows stay |
| Relay.AppliedVia | lemmy_apub/src/inbox/user_inbox.rs:260-279 | the third instance is a replica with its own downvote switch and the community's bans |
| PostReplica.ModerationSticks | lemmy_apub/src/activities/receive/post.rs:23-238 | in every run `deleted` and `removed` are what the last Delete, Remove or Undo of them said; Create and Update never change them |
| PostReplica.UpdateAgreesIff | lemmy_apub/src/objects/post.rs:44-213 | after an Update the replica agrees with the sender exactly when the sender's offset is zero and body and url either can be told or are the same already; published shifts by the offset |
| PostReplica.CreateAgreesIff | lemmy_apub/src/objects/post.rs:44-213 | a Create makes a visible replica, which agrees with the sender exactly when its offset is zero and its url, if any, is in parsed form |
| PostReplica.UpsertShows | lemmy_apub/src/objects/post.rs:107-213 | a page can be read exactly with a name without slurs; the row then says what the page says column by column, keeps what the page leaves out, and has neither flag of moderation touched |
| PostReplica.ToApubFailsIff | lemmy_apub/src/objects/post.rs:70-78 | a post cannot be written as a page exactly when its url does not parse |
| PostReplica.UpdateIsIdempotent | lemmy_apub/src/activities/receive/post.rs:56-91 | the same Update again changes nothing |
| PostReplica.PostRow.ReceiveCreate | lemmy_apub/src/activities/receive/post.rs:23-54 | the row says what the page says, column by column; it fails exactly for a page that cannot be read, and then changes nothing |
| PostReplica.PostRow.ReceiveUpdate | lemmy_apub/src/activities/receive/post.rs:56-91 | the row says what the page says, on top of what was fetched if the post was unknown; when it fails, and that it then changes nothing |
| PostReplica.PostRow.Upsert | lemmy_db/src/post.rs:181-189 | an insert with defaults, or an update that leaves the columns that are None |
| PostReplica.PostRow.UpdateDeleted | lemmy_db/src/post.rs:117-126 | the flag and the time, nothing else |
| PostReplica.PostRow.UpdateRemoved | lemmy_db/src/post.rs:128-137 | the flag and the time, nothing else |
| Moderators.Communities.TransferCommunity | lemmy_api/src/community.rs:729-844 | when it succeeds; then the listing has the new creator first and everybody else in the old order, and no other listing changes; a new creator who is no user changes nothing, one who is no moderator has become creator already when the error comes |
| Moderators.TransferReorders | lemmy_api/src/community.rs:765-802 | the listing has the new creator first and everybody else in the old order |
| Moderators.TransferIsFederated | lemmy_apub/src/objects/community.rs:47-60 | exported and learned elsewhere, the community can be imported exactly when its moderators are told apart there, and then has the new creator as creator and the same moderators in the same order |
| Moderators.ImportsIff | lemmy_apub/src/fetcher.rs:361-393 | the exported list of a community can be imported where it is new exactly when different moderators are different users there |
| Moderators.OthersKeepTheirModerators | lemmy_db/src/community.rs:222-226 | no other community's listing changes |
| Moderators.MovedKeepsDistinct | lemmy_api/src/community.rs:778-783 | moving to the front is a permutation that keeps the order of the others |
| Moderators.OrderedIsAscending | lemmy_db/src/community_view.rs:313-319 | the listing is a permutation of the rows in ascending order of time |
| Moderators.UsersOfCommunity | lemmy_db/src/community_view.rs:313-319 | the listing names every moderator of the community once |
| Moderators.JoinedIsListed | lemmy_db/src/community.rs:197-207 | rows joined one after the other are listed in that order |
| Moderators.Communities.JoinAll | lemmy_api/src/community.rs:791-802 | succeeds exactly for distinct users without a row; otherwise those before the first clash have joined |
| Moderators.Communities.ImportCommunity | lemmy_apub/src/fetcher.rs:361-393 | the first attributed user becomes creator; it succeeds exactly if nobody is attributed twice or is a moderator, and then all of them are, in that order |
| Mentions.ScrapePrintScrape | lemmy_utils/src/utils.rs:83-101 | what was scraped from any text is scraped again from its printout, in the same order and without duplicates |
| Mentions.MatchHereIsThePattern | lemmy_utils/src/utils.rs:14-14 | wherever a prefix has the form of the pattern the scanner matches, and takes the longest such prefix |
| Mentions.MatchesAreTheScan | lemmy_utils/src/utils.rs:92-101 | the matches are what the pattern finds from left to right, said without the scanner: the leftmost place where it fits, the longest match there, and so on behind it; nothing fits behind the last one |
| Mentions.MatchHereIsAMention | lemmy_utils/src/utils.rs:14-14 | a match has the form of the pattern |
| Mentions.MatchesAreWellFormed | lemmy_utils/src/utils.rs:92-101 | so have all matches of a text |
| Mentions.ScanPrinted | lemmy_utils/src/utils.rs:87-101 | scanning a printout of well-formed mentions gives them back |
| Mentions.ScrapeTextForMentions | lemmy_utils/src/utils.rs:92-101 | the loop collects exactly what the pattern finds from left to right, each once |
| Sequences.UniqueKeepsOrder | lemmy_utils/src/utils.rs:92-101 | unique elements come in the order in which they first occur |
| Sequences.UniqueOfDistinct | lemmy_utils/src/utils.rs:92-101 | a list without duplicates is left alone |
| Sequences.FilterTwice | lemmy_db/src/community.rs:222-226 | rows deleted for one community do not change what is selected for another |
| Paging.PageIsRightIff | lemmy_db/src/lib.rs:182-187 | a page is the one asked for, of every table, exactly when its first index fits 64 bits |
| Paging.PagesAreTheRows | lemmy_db/src/lib.rs:182-187 | pages 1 to k one after the other are the first k * limit rows |
| Paging.FirstPage | lemmy_db/src/lib.rs:182-187 | without a page it is the first one, without a limit there are ten rows, and a negative limit is an error |
| Bans.Tables.ListComments | lemmy_db/src/comment_view.rs:221-296 | the first window of the comments of the creator in the community |
| Bans.Tables.UpdateEach | lemmy_api/src/community.rs:612-618 | the loop marks exactly the comments with the listed ids |
| Bans.Tables.BanFromCommunity | lemmy_api/src/community.rs:559-619 | when it fails, the ban, and row by row that just the posts and comments of the user in the community are marked; the loop over comments is the bulk update that SQL would need a join for |
| Bans.MarkEachIsBulk | lemmy_api/src/community.rs:601-618 | marking the listed ids marks all comments of the user in the community and no other |
| Bans.WholeWindow | lemmy_api/src/community.rs:607-607 | the largest 64-bit number as limit is no limit |

## Left out

- Fetcher.Instance.FetchRemoteObject: does not model 32-bit wrap-around of the counter, which starts at zero and would need two billion failed fetches in one activity.
- Fetcher.RequestsAreBounded: the lookups for embeds and thumbnails use the same retries, are not counted, and are not among the thirty attempts.
- Fetcher.Instance.GetOrFetchUser: the longer refetch interval of a release build is used, and a unique user name that is taken is one of the failures that `reliable` rules out.
- Fetcher.Instance.SearchByApubId: takes the parsed URL; the shorthand forms of a query are not part of this model.
- Fetcher.Instance.StoreGroup: names, titles, descriptions and images are one flag that says whether they can be converted; the same goes for users, pages and notes.
- RateLimiter.WindowBound: f64 allowances are reals, and rate and period stay fixed for each limit type.
- Follow.FollowersConverge: first deliveries come in order; the id of an activity is its position in the channel. An error of the job queue itself, which leaves the row of a Follow and keeps the row of an Undo, is not carried here (`SendActivityInternal` has it).
- Votes.VotesConverge: the same, and the two instances know the same users and posts; votes on posts of a local community are announced at once and are not part of this model.
- Relay.RelayedVotesConverge: the third instance follows the community all along, and its own votes are other users'.
- PostReplica.UpdateAgreesIff: embed and thumbnail columns come from outside services and are not part of this model.
- Moderators.OrderedIsAscending: rows of the same time stay in stored order, where SQL leaves the order open.
- Moderators.TransferIsFederated: the clock is strictly increasing over the inserts, as the source assumes.
- Mentions.ScrapePrintScrape: the Unicode word class is a parameter, of which it is only used that the at sign is not in it.
- Bans.Tables.BanFromCommunity: the deletion of a ban that is not there succeeds as it does in SQL; the moderation log and the answer to clients are not modelled.
- ActivityQueue.Sender.SendToRemoteCommunity: a local community announces instead of sending to itself; that path is `SendToCommunityFollowers`.
- ChatServer.ChatServer.Connect: connection ids are drawn by the caller; a repeated one replaces the session.
- Two requests with one activity id handled at the same moment, which the source itself says can slip through.
- Signatures, keys, tokens and passwords: the actor of an activity is taken as verified.
- Comments as replicas, private messages, reports and the front end's other operations: the post replica and the post votes have the same shape and are the harder half.
- The rooms for messages to everybody and to moderators: the same loop as the other rooms.
- SQL views, triggers and ranking formulas: totals are taken from the vote rows.
