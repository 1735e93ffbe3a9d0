# reaTimeChat-gRPC core, in Dafny

A model of the server core of a real-time chat backend. Users register and log
in to obtain a JWT. They open a bidirectional `ChatStream` on which every request
names a recipient and a text. The server:

- checks that the recipient exists;
- stores the message with both addresses in normal form and the text HTML-escaped;
- acknowledges it to the sender;
- pushes it, best effort, to every live stream the recipient has open.

The model covers these parts:

- **Connection hub** (`hub.dfy`, class `Hub.ConnectionHub`). For each email it
  keeps a map of connection ids to streams. `Register` hands out ids from a
  counter. `Unregister` drops the email's entry once it is empty. `SendToUser`
  tries every connection in map order, reports the first failure and then
  evicts every connection that failed.
- **Handlers** (`handlers.dfy`). `ChatStream` registers its own stream, runs the
  receive loop, and unregisters on every way out. The `Step` and `Run` functions
  describe the loop's status, saved records and trace. `Deliver` describes what
  the fan-outs do to the hub. `Register`, `Login`, `ListChats` and `GetHistory`
  map collaborator failures to gRPC status codes.
- **Authentication interceptors** (`interceptors.dfy`). They decide whether a
  call reaches its handler: allowed methods pass, and other calls need a
  non-empty bearer token that verifies. They also fix what context the handler
  then sees.
- **Rate limiter** (`ratelimit.dfy`, class `RateLimit.LimiterStore`). It keeps a
  token bucket per key. The key is `email:<address>` when the request carries an
  address, otherwise the peer, otherwise `"unknown"`. A sweep removes entries
  idle for more than ten minutes.
- **Email normalisation** (`normalize.dfy`): trim white space, then lower-case.
- **Message store** (`messages.dfy`, class `Messages.MessagesStore`):
  - the record a save builds;
  - the two-way history filter with its newest-first limit, and the in-place
    two-index swap reversal into chronological order;
  - the recent-chats pipeline over the stored collection (`$match`, `$group`
    by the `$cond` partner with `$last`, `$sort`, `$limit`) and the
    row-to-partner loop.

`wrappers.dfy` holds `Option` and `Result`. `status.dfy` holds the gRPC status
codes the handlers use.

The following outside facts are parameters of the model:

- what `UserExists` returns, and whether the database insert, find or aggregation fails;
- what each `Send` returns;
- the clock readings;
- JWT verification and issuance, password hashing and checking.

The loop's collaborators are indexed by the iteration number. Running out of
received requests is `io.EOF`.

## Model

| member | source | states |
|---|---|---|
| Normalize.LowerChar | internal/normalize/normalize.go:9 | an upper-case ASCII letter becomes its lower-case letter (code point + 32), every other character is unchanged, and the result is never upper-case |
| Normalize.TrimLeft | internal/normalize/normalize.go:9 | the result is a suffix of the input, everything cut off is white space, and it does not start with white space |
| Normalize.TrimRight | internal/normalize/normalize.go:9 | the result is a prefix of the input, everything cut off is white space, and it does not end with white space |
| Normalize.ToLower | internal/normalize/normalize.go:9 | same length, and each character is lower-cased in place |
| Normalize.TrimLeftIsUnique | internal/normalize/normalize.go:9 | cutting at the first non-space character is the only result TrimLeft can give |
| Normalize.TrimRightIsUnique | internal/normalize/normalize.go:9 | cutting after the last non-space character is the only result TrimRight can give |
| Normalize.TrimSpaceOfTrimmed | internal/normalize/normalize.go:9 | a string without surrounding white space is left unchanged by trimming |
| Normalize.TrimSpaceIsSlice | internal/normalize/normalize.go:9 | TrimSpace is the middle slice between two all-white-space ends, and it has no surrounding white space |
| Normalize.EmailIdempotent | internal/normalize/normalize.go:8-10 | normalising a normalised address changes nothing |
| Normalize.EmailShape | internal/normalize/normalize.go:8-10 | the normal form has no surrounding white space and no upper-case ASCII letter |
| Normalize.EmailKeepsInterior | internal/normalize/normalize.go:8-10 | apart from the white space at both ends, every character is kept in order and only lower-cased |
| Normalize.TrimSpacePadded | internal/normalize/normalize.go:9 | white space added around a trimmed string is exactly what TrimSpace removes |
| Normalize.EmailExample | internal/normalize/normalize_test.go:5-12 | `"  John.DOE@Example.COM  "` normalises to `"john.doe@example.com"` |
| Hub.Insert | cmd/api/hub.go:36-42 | the id is added under the email, creating the entry if absent, and no other email's connections change |
| Hub.Remove | cmd/api/hub.go:51-56 | the id leaves the email's connections, the entry goes when none is left, and an absent email or id changes nothing |
| Hub.Evict | cmd/api/hub.go:88-92 | exactly the given ids leave the email's connections, and the entry goes when none is left |
| Hub.RemoveAllIsEvict | cmd/api/hub.go:88-92 | unregistering the failed ids one by one, in any order, equals evicting them all at once |
| Hub.InsertKeepsInvariant | cmd/api/hub.go:40-42 | registering a fresh id keeps every id issued by the counter and live under one email only, with no empty entries |
| Hub.RemoveKeepsInvariant | cmd/api/hub.go:51-56 | unregistering keeps the hub invariant |
| Hub.EvictKeepsInvariant | cmd/api/hub.go:88-92 | evicting keeps the hub invariant |
| Hub.ConnectionHub.constructor | cmd/api/hub.go:26-28 | a new hub is empty, has counter 0, and satisfies the invariant |
| Hub.ConnectionHub.Register | cmd/api/hub.go:32-44 | the id returned is the incremented counter, was not live under any email, and is added under the email |
| Hub.ConnectionHub.Unregister | cmd/api/hub.go:47-57 | the hub becomes Remove of the old hub, and the counter is unchanged |
| Hub.ConnectionHub.SendToUser | cmd/api/hub.go:63-95 | an unconnected user gets NotConnected and nothing is sent. Otherwise every connection is tried exactly once, the result is None iff every send succeeded, else the first failure in call order, and exactly the failed connections are evicted |
| Hub.ConnectionHub.UnregisterEach | cmd/api/hub.go:90-92 | the loop over the failed ids leaves the hub as RemoveAll of them |
| Hub.SendEach | cmd/api/hub.go:72-86 | the failed list holds exactly the connections whose send failed, the error is None iff none failed, and otherwise it is the first failure |
| Hub.MapOrder | cmd/api/hub.go:79 | a map's iteration visits every key exactly once |
| Hub.RemoveAllStep | cmd/api/hub.go:90-92 | one more Unregister extends the loop's RemoveAll by one id |
| Hub.SendToAllScenario | cmd/api/hub_test.go:23-40 | with two connections registered, a send succeeds and reaches both |
| Hub.UnregisterThenSendScenario | cmd/api/hub_test.go:42-52 | after one of two connections is unregistered, a send succeeds and reaches only the other |
| Hub.SendToOfflineScenario | cmd/api/hub_test.go:55-61 | a send to a user who never connected fails and calls no sender |
| Hub.TwoConnections | cmd/api/hub_test.go:63-70 | two registrations for one user leave exactly those two connections, under distinct ids |
| Hub.PartialFailure | cmd/api/hub_test.go:63-75 | when one of two sends fails, the send reports an error and the hub keeps exactly the healthy connection |
| Hub.PartialFailureScenario | cmd/api/hub_test.go:63-75 | when one of two sends fails, the send reports an error and only the healthy connection stays |
| Hub.SendAfterEvictionScenario | cmd/api/hub_test.go:63-85 | after the failing send has evicted the bad connection, a second send on the same hub succeeds and tries exactly the healthy connection |
| Interceptors.Lookup | cmd/api/interceptors.go:19 | a layer binding the key answers with its value, a layer binding another key passes the question to its parent, and a bare incoming context has no binding |
| Interceptors.GetClaims | cmd/api/interceptors.go:18-25 | claims are returned iff the value under the auth key is claims, and then they are that value |
| Interceptors.AttachThenGet | cmd/api/interceptors.go:62 | after claims are attached, the handler reads exactly those claims, other keys and the incoming metadata are unchanged |
| Interceptors.FreshContextHasNoClaims | cmd/api/interceptors.go:18-25 | a context straight from the transport carries no claims |
| Interceptors.TrimPrefix | cmd/api/interceptors.go:51 | one occurrence of the prefix is removed when present, and otherwise the string is unchanged |
| Interceptors.BearerTokenOfHeader | cmd/api/interceptors.go:51 | `"Bearer " + token` yields the token |
| Interceptors.BareTokenAccepted | cmd/api/interceptors.go:51 | a header without the scheme is taken as the token itself |
| Interceptors.SchemeOnlyIsEmpty | cmd/api/interceptors.go:51-54 | `"Bearer"` followed only by white space yields the empty token |
| Interceptors.PresentedToken | cmd/api/interceptors.go:42-51 | no metadata gives "missing metadata", and metadata without an authorization value gives "missing authorization header". Otherwise the token is BearerToken of the first authorization value |
| Interceptors.AuthUnary | cmd/api/interceptors.go:29-65 | allowed methods pass untouched. Every denial is Unauthenticated. Any other call runs iff a non-empty token is presented and verifies, and the handler then sees exactly the verified claims over the same metadata. An empty token is "invalid token" |
| Interceptors.Authenticate | cmd/api/interceptors.go:41-63 | the checks on a protected method. Every denial is Unauthenticated. The call goes through iff a non-empty token is presented and `verify` accepts it, and the context it then carries holds exactly the verified claims over the same metadata. An empty token is "invalid token" |
| Interceptors.AuthStream | cmd/api/interceptors.go:68-103 | the wrapped stream is the same stream with a new context |
| Interceptors.StreamAgreesWithUnary | cmd/api/interceptors.go:68-103 | the stream interceptor gives the unary one's verdict, error and handler context |
| Interceptors.HandlerSeesVerifiedClaims | cmd/api/interceptors.go:56-63 | a handler of a protected method only ever sees claims that a non-empty token verified to |
| Messages.NewMessage | internal/data/messages.go:29-36 | the record has both addresses normalised and the given id, content, send time and creation time |
| Messages.NewMessageNormalized | internal/data/messages.go:30-32 | both stored addresses are already in normal form |
| Messages.NewMessageIgnoresSpelling | internal/data/messages.go:31-32 | addresses differing only in case or surrounding blanks produce the same record |
| Messages.InConversationSymmetric | internal/data/messages.go:66-79 | the two-way filter does not depend on the order of the users |
| Messages.Matching | internal/data/messages.go:66-82 | the found messages are exactly the conversation's, each with its multiplicity in the collection |
| Messages.MatchingSymmetric | internal/data/messages.go:66-79 | asking for (u1, u2) or (u2, u1) finds the same messages in the same order |
| Messages.InsertDescending | internal/data/messages.go:56 | inserting into a list sorted by a key, largest first, keeps it sorted and adds exactly one element |
| Messages.SortDescending | internal/data/messages.go:56 | a `-1` sort on a key: the result is ordered largest first and is a permutation of its input |
| Messages.SortNewestFirst | internal/data/messages.go:56 | the `sent_at: -1` sort is newest first and a permutation of its input |
| Messages.LimitCount | internal/data/messages.go:57 | a find with limit 0 returns everything; otherwise it returns all n documents when they fit and exactly the limit's magnitude when they do not |
| Messages.Reverse | internal/data/messages.go:100-103 | position i of the result is position n-1-i of the input |
| Messages.ReverseKeepsMultiset | internal/data/messages.go:100-103 | reversing keeps every message |
| Messages.ReverseInvolutive | internal/data/messages.go:100-103 | reversing twice gives the input back |
| Messages.HistoryChronological | internal/data/messages.go:97-106 | the history reads oldest first |
| Messages.HistoryContents | internal/data/messages.go:53-107 | the history holds only the conversation's messages. Its length is what the limit lets through of the whole conversation, so it is never empty when the conversation is not. With limit 0 it is the whole conversation |
| Messages.HistoryKeepsNewest | internal/data/messages.go:55-57 | no conversation message left out by the limit is newer than one returned |
| Messages.PrefixIsNewest | internal/data/messages.go:56-57 | in a newest-first list, nothing after a cut is newer than anything before it |
| Messages.CutKeepsNewest | internal/data/messages.go:56-57 | cutting the sorted list keeps a sub-multiset, and what is dropped is no newer |
| Messages.HistoryIgnoresSpellingAndOrder | internal/data/messages.go:61-79 | any spelling of the two addresses, in either order, gives the same history |
| Messages.SavedMessageFound | internal/data/messages_test.go:82-95 | a message saved with one spelling of the addresses is found by a history query with another |
| Messages.Partner | internal/data/messages.go:133-140 | the partner is the recipient when the user sent the message, else the sender, and the message is in their conversation |
| Messages.PartnerHistoryHasMessage | internal/data/messages.go:110-140 | for a stored message involving the user, the history with its partner contains it |
| Messages.Partners | internal/data/messages.go:116-147 | the `$group` keys are exactly the users whose conversation with the user holds a message of the collection |
| Messages.PartnerList | internal/data/messages.go:129-142 | the `$group` keys are listed once each, and a user is listed iff some message of the user's is filed under them by the `$cond` |
| Messages.PartnerListIsPartners | internal/data/messages.go:116-142 | the listed keys are the partners |
| Messages.LastWith | internal/data/messages.go:143-146 | `$last` finds a message of the user's filed under the partner, and finds none only when there is no such message |
| Messages.LastWithIsLast | internal/data/messages.go:143-146 | the message `$last` picks is the latest in collection order that is filed under the partner |
| Messages.GroupRowsArePartners | internal/data/messages.go:129-147 | every `$group` row is the row of one of the user's partners |
| Messages.GroupsOncePerPartner | internal/data/messages.go:129-147 | every partner has a `$group` row, each row occurs once, and there are as many rows as partners |
| Messages.RecentChatsNamePartners | internal/data/messages.go:116-153 | each recent-chats row names a partner of the user, no partner appears twice, and there are at most `limit` rows |
| Messages.RecentChatsListEveryPartner | internal/data/messages.go:116-153 | when the limit is at least the number of partners, every partner of the user has a row |
| Messages.RecentChatsLastMessage | internal/data/messages.go:143-146 | a row carries the content and send time of the last message, in collection order, between the user and that partner |
| Messages.RecentChatsNewestFirst | internal/data/messages.go:150 | the rows come most recent conversation first |
| Messages.RecentChatsCutKeepsRecent | internal/data/messages.go:150-153 | a partner that `$limit` cuts off has a last message no later than that of any partner listed |
| Messages.CollectPartners | internal/data/messages.go:176-190 | one ChatPartner per row, built from that row, in row order |
| Messages.ReverseInPlace | internal/data/messages.go:100-103 | the two-index swap loop leaves the array reversed |
| Messages.ReversedCopy | internal/data/messages.go:89-103 | the decoded slice, reversed in place, is the reverse of the found messages |
| Messages.MessagesStore.constructor | internal/data/messages.go:22-24 | the store wraps the given collection |
| Messages.MessagesStore.SaveMessage | internal/data/messages.go:27-50 | an insert error is returned and the collection is unchanged. Otherwise the normalised record with the inserted id is appended and returned |
| Messages.MessagesStore.GetMessageHistory | internal/data/messages.go:53-107 | a find error is passed on, otherwise the result is History: the newest `limit` messages of the conversation, oldest first |
| Messages.MessagesStore.GetRecentChats | internal/data/messages.go:110-194 | an aggregation error is passed on. Otherwise the pipeline runs over the stored collection for the normalised user, and its rows become partners one for one, in order |
| Handlers.EscapeHTML | cmd/api/handlers.go:168 | the escaped content has no `<`, `>`, `"` or `'`, text without special characters is unchanged, and it is never shorter |
| Handlers.UnescapeEscape | cmd/api/handlers.go:168 | escaping loses nothing: unescaping the stored content gives back what was sent |
| Handlers.AckFor | cmd/api/handlers.go:174-179 | the acknowledgement carries the saved record's id in hex, its sender, content and send time |
| Handlers.Step | cmd/api/handlers.go:150-184 | a receive error or a failed lookup stops with Internal and nothing saved. NotFound "recipient not found" comes exactly when the recipient does not exist. After a successful save the loop goes on iff the acknowledgement is sent; a failed one stops with Internal, keeping the one saved record. A record goes from the normalised sender to the normalised recipient |
| Handlers.Run | cmd/api/handlers.go:148-196 | a session ends with Internal or NotFound, or without error after saving one record per request. Its trace is a sequence of well-formed rounds |
| Handlers.CleanSession | cmd/api/handlers.go:148-196 | when every recipient exists and every save and ack succeeds, the session ends without error at EOF, having saved one record per request |
| Handlers.CleanRound | cmd/api/handlers.go:158-184 | a clean iteration passes the status of the rest of the session through |
| Handlers.RunAtEnd | cmd/api/handlers.go:151-153 | EOF ends the session without error, saving nothing |
| Handlers.CleanStep | cmd/api/handlers.go:158-184 | an existing recipient with a successful save and ack lets the loop go on |
| Handlers.StepFailuresSaveNothing | cmd/api/handlers.go:158-171 | a missing recipient is NotFound with nothing saved, a failing lookup or save is Internal with nothing saved, and a successful save stores the escaped content under the normalised addresses |
| Handlers.DeliverShrinks | cmd/api/handlers.go:189-195 | fan-outs only ever remove connections from the hub |
| Handlers.DeliverRound | cmd/api/handlers.go:186-195 | a round changes the hub only through its own fan-out |
| Handlers.SessionLeavesNoConnection | cmd/api/handlers_test.go:132-149 | after the deferred unregister, the hub holds no connection it did not hold before the session, and a user with no entry before has none after |
| Handlers.RunStep | cmd/api/handlers.go:148-196 | the session from iteration k is the step at k, followed by the session from k + 1 when the step goes on |
| Handlers.RunContinues | cmd/api/handlers.go:148-196 | an iteration that goes on passes the rest's status through and adds one record |
| Handlers.ChatRound | cmd/api/handlers.go:150-195 | one iteration's status, records and events are the ones Step and RoundEvents give, and the hub changes only by that iteration's fan-out |
| Handlers.SaveAndFanOut | cmd/api/handlers.go:167-195 | once the recipient exists: save, ack, then fan out through the hub, as Step describes |
| Handlers.Turn | cmd/api/handlers.go:148-196 | the iteration at k either ends the session with what it added, or puts its records and events in front of the session from k + 1 |
| Handlers.Advance | cmd/api/handlers.go:148-196 | what the loop has done so far, followed by the rest of the session, stays the whole session after each iteration |
| Handlers.Serve | cmd/api/handlers.go:148-196 | the loop's status, saved records and trace are those of Run, and the hub is left as the trace's fan-outs leave it |
| Handlers.ChatStream | cmd/api/handlers.go:132-197 | without claims: Unauthenticated, and no effect. Otherwise: register, run the loop as Run describes, unregister on every way out. The counter advances by one and the hub ends as the fan-outs left it minus the session's own connection |
| Handlers.ListLimit | cmd/api/handlers.go:81-84 | a request limit of 0 becomes 50, and any other is kept |
| Handlers.FirstFailure | cmd/api/handlers.go:90-99 | every send before the index succeeded, and the send at the index failed unless the index is n |
| Handlers.SendInOrder | cmd/api/handlers.go:90-99 | items are sent in order up to the first failed send, whose error is reported, and nothing after it is sent |
| Handlers.ListChats | cmd/api/handlers.go:73-101 | without claims: Unauthenticated. Otherwise it runs the recent-chats pipeline over the store for the normalised caller with the defaulted limit. A query error is Internal, and partners are streamed in order until a send fails (Internal) |
| Handlers.GetHistory | cmd/api/handlers.go:104-129 | without claims: Unauthenticated. Otherwise it streams the 100-message History with the requested user in order until a send fails. Find and send errors are Internal |
| Handlers.Register | cmd/api/handlers.go:18-44 | every failure is Internal. It succeeds iff hashing, creation and token issuance succeed, and then returns the token issued for the stored user. A store failure is not disclosed |
| Handlers.Login | cmd/api/handlers.go:47-70 | any lookup failure is NotFound, whether an unknown email or a database error, and nothing else is. A wrong password, and only that, is PermissionDenied. Success returns the token of the stored user whose password checked |
| RateLimit.Interval | internal/middleware/ratelimit.go:33-38 | a non-positive limit defaults to 60 per minute, and the refill interval is a minute divided by the limit |
| RateLimit.Refilled | internal/middleware/ratelimit.go:87-90 | refilling never exceeds the burst. It adds the elapsed time when that fits, fills the bucket exactly to the burst when it does not, and adds nothing when time runs backwards |
| RateLimit.TryTake | internal/middleware/ratelimit.go:87-90 | an unlimited bucket always admits. Otherwise a call is admitted iff a whole token is available after refill. An admitted call leaves the refilled bucket less one token, stamped now. A rejected call leaves the bucket unchanged |
| RateLimit.DrainBucket | internal/middleware/ratelimit.go:87-90 | with k tokens and no time passing, the next k calls are admitted and the one after is not |
| RateLimit.BurstThenReject | internal/middleware/ratelimit_test.go:12-26 | a fresh key with burst B is admitted B times in a row and then rejected |
| RateLimit.RefillAfterInterval | internal/middleware/ratelimit.go:87-90 | waiting one interval always earns the next admission |
| RateLimit.Swept | internal/middleware/ratelimit.go:54-60 | the sweep keeps exactly the entries seen at or after now minus ten minutes, unchanged |
| RateLimit.EmailKeyIgnoresPeer | internal/middleware/ratelimit.go:108-114 | requests naming an account share the `email:` key whatever peer they come from |
| RateLimit.EmailKeyInjective | internal/middleware/ratelimit.go:112 | two accounts never share a key |
| RateLimit.FallbackKey | internal/middleware/ratelimit.go:103-106 | without an email the key is the peer address, or `"unknown"` without a peer |
| RateLimit.LimiterStore.constructor | internal/middleware/ratelimit.go:33-46 | the store starts empty with the defaulted interval and the given burst |
| RateLimit.LimiterStore.GetLimiter | internal/middleware/ratelimit.go:74-84 | a known key keeps its bucket, an unknown key gets one full new bucket, and either way lastSeen becomes now |
| RateLimit.LimiterStore.Allow | internal/middleware/ratelimit.go:87-90 | the key's bucket decides, and its new state is stored under the key |
| RateLimit.LimiterStore.Sweep | internal/middleware/ratelimit.go:48-66 | one tick of the cleanup loop leaves exactly Swept of the entries |
| RateLimit.RateLimitInterceptor | internal/middleware/ratelimit.go:95-122 | unlimited methods run without touching the store. Limited ones are keyed by RateKey and rejected with ResourceExhausted "rate limit exceeded" exactly when the key's bucket has no whole token. Only that key's entry changes, and the store's rate and burst stay as they were |
| RateLimit.BurstScenario | internal/middleware/ratelimit_test.go:12-26 | with limit 5 and burst 5, five calls on one key pass at once and the sixth is refused |

## Left out

- Locking is not modelled: the hub's `RWMutex` and the limiter's mutex. Methods run one at a time. The window between `SendToUser` reading a user's connections and evicting the failed ones is not modelled.
- The `cleanupLoop` goroutine, its ticker and `Stop` are left out. `Sweep` is one tick of the loop, with the current time passed in.
- Hub.ConnectionHub.Register: the `int64` counter is unbounded, and wrap-around is not modelled.
- Normalize.LowerChar: only ASCII letters are lower-cased. Go's `unicode.ToLower` also maps other scripts.
- TrimSpace uses Go's `unicode.IsSpace` set. Invalid UTF-8 and byte-level behaviour are not modelled, because strings are sequences of characters.
- RateLimit.TryTake: the `golang.org/x/time/rate` bucket is a float token count. The model uses integer nanoseconds, with one token worth `interval` units. It agrees with the float bucket except where the float rounds. An interval of 0 stands for `rate.Inf` (a limit over 60·10⁹ per minute). `Reserve`, `Wait` and the rest of the limiter's API are not modelled.
- Messages.SortDescending: MongoDB's order among documents with equal sort keys is unspecified (messages with equal `sent_at`, partners with equal `last_message_at`). The model fixes one order. The lemmas about it hold for every order.
- Messages.LastWith: `$last` without an earlier `$sort` takes the last document in the order the stage receives them. The model takes that to be the collection's insertion order.
- Messages.RecentChats: MongoDB rejects a non-positive `$limit`. The model returns an error for it, but its text is not the server's.
- The database (`db.go`), the user store (`users.go`) and the JWT manager (`jwt.go`) are not part of this model. Their results are parameters: `verify`, `issue`, `hash`, `checkPassword`, `getUser`, `createUser`, `userExists`.
- Handlers.AckFor: `ObjectID.Hex` is modelled as the id's lower-case hex digits, without zero padding to 24 characters.
- `timestamppb` conversion is left out: times are integer nanoseconds.
- Logging is left out, including the log line on a failed fan-out, which the loop otherwise ignores.
- `main.go` and `server.go` are not part of this model: wiring, the listener, and which methods are rate-limited.
- Handlers.ChatStream: the hub key is the claims email as given, while stored records use the normalised address. So a fan-out reaches only streams registered under the exact spelling the sender used for the recipient. The model keeps this behaviour.
- Handlers.UnescapeEscape: the unescape model knows only the five entities `html.EscapeString` produces, not the full HTML entity table.
- Messages.CollectPartners: the type assertions that turn each aggregation row into a `ChatPartner` (`_id.partner` as a string, `last_message` as a string, `last_message_at` as a `time.Time`) are assumed to succeed. A row whose decoded types differ makes the source panic, and the model does not capture that.
- Handlers.Register and Handlers.Login pass the request email to `createUser` and `getUser` unchanged; only the message store normalises addresses. `jwt.go` has no key rotation, so none is modelled.
