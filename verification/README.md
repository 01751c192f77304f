# Message pipeline model

A Dafny model of the in-process logic of a small message pipeline:

- **Direct-write log store, Rust** (`logging-service/src/main.rs`): a map from
  message identifier to body; a write parses the identifier and inserts with
  last-write-wins; read-all concatenates every body with no separator.
- **Direct-write log store, Java** (`HazelcastMessageLogger.java`): the same
  map in a Hazelcast `IMap`; an unparseable identifier ends in an `INTERNAL`
  error instead of `INVALID_ARGUMENT`; read-all joins with `":"`; every call
  ends in exactly one terminal observer signal.
- **Broker-consuming store** (`messages-service/src/main.rs`): an append-only
  list filled from Kafka records (payload decoded as UTF-8, `""` when missing
  or ill-formed, appended before the offset commit); read-all joins with
  `" : "`.
- **Gateway** (`facade-service/src/lib.rs`, `facade-service/src/main.rs`):
  the `UserError` enum with its texts and HTTP statuses, the two-slot lazily
  filled client cache, the RPC wrappers, and the `get_messages` /
  `post_message` handlers.

Every network, broker or environment interaction is a parameter: the process
environment is a `map<string, string>`, connecting is a `Dialer` function,
each RPC's answer is a `Result` value (or a function of the request), and the
two helpers imported by `facade-service/src/main.rs` but defined elsewhere,
`send_message` and `receive_random_messages`, are opaque function parameters
returning `Result<_, UserError>`. A hash map's iteration order is not
specified, so every read-all takes the order as an explicit `order: seq<Uuid>`
that lists each key exactly once (`MapOrder.IsEnumeration`). The UUID grammar
is a parameter `parse: string -> Result<Uuid, string>` (the error text is the
Java exception message; the Rust store discards it); the Rust and Java stores
each get their own, since `Uuid::from_str` and `UUID.fromString` accept
different texts. The fresh identifier `Uuid::new_v4()` of `post_message` is
the parameter `id` of `Facade.PostMessage`, which ranges over every 128-bit
value, not only version-4 identifiers; randomness is not modelled. The gateway's
interactions are recorded as a trace of `Effect`s, so that ordering ("send
before log") and absence ("the logging service is never asked") can be stated.

Modules: `Wrappers` (Option/Result), `Text` (concatenation and joining),
`MapOrder` (iteration orders of a map), `Uuid` (identifiers and their text
form), `Utf8` (UTF-8 decoding per Table 3-7 of section 3.9 of the Unicode
Standard), `Grpc` (status and protobuf messages), `LoggingService`,
`HazelcastLogger`, `MessagesService`, `UserErrors`, `Clients`, `Facade`, and
`Pipeline` (the gateway wired to the store models).

The gateway's error enum has three variants; a broker failure inside
`send_message` surfaces as whatever `UserError` that helper returns. The read
path's first call is `receive_random_messages` (opaque), not
`receive_static_message`, which is defined in `facade-service/src/lib.rs` and
modelled concretely.

## Model

| member | source | states |
|---|---|---|
| Text.ConcatLength | logging-service/src/main.rs:40 | collecting strings with no separator yields exactly the sum of their lengths |
| Text.ConcatContains | logging-service/src/main.rs:40 | each collected string occurs verbatim in the result, right after the strings before it |
| Text.JoinSnoc | messages-service/src/main.rs:44 | `join(xs + [x]) == join(xs) + sep + x` for non-empty `xs` |
| Text.JoinLength | messages-service/src/main.rs:44 | a join of n > 0 strings has their total length plus n - 1 separators; a join of none is empty |
| Text.JoinContains | messages-service/src/main.rs:44 | each joined string occurs verbatim after the strings before it and one separator per string before it |
| MapOrder.SomeEnumeration | logging-service/src/main.rs:40 | every map has an iteration order listing each key exactly once, so read-all is always possible |
| MapOrder.EnumerationSize | logging-service/src/main/java/ua/edu/ucu/software_architecture/labs/lab_3/HazelcastMessageLogger.java:67 | an iteration order has exactly one entry per key |
| MapOrder.EnumerationTotalLength | logging-service/src/main.rs:40 | the values listed in any iteration order have the same total length, the sum over the map |
| MapOrder.SumLengthsRemove | logging-service/src/main.rs:40 | the sum of value lengths can be split at any key |
| Uuid.Format | facade-service/src/main.rs:37 | `msg_id.to_string()` is 36 characters with hyphens at positions 8, 13, 18 and 23 |
| Uuid.FormatRoundTrip | facade-service/src/main.rs:37 | the hyphenated 8-4-4-4-12 reader gives back every formatted identifier |
| Uuid.FormatInjective | facade-service/src/main.rs:37 | distinct identifiers have distinct text forms |
| Uuid.HexRoundTrip | facade-service/src/main.rs:37 | reading back w formatted hexadecimal digits gives the number when it fits in w digits |
| Utf8.DecodeEncode | messages-service/src/main.rs:75-77 | decoding the UTF-8 encoding of a string gives the string back |
| Utf8.EncodeDecode | messages-service/src/main.rs:75-82 | whatever decodes to a string is that string's encoding: well-formed input has one reading |
| Utf8.DecodeIffEncode | messages-service/src/main.rs:75-82 | bytes decode to `s` exactly when they are the encoding of `s` |
| Utf8.DecodeFirstEncodeChar | messages-service/src/main.rs:75-77 | the decoder reads back one character's encoding whatever follows it |
| Utf8.EncodeCharDecodeFirst | messages-service/src/main.rs:75-82 | a well-formed leading sequence is exactly the encoding of the character it decodes to |
| LoggingService.Default | logging-service/src/main.rs:15-16 | the store starts with no entries |
| LoggingService.DefaultReadsEmpty | logging-service/src/main.rs:69 | a fresh store reads as the empty string |
| LoggingService.LogMessage | logging-service/src/main.rs:26-31 | an unparseable identifier is rejected with `invalid_argument("invalid uuid")` and the map unchanged; a parseable one stores the body verbatim under it, adds only that key, keeps every other entry, and replies with an empty `LogReply` |
| LoggingService.GetAllMessages | logging-service/src/main.rs:40-41 | read-all always succeeds and its length is the sum of the stored bodies' lengths, whatever the iteration order |
| LoggingService.GetAllMessagesContains | logging-service/src/main.rs:40 | every stored body occurs verbatim in the read-all reply, after the bodies iterated before it |
| LoggingService.LastWriteWins | logging-service/src/main.rs:27-30 | a second write to the same identifier replaces the body and does not grow the key count |
| LoggingService.RetryIsIdempotent | logging-service/src/main.rs:27-30 | repeating an identical write changes neither the store nor the reply |
| HazelcastLogger.Construct | logging-service/src/main/java/ua/edu/ucu/software_architecture/labs/lab_3/HazelcastMessageLogger.java:32-34 | destroying and reacquiring the map leaves the store empty whatever the cluster held |
| HazelcastLogger.LogMessage | logging-service/src/main/java/ua/edu/ucu/software_architecture/labs/lab_3/HazelcastMessageLogger.java:38-58 | a parseable identifier sets the body (last write wins) then signals one reply and completion; an unparseable one signals only `INTERNAL` with the exception text and leaves the map unchanged; either way exactly one terminal signal |
| HazelcastLogger.GetAllMessages | logging-service/src/main/java/ua/edu/ucu/software_architecture/labs/lab_3/HazelcastMessageLogger.java:61-75 | read-all signals one reply then completion; the reply is empty for an empty map and otherwise as long as the bodies plus one ":" between each pair |
| HazelcastLogger.GetAllMessagesContains | logging-service/src/main/java/ua/edu/ucu/software_architecture/labs/lab_3/HazelcastMessageLogger.java:67 | every stored body occurs verbatim in the reply, after the bodies before it and one ":" each |
| HazelcastLogger.WriteAgreesWithRust | logging-service/src/main/java/ua/edu/ucu/software_architecture/labs/lab_3/HazelcastMessageLogger.java:42-56 | on a request whose identifier text the two parsers read alike (both reject it, or both accept it as the same identifier), the Java and Rust stores accept and reject it together and hold the same map after it; a rejection is `INVALID_ARGUMENT` in Rust and `INTERNAL` in Java |
| HazelcastLogger.WriteDivergesFromRust | logging-service/src/main/java/ua/edu/ucu/software_architecture/labs/lab_3/HazelcastMessageLogger.java:42-56 | on a text only the Java parser accepts, the Java store stores the body under the identifier while the Rust store rejects it with `INVALID_ARGUMENT` and keeps its map |
| HazelcastLogger.LogAllAgreesWithRust | logging-service/src/main/java/ua/edu/ucu/software_architecture/labs/lab_3/HazelcastMessageLogger.java:49 | after any series of writes whose identifier texts both parsers read alike, both stores hold the same map |
| HazelcastLogger.ReadDiffersOnlyInSeparator | logging-service/src/main/java/ua/edu/ucu/software_architecture/labs/lab_3/HazelcastMessageLogger.java:67 | over the same map and order, the Rust read is the join with "" and the Java read the join with ":" |
| MessagesService.New | messages-service/src/main.rs:102 | the list starts empty |
| MessagesService.PayloadText | messages-service/src/main.rs:75-83 | a well-formed UTF-8 payload gives its decoded text; a missing or ill-formed one gives "" |
| MessagesService.RecordMessage | messages-service/src/main.rs:67-93 | a consumer error leaves the list as it was and commits nothing; a record appends exactly its payload text at the end, then commits that record's offset |
| MessagesService.RecordIsAppendOnly | messages-service/src/main.rs:86 | the old list is a prefix of the new one |
| MessagesService.RecordEncodedBody | messages-service/src/main.rs:75-86 | a record whose payload is the UTF-8 encoding of a body appends exactly that body |
| MessagesService.RecordIllFormedPayload | messages-service/src/main.rs:78-86 | a payload that encodes no string appends "", still growing the list by one |
| MessagesService.Trace | messages-service/src/main.rs:86-92 | for every record in turn, its append at position 2j and its offset commit at 2j + 1 |
| MessagesService.RecordExtendsBodies | messages-service/src/main.rs:67-93 | handling one more stream item extends the list by that item's payload text, or not at all for a consumer error |
| MessagesService.RecordExtendsActions | messages-service/src/main.rs:67-93 | handling one more stream item extends the actions by that record's append and commit, or not at all for a consumer error |
| MessagesService.ConsumeStream | messages-service/src/main.rs:118-123 | handling a stream appends every record's payload text in delivery order, and commits each record right after its own append |
| MessagesService.GetMessage | messages-service/src/main.rs:38-46 | read-all always succeeds: "" for no bodies, the body itself for one, and otherwise the bodies' length plus 3 per " : " |
| MessagesService.ReadAfterRecord | messages-service/src/main.rs:44 | reading after one more record extends the previous read by " : " and the new body |
| MessagesService.GetMessageContains | messages-service/src/main.rs:44 | every consumed body occurs verbatim in the read, after the bodies before it and one " : " each |
| MessagesService.NoDeduplication | messages-service/src/main.rs:86 | the same record consumed twice is kept twice |
| UserErrors.Message | facade-service/src/lib.rs:24-34 | every error text ends with "\nPlease standby"; a gRPC error's text carries the status message right after its fixed opening |
| UserErrors.StatusCode | facade-service/src/lib.rs:43-49 | the status is 503 exactly for `ServiceConnectionError` and 500 exactly for the other two |
| UserErrors.ErrorResponse | facade-service/src/lib.rs:37-41 | an error response is a 5xx whose body ends with "\nPlease standby" |
| UserErrors.KindLetter | facade-service/src/lib.rs:26-33 | the three error texts differ at their second character |
| UserErrors.MessageDeterminesError | facade-service/src/lib.rs:26-33 | equal error texts mean the same kind of error and, for gRPC errors, the same status message |
| Clients.New | facade-service/src/lib.rs:58-63 | both client slots start empty |
| Clients.ConnectSlot | facade-service/src/lib.rs:66-86 | a filled slot is handed out without reading the environment or dialling; a missing port variable or failed dial is a connection error leaving the slot empty; otherwise the slot holds the channel dialled at prefix + port; `ServiceInternalError` never results |
| Clients.ConnectLogging | facade-service/src/lib.rs:66-86 | a success leaves the logging slot holding the returned client; a failure is a connection error that changes nothing; a filled slot is returned with no effect; the messaging slot is never touched |
| Clients.ConnectMessaging | facade-service/src/lib.rs:88-108 | the same for the messaging slot, never touching the logging slot |
| Clients.ConnectLoggingIdempotent | facade-service/src/lib.rs:69-85 | once connected, connecting again under any environment returns the same client, changes nothing and does nothing |
| Clients.ConnectMessagingIdempotent | facade-service/src/lib.rs:91-107 | the same for the messaging client |
| Clients.FirstConnectLogging | facade-service/src/lib.rs:70-81 | a first connection reads LOGGING_SERVICE_PORT and dials http://logging-service:<port>, succeeding exactly when the variable is set and the dial succeeds |
| Clients.CallRpc | facade-service/src/lib.rs:114-122 | a connect error propagates unchanged with no RPC issued; an RPC failure becomes `GrpcError(status)`; the cache is left as the connect left it |
| Clients.ReceiveStaticMessage | facade-service/src/lib.rs:111-124 | the RPC is issued exactly when the messaging client is connected; its failure is `GrpcError` and the cached client stays; an unconnected client is a connection error |
| Clients.ReceiveLoggedMessages | facade-service/src/lib.rs:126-139 | the same over the logging client for read-all |
| Clients.LogMessage | facade-service/src/lib.rs:141-154 | the request is sent unchanged, last, and only over a connected client; the call succeeds exactly when the RPC does, an RPC failure is `GrpcError` and the cached client stays |
| Facade.ResponseBodyLayout | facade-service/src/main.rs:18-24 | the read body is the sequence heading, the first answer, the logged heading, the second answer and a newline, each recoverable by position |
| Facade.ResponseBodyContains | facade-service/src/main.rs:18-24 | any piece of the logging service's answer appears in the read body shifted past both headings and the first answer |
| Facade.GetMessages | facade-service/src/main.rs:14-25 | the first call always comes first; if it fails its error is returned and nothing else is done; otherwise the logging read follows and the request succeeds exactly when it does, with status 200 and the fixed template body, and no partial body on failure |
| Facade.GetMessagesStopsAtFirstFailure | facade-service/src/main.rs:16-17 | when the first call fails, the logging service is neither dialled nor asked |
| Facade.GetMessagesBody | facade-service/src/main.rs:16-24 | a successful read means both calls succeeded, and its body is the template filled with their two answers as given |
| Facade.LogRequest | facade-service/src/main.rs:36-39 | the log request carries the body unmodified and the identifier's 36-character text form, which reads back as the same identifier |
| Facade.PostMessage | facade-service/src/main.rs:27-43 | `send_message` comes first; a failed send returns its error without logging; after a successful send the log call follows with the same identifier and body and its failure is returned with nothing undone; success is 200 with an empty body |
| Facade.PostMessageSendsOnce | facade-service/src/main.rs:33-41 | `send_message` is performed once, as the first action: logging never publishes |
| Facade.PostMessageLogsRequest | facade-service/src/main.rs:34-41 | every log request a post sends carries the published identifier and the unmodified body, and a successful post has sent it |
| Facade.Respond | facade-service/src/lib.rs:37-41 | a failed handler answers with the error's status and text |
| Pipeline.PostMessageReachesLogStore | facade-service/src/main.rs:32-41 | with the Rust log store behind the gateway, a post succeeds exactly when the send and the logging connection do, fails after a send only with a connection error, and on success leaves the store holding the body under the identifier |
| Pipeline.CanonicalParserAcceptsGateway | facade-service/src/main.rs:37 | the hyphenated reader accepts every identifier the gateway sends |
| Pipeline.GetMessagesShowsEveryLoggedBody | facade-service/src/main.rs:17-24 | a successful read shows every body of the log store verbatim after both headings and the first answer |
| Pipeline.ConsumedBodyIsRead | messages-service/src/main.rs:75-86 | a body published as UTF-8 and consumed shows up verbatim at the end of the messages service's read |

## Left out

- Kafka consumer lifecycle (`messages-service/src/main.rs:105-136`): consumer construction with a fresh group id, subscription, the stream itself and the 10-second retry are broker I/O; the stream is a sequence parameter of `MessagesService.ConsumeStream`.
- The panic of `.expect("Kafka err")` when `commit_message` fails synchronously, and the rebalance and commit callbacks, which only log.
- `send_message` and `receive_random_messages`: not part of this model; they are opaque parameters, with no transaction semantics assumed.
- The random generation of `Uuid::new_v4()` (`facade-service/src/main.rs:32`): the identifier is a parameter over all 128-bit values; the version and variant bits are not constrained.
- Locks (`Mutex`, `RwLock`) and concurrency: each call is modelled as one atomic step.
- Process bootstrap: listen-address parsing, server bind and serve, exit codes, and the Java `LoggingService` server.
- The UUID grammars of the `uuid` crate and `java.util.UUID`: parameters; `Uuid.ParseHyphenated` is only the canonical layout both accept. The grammars differ (the crate also reads the simple, braced and urn forms, `java.util.UUID` also reads short groups such as "1-1-1-1-1").
- HazelcastLogger.WriteAgreesWithRust: promises agreement only on identifier texts both grammars read alike, because the two grammars differ; `HazelcastLogger.WriteDivergesFromRust` states what happens on a text only Java reads.
- HazelcastLogger.LogAllAgreesWithRust: likewise promises the same map only when every request's identifier text is read alike by both grammars.
- HTTP and gRPC framing: the HTML content-type header, response building, transport details; an RPC's answer does not depend on which channel carries it.
- Environment variables whose value is not Unicode: `env::var` treats them as errors, which the model represents by leaving them out of the environment map.
- The Java null check (`HazelcastMessageLogger.java:44-47`): unreachable, since `UUID.fromString` never returns null and protobuf getters never return null.
- Hazelcast cluster failures inside `set` or `values()`: cluster I/O; the model's map operations always succeed.
- Logging output (`info!`, `error!`, `logger.info`).
- `facade-service/build.rs` (protobuf code generation) and the Hazelcast lab programs (concurrency demonstrations against a live cluster).
