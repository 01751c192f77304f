/**
 * The direct-write log store, Java version (`HazelcastMessageLogger`): the
 * same map as the Rust store, held in a Hazelcast `IMap`, answering through a
 * gRPC `StreamObserver`.
 */
module HazelcastLogger {
  import opened Wrappers
  import opened Uuid
  import opened Grpc
  import opened Text
  import opened MapOrder
  import LoggingService

  /** A call on the reply observer. */
  datatype Signal<T> = OnNext(value: T) | OnCompleted | OnError(status: Status)

  /** The calls ending in exactly one terminal signal: one reply then completion, or one error alone. */
  predicate WellTerminated<T>(signals: seq<Signal<T>>)
  {
    || (|signals| == 2 && signals[0].OnNext? && signals[1].OnCompleted?)
    || (|signals| == 1 && signals[0].OnError?)
  }

  /** The map named "message-logger". */
  datatype HazelcastMessageLogger = HazelcastMessageLogger(entries: map<Uuid, string>)

  /** The store after a write, and the observer calls made. */
  datatype LogOutcome = LogOutcome(store: HazelcastMessageLogger, signals: seq<Signal<LogReply>>)

  /**
   * The constructor destroys the map and acquires it again, so whatever the
   * cluster held before, the store starts empty.
   */
  function Construct(previous: map<Uuid, string>): (s: HazelcastMessageLogger)
    ensures |s.entries| == 0
  {
    var destroyed := previous - previous.Keys;
    HazelcastMessageLogger(destroyed)
  }

  /**
   * `logMessage`: `UUID.fromString` either yields the identifier, whose body
   * is then set (last write wins) and acknowledged, or throws, which the
   * catch block turns into an INTERNAL error carrying the exception text.
   */
  function LogMessage(s: HazelcastMessageLogger, request: MsgPostRequest, parse: Parser): (r: LogOutcome)
    ensures WellTerminated(r.signals)
    ensures parse(request.uuid).Failure? ==>
      r.store == s && r.signals == [OnError(Status(Internal, parse(request.uuid).error))]
    ensures parse(request.uuid).Success? ==>
      var id := parse(request.uuid).value;
      && r.signals == [OnNext(LogReply), OnCompleted]
      && id in r.store.entries && r.store.entries[id] == request.message
      && r.store.entries.Keys == s.entries.Keys + {id}
      && forall k :: k in s.entries && k != id ==> r.store.entries[k] == s.entries[k]
  {
    match parse(request.uuid)
    case Failure(reason) =>
      LogOutcome(s, [OnError(Status(Internal, reason))])
    case Success(id) =>
      LogOutcome(HazelcastMessageLogger(s.entries[id := request.message]), [OnNext(LogReply), OnCompleted])
  }

  /** `getAllMessages`: the bodies in the map's iteration order `order`, joined with ":". */
  function GetAllMessages(s: HazelcastMessageLogger, order: seq<Uuid>): (signals: seq<Signal<GetAllReply>>)
    requires IsEnumeration(order, s.entries)
    ensures WellTerminated(signals) && signals[0].OnNext?
    ensures |s.entries| == 0 ==> signals[0].value.messages == ""
    ensures |s.entries| > 0 ==> |signals[0].value.messages| == SumLengths(s.entries) + |s.entries| - 1
  {
    var values := ValuesInOrder(s.entries, order);
    JoinLength(values, ":");
    EnumerationTotalLength(order, s.entries);
    EnumerationSize(order, s.entries);
    [OnNext(GetAllReply(Join(values, ":"))), OnCompleted]
  }

  /** Every stored body occurs verbatim in the reply, after the bodies iterated before it and one ":" per body. */
  lemma GetAllMessagesContains(s: HazelcastMessageLogger, order: seq<Uuid>, i: nat)
    requires IsEnumeration(order, s.entries)
    requires i < |order|
    ensures
      var at := JoinOffset(ValuesInOrder(s.entries, order), ":", i);
      var text := GetAllMessages(s, order)[0].value.messages;
      at + |s.entries[order[i]]| <= |text| && text[at..at + |s.entries[order[i]]|] == s.entries[order[i]]
  {
    JoinContains(ValuesInOrder(s.entries, order), ":", i);
  }

  /** Apply a series of writes to the Java store. */
  function LogAll(s: HazelcastMessageLogger, requests: seq<MsgPostRequest>, parse: Parser): HazelcastMessageLogger
    decreases |requests|
  {
    if |requests| == 0 then s
    else LogAll(LogMessage(s, requests[0], parse).store, requests[1..], parse)
  }

  /** Apply a series of writes to the Rust store. */
  function RustLogAll(s: LoggingService.HashMapLogger, requests: seq<MsgPostRequest>, parse: Parser): LoggingService.HashMapLogger
    decreases |requests|
  {
    if |requests| == 0 then s
    else RustLogAll(LoggingService.LogMessage(s, requests[0], parse).store, requests[1..], parse)
  }

  /**
   * `Uuid::from_str` and `UUID.fromString` read different grammars (the
   * former also takes the simple, braced and urn forms; the latter also
   * takes short hyphenated groups such as "1-1-1-1-1"). They agree on a text
   * when both reject it, or both accept it as the same identifier.
   */
  predicate ParsersAgreeOn(rustParse: Parser, javaParse: Parser, text: string)
  {
    && (rustParse(text).Success? <==> javaParse(text).Success?)
    && (rustParse(text).Success? ==> rustParse(text).value == javaParse(text).value)
  }

  /**
   * The two stores agree on every write whose identifier text their parsers
   * read alike: from the same map they accept and reject the same requests
   * and hold the same map afterwards. They differ only in the error code of
   * a rejection.
   */
  lemma WriteAgreesWithRust(entries: map<Uuid, string>, request: MsgPostRequest, rustParse: Parser, javaParse: Parser)
    requires ParsersAgreeOn(rustParse, javaParse, request.uuid)
    ensures
      var java := LogMessage(HazelcastMessageLogger(entries), request, javaParse);
      var rust := LoggingService.LogMessage(LoggingService.HashMapLogger(entries), request, rustParse);
      && java.store.entries == rust.store.entries
      && (rust.reply.Success? <==> java.signals[0].OnNext?)
      && (rust.reply.Failure? ==> rust.reply.error.code == InvalidArgument && java.signals[0].status.code == Internal)
  {
  }

  /**
   * Where the grammars part ways the stores do too: a text only Java reads
   * (such as "1-1-1-1-1") is stored by the Java store and rejected by the Rust one.
   */
  lemma WriteDivergesFromRust(entries: map<Uuid, string>, request: MsgPostRequest, rustParse: Parser, javaParse: Parser)
    requires rustParse(request.uuid).Failure? && javaParse(request.uuid).Success?
    ensures
      var java := LogMessage(HazelcastMessageLogger(entries), request, javaParse);
      var rust := LoggingService.LogMessage(LoggingService.HashMapLogger(entries), request, rustParse);
      && rust.store.entries == entries
      && rust.reply.Failure? && rust.reply.error.code == InvalidArgument
      && java.signals[0].OnNext?
      && javaParse(request.uuid).value in java.store.entries
      && java.store.entries[javaParse(request.uuid).value] == request.message
  {
  }

  /** Any series of writes whose identifier texts both parsers read alike leaves both stores holding the same map. */
  lemma {:induction false} LogAllAgreesWithRust(entries: map<Uuid, string>, requests: seq<MsgPostRequest>,
                                                rustParse: Parser, javaParse: Parser)
    requires forall i :: 0 <= i < |requests| ==> ParsersAgreeOn(rustParse, javaParse, requests[i].uuid)
    ensures LogAll(HazelcastMessageLogger(entries), requests, javaParse).entries
         == RustLogAll(LoggingService.HashMapLogger(entries), requests, rustParse).entries
    decreases |requests|
  {
    if |requests| > 0 {
      WriteAgreesWithRust(entries, requests[0], rustParse, javaParse);
      var next := LogMessage(HazelcastMessageLogger(entries), requests[0], javaParse).store.entries;
      assert forall i :: 0 <= i < |requests| - 1 ==> requests[1..][i] == requests[i + 1];
      LogAllAgreesWithRust(next, requests[1..], rustParse, javaParse);
    }
  }

  /** Over the same map and order, the Rust store's read is the Java store's join with the separator removed. */
  lemma ReadDiffersOnlyInSeparator(entries: map<Uuid, string>, order: seq<Uuid>)
    requires IsEnumeration(order, entries)
    ensures LoggingService.GetAllMessages(LoggingService.HashMapLogger(entries), order).value.messages
         == Join(ValuesInOrder(entries, order), "")
    ensures GetAllMessages(HazelcastMessageLogger(entries), order)[0].value.messages
         == Join(ValuesInOrder(entries, order), ":")
  {
    JoinEmptySeparator(ValuesInOrder(entries, order));
  }
}
