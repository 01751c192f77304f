/**
 * The broker-consuming store (`messages-service`): an append-only list of
 * message bodies filled from the records a Kafka consumer delivers, read as
 * one string joined with " : ".
 */
module MessagesService {
  import opened Wrappers
  import opened Grpc
  import opened Text
  import opened Utf8

  /** The list behind `VecStoreGetter`. Locking is not modelled: each call is atomic. */
  datatype VecStoreGetter = VecStoreGetter(bodies: seq<string>)

  /** A delivered Kafka record; only its payload and position are read. */
  datatype BorrowedMessage = BorrowedMessage(payload: Option<seq<Byte>>, partition: int, offset: int)

  /** A consumer error delivered by the stream instead of a record. */
  datatype KafkaError = KafkaError(reason: string)

  type KafkaResult = Result<BorrowedMessage, KafkaError>

  /** What handling one stream item does, in order. */
  datatype Action = Append(body: string) | CommitAsync(partition: int, offset: int)

  /** The store after handling one stream item, and the actions taken. */
  datatype Recorded = Recorded(store: VecStoreGetter, actions: seq<Action>)

  /** The store a fresh process serves (`Vec::new()`). */
  function New(): (s: VecStoreGetter)
    ensures |s.bodies| == 0
  {
    VecStoreGetter([])
  }

  /** The text of a payload: a missing or ill-formed payload reads as "". */
  function PayloadText(m: BorrowedMessage): (text: string)
    ensures m.payload.Some? && Decode(m.payload.value).Some? ==> text == Decode(m.payload.value).value
    ensures m.payload.None? || Decode(m.payload.value).None? ==> text == ""
  {
    match m.payload
    case None => ""
    case Some(bytes) =>
      match Decode(bytes)
      case Some(s) => s
      case None => ""
  }

  /**
   * `record_message`: a consumer error is only logged; a record has its
   * payload text appended to the list, and then its offset committed.
   */
  function RecordMessage(s: VecStoreGetter, msg: KafkaResult): (r: Recorded)
    ensures msg.Failure? ==> r.store == s && r.actions == []
    ensures msg.Success? ==>
      && |r.store.bodies| == |s.bodies| + 1
      && r.store.bodies[..|s.bodies|] == s.bodies
      && r.store.bodies[|s.bodies|] == PayloadText(msg.value)
      && r.actions == [Append(PayloadText(msg.value)), CommitAsync(msg.value.partition, msg.value.offset)]
  {
    match msg
    case Failure(_) => Recorded(s, [])
    case Success(m) =>
      var payload := PayloadText(m);
      Recorded(VecStoreGetter(s.bodies + [payload]), [Append(payload), CommitAsync(m.partition, m.offset)])
  }

  /** The list only ever grows at its end. */
  lemma RecordIsAppendOnly(s: VecStoreGetter, msg: KafkaResult)
    ensures s.bodies <= RecordMessage(s, msg).store.bodies
  {
  }

  /** A record whose payload is the UTF-8 encoding of `body` appends exactly `body`. */
  lemma RecordEncodedBody(s: VecStoreGetter, body: string, partition: int, offset: int)
    ensures RecordMessage(s, Success(BorrowedMessage(Some(Encode(body)), partition, offset))).store.bodies
         == s.bodies + [body]
  {
    DecodeEncode(body);
  }

  /**
   * A record whose payload is not the encoding of any string appends "",
   * still growing the list by one.
   */
  lemma RecordIllFormedPayload(s: VecStoreGetter, bytes: seq<Byte>, partition: int, offset: int)
    requires forall t: string :: Encode(t) != bytes
    ensures RecordMessage(s, Success(BorrowedMessage(Some(bytes), partition, offset))).store.bodies
         == s.bodies + [""]
  {
    if Decode(bytes).Some? {
      EncodeDecode(bytes, Decode(bytes).value);
    }
  }

  /** The records among the stream items, in delivery order. */
  function Delivered(msgs: seq<KafkaResult>): (ms: seq<BorrowedMessage>)
    ensures |ms| <= |msgs|
  {
    if |msgs| == 0 then []
    else
      var last := msgs[|msgs| - 1];
      Delivered(msgs[..|msgs| - 1]) + (if last.Success? then [last.value] else [])
  }

  /** The payload texts of some records, in order. */
  function Texts(ms: seq<BorrowedMessage>): (ts: seq<string>)
    ensures |ts| == |ms|
    ensures forall j :: 0 <= j < |ms| ==> ts[j] == PayloadText(ms[j])
  {
    seq(|ms|, j requires 0 <= j < |ms| => PayloadText(ms[j]))
  }

  /** What handling some records does: for each in turn, its append and then its commit. */
  function Trace(ms: seq<BorrowedMessage>): (t: seq<Action>)
    ensures |t| == 2 * |ms|
    ensures forall j :: 0 <= j < |ms| ==>
      t[2 * j] == Append(PayloadText(ms[j])) && t[2 * j + 1] == CommitAsync(ms[j].partition, ms[j].offset)
  {
    if |ms| == 0 then []
    else
      var m := ms[|ms| - 1];
      Trace(ms[..|ms| - 1]) + [Append(PayloadText(m)), CommitAsync(m.partition, m.offset)]
  }

  lemma DeliveredStep(msgs: seq<KafkaResult>, i: nat)
    requires i < |msgs|
    ensures Delivered(msgs[..i + 1]) == Delivered(msgs[..i]) + (if msgs[i].Success? then [msgs[i].value] else [])
  {
    assert msgs[..i + 1][..i] == msgs[..i];
  }

  lemma TextsSnoc(ms: seq<BorrowedMessage>, m: BorrowedMessage)
    ensures Texts(ms + [m]) == Texts(ms) + [PayloadText(m)]
  {
  }

  lemma TraceSnoc(ms: seq<BorrowedMessage>, m: BorrowedMessage)
    ensures Trace(ms + [m]) == Trace(ms) + [Append(PayloadText(m)), CommitAsync(m.partition, m.offset)]
  {
    assert (ms + [m])[..|ms|] == ms;
  }

  /** One more stream item extends the list by that item's text, if it is a record. */
  lemma RecordExtendsBodies(store: VecStoreGetter, s: VecStoreGetter, done: seq<BorrowedMessage>, item: KafkaResult)
    requires store.bodies == s.bodies + Texts(done)
    ensures RecordMessage(store, item).store.bodies == s.bodies + Texts(done + (if item.Success? then [item.value] else []))
  {
    if item.Success? {
      TextsSnoc(done, item.value);
      assert s.bodies + Texts(done) + [PayloadText(item.value)] == s.bodies + (Texts(done) + [PayloadText(item.value)]);
    } else {
      assert done + [] == done;
    }
  }

  /** One more stream item extends the actions by that item's append and commit, if it is a record. */
  lemma RecordExtendsActions(store: VecStoreGetter, actions: seq<Action>, done: seq<BorrowedMessage>, item: KafkaResult)
    requires actions == Trace(done)
    ensures actions + RecordMessage(store, item).actions == Trace(done + (if item.Success? then [item.value] else []))
  {
    if item.Success? {
      TraceSnoc(done, item.value);
    } else {
      assert done + [] == done;
      assert actions + [] == actions;
    }
  }

  /**
   * The consumer's `for_each` over the stream: `record_message` on every item
   * in turn. Every record adds its payload text at the end of the list, in
   * delivery order, and is committed right after its own append.
   */
  method ConsumeStream(s: VecStoreGetter, msgs: seq<KafkaResult>) returns (store: VecStoreGetter, actions: seq<Action>)
    ensures store.bodies == s.bodies + Texts(Delivered(msgs))
    ensures actions == Trace(Delivered(msgs))
  {
    store := s;
    actions := [];
    var i := 0;
    while i < |msgs|
      invariant 0 <= i <= |msgs|
      invariant store.bodies == s.bodies + Texts(Delivered(msgs[..i]))
      invariant actions == Trace(Delivered(msgs[..i]))
    {
      DeliveredStep(msgs, i);
      RecordExtendsBodies(store, s, Delivered(msgs[..i]), msgs[i]);
      RecordExtendsActions(store, actions, Delivered(msgs[..i]), msgs[i]);
      var r := RecordMessage(store, msgs[i]);
      store := r.store;
      actions := actions + r.actions;
      i := i + 1;
    }
    assert msgs[..i] == msgs;
  }

  /** `get_message`: the list joined with " : "; it always succeeds and leaves the list as it was. */
  function GetMessage(s: VecStoreGetter): (r: Result<MsgReply, Status>)
    ensures r.Success?
    ensures |s.bodies| == 0 ==> r.value.message == ""
    ensures |s.bodies| == 1 ==> r.value.message == s.bodies[0]
    ensures |s.bodies| > 0 ==> |r.value.message| == TotalLength(s.bodies) + 3 * (|s.bodies| - 1)
  {
    JoinLength(s.bodies, " : ");
    Success(MsgReply(Join(s.bodies, " : ")))
  }

  /** Reading after one more record extends the previous read by " : " and the new body. */
  lemma ReadAfterRecord(s: VecStoreGetter, m: BorrowedMessage)
    requires |s.bodies| > 0
    ensures GetMessage(RecordMessage(s, Success(m)).store).value.message
         == GetMessage(s).value.message + " : " + PayloadText(m)
  {
    JoinSnoc(s.bodies, PayloadText(m), " : ");
  }

  /** Every consumed body occurs verbatim in the read, after the bodies before it and one " : " each. */
  lemma GetMessageContains(s: VecStoreGetter, i: nat)
    requires i < |s.bodies|
    ensures
      var at := JoinOffset(s.bodies, " : ", i);
      var text := GetMessage(s).value.message;
      at + |s.bodies[i]| <= |text| && text[at..at + |s.bodies[i]|] == s.bodies[i]
  {
    JoinContains(s.bodies, " : ", i);
  }

  /** The same body delivered twice (a retried write, say) is kept twice: the list does not deduplicate. */
  lemma NoDeduplication(s: VecStoreGetter, m: BorrowedMessage)
    ensures
      var twice := RecordMessage(RecordMessage(s, Success(m)).store, Success(m)).store;
      twice.bodies == s.bodies + [PayloadText(m), PayloadText(m)]
  {
  }
}
