/** Streams of whole records: the init conversation (process_manager.c), padding, cut headers. */
module FcgiConversation {
  import opened FcgiParam
  import opened FcgiMessage
  import opened FcgiSession
  import FcgiChunking

  /** A whole record at a record boundary becomes one message, in either mode. */
  lemma FeedRecord(mode: Mode, s: Session, r: Record, tail: bytes)
    requires GoodSession(mode, s) && AtBoundary(s) && WellFormed(r)
    ensures Valid(MessageOf(r))
    ensures GoodSession(mode, WithPending(s, MessageOf(r))) && AtBoundary(WithPending(s, MessageOf(r)))
    ensures |WithPending(s, MessageOf(r)).messages| == |s.messages| + 1
    ensures Feed(mode, s, EncodeRecord(r) + tail) == Feed(mode, WithPending(s, MessageOf(r)), tail)
  {
    hide ParseMessage, Feed, MessageOf, EncodeRecord, Evaluate;
    var data := EncodeRecord(r) + tail;
    FeedRecordValid(r);
    WithPendingValid(s, MessageOf(r));
    RecordParses(mode, r, tail);
    assert data[|EncodeRecord(r)|..] == tail;
    FeedStep(mode, s, data);
  }

  function EncodeRecords(rs: seq<Record>): bytes
    requires forall i :: 0 <= i < |rs| ==> WellFormed(rs[i])
  {
    if rs == [] then [] else EncodeRecord(rs[0]) + EncodeRecords(rs[1..])
  }

  /** Take in whole records, one message each. */
  ghost function Evaluated(s: Session, rs: seq<Record>): Session
    requires forall i :: 0 <= i < |rs| ==> WellFormed(rs[i])
    decreases |rs|
  {
    if rs == [] then s
    else
      FeedRecordValid(rs[0]);
      Evaluated(WithPending(s, MessageOf(rs[0])), rs[1..])
  }

  lemma FeedRecordValid(r: Record)
    requires WellFormed(r)
    ensures |EncodeRecord(r)| == HEADER + |r.content|
    ensures Valid(MessageOf(r)) && MessageOf(r).parseDone
    ensures Type(MessageOf(r)) == r.kind && MessageOf(r).contentLength == |r.content|
    ensures IsStream(r.kind) ==> MessageOf(r).content == r.content
  {
  }

  lemma EvaluatedFirst(s: Session, rs: seq<Record>)
    requires rs != [] && forall i :: 0 <= i < |rs| ==> WellFormed(rs[i])
    ensures Valid(MessageOf(rs[0])) && Evaluated(s, rs) == Evaluated(WithPending(s, MessageOf(rs[0])), rs[1..])
    ensures EncodeRecords(rs) == EncodeRecord(rs[0]) + EncodeRecords(rs[1..])
  {
    FeedRecordValid(rs[0]);
  }

  /** Every stream of well-formed unpadded records parses, as written and as commented, to one
      message per record, and ends on a record boundary. */
  lemma {:induction false} RecordsParse(mode: Mode, s: Session, rs: seq<Record>)
    requires GoodSession(mode, s) && AtBoundary(s) && forall i :: 0 <= i < |rs| ==> WellFormed(rs[i])
    ensures Feed(mode, s, EncodeRecords(rs)) == Ok(Evaluated(s, rs))
    ensures AtBoundary(Evaluated(s, rs)) && |Evaluated(s, rs).messages| == |s.messages| + |rs|
    decreases |rs|
  {
    if rs == [] {
      assert Feed(mode, s, []) == Ok(s);
    } else {
      EvaluatedFirst(s, rs);
      FeedRecord(mode, s, rs[0], EncodeRecords(rs[1..]));
      var s1 := WithPending(s, MessageOf(rs[0]));
      RecordsParse(mode, s1, rs[1..]);
    }
  }

  // The init conversation.

  const BUFFER_SIZE: nat := 4096
  const MAX_PAIRS: nat := 128

  const BEGIN := BeginRecord(1, RESPONDER, 0)
  const NO_PARAMS := Record(PARAMS, 1, [])
  const NO_STDIN := Record(STDIN, 1, [])

  /** What follows the parameter record: its empty terminator and two empty stdin records. */
  const CLOSING: bytes :=
    [1, 4, 0, 1, 0, 0, 0, 0] + ([1, 5, 0, 1, 0, 0, 0, 0] + ([1, 5, 0, 1, 0, 0, 0, 0] + []))

  function ParamRecord(content: bytes): Record {
    Record(PARAMS, 1, content)
  }

  predicate AllEncodable(ps: seq<Param>) {
    forall i :: 0 <= i < |ps| ==> Encodable(ps[i])
  }

  /** The bytes the init thread sends; the parameter record is cut to the buffer. */
  function Conversation(content: bytes): bytes
    requires |content| < BUFFER_SIZE
  {
    EncodeRecord(BEGIN)
    + (EncodeRecord(ParamRecord(content))[..Min(HEADER + |content|, BUFFER_SIZE)]
       + CLOSING)
  }

  datatype Outcome =
    | Sent(stream: bytes)
    | TooManyPairs     // the child counts as crashed
    | Stopped          // a write error or a failing assertion ends the program

  /** The loop that fills the buffer with the configured pairs. */
  method WriteParams(pairs: seq<Param>) returns (r: Outcome)
    requires AllEncodable(pairs)
    ensures |pairs| < 128 ==> (r.Sent? <==> |EncodeParams(pairs)| < 4096) && !r.TooManyPairs?
    ensures |pairs| >= 128 ==> !r.Sent? && (r.TooManyPairs? <==> |EncodeParams(pairs[..128])| < 4096)
    ensures r.Sent? ==> r.stream == EncodeParams(pairs)
  {
    hide EncodeParams, EncodeParam, Splice;
    var buffer := new byte[BUFFER_SIZE];
    var at, remain := 0, BUFFER_SIZE;
    var i := 0;
    NoPairs(pairs);
    while i < MAX_PAIRS && i < |pairs|
      invariant 0 <= i <= |pairs| && i <= MAX_PAIRS
      invariant 0 <= at && at + remain == BUFFER_SIZE && remain > 0
      invariant buffer[..at] == EncodeParams(pairs[..i])
    {
      OneMorePair(pairs, i);
      if |pairs| >= MAX_PAIRS {
        FirstPairs(pairs, i + 1);
      }
      ghost var was := buffer[..];
      var w := WriteParam(buffer, at, remain, pairs[i].name, pairs[i].value);
      if !w.Written? {
        return Stopped;
      }
      SplicedPrefix(was, at, EncodeParam(pairs[i]), buffer[..]);
      at, remain := at + w.size, remain - w.size;
      i := i + 1;
    }
    if i >= MAX_PAIRS {
      return TooManyPairs;
    }
    assert pairs[..i] == pairs;
    r := Sent(buffer[..at]);
  }

  lemma NoPairs(pairs: seq<Param>)
    ensures EncodeParams(pairs[..0]) == []
  {
  }

  lemma FirstPairs(pairs: seq<Param>, i: nat)
    requires AllEncodable(pairs) && i <= 128 <= |pairs|
    ensures |EncodeParams(pairs[..i])| <= |EncodeParams(pairs[..128])|
  {
    EncodeParamsPrefix(pairs[..128], i);
    assert pairs[..128][..i] == pairs[..i];
  }

  lemma OneMorePair(pairs: seq<Param>, i: nat)
    requires AllEncodable(pairs) && i < |pairs|
    ensures EncodeParams(pairs[..i + 1]) == EncodeParams(pairs[..i]) + EncodeParam(pairs[i])
    ensures |EncodeParams(pairs[..i + 1])| <= |EncodeParams(pairs)|
  {
    EncodeParamsAppend(pairs[..i], pairs[i]);
    assert pairs[..i] + [pairs[i]] == pairs[..i + 1];
    EncodeParamsPrefix(pairs, i + 1);
  }

  lemma SplicedPrefix(was: bytes, at: nat, data: bytes, now: bytes)
    requires at + |data| <= |was| && now == Splice(was, at, data)
    ensures now[..at + |data|] == was[..at] + data
  {
  }

  /** The message-building part of process_manager_thread_function_init_new_child: what reaches
      the child, if fewer than 128 pairs fit the buffer with a byte to spare. */
  method SendInit(pairs: seq<Param>) returns (r: Outcome)
    requires AllEncodable(pairs)
    ensures |pairs| < 128 ==> (r.Sent? <==> |EncodeParams(pairs)| < 4096) && !r.TooManyPairs?
    ensures |pairs| >= 128 ==> !r.Sent? && (r.TooManyPairs? <==> |EncodeParams(pairs[..128])| < 4096)
    ensures r.Sent? ==> r.stream == Conversation(EncodeParams(pairs))
  {
    var first := Write(BEGIN);
    var filled := WriteParams(pairs);
    if !filled.Sent? {
      return filled;
    }
    var second := Write(ParamRecord(filled.stream));
    var third := Write(NO_PARAMS);
    var fourth := Write(NO_STDIN);
    Assemble(filled.stream, first, second, third, fourth);
    r := Sent(first + (second + (third + (fourth + (fourth + [])))));
  }

  method Write(r: Record) returns (written: bytes)
    requires WellFormed(r)
    ensures written == EncodeRecord(r)[..Min(|EncodeRecord(r)|, BUFFER_SIZE)]
    ensures |EncodeRecord(r)| <= BUFFER_SIZE ==> written == EncodeRecord(r)
  {
    WriteIsRecord(r, BUFFER_SIZE);
    written := WriteMessage(Build(r), BUFFER_SIZE);
  }

  lemma Assemble(content: bytes, first: bytes, second: bytes, third: bytes, fourth: bytes)
    requires |content| < BUFFER_SIZE
    requires first == EncodeRecord(BEGIN) && third == EncodeRecord(NO_PARAMS) && fourth == EncodeRecord(NO_STDIN)
    requires second == EncodeRecord(ParamRecord(content))[..Min(HEADER + |content|, BUFFER_SIZE)]
    ensures first + (second + (third + (fourth + (fourth + [])))) == Conversation(content)
  {
    ClosingRecords();
  }

  lemma ClosingRecords()
    ensures CLOSING == EncodeRecord(NO_PARAMS) + (EncodeRecord(NO_STDIN) + (EncodeRecord(NO_STDIN) + []))
  {
  }

  lemma EncodeParamsPrefix(ps: seq<Param>, i: nat)
    requires AllEncodable(ps) && i <= |ps|
    ensures |EncodeParams(ps[..i])| <= |EncodeParams(ps)|
  {
    if i > 0 {
      assert ps[..i][1..] == ps[1..][..i - 1];
      EncodeParamsPrefix(ps[1..], i - 1);
    }
  }

  /** The session after the whole conversation. */
  ghost predicate Conversed(s: Session, pairs: seq<Param>) {
    s.requestId == 1 && s.role == RESPONDER && s.params == pairs && s.state == End && |s.messages| == 5 && AtBoundary(s)
  }

  lemma AfterBegin(tail: bytes) returns (s: Session)
    ensures GoodSession(AsWritten, s) && AtBoundary(s)
    ensures s == Session(Running, 1, RESPONDER, s.messages, []) && |s.messages| == 1
    ensures Feed(AsWritten, Started(NEW_SESSION), EncodeRecord(BEGIN) + tail) == Feed(AsWritten, s, tail)
  {
    hide ParseMessage, Feed, MessageOf, EncodeRecord;
    BeginMessage();
    FeedRecord(AsWritten, Started(NEW_SESSION), BEGIN, tail);
    s := WithPending(Started(NEW_SESSION), MessageOf(BEGIN));
  }

  lemma BeginMessage()
    ensures var m := MessageOf(BEGIN);
            Valid(m) && m.parseDone && Type(m) == BEGIN_REQUEST && RequestId(m) == 1 && Role(m) == RESPONDER
  {
  }

  lemma TakeParams(s: Session, m: Message)
    requires AtBoundary(s) && Valid(m) && m.parseDone && Type(m) == PARAMS
    ensures var s' := WithPending(s, m);
            && s' == s.(state := s'.state, messages := s'.messages, params := s.params + ParseParams(m.content))
            && (s.state != End ==> s'.state != End)
  {
  }

  lemma AfterParams(s: Session, content: bytes, tail: bytes) returns (s': Session)
    requires GoodSession(AsWritten, s) && AtBoundary(s) && |content| < 0x1_0000
    ensures GoodSession(AsWritten, s') && AtBoundary(s') && |s'.messages| == |s.messages| + 1
    ensures s'.params == s.params + ParseParams(content) && s'.requestId == s.requestId && s'.role == s.role
    ensures s.state != End ==> s'.state != End
    ensures Feed(AsWritten, s, EncodeRecord(ParamRecord(content)) + tail) == Feed(AsWritten, s', tail)
  {
    FeedRecordValid(ParamRecord(content));
    TakeParams(s, MessageOf(ParamRecord(content)));
    FeedRecord(AsWritten, s, ParamRecord(content), tail);
    s' := WithPending(s, MessageOf(ParamRecord(content)));
  }

  lemma TakeStdin(s: Session, m: Message)
    requires AtBoundary(s) && Valid(m) && m.parseDone && Type(m) == STDIN && m.contentLength == 0
    ensures var s' := WithPending(s, m); s' == s.(state := End, messages := s'.messages)
  {
  }

  lemma AfterStdin(s: Session, tail: bytes) returns (s': Session)
    requires GoodSession(AsWritten, s) && AtBoundary(s)
    ensures GoodSession(AsWritten, s') && AtBoundary(s') && |s'.messages| == |s.messages| + 1
    ensures s' == s.(state := End, messages := s'.messages)
    ensures Feed(AsWritten, s, EncodeRecord(NO_STDIN) + tail) == Feed(AsWritten, s', tail)
  {
    FeedRecordValid(NO_STDIN);
    TakeStdin(s, MessageOf(NO_STDIN));
    FeedRecord(AsWritten, s, NO_STDIN, tail);
    s' := WithPending(s, MessageOf(NO_STDIN));
  }

  lemma AfterClosing(s: Session) returns (s': Session)
    requires GoodSession(AsWritten, s) && AtBoundary(s) && s.state != End
    ensures Feed(AsWritten, s, CLOSING) == Ok(s')
    ensures s' == s.(state := End, messages := s'.messages) && |s'.messages| == |s.messages| + 3 && AtBoundary(s')
  {
    ClosingRecords();
    var stdins := EncodeRecord(NO_STDIN) + (EncodeRecord(NO_STDIN) + []);
    var s1 := AfterParams(s, [], stdins);
    assert ParamRecord([]) == NO_PARAMS;
    assert ParseParams([]) == [];
    var s2 := AfterStdin(s1, EncodeRecord(NO_STDIN) + []);
    s' := AfterStdin(s2, []);
    assert Feed(AsWritten, s', []) == Ok(s');
  }

  /** The round trip: pairs whose encoding leaves room for the record header in the buffer arrive
      as they were configured, in order, and the session is at its end. */
  lemma ConversationRoundTrip(pairs: seq<Param>) returns (s: Session)
    requires AllEncodable(pairs) && |EncodeParams(pairs)| <= BUFFER_SIZE - HEADER
    ensures ParseSession(AsWritten, NEW_SESSION, Conversation(EncodeParams(pairs))) == Ok(s) && Conversed(s, pairs)
  {
    var content := EncodeParams(pairs);
    var rec := EncodeRecord(ParamRecord(content));
    assert rec[..Min(HEADER + |content|, BUFFER_SIZE)] == rec;
    var s1 := AfterBegin(rec + CLOSING);
    var s2 := AfterParams(s1, content, CLOSING);
    ParamsRoundTrip(pairs, []);
    assert content + [] == content && ParseParams([]) == [];
    s := AfterClosing(s2);
  }

  // Between 4089 and 4095 bytes the record is cut short.

  /** What the parser finds as the next header after taking k bytes of the closing records for
      missing content: never the start of a record it knows. */
  lemma Misaligned(s: Session, k: nat)
    requires GoodSession(AsWritten, s) && AtBoundary(s) && 1 <= k <= 7
    ensures Feed(AsWritten, s, CLOSING[k..]).Err?
  {
    hide ParseMessage, Feed;
    var data := CLOSING[k..];
    BadHeader(k);
    HeaderRefused(AsWritten, data);
    FeedStep(AsWritten, s, data);
  }

  lemma BadHeader(k: nat)
    requires 1 <= k <= 7
    ensures |CLOSING[k..]| >= HEADER
    ensures var data := CLOSING[k..]; !(Known(data[1]) && LengthFits(data[1], Number16(data[4], data[5])))
  {
    var data := CLOSING[k..];
    ClosingAt(k);
    assert data[1] == CLOSING[k + 1] && data[4] == CLOSING[k + 4] && data[5] == CLOSING[k + 5];
  }

  /** Behind the first byte of the closing records there is no type, or a begin record of length 0 or 256. */
  lemma ClosingAt(k: nat)
    requires 1 <= k <= 7
    ensures |CLOSING| == 24
    ensures k == 2 || k == 7 ==> CLOSING[k + 1] == 1 && CLOSING[k + 4] <= 1 && CLOSING[k + 5] == 0
    ensures k != 2 && k != 7 ==> CLOSING[k + 1] == 0
  {
  }

  lemma CutShort(content: bytes)
    requires BUFFER_SIZE - HEADER < |content| < BUFFER_SIZE
    ensures ParseSession(AsWritten, NEW_SESSION, Conversation(content)).Err?
  {
    var room := BUFFER_SIZE - HEADER;
    var k := |content| - room;
    var rec := EncodeRecord(ParamRecord(content));
    var content' := content[..room] + CLOSING[..k];
    var tail := CLOSING[k..];
    assert rec[..BUFFER_SIZE] + CLOSING == EncodeRecord(ParamRecord(content')) + tail by {
      assert EncodeHeader(ParamRecord(content')) == EncodeHeader(ParamRecord(content));
      assert CLOSING == CLOSING[..k] + CLOSING[k..];
    }
    var s1 := AfterBegin(rec[..BUFFER_SIZE] + CLOSING);
    var s2 := AfterParams(s1, content', tail);
    Misaligned(s2, k);
  }

  /** Exactly when a conversation that is sent survives: the encoding takes at most 4088 bytes. */
  lemma ConversationExactly(pairs: seq<Param>)
    requires AllEncodable(pairs) && |EncodeParams(pairs)| < BUFFER_SIZE
    ensures (exists s :: ParseSession(AsWritten, NEW_SESSION, Conversation(EncodeParams(pairs))) == Ok(s) && Conversed(s, pairs))
       <==> |EncodeParams(pairs)| <= 4088
  {
    if |EncodeParams(pairs)| <= 4088 {
      var s := ConversationRoundTrip(pairs);
    } else {
      CutShort(EncodeParams(pairs));
    }
  }

  // Limits of the record parser.

  /** At a record boundary every further byte belongs to a further message. */
  lemma MoreBytesMoreMessages(s: Session, data: bytes)
    requires GoodSession(AsWritten, s) && AtBoundary(s) && data != []
    ensures var r := Feed(AsWritten, s, data); r.Ok? ==> |r.value.messages| > |s.messages|
  {
    FeedStep(AsWritten, s, data);
    var p := ParseMessage(AsWritten, Pending(s), data);
    if p.Ok? {
      var s1 := WithPending(s, p.value.0);
      WithPendingValid(s, p.value.0);
      FcgiChunking.FeedKeepsDone(AsWritten, s1, data[p.value.1..]);
    }
  }

  /** A record of section 3.3 with padding: byte 6 of the header says how much follows the content. */
  function EncodePadded(r: Record, padding: bytes): bytes
    requires WellFormed(r) && |padding| < 256
  {
    EncodeHeader(r)[6 := |padding|] + r.content + padding
  }

  /** The parser takes from a padded record the header and the content, and stops there. */
  lemma PaddedParses(r: Record, padding: bytes)
    requires WellFormed(r) && |padding| < 256
    ensures var p := ParseMessage(AsWritten, NEW, EncodePadded(r, padding));
            p.Ok? && p.value.0.parseDone && p.value.1 == HEADER + |r.content|
  {
    var data := EncodePadded(r, padding);
    PaddedFields(r, padding);
    FcgiChunking.HeaderAccepted(data);
    FcgiChunking.FirstMessage(data);
    OneCall(NEW, data);
  }

  lemma PaddedFields(r: Record, padding: bytes)
    requires WellFormed(r) && |padding| < 256
    ensures var data := EncodePadded(r, padding);
            && |data| == HEADER + |r.content| + |padding|
            && data[1] == r.kind && Number16(data[4], data[5]) == |r.content|
            && data[HEADER + |r.content|..] == padding
  {
  }

  /** Padding is not skipped: a padded record is read as one message only if the padding is empty. */
  lemma PaddingExactly(r: Record, padding: bytes)
    requires WellFormed(r) && |padding| < 256
    ensures EncodePadded(r, padding) != []
    ensures var res := ParseSession(AsWritten, NEW_SESSION, EncodePadded(r, padding));
            (res.Ok? && |res.value.messages| == 1) <==> padding == []
  {
    hide ParseMessage, Feed, EncodePadded, Evaluate;
    var s0, data := Started(NEW_SESSION), EncodePadded(r, padding);
    PaddedFields(r, padding);
    PaddedParses(r, padding);
    FeedStep(AsWritten, s0, data);
    var m := ParseMessage(AsWritten, NEW, data).value.0;
    WithPendingValid(s0, m);
    var s := WithPending(s0, m);
    if padding == [] {
      FeedNothing(AsWritten, s);
    } else {
      MoreBytesMoreMessages(s, padding);
    }
  }

  /** A stream the cuts matter for: a single record cut inside its header, at any of the seven
      places. After one byte the rest of the header lands behind the header, and its type reads as
      zero; after more it lands beyond all fields. */
  lemma CutHeaderFails(r: Record, n: nat)
    requires WellFormed(r) && 0 < n < HEADER
    ensures FcgiChunking.FeedChunks(AsWritten, NEW_SESSION, [EncodeRecord(r)[..n], EncodeRecord(r)[n..]]) ==
            Err(if n == 1 then UnknownType else HeaderOverrun)
    ensures ParseSession(AsWritten, NEW_SESSION, EncodeRecord(r)).Ok?
  {
    hide EncodeRecord, Feed, FcgiChunking.FeedChunks;
    FeedRecordValid(r);
    WholeRecord(r);
    CutFails(EncodeRecord(r)[..n], EncodeRecord(r)[n..]);
  }

  lemma WholeRecord(r: Record)
    requires WellFormed(r)
    ensures EncodeRecord(r) != [] && ParseSession(AsWritten, NEW_SESSION, EncodeRecord(r)).Ok?
  {
    hide EncodeRecord, Feed, Evaluated;
    FeedRecordValid(r);
    RecordsParse(AsWritten, Started(NEW_SESSION), [r]);
    assert [r][1..] == [] && EncodeRecords([r]) == EncodeRecord(r) + [] == EncodeRecord(r);
  }

  /** Any header in two pieces, as far as the first error. */
  lemma CutFails(a: bytes, b: bytes)
    requires 0 < |a| < HEADER && |a| + |b| >= HEADER
    ensures FcgiChunking.FeedChunks(AsWritten, NEW_SESSION, [a, b]) == Err(if |a| == 1 then UnknownType else HeaderOverrun)
  {
    hide ParseMessage, Feed, WithPending, Valid;
    var s0 := Started(NEW_SESSION);
    var m := FcgiChunking.ShortHeader(s0, a);
    var s1 := WithPending(s0, m);
    PendingThenFails(s0, m, b);
    assert [a, b][0] == a && [a, b][1..] == [b] && [b][0] == b;
    assert ParseSession(AsWritten, NEW_SESSION, a) == Ok(s1);
    assert Started(s1) == s1;
  }

  lemma PendingThenFails(s: Session, m: Message, b: bytes)
    requires GoodSession(AsWritten, s) && Live(AsWritten, m) && !m.headerDone && 0 < m.bytesRead
    requires |b| >= HEADER - m.bytesRead && GoodSession(AsWritten, WithPending(s, m))
    ensures Feed(AsWritten, WithPending(s, m), b) == Err(if m.bytesRead == 1 then UnknownType else HeaderOverrun)
  {
    hide ParseMessage, Feed, Evaluate;
    ResumeFails(m, b);
    PendingAgain(s, m);
    FeedStep(AsWritten, WithPending(s, m), b);
  }

  lemma ResumeFails(m: Message, data: bytes)
    requires Valid(m) && !m.headerDone && !m.parseDone && 0 < m.bytesRead && |data| >= HEADER - m.bytesRead
    requires m.bytesRead == 1 ==> m.raw[1] == 0
    ensures ParseMessage(AsWritten, m, data) == Err(if m.bytesRead == 1 then UnknownType else HeaderOverrun)
  {
    if m.bytesRead == 1 {
      SpliceAt(m.raw, HEADER, data[..HEADER - 1]);
    }
  }
}
