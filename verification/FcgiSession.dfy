/** The session parser: a stream of records in chunks of any size (fcgi_state.c). */
module FcgiSession {
  import opened FcgiParam
  import opened FcgiMessage

  datatype SessionState = Fresh | Running | ParamsDone | End

  /** struct fcgi_session_s */
  datatype Session = Session(state: SessionState, requestId: nat, role: nat, messages: seq<Message>, params: seq<Param>)

  const NEW_SESSION := Session(Fresh, 0, 0, [], [])

  function StateRank(st: SessionState): nat {
    match st
    case Fresh => 0
    case Running => 1
    case ParamsDone => 2
    case End => 3
  }

  function LastMessage(s: Session): Message
    requires |s.messages| > 0
  {
    s.messages[|s.messages| - 1]
  }

  /** The next byte starts a new record. */
  predicate AtBoundary(s: Session) {
    s.messages == [] || LastMessage(s).parseDone
  }

  /** Every message but the last is done. */
  predicate ValidSession(s: Session) {
    && (forall i :: 0 <= i < |s.messages| ==> Valid(s.messages[i]))
    && (forall i :: 0 <= i < |s.messages| - 1 ==> s.messages[i].parseDone)
  }

  function Started(s: Session): Session {
    if s.state == Fresh then s.(state := Running) else s
  }

  /** fcgi_session_evaluate_message_done */
  function Evaluate(s: Session, m: Message): Session
    requires Valid(m)
  {
    if Type(m) == PARAMS then
      var s' := s.(params := s.params + ParseParams(m.content));
      if s.state != End && m.contentLength == 0 then s'.(state := ParamsDone) else s'
    else if Type(m) == STDIN then
      if m.contentLength == 0 then s.(state := End) else s
    else if Type(m) == BEGIN_REQUEST then
      s.(requestId := RequestId(m), role := Role(m))
    else s
  }

  /** The message the next bytes belong to, and the list without it. */
  function Pending(s: Session): (m: Message)
    requires ValidSession(s)
    ensures Valid(m) && !m.parseDone
  {
    if AtBoundary(s) then NEW else LastMessage(s)
  }

  function Settled(s: Session): seq<Message> {
    if AtBoundary(s) then s.messages else s.messages[..|s.messages| - 1]
  }

  /** Put the pending message back, and evaluate it if it is done. */
  function WithPending(s: Session, m: Message): Session
    requires Valid(m)
  {
    var s' := s.(messages := Settled(s) + [m]);
    if m.parseDone then Evaluate(s', m) else s'
  }

  lemma WithPendingValid(s: Session, m: Message)
    requires ValidSession(s) && Valid(m)
    ensures ValidSession(WithPending(s, m)) && WithPending(s, m).messages == Settled(s) + [m]
    ensures AtBoundary(WithPending(s, m)) <==> m.parseDone
  {
  }

  /** What an unfinished message looks like between two calls. */
  predicate Live(mode: Mode, m: Message) {
    && Valid(m) && !m.parseDone
    && (m.headerDone ==>
          match mode
          case AsWritten => IsStream(Type(m)) && m.bytesRead < m.contentLength
          case AsCommented => m.bytesRead < FullSize(m))
    && (mode == AsWritten && m.bytesRead == 1 ==> Type(m) == 0)
    && (m.bytesRead == 0 ==> m == NEW)
  }

  predicate GoodSession(mode: Mode, s: Session) {
    ValidSession(s) && (!AtBoundary(s) ==> Live(mode, LastMessage(s)) && LastMessage(s).bytesRead > 0)
  }

  /** The assertions of fcgi_session_parse about one record: a call with data reads some of it,
      never more than there is, and all of it unless the record is done. */
  lemma ParseLive(mode: Mode, m: Message, data: bytes)
    requires Live(mode, m) && |data| > 0
    ensures var r := ParseMessage(mode, m, data);
            r.Ok? ==>
              && Valid(r.value.0) && 0 < r.value.1 <= |data| && r.value.0.bytesRead == m.bytesRead + r.value.1
              && (!r.value.0.parseDone ==> Live(mode, r.value.0) && r.value.1 == |data|)
  {
    hide ParseBody;
    if m.headerDone {
      BodyLive(mode, m, data, 0);
    } else {
      var n := Min(|data|, HEADER - m.bytesRead);
      var at := if mode == AsWritten then HEADER * m.bytesRead else m.bytesRead;
      if at + n <= 16 {
        var m1 := StoreHeader(m, at, data[..n]);
        if m1.bytesRead == HEADER && FinishHeader(m1).Ok? {
          BodyLive(mode, FinishHeader(m1).value, data[n..], n);
        }
      }
    }
  }

  lemma BodyLive(mode: Mode, h: Message, data: bytes, used: nat)
    requires Valid(h) && h.headerDone && !h.parseDone
    requires mode == AsWritten ==> h.bytesRead == HEADER || IsStream(Type(h))
    ensures var (m, n) := ParseBody(mode, h, data, used);
            && Valid(m) && used <= n <= used + |data| && m.bytesRead == h.bytesRead + (n - used)
            && (h.bytesRead < FullSize(h) && data != [] ==> used < n)
            && (!m.parseDone ==> Live(mode, m) && n == used + |data|)
  {
    hide Store;
    StoreKeepsValid(h, data[..Min(|data|, FullSize(h) - h.bytesRead)]);
  }

  lemma PendingIsLive(mode: Mode, s: Session)
    requires GoodSession(mode, s)
    ensures Live(mode, Pending(s))
  {
  }

  /** The loop of fcgi_session_parse over the records a call touches. */
  function Feed(mode: Mode, s: Session, data: bytes): (r: Result<Session>)
    requires GoodSession(mode, s)
    ensures r.Ok? ==> GoodSession(mode, r.value)
    decreases |data|
  {
    if data == [] then Ok(s)
    else
      PendingIsLive(mode, s);
      ParseLive(mode, Pending(s), data);
      match ParseMessage(mode, Pending(s), data)
      case Err(e) => Err(e)
      case Ok((m, n)) =>
        WithPendingValid(s, m);
        if m.parseDone then Feed(mode, WithPending(s, m), data[n..]) else Ok(WithPending(s, m))
  }

  /** One turn of the loop. */
  lemma FeedStep(mode: Mode, s: Session, data: bytes)
    requires GoodSession(mode, s) && data != []
    ensures ParseMessage(mode, Pending(s), data).Err? ==>
              Feed(mode, s, data) == Err(ParseMessage(mode, Pending(s), data).error)
    ensures ParseMessage(mode, Pending(s), data).Ok? ==>
              var (m, n) := ParseMessage(mode, Pending(s), data).value;
              && Valid(m) && 0 < n <= |data| && (!m.parseDone ==> n == |data|)
              && GoodSession(mode, WithPending(s, m)) && (AtBoundary(WithPending(s, m)) <==> m.parseDone)
    ensures ParseMessage(mode, Pending(s), data).Ok? ==>
              Feed(mode, s, data) ==
              Feed(mode, WithPending(s, ParseMessage(mode, Pending(s), data).value.0),
                   data[ParseMessage(mode, Pending(s), data).value.1..])
  {
    PendingIsLive(mode, s);
    ParseLive(mode, Pending(s), data);
    var r := ParseMessage(mode, Pending(s), data);
    if r.Ok? {
      WithPendingValid(s, r.value.0);
      assert !r.value.0.parseDone ==> data[r.value.1..] == [];
    }
  }

  lemma FeedNothing(mode: Mode, s: Session)
    requires GoodSession(mode, s)
    ensures Feed(mode, s, []) == Ok(s)
  {
  }

  /** fcgi_session_parse on a non-empty chunk. */
  function ParseSession(mode: Mode, s: Session, data: bytes): (r: Result<Session>)
    requires GoodSession(mode, s) && data != []
    ensures r.Ok? ==> GoodSession(mode, r.value)
  {
    Feed(mode, Started(s), data)
  }

  /** Go on feeding unless the program has stopped. */
  function AndFeed(mode: Mode, r: Result<Session>, data: bytes): (r': Result<Session>)
    requires r.Ok? ==> GoodSession(mode, r.value)
    ensures r'.Ok? ==> GoodSession(mode, r'.value)
  {
    if r.Ok? then Feed(mode, r.value, data) else r
  }

  // The byte-wise reference.

  function Push(s: Session, b: byte): (r: Result<Session>)
    requires GoodSession(AsCommented, s)
    ensures r.Ok? ==> GoodSession(AsCommented, r.value)
  {
    PendingIsLive(AsCommented, s);
    PushValid(Pending(s), b);
    match PushByte(Pending(s), b)
    case Err(e) => Err(e)
    case Ok(m) =>
      WithPendingValid(s, m);
      Ok(WithPending(s, m))
  }

  function PushAll(s: Session, data: bytes): (r: Result<Session>)
    requires GoodSession(AsCommented, s)
    ensures r.Ok? ==> GoodSession(AsCommented, r.value)
    decreases |data|
  {
    if data == [] then Ok(s)
    else
      match Push(Started(s), data[0])
      case Err(e) => Err(e)
      case Ok(s') => PushAll(s', data[1..])
  }

  lemma FeedPeel(s: Session, b: byte, rest: bytes)
    requires GoodSession(AsCommented, s)
    ensures Feed(AsCommented, s, [b] + rest) == AndFeed(AsCommented, Push(s, b), rest)
  {
    hide ParseMessage, PushByte;
    PendingIsLive(AsCommented, s);
    var m0 := Pending(s);
    var data := [b] + rest;
    PeelMessage(m0, b, rest);
    PushValid(m0, b);
    FeedStep(AsCommented, s, data);
    assert data[1..] == rest;
    if PushByte(m0, b).Ok? && !PushByte(m0, b).value.parseDone && rest != [] {
      FeedPeelOpen(s, b, rest, PushByte(m0, b).value);
    }
  }

  /** The record goes on behind the first byte. */
  lemma FeedPeelOpen(s: Session, b: byte, rest: bytes, m: Message)
    requires GoodSession(AsCommented, s) && rest != [] && Open(m) && GoodSession(AsCommented, WithPending(s, m))
    requires ParseMessage(AsCommented, Pending(s), [b] + rest) == OneMore(ParseMessage(AsCommented, m, rest))
    ensures Feed(AsCommented, s, [b] + rest) == Feed(AsCommented, WithPending(s, m), rest)
  {
    var s' := WithPending(s, m);
    var data := [b] + rest;
    PendingAgain(s, m);
    FeedStep(AsCommented, s, data);
    FeedStep(AsCommented, s', rest);
    var r := ParseMessage(AsCommented, m, rest);
    if r.Ok? {
      PendingTwice(s, m, r.value.0);
      DropPeel(b, rest, r.value.1);
    }
  }

  lemma PendingTwice(s: Session, m: Message, m': Message)
    requires ValidSession(s) && Valid(m) && !m.parseDone && Valid(m')
    ensures WithPending(WithPending(s, m), m') == WithPending(s, m')
  {
    PendingAgain(s, m);
  }

  lemma DropPeel(b: byte, rest: bytes, n: nat)
    requires n <= |rest|
    ensures ([b] + rest)[n + 1..] == rest[n..]
  {
  }

  lemma PendingAgain(s: Session, m: Message)
    requires ValidSession(s) && Valid(m) && !m.parseDone
    ensures ValidSession(WithPending(s, m)) && Pending(WithPending(s, m)) == m && Settled(WithPending(s, m)) == Settled(s)
  {
  }

  lemma PushStarts(s: Session, b: byte)
    requires GoodSession(AsCommented, s) && s.state != Fresh
    ensures Push(s, b).Ok? ==> Push(s, b).value.state != Fresh
  {
  }

  lemma {:induction false} FeedIsPushAll(s: Session, data: bytes)
    requires GoodSession(AsCommented, s) && s.state != Fresh
    ensures Feed(AsCommented, s, data) == PushAll(s, data)
    decreases |data|
  {
    if data != [] {
      assert data == [data[0]] + data[1..];
      FeedPeel(s, data[0], data[1..]);
      if Push(s, data[0]).Ok? {
        PushStarts(s, data[0]);
        FeedIsPushAll(Push(s, data[0]).value, data[1..]);
      }
    }
  }

  /** The parser as commented, which copies whole stretches, is the byte-wise parser. */
  lemma CommentedIsByteWise(s: Session, data: bytes)
    requires GoodSession(AsCommented, s) && data != []
    ensures ParseSession(AsCommented, s, data) == PushAll(s, data)
  {
    FeedIsPushAll(Started(s), data);
    assert PushAll(s, data) == PushAll(Started(s), data);
  }
}
