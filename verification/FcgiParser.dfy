/** The session object, parsing in place, and what every call keeps (fcgi_state.c). */
module FcgiParser {
  import opened FcgiParam
  import opened FcgiMessage
  import opened FcgiSession

  lemma StartedEvaluate(s: Session, m: Message)
    requires Valid(m)
    ensures Started(Evaluate(s, m)) == Evaluate(Started(s), m)
  {
  }

  lemma StartedPending(s: Session, m: Message)
    requires Valid(m)
    ensures Started(WithPending(s, m)) == WithPending(Started(s), m)
  {
    StartedEvaluate(s.(messages := Settled(s) + [m]), m);
  }

  class SessionParser {
    var state: SessionState
    var requestId: nat
    var role: nat
    var messages: seq<Message>
    var params: seq<Param>

    ghost function Value(): Session
      reads this
    {
      Session(state, requestId, role, messages, params)
    }

    /** fcgi_session_new */
    constructor ()
      ensures Value() == NEW_SESSION
    {
      state, requestId, role, messages, params := Fresh, 0, 0, [], [];
    }

    /** fcgi_session_evaluate_message_done */
    method EvaluateDone(m: Message)
      requires Valid(m)
      modifies this
      ensures Value() == Evaluate(old(Value()), m)
    {
      if Type(m) == PARAMS {
        params := params + ParseParams(m.content);
        if state != End && m.contentLength == 0 {
          state := ParamsDone;
        }
      } else if Type(m) == STDIN {
        if m.contentLength == 0 {
          state := End;
        }
      } else if Type(m) == BEGIN_REQUEST {
        requestId := RequestId(m);
        role := Role(m);
      }
    }

    /** One fcgi_message_parse call, and the bookkeeping around it. */
    method TakeRecord(data: bytes) returns (r: Result<nat>)
      requires GoodSession(AsWritten, Value()) && data != []
      modifies this
      ensures match ParseMessage(AsWritten, Pending(old(Value())), data)
              case Ok((m, n)) => r == Ok(n) && Valid(m) && Value() == WithPending(old(Value()), m)
              case Err(e) => r == Err(e)
    {
      FeedStep(AsWritten, Value(), data);
      var isNew := messages == [] || messages[|messages| - 1].parseDone;
      var res := ParseMessage(AsWritten, if isNew then NEW else messages[|messages| - 1], data);
      if res.Err? {
        return Err(res.error);
      }
      var (m, n) := res.value;
      messages := (if isNew then messages else messages[..|messages| - 1]) + [m];
      if m.parseDone {
        EvaluateDone(m);
      }
      r := Ok(n);
    }

    /** fcgi_session_parse. Unless a record stops the program it reads every byte it is given,
        and the session never goes back to an earlier state. */
    method Parse(data: bytes) returns (r: Result<nat>)
      requires GoodSession(AsWritten, Value()) && data != []
      modifies this
      ensures match r
              case Ok(n) => n == |data| && ParseSession(AsWritten, old(Value()), data) == Ok(Value())
              case Err(e) => ParseSession(AsWritten, old(Value()), data) == Err(e)
      ensures r.Ok? ==> StateRank(old(state)) <= StateRank(state)
    {
      hide Feed, ParseMessage, WithPending;
      ghost var goal := ParseSession(AsWritten, Value(), data);
      ParseMonotone(Value(), data);
      var rest, read := data, 0;
      while |rest| > 0
        invariant GoodSession(AsWritten, Value())
        invariant read + |rest| == |data|
        invariant goal == Feed(AsWritten, Started(Value()), rest)
        decreases |rest|
      {
        ghost var s := Value();
        var n := TakeRecord(rest);
        if n.Err? {
          StartedStops(s, rest, n.error);
          return Err(n.error);
        }
        StartedTurn(s, rest, ParseMessage(AsWritten, Pending(s), rest).value.0, n.value);
        rest, read := rest[n.value..], read + n.value;
      }
      FeedNothing(AsWritten, Started(Value()));
      if state == Fresh && read > 0 {
        state := Running;
      }
      r := Ok(read);
    }
  }

  lemma StartedGood(s: Session)
    requires GoodSession(AsWritten, s)
    ensures GoodSession(AsWritten, Started(s)) && Pending(Started(s)) == Pending(s)
  {
  }

  /** One turn of the loop, seen from a session that counts as started. */
  lemma StartedTurn(s: Session, rest: bytes, m: Message, n: nat)
    requires GoodSession(AsWritten, s) && rest != []
    requires ParseMessage(AsWritten, Pending(s), rest) == Ok((m, n))
    ensures Valid(m) && 0 < n <= |rest| && GoodSession(AsWritten, WithPending(s, m))
    ensures GoodSession(AsWritten, Started(s)) && GoodSession(AsWritten, Started(WithPending(s, m)))
    ensures Feed(AsWritten, Started(s), rest) == Feed(AsWritten, Started(WithPending(s, m)), rest[n..])
  {
    FeedStep(AsWritten, s, rest);
    StartedGood(s);
    StartedPending(s, m);
    StartedGood(WithPending(s, m));
    FeedStep(AsWritten, Started(s), rest);
  }

  lemma StartedStops(s: Session, rest: bytes, e: Error)
    requires GoodSession(AsWritten, s) && rest != []
    requires ParseMessage(AsWritten, Pending(s), rest) == Err(e)
    ensures GoodSession(AsWritten, Started(s)) && Feed(AsWritten, Started(s), rest) == Err(e)
  {
    StartedGood(s);
    FeedStep(AsWritten, Started(s), rest);
  }

  lemma PendingMonotone(s: Session, m: Message)
    requires Valid(m)
    ensures StateRank(s.state) <= StateRank(WithPending(s, m).state)
  {
  }

  lemma {:induction false} FeedMonotone(mode: Mode, s: Session, data: bytes)
    requires GoodSession(mode, s)
    ensures var r := Feed(mode, s, data); r.Ok? ==> StateRank(s.state) <= StateRank(r.value.state)
    decreases |data|
  {
    if data != [] {
      FeedStep(mode, s, data);
      var r := ParseMessage(mode, Pending(s), data);
      if r.Ok? {
        PendingMonotone(s, r.value.0);
        FeedMonotone(mode, WithPending(s, r.value.0), data[r.value.1..]);
      }
    }
  }

  lemma ParseMonotone(s: Session, data: bytes)
    requires GoodSession(AsWritten, s) && data != []
    ensures var r := ParseSession(AsWritten, s, data); r.Ok? ==> StateRank(s.state) <= StateRank(r.value.state)
  {
    FeedMonotone(AsWritten, Started(s), data);
  }

  /** The pairs in the done PARAMS records of a message list, in order. */
  function ParamsOf(ms: seq<Message>): seq<Param> {
    if ms == [] then []
    else
      ParamsOf(ms[..|ms| - 1]) + NewParams(ms[|ms| - 1])
  }

  lemma ParamsOfLast(ms: seq<Message>, m: Message)
    ensures ParamsOf(ms + [m]) == ParamsOf(ms) + NewParams(m)
  {
    assert (ms + [m])[..|ms|] == ms;
  }

  lemma SettledParams(s: Session)
    ensures ParamsOf(Settled(s)) == ParamsOf(s.messages)
  {
    if !AtBoundary(s) {
      ParamsOfLast(Settled(s), LastMessage(s));
      assert Settled(s) + [LastMessage(s)] == s.messages;
    }
  }

  function NewParams(m: Message): seq<Param> {
    if m.parseDone && TypeField(m) == PARAMS then ParseParams(m.content) else []
  }

  lemma PendingAddsParams(s: Session, m: Message)
    requires Valid(m)
    ensures WithPending(s, m).params == s.params + NewParams(m)
    ensures WithPending(s, m).messages == Settled(s) + [m]
  {
  }

  lemma PendingParams(s: Session, m: Message)
    requires Valid(m) && s.params == ParamsOf(s.messages)
    ensures WithPending(s, m).params == ParamsOf(WithPending(s, m).messages)
  {
    SettledParams(s);
    PendingAddsParams(s, m);
    ParamsOfLast(Settled(s), m);
  }

  /** Every record is evaluated exactly once: the parameter list is that of the message list. */
  lemma {:induction false} EvaluatedOnce(mode: Mode, s: Session, data: bytes)
    requires GoodSession(mode, s) && s.params == ParamsOf(s.messages)
    ensures var r := Feed(mode, s, data); r.Ok? ==> r.value.params == ParamsOf(r.value.messages)
    decreases |data|
  {
    if data != [] {
      FeedStep(mode, s, data);
      var r := ParseMessage(mode, Pending(s), data);
      if r.Ok? {
        PendingParams(s, r.value.0);
        EvaluatedOnce(mode, WithPending(s, r.value.0), data[r.value.1..]);
      }
    }
  }
}
