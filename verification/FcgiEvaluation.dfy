/** What a session knows after a stream of whole records, read off the records (fcgi_state.c). Types
    are given by their numbers in section 8 of the FastCGI Specification 1.0. */
module FcgiEvaluation {
  import opened Options
  import opened FcgiParam
  import opened FcgiMessage
  import opened FcgiSession
  import opened FcgiConversation

  /** Two bytes, high byte first. */
  function BigEndian(hi: int, lo: int): int {
    256 * hi + lo
  }

  predicate AllWellFormed(rs: seq<Record>) {
    forall i :: 0 <= i < |rs| ==> WellFormed(rs[i])
  }

  /** Some record of type t is empty: the end of stream t. */
  predicate Ends(rs: seq<Record>, t: byte) {
    exists i :: 0 <= i < |rs| && rs[i].kind == t && rs[i].content == []
  }

  lemma EndsFirst(rs: seq<Record>, t: byte)
    requires rs != []
    ensures Ends(rs, t) <==> (rs[0].kind == t && rs[0].content == []) || Ends(rs[1..], t)
  {
    if Ends(rs[1..], t) {
      var i :| 0 <= i < |rs[1..]| && rs[1..][i].kind == t && rs[1..][i].content == [];
      assert rs[i + 1] == rs[1..][i];
    }
    if Ends(rs, t) {
      var i :| 0 <= i < |rs| && rs[i].kind == t && rs[i].content == [];
      assert i > 0 ==> rs[1..][i - 1] == rs[i];
    }
  }

  /** The last begin record, type 1. */
  function LastBegin(rs: seq<Record>): Option<Record> {
    if rs == [] then None
    else if LastBegin(rs[1..]).Some? then LastBegin(rs[1..])
    else if rs[0].kind == 1 then Some(rs[0])
    else None
  }

  /** The pairs of the PARAMS records, type 4. */
  function PairsOf(rs: seq<Record>): seq<Param> {
    if rs == [] then [] else (if rs[0].kind == 4 then ParseParams(rs[0].content) else []) + PairsOf(rs[1..])
  }

  function MessagesOf(rs: seq<Record>): seq<Message>
    requires AllWellFormed(rs)
  {
    if rs == [] then [] else [MessageOf(rs[0])] + MessagesOf(rs[1..])
  }

  /** The state a stream of records leads to: an empty STDIN record ends the session, an empty PARAMS
      record completes the parameters unless the session is at its end. */
  function StateAfter(st: SessionState, params: bool, stdin: bool): SessionState {
    if st == End || stdin then End else if st == ParamsDone || params then ParamsDone else st
  }

  lemma OneRecord(s: Session, r: Record)
    requires AtBoundary(s) && WellFormed(r)
    ensures Valid(MessageOf(r)) && AtBoundary(WithPending(s, MessageOf(r)))
    ensures var s' := WithPending(s, MessageOf(r));
            && s'.messages == s.messages + [MessageOf(r)]
            && s'.params == s.params + (if r.kind == 4 then ParseParams(r.content) else [])
            && s'.state == StateAfter(s.state, r.kind == 4 && r.content == [], r.kind == 5 && r.content == [])
    ensures var s' := WithPending(s, MessageOf(r));
            if r.kind == 1 then s'.requestId == r.id && s'.role == BigEndian(r.content[0], r.content[1])
            else s'.requestId == s.requestId && s'.role == s.role
  {
    FeedRecordValid(r);
    if r.kind == 1 {
      BeginFields(r);
    }
  }

  lemma BeginFields(r: Record)
    requires WellFormed(r) && r.kind == 1
    ensures |r.content| == 8
    ensures RequestId(MessageOf(r)) == r.id && Role(MessageOf(r)) == BigEndian(r.content[0], r.content[1])
  {
  }

  lemma NoRecords(s: Session)
    ensures Evaluated(s, []) == s && PairsOf([]) == [] && MessagesOf([]) == [] && !Ends([], 4) && !Ends([], 5)
  {
  }

  lemma RecordsFirst(rs: seq<Record>)
    requires rs != [] && AllWellFormed(rs)
    ensures PairsOf(rs) == (if rs[0].kind == 4 then ParseParams(rs[0].content) else []) + PairsOf(rs[1..])
    ensures MessagesOf(rs) == [MessageOf(rs[0])] + MessagesOf(rs[1..])
  {
    hide ParseParams, MessageOf;
  }

  /** From any session between two records. */
  lemma {:induction false} EvaluatedFrom(s: Session, rs: seq<Record>)
    requires AtBoundary(s) && AllWellFormed(rs)
    ensures var s' := Evaluated(s, rs);
            && s'.state == StateAfter(s.state, Ends(rs, 4), Ends(rs, 5))
            && s'.params == s.params + PairsOf(rs)
            && s'.messages == s.messages + MessagesOf(rs)
    ensures var s' := Evaluated(s, rs);
            match LastBegin(rs)
            case None => s'.requestId == s.requestId && s'.role == s.role
            case Some(b) => |b.content| == 8 && s'.requestId == b.id && s'.role == BigEndian(b.content[0], b.content[1])
    decreases |rs|
  {
    hide WithPending, MessageOf, ParseParams, Ends, PairsOf, MessagesOf, Evaluated;
    if rs == [] {
      NoRecords(s);
    } else {
      RecordsFirst(rs);
      EvaluatedFirst(s, rs);
      OneRecord(s, rs[0]);
      EndsFirst(rs, 4);
      EndsFirst(rs, 5);
      EvaluatedFrom(WithPending(s, MessageOf(rs[0])), rs[1..]);
    }
  }

  /** A stream of whole records, in one call to a new session. The state is END exactly after an empty
      STDIN record, and PARAMS_DONE exactly after an empty PARAMS record without one; id and role are
      those of the last begin record; the pairs are those of the PARAMS records in order. */
  lemma RecordsGive(mode: Mode, rs: seq<Record>) returns (s: Session)
    requires AllWellFormed(rs) && rs != []
    ensures EncodeRecords(rs) != [] && ParseSession(mode, NEW_SESSION, EncodeRecords(rs)) == Ok(s)
    ensures s.state == End <==> Ends(rs, 5)
    ensures s.state == ParamsDone <==> Ends(rs, 4) && !Ends(rs, 5)
    ensures s.params == PairsOf(rs) && s.messages == MessagesOf(rs)
    ensures match LastBegin(rs)
            case None => s.requestId == 0 && s.role == 0
            case Some(b) => |b.content| == 8 && s.requestId == b.id && s.role == BigEndian(b.content[0], b.content[1])
  {
    hide Feed, Evaluated, MessageOf, Ends, LastBegin, PairsOf, MessagesOf, EncodeRecord, ParseMessage;
    var s0 := Started(NEW_SESSION);
    FeedRecordValid(rs[0]);
    RecordsParse(mode, s0, rs);
    EvaluatedFrom(s0, rs);
    s := Evaluated(s0, rs);
  }

  // On the wire.

  /** Section 3.3: version, type, id, content length, high byte first, padding length, reserved. */
  lemma HeaderOnWire(r: Record)
    requires WellFormed(r)
    ensures var h := EncodeHeader(r);
            && h[0] == 1 && h[1] == r.kind && BigEndian(h[2], h[3]) == r.id && BigEndian(h[4], h[5]) == |r.content|
            && h[6] == 0 && h[7] == 0
  {
  }

  /** Section 5.1, and the ends of the two streams, byte by byte. */
  lemma BeginOnWire(flags: byte)
    ensures EncodeRecord(BeginRecord(1, 1, flags)) == [1, 1, 0, 1, 0, 8, 0, 0, 0, 1, flags, 0, 0, 0, 0, 0]
    ensures EncodeRecord(NO_PARAMS) == [1, 4, 0, 1, 0, 0, 0, 0]
    ensures EncodeRecord(NO_STDIN) == [1, 5, 0, 1, 0, 0, 0, 0]
  {
  }

  /** The init conversation byte by byte: begin, parameters, their end, and twice the end of the input. */
  lemma ConversationOnWire(content: bytes)
    requires |content| <= 4088
    ensures Conversation(content) ==
            [1, 1, 0, 1, 0, 8, 0, 0, 0, 1, 0, 0, 0, 0, 0, 0]
            + ([1, 4, 0, 1, |content| / 256, |content| % 256, 0, 0] + content)
            + [1, 4, 0, 1, 0, 0, 0, 0] + [1, 5, 0, 1, 0, 0, 0, 0] + [1, 5, 0, 1, 0, 0, 0, 0]
  {
    BeginOnWire(0);
    var record := EncodeRecord(ParamRecord(content));
    assert record[..|record|] == record;
  }

  /** The types a header may have, and the lengths that go with them; a header is refused for its type
      before its length is looked at. */
  lemma HeaderVerdict(mode: Mode, data: bytes)
    requires |data| >= 8
    ensures var p := ParseMessage(mode, NEW, data);
            var t, len := data[1], BigEndian(data[4], data[5]);
            if t == 0 || t > 8 then p == Err(UnknownType)
            else if ((t == 1 || t == 3) && len != 8) || (t == 2 && len != 0) then p == Err(BadBodyLength)
            else p.Ok?
  {
    hide Splice, ParseBody;
    SpliceAt(NEW.raw, 0, data[..8]);
  }
}
