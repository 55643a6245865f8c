/** A request from its first byte to the relay: what the read loop accepts, and what reaches the
    child (connection_manager.c). */
module Request {
  import opened Options
  import opened FcgiParam
  import opened FcgiMessage
  import opened FcgiSession
  import opened FcgiChunking
  import opened Relay
  import opened Connection
  import FcgiParser

  /** Section 5.1: the stream starts with a begin record for a responder. No flag but FCGI_KEEP_CONN
      is set, and the reserved bytes are zero. */
  predicate BeginsRequest(data: bytes) {
    && |data| >= 16 && data[1] == BEGIN_REQUEST && Number16(data[4], data[5]) == BODY
    && data[8] == 0 && data[9] == RESPONDER && data[FLAGS] <= 1
    && forall i :: FLAGS < i < 16 ==> data[i] == 0
  }

  predicate Refused(data: bytes)
    requires |data| >= HEADER
  {
    !(Known(data[1]) && LengthFits(data[1], Number16(data[4], data[5])))
  }

  /** At a record boundary, a next chunk that ends inside a header or starts with one that is refused
      is the end of it: the session never gets any further. */
  lemma NoFurther(s: Session, chunks: seq<bytes>)
    requires GoodSession(AsWritten, s) && AtBoundary(s) && NonEmpty(chunks)
    requires chunks != [] && |chunks[0]| >= HEADER ==> Refused(chunks[0])
    ensures var r := FeedChunks(AsWritten, s, chunks); r.Ok? ==> Started(r.value).state == Started(s).state
  {
    hide Feed, ParseMessage, WithPending, HeaderCut;
    if chunks != [] {
      var s0 := Started(s);
      if |chunks[0]| < HEADER {
        var m := ShortHeader(s0, chunks[0]);
        CutHeaderForever(WithPending(s0, m), chunks[1..]);
      } else {
        HeaderRefused(AsWritten, chunks[0]);
        FeedStep(AsWritten, s0, chunks[0]);
      }
    }
  }

  /** A first chunk of eight to ten bytes: the begin record counts as done. */
  lemma BeginTooEarly(s: Session, data: bytes) returns (s1: Session)
    requires GoodSession(AsWritten, s) && AtBoundary(s) && HEADER <= |data| <= FLAGS
    requires data[1] == BEGIN_REQUEST && Number16(data[4], data[5]) == BODY
    ensures GoodSession(AsWritten, s1) && AtBoundary(s1) && s1.state == s.state
    ensures Feed(AsWritten, s, data) == Ok(s1)
  {
    hide Feed, ParseMessage;
    HeaderAccepted(data);
    FirstMessage(data);
    OneCall(NEW, data);
    FeedStep(AsWritten, s, data);
    var m := ParseMessage(AsWritten, NEW, data).value.0;
    s1 := WithPending(s, m);
    WithPendingValid(s, m);
    assert data[|data|..] == [];
    FeedNothing(AsWritten, s1);
  }

  lemma SecondChunk(a: bytes, rest: seq<bytes>, data: bytes)
    requires HEADER <= |a| <= FLAGS && NonEmpty(rest) && data == a + Concat(rest) && BeginsRequest(data)
    ensures rest != [] && |rest[0]| >= HEADER ==> Refused(rest[0])
  {
    hide Concat;
    if rest != [] && |rest[0]| >= HEADER {
      var n := |a|;
      NextBytes(a, rest, data, 1);
      NextBytes(a, rest, data, 4);
      NextBytes(a, rest, data, 5);
      assert data[n + 4] == 0 && data[n + 5] == 0 && data[n + 1] <= 1;
    }
  }

  lemma NextBytes(a: bytes, rest: seq<bytes>, data: bytes, i: nat)
    requires rest != [] && i < |rest[0]| && data == a + Concat(rest)
    ensures |a| + i < |data| && data[|a| + i] == rest[0][i]
  {
  }

  /** When a request that begins as it should is ready to be routed, its first chunk reaches beyond
      the flags: the assertion at connection_manager.c:594 holds and the flag is there to clear. */
  lemma FlagsInFirstChunk(chunks: seq<bytes>, s: Session)
    requires Queued(chunks, s) && Routable(s) && BeginsRequest(Concat(chunks))
    ensures chunks != [] && FirstRecordDone(chunks[0]) && |chunks[0]| > FLAGS
  {
    hide Feed, ParseMessage;
    var a, rest := chunks[0], chunks[1..];
    if |a| < HEADER {
      NoFurther(NEW_SESSION, chunks);
    } else {
      assert Concat(chunks)[1] == a[1] && Concat(chunks)[4] == a[4] && Concat(chunks)[5] == a[5];
      if |a| <= FLAGS {
        var s1 := BeginTooEarly(Started(NEW_SESSION), a);
        SecondChunk(a, rest, Concat(chunks));
        NoFurther(s1, rest);
      }
    }
  }

  lemma ClearedInFirst(a: bytes, b: bytes)
    requires |a| > FLAGS
    ensures KeepConnCleared(a + b) == KeepConnCleared(a) + b
  {
    var x := a[FLAGS] - a[FLAGS] % 2;
    assert (a + b)[1] == a[1] && (a + b)[FLAGS] == a[FLAGS] && (a + b)[FLAGS := x] == a[FLAGS := x] + b;
  }

  /** Clearing the flag in the first chunk clears it in the stream. */
  lemma ClearedStream(chunks: seq<bytes>)
    requires chunks != [] && |chunks[0]| > FLAGS
    ensures Concat(Cleared(chunks)) == KeepConnCleared(Concat(chunks))
  {
    hide KeepConnCleared;
    ClearedInFirst(chunks[0], Concat(chunks[1..]));
    assert Cleared(chunks)[1..] == chunks[1..];
  }

  /** The first chunk and the stream of a request that is ready to be routed. */
  lemma RoutedRequest(chunks: seq<bytes>, s: Session, data: bytes)
    requires Queued(chunks, s) && Routable(s) && data == Concat(chunks) && BeginsRequest(data)
    ensures chunks != [] && chunks[0] != [] && FirstRecordDone(chunks[0])
    ensures Concat(Cleared(chunks)) == KeepConnCleared(data)
  {
    FlagsInFirstChunk(chunks, s);
    ClearedStream(chunks);
  }

  lemma FlagOff(data: bytes)
    requires BeginsRequest(data)
    ensures |KeepConnCleared(data)| == |data| > FLAGS && KeepConnCleared(data)[FLAGS] == 0
  {
  }

  lemma RoutableHasChunk(chunks: seq<bytes>, s: Session)
    requires Queued(chunks, s) && Routable(s)
    ensures chunks != [] && chunks[0] != []
  {
  }

  lemma RelayedPrefix(queue: seq<bytes>, r: Relayed)
    requires Conserves(queue, r)
    ensures r.toChild <= Concat(queue) + r.fromNet
    ensures r.clean && r.fromNet != [] ==> r.toChild == Concat(queue) + r.fromNet
  {
    ConcatPrefix(queue, r.passed);
    if r.passed == |queue| {
      assert queue[..r.passed] == queue;
    }
  }

  /** What the read loop made of the reads it took. */
  function Parsed(inputs: seq<Read>, used: nat): Result<Session>
    requires used <= |inputs| && NonEmpty(DataChunks(inputs[..used]))
  {
    FeedChunks(AsWritten, NEW_SESSION, DataChunks(inputs[..used]))
  }

  /** The request is served: its parameters are complete, they match a project, and it asks for a
      responder. */
  predicate Served(r: Result<Session>, project: bool) {
    r.Ok? && project && (r.value.state == ParamsDone || r.value.state == End) && r.value.role == 1
  }

  /** Reading went on as long as there was data and the parameters were not complete. */
  predicate ReadToRoute(inputs: seq<Read>, used: nat, r: Result<Session>) {
    && used <= |inputs| && (forall k :: 0 <= k < used - 1 ==> inputs[k].Data?)
    && (used < |inputs| ==>
          || r.Err? || r.value.state == ParamsDone || r.value.state == End
          || (used > 0 && !inputs[used - 1].Data?))
  }

  /** thread_handle_connection: read the request, find its project, serve it. The program ends without
      an answer exactly if a record stops the parser; a child is tried exactly for a complete request of
      a project for a responder; any other request is refused. For a request that begins as it should
      the program does not stop, and what the child gets is the stream of the client with the flag
      cleared, in order, and nothing else. */
  method Handle(inputs: seq<Read>, project: bool, tries: seq<Try>) returns (report: Option<Report>, used: nat)
    requires forall i :: 0 <= i < |inputs| && inputs[i].Data? ==> inputs[i].chunk != []
    requires |tries| >= MAX_RETRY
    ensures used <= |inputs| && NonEmpty(DataChunks(inputs[..used]))
    ensures ReadToRoute(inputs, used, Parsed(inputs, used))
    ensures report.None? <==> Parsed(inputs, used).Err?
    ensures report.Some? && Served(Parsed(inputs, used), project) ==>
              && EndsAsTried(tries, |report.value.claimed|, report.value.ending)
              && (report.value.claimed != [] <==> tries[0].Child?)
    ensures report.Some? && !Served(Parsed(inputs, used), project) ==>
              report.value.ending.Refused? && report.value.claimed == [] && report.value.aborts == 1
    ensures report.Some? && BeginsRequest(BytesRead(inputs[..used])) ==>
              var sent := KeepConnCleared(BytesRead(inputs[..used]));
              && |sent| > 10 && sent[10] == 0
              && !report.value.ending.Stopped?
              && (report.value.ending.Done? ==>
                    var r := report.value.ending.relayed;
                    r.toChild <= sent + r.fromNet && (r.clean && r.fromNet != [] ==> r.toChild == sent + r.fromNet))
  {
    hide Conserves, Concat, KeepConnCleared, Cleared, BytesRead, Accounted, AllSettled, Delivered, FirstRecordDone, BeginsRequest,
      FeedChunks, DataChunks;
    var list, parser, ok;
    list, parser, ok, used := Receive(inputs);
    ghost var queue, data := list.chunks, BytesRead(inputs[..used]);
    if BeginsRequest(data) {
      FlagOff(data);
    }
    if !ok {
      return None, used;
    }
    var routable := parser.state == ParamsDone || parser.state == End;
    if routable {
      RoutableHasChunk(queue, parser.Value());
      if BeginsRequest(data) {
        RoutedRequest(queue, parser.Value(), data);
      }
    }
    var rep := Serve(list, project && routable && parser.role == RESPONDER, tries);
    if rep.ending.Done? {
      RelayedPrefix(Cleared(queue), rep.ending.relayed);
    }
    report := Some(rep);
  }
}
