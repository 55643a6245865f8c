/** Handling one request (connection_manager.c, fcgi_data.c): read until the project can be
    routed, clear the keep-connection flag, find a child, relay. */
module Connection {
  import opened FcgiParam
  import opened FcgiMessage
  import opened FcgiSession
  import opened FcgiChunking
  import opened Relay
  import FcgiParser

  // Clearing FCGI_KEEP_CONN in the first chunk.

  /** The flags byte of a begin record. */
  const FLAGS: nat := 10

  /** The edit: the lowest bit of one byte. */
  function KeepConnCleared(data: bytes): bytes {
    if |data| > FLAGS && IsFixed(data[1]) then data[FLAGS := data[FLAGS] - data[FLAGS] % 2] else data
  }

  /** The chunk holds enough of its first record for the parser to call it done. */
  predicate FirstRecordDone(data: bytes) {
    && |data| >= HEADER && Known(data[1])
    && LengthFits(data[1], Number16(data[4], data[5])) && |data| >= Number16(data[4], data[5])
  }

  /** The fields once the whole header of a chunk is in. */
  lemma HeaderFields(data: bytes)
    requires |data| >= HEADER
    ensures var m := StoreHeader(NEW, 0, data[..HEADER]);
            && m.bytesRead == HEADER && (forall i :: 0 <= i < 16 ==> m.raw[i] == if i < HEADER then data[i] else 0)
            && (FinishHeader(m).Ok? <==> Known(data[1]) && LengthFits(data[1], Number16(data[4], data[5])))
  {
  }

  lemma BodyFields(data: bytes, h: Message)
    requires |data| >= HEADER && Valid(h) && h.headerDone && h.bytesRead == HEADER
    requires forall i :: 0 <= i < 16 ==> h.raw[i] == if i < HEADER then data[i] else 0
    ensures var m := ParseBody(AsWritten, h, data[HEADER..], HEADER).0;
            && (m.parseDone <==> |data| >= h.contentLength)
            && Writable(m) && Type(m) == data[1]
            && (IsFixed(data[1]) ==> FullSize(m) == 16 && forall i :: 0 <= i < 16 ==> m.raw[i] == if i < |data| then data[i] else 0)
            && (!IsFixed(data[1]) ==> m.raw[FLAGS] == 0)
  {
    hide Splice;
    var rest := data[HEADER..];
    var k := Min(|rest|, h.contentLength);
    assert forall i :: 0 <= i < k ==> rest[..k][i] == data[HEADER + i];
    if IsStream(Type(h)) {
      SpliceAt(h.content, 0, rest[..k]);
    } else {
      SpliceAt(h.raw, HEADER, rest[..k]);
    }
  }

  /** What parsing a chunk leaves in the header and body fields. */
  lemma ParsedFields(data: bytes)
    requires data != []
    ensures var r := ParseMessage(AsWritten, NEW, data);
            && (r.Ok? && r.value.0.parseDone <==> FirstRecordDone(data))
            && (r.Ok? && r.value.0.parseDone ==>
                  var m := r.value.0;
                  && Writable(m) && Type(m) == data[1]
                  && (IsFixed(data[1]) ==> FullSize(m) == 16 && forall i :: 0 <= i < 16 ==> m.raw[i] == if i < |data| then data[i] else 0)
                  && (!IsFixed(data[1]) ==> m.raw[FLAGS] == 0))
  {
    if |data| >= HEADER {
      HeaderFields(data);
      var m1 := StoreHeader(NEW, 0, data[..HEADER]);
      if FinishHeader(m1).Ok? {
        BodyFields(data, FinishHeader(m1).value);
      }
    }
  }

  /** connection_manager.c 573-613: parse the first record of the chunk, clear the flag in the
      parsed message and write the message back over the chunk. The result is false when an
      assertion fails or the program stops. */
  method ClearKeepConn(chunk: array<byte>) returns (ok: bool)
    requires chunk.Length > 0
    modifies chunk
    ensures ok <==> FirstRecordDone(old(chunk[..]))
    ensures chunk[..] == if ok then KeepConnCleared(old(chunk[..])) else old(chunk[..])
  {
    hide ParseMessage;
    var data := chunk[..];
    ParsedFields(data);
    var r := ParseMessage(AsWritten, NEW, data);
    if r.Err? || !r.value.0.parseDone {
      return false;
    }
    var m := r.value.0;
    var flag := m.raw[FLAGS];
    if flag % 2 == 1 {
      var m' := m.(raw := m.raw[FLAGS := flag - 1]);
      var written := WriteMessage(m', chunk.Length);
      assert written == KeepConnCleared(data)[..Min(16, |data|)];
      Put(chunk, 0, written);
      assert Splice(data, 0, written) == KeepConnCleared(data);
    }
    ok := true;
  }

  /** Retries repeat the edit; repeating it changes nothing, and the edit changes one bit. */
  lemma ClearedOnce(data: bytes)
    ensures KeepConnCleared(KeepConnCleared(data)) == KeepConnCleared(data)
    ensures |KeepConnCleared(data)| == |data|
    ensures forall i :: 0 <= i < |data| && i != 10 ==> KeepConnCleared(data)[i] == data[i]
    ensures |data| > 10 ==> KeepConnCleared(data)[10] == if data[1] == 1 || data[1] == 3 then 2 * (data[10] / 2) else data[10]
    ensures FirstRecordDone(data) ==> FirstRecordDone(KeepConnCleared(data))
  {
  }

  // Reading the request.

  /** Enough is known to route the request. */
  predicate Routable(s: Session) {
    s.state == ParamsDone || s.state == End
  }

  predicate NotYetRoutable(chunks: seq<bytes>) {
    NonEmpty(chunks)
    && var r := FeedChunks(AsWritten, NEW_SESSION, chunks);
       r.Ok? && !Routable(r.value)
  }

  /** fcgi_data.c: chunks in order of arrival. An iterator is the number of chunks it has passed. */
  class DataList {
    var chunks: seq<bytes>

    constructor ()
      ensures chunks == []
    {
      chunks := [];
    }

    method AddData(data: bytes)
      modifies this
      ensures chunks == old(chunks) + [data]
    {
      chunks := chunks + [data];
    }
  }

  lemma FeedChunksAppend(s: Session, chunks: seq<bytes>, c: bytes)
    requires GoodSession(AsWritten, s) && NonEmpty(chunks) && c != []
    ensures var r := FeedChunks(AsWritten, s, chunks);
            FeedChunks(AsWritten, s, chunks + [c]) == if r.Ok? then ParseSession(AsWritten, r.value, c) else r
    decreases |chunks|
  {
    if chunks == [] {
      assert ([c])[1..] == [];
    } else {
      assert (chunks + [c])[1..] == chunks[1..] + [c];
      var r := ParseSession(AsWritten, s, chunks[0]);
      if r.Ok? {
        FeedChunksAppend(r.value, chunks[1..], c);
      }
    }
  }

  /** The read loop: queue every chunk and parse it, until the request can be routed or the
      client is gone. The queue holds all bytes read, in order, and the session is theirs. */
  method Receive(inputs: seq<Read>) returns (list: DataList, parser: FcgiParser.SessionParser, ok: bool, used: nat)
    requires forall i :: 0 <= i < |inputs| && inputs[i].Data? ==> inputs[i].chunk != []
    ensures used <= |inputs| && fresh(list) && fresh(parser)
    ensures NonEmpty(list.chunks) && list.chunks == DataChunks(inputs[..used])
    ensures forall k :: 0 <= k < used - 1 ==> inputs[k].Data?
    ensures ok ==> Queued(list.chunks, parser.Value())
    ensures ok ==> Concat(list.chunks) == BytesRead(inputs[..used])
    ensures !ok ==> FeedChunks(AsWritten, NEW_SESSION, list.chunks).Err?
    ensures list.chunks != [] ==> NotYetRoutable(list.chunks[..|list.chunks| - 1])
    ensures ok ==> used == |inputs| || Routable(parser.Value()) || (used > 0 && !inputs[used - 1].Data?)
  {
    hide Queued, NotYetRoutable, BytesRead, Concat, FeedChunks, DataChunks;
    list := new DataList();
    parser := new FcgiParser.SessionParser();
    NothingQueued(inputs);
    used, ok := 0, true;
    while used < |inputs|
      invariant used <= |inputs| && ok
      invariant NonEmpty(list.chunks) && Queued(list.chunks, parser.Value()) && !Routable(parser.Value())
      invariant Concat(list.chunks) == BytesRead(inputs[..used]) && list.chunks == DataChunks(inputs[..used])
      invariant forall k :: 0 <= k < used ==> inputs[k].Data?
      invariant list.chunks != [] ==> NotYetRoutable(list.chunks[..|list.chunks| - 1])
    {
      BytesReadStep(inputs, used);
      var read := inputs[used];
      used := used + 1;
      if !read.Data? {
        return;
      }
      ok := TakeChunk(list, parser, read.chunk);
      if !ok || parser.state == ParamsDone || parser.state == End {
        return;
      }
    }
  }

  /** Queue a chunk and parse it. */
  method TakeChunk(list: DataList, parser: FcgiParser.SessionParser, chunk: bytes) returns (ok: bool)
    requires Queued(list.chunks, parser.Value()) && !Routable(parser.Value()) && chunk != []
    modifies list, parser
    ensures list.chunks == old(list.chunks) + [chunk] && NonEmpty(list.chunks)
    ensures ok ==> Queued(list.chunks, parser.Value())
    ensures !ok ==> FeedChunks(AsWritten, NEW_SESSION, list.chunks).Err?
    ensures Concat(list.chunks) == Concat(old(list.chunks)) + chunk
    ensures NotYetRoutable(list.chunks[..|list.chunks| - 1])
  {
    QueueStep(list.chunks, parser.Value(), chunk);
    list.AddData(chunk);
    var r := parser.Parse(chunk);
    ok := r.Ok?;
  }

  /** s is the session after one call per chunk. */
  predicate Queued(chunks: seq<bytes>, s: Session) {
    NonEmpty(chunks) && GoodSession(AsWritten, s) && FeedChunks(AsWritten, NEW_SESSION, chunks) == Ok(s)
  }

  lemma NothingQueued(inputs: seq<Read>)
    ensures Queued([], NEW_SESSION) && Concat([]) == BytesRead(inputs[..0]) && DataChunks(inputs[..0]) == []
  {
  }

  lemma QueueStep(chunks: seq<bytes>, s: Session, c: bytes)
    requires Queued(chunks, s) && c != [] && !Routable(s)
    ensures var now := chunks + [c];
            && NonEmpty(now) && Concat(now) == Concat(chunks) + c
            && FeedChunks(AsWritten, NEW_SESSION, now) == ParseSession(AsWritten, s, c)
            && |now| > 0 && NotYetRoutable(now[..|now| - 1])
  {
    FeedChunksAppend(NEW_SESSION, chunks, c);
    ConcatAppend(chunks, c);
    assert (chunks + [c])[..|chunks|] == chunks;
  }

  /** The bytes some reads delivered. */
  function BytesRead(inputs: seq<Read>): bytes {
    if inputs == [] then []
    else BytesRead(inputs[..|inputs| - 1]) + match inputs[|inputs| - 1] { case Data(c) => c case _ => [] }
  }

  /** The chunks they delivered. */
  function DataChunks(inputs: seq<Read>): seq<bytes> {
    if inputs == [] then []
    else DataChunks(inputs[..|inputs| - 1]) + match inputs[|inputs| - 1] { case Data(c) => [c] case _ => [] }
  }

  lemma BytesReadStep(inputs: seq<Read>, i: nat)
    requires i < |inputs|
    ensures DataChunks(inputs[..i + 1]) == DataChunks(inputs[..i]) + match inputs[i] { case Data(c) => [c] case _ => [] }
    ensures BytesRead(inputs[..i + 1]) == BytesRead(inputs[..i]) + match inputs[i] { case Data(c) => c case _ => [] }
  {
    assert inputs[..i + 1][..i] == inputs[..i];
  }

  // Finding a child.

  type Pid = nat

  const MAX_RETRY: nat := 3

  /** What becomes of an attempt to use a claimed child. */
  datatype Fate =
    | NoName               // its socket is unknown or has no name
    | NoSocket             // no new socket for this side
    | NoConnection         // connecting, or reading the options of the child socket, fails
    | ClientGone           // reading the options of the client socket fails
    | Connected(polls: seq<Poll>)

  datatype Try = NoChild | Child(pid: Pid, fate: Fate)

  datatype Settlement = SetIdle | Moved | Forgotten

  /** How the handler gives a claimed child back. */
  function SettlementOf(f: Fate): Settlement {
    match f
    case NoName => Moved
    case NoConnection => Moved
    case NoSocket => Forgotten
    case ClientGone => SetIdle
    case Connected(_) => SetIdle
  }

  function SettledPids(tries: seq<Try>, how: Settlement): seq<Pid> {
    if tries == [] then []
    else
      var t := tries[|tries| - 1];
      SettledPids(tries[..|tries| - 1], how) + if t.Child? && SettlementOf(t.fate) == how then [t.pid] else []
  }

  lemma SettledStep(tries: seq<Try>, i: nat, how: Settlement)
    requires i < |tries|
    ensures SettledPids(tries[..i + 1], how) ==
            SettledPids(tries[..i], how) + if tries[i].Child? && SettlementOf(tries[i].fate) == how then [tries[i].pid] else []
  {
    assert tries[..i + 1][..i] == tries[..i];
  }

  function ClaimedPids(tries: seq<Try>): seq<Pid> {
    if tries == [] then []
    else
      var t := tries[|tries| - 1];
      ClaimedPids(tries[..|tries| - 1]) + if t.Child? then [t.pid] else []
  }

  lemma TryStep(tries: seq<Try>, i: nat)
    requires i < |tries| && tries[i].Child?
    ensures var now, how := tries[..i + 1], SettlementOf(tries[i].fate);
            && ClaimedPids(now) == ClaimedPids(tries[..i]) + [tries[i].pid]
            && SettledPids(now, SetIdle) == (if how == SetIdle then SettledPids(tries[..i], SetIdle) + [tries[i].pid] else SettledPids(tries[..i], SetIdle))
            && SettledPids(now, Moved) == (if how == Moved then SettledPids(tries[..i], Moved) + [tries[i].pid] else SettledPids(tries[..i], Moved))
  {
    assert tries[..i + 1][..i] == tries[..i];
    SettledStep(tries, i, SetIdle);
    SettledStep(tries, i, Moved);
  }

  lemma {:induction false} EveryChildSettled(tries: seq<Try>)
    ensures multiset(ClaimedPids(tries)) ==
            multiset(SettledPids(tries, SetIdle)) + multiset(SettledPids(tries, Moved)) + multiset(SettledPids(tries, Forgotten))
    decreases |tries|
  {
    if tries != [] {
      EveryChildSettled(tries[..|tries| - 1]);
    }
  }

  datatype Ending =
    | Stopped              // an assertion about the first record fails
    | Refused              // overload answered
    | ClientLost
    | Done(relayed: Relayed)

  datatype Report = Report(claimed: seq<Pid>, idle: seq<Pid>, moved: seq<Pid>, aborts: nat, ending: Ending)

  /** The handler turns to another child. */
  predicate Failing(t: Try) {
    t.Child? && (t.fate.NoName? || t.fate.NoSocket? || t.fate.NoConnection?)
  }

  /** Only failing children are given up, and the last attempt decides how the request ends. */
  predicate EndsAsTried(tries: seq<Try>, n: nat, ending: Ending) {
    && n <= 3 <= |tries|
    && (forall i :: 0 <= i < n - 1 ==> Failing(tries[i]))
    && match ending
       case Refused => (n > 0 ==> Failing(tries[n - 1])) && (n == 3 || tries[n].NoChild?)
       case ClientLost => n > 0 && tries[n - 1].Child? && tries[n - 1].fate.ClientGone?
       case Done(_) => n > 0 && tries[n - 1].Child? && tries[n - 1].fate.Connected?
       case Stopped => n == 1 && tries[0].Child?
  }

  function Cleared(chunks: seq<bytes>): seq<bytes> {
    if chunks == [] then [] else [KeepConnCleared(chunks[0])] + chunks[1..]
  }

  method RewriteFirst(list: DataList) returns (ok: bool)
    requires list.chunks != [] && list.chunks[0] != []
    modifies list
    ensures ok <==> FirstRecordDone(old(list.chunks[0]))
    ensures list.chunks == if ok then Cleared(old(list.chunks)) else old(list.chunks)
  {
    var c := list.chunks[0];
    var a := new byte[|c|](i requires 0 <= i < |c| => c[i]);
    assert a[..] == c;
    ok := ClearKeepConn(a);
    list.chunks := [a[..]] + list.chunks[1..];
    assert !ok ==> list.chunks == old(list.chunks);
  }

  /** What was claimed and given back in the first attempts. */
  predicate Accounted(tries: seq<Try>, claimed: seq<Pid>, idle: seq<Pid>, moved: seq<Pid>) {
    var n := |claimed|;
    && n <= MAX_RETRY && n <= |tries| && claimed == ClaimedPids(tries[..n])
    && idle == SettledPids(tries[..n], SetIdle) && moved == SettledPids(tries[..n], Moved)
  }

  /** One of the first n attempts used pid, and ended in one of two ways. */
  predicate Used(tries: seq<Try>, n: nat, pid: Pid, idle: bool)
    requires n <= |tries|
  {
    exists i :: 0 <= i < n && GivesBack(tries[i], pid, idle)
  }

  predicate GivesBack(t: Try, pid: Pid, idle: bool) {
    t.Child? && t.pid == pid
    && if idle then t.fate.ClientGone? || t.fate.Connected? else t.fate.NoName? || t.fate.NoConnection?
  }

  lemma {:induction false} SettledAre(tries: seq<Try>, n: nat)
    requires n <= |tries|
    ensures forall pid :: pid in SettledPids(tries[..n], Moved) <==> Used(tries, n, pid, false)
    ensures forall pid :: pid in SettledPids(tries[..n], SetIdle) <==> Used(tries, n, pid, true)
  {
    if n > 0 {
      SettledAre(tries, n - 1);
      SettledStep(tries, n - 1, Moved);
      SettledStep(tries, n - 1, SetIdle);
      forall pid, idle
        ensures Used(tries, n, pid, idle) <==> Used(tries, n - 1, pid, idle) || GivesBack(tries[n - 1], pid, idle)
      {
        if Used(tries, n - 1, pid, idle) {
          var i :| 0 <= i < n - 1 && GivesBack(tries[i], pid, idle);
          assert i < n;
        }
      }
    }
  }

  /** No claimed child is given back twice, and none but the forgotten is kept; those whose socket has no
      name or cannot be connected are retired, those that were connected, or lost their client, are idle
      again. */
  ghost predicate AllSettled(tries: seq<Try>, claimed: seq<Pid>, idle: seq<Pid>, moved: seq<Pid>) {
    |claimed| <= |tries|
    && (forall pid :: pid in moved <==> Used(tries, |claimed|, pid, false))
    && (forall pid :: pid in idle <==> Used(tries, |claimed|, pid, true))
    && multiset(claimed) == multiset(idle) + multiset(moved) + multiset(SettledPids(tries[..|claimed|], Forgotten))
  }

  lemma AccountedSettles(tries: seq<Try>, claimed: seq<Pid>, idle: seq<Pid>, moved: seq<Pid>)
    requires Accounted(tries, claimed, idle, moved)
    ensures AllSettled(tries, claimed, idle, moved)
  {
    EveryChildSettled(tries[..|claimed|]);
    SettledAre(tries, |claimed|);
  }

  lemma NothingClaimed(tries: seq<Try>)
    ensures Accounted(tries, [], [], []) && AllSettled(tries, [], [], [])
  {
    assert tries[..0] == [];
  }

  lemma AccountStep(tries: seq<Try>, claimed: seq<Pid>, idle: seq<Pid>, moved: seq<Pid>)
    requires Accounted(tries, claimed, idle, moved) && |claimed| < MAX_RETRY <= |tries| && tries[|claimed|].Child?
    ensures var t := tries[|claimed|];
            var claimed', how := claimed + [t.pid], SettlementOf(t.fate);
            && (how.SetIdle? ==> Accounted(tries, claimed', idle + [t.pid], moved) && AllSettled(tries, claimed', idle + [t.pid], moved))
            && (how.Moved? ==> Accounted(tries, claimed', idle, moved + [t.pid]) && AllSettled(tries, claimed', idle, moved + [t.pid]))
            && (how.Forgotten? ==> Accounted(tries, claimed', idle, moved) && AllSettled(tries, claimed', idle, moved))
  {
    hide AllSettled, ClaimedPids, SettledPids;
    var pid := tries[|claimed|].pid;
    TryStep(tries, |claimed|);
    match SettlementOf(tries[|claimed|].fate)
    case SetIdle => AccountedSettles(tries, claimed + [pid], idle + [pid], moved);
    case Moved => AccountedSettles(tries, claimed + [pid], idle, moved + [pid]);
    case Forgotten => AccountedSettles(tries, claimed + [pid], idle, moved);
  }

  /** Rewriting the first chunk once more leaves the queue as it was rewritten first. */
  lemma RewrittenAgain(chunks: seq<bytes>, now: seq<bytes>)
    requires chunks != [] && chunks[0] != []
    requires now == chunks || now == Cleared(chunks)
    ensures now != [] && now[0] != [] && (FirstRecordDone(now[0]) <==> FirstRecordDone(chunks[0]))
    ensures Cleared(now) == Cleared(chunks)
  {
    ClearedOnce(chunks[0]);
    assert now[0] == KeepConnCleared(chunks[0]) || now[0] == chunks[0];
    assert now[1..] == chunks[1..];
  }

  lemma FairToTheEnd(polls: seq<Poll>, turns: nat)
    requires turns <= |polls|
    ensures AllFair(polls, |polls|) ==> AllFair(polls, turns)
  {
  }

  /** The retry loop. At most three children are claimed; every one of them is set idle or moved
      to the shutdown list unless no socket could be made for it; the overload answer is sent at
      most once, and exactly once when neither a relay was entered nor the client lost; and a
      relay passes on the queued bytes with the flag cleared, however many children failed. */
  method Serve(list: DataList, routed: bool, tries: seq<Try>) returns (rep: Report)
    requires |tries| >= MAX_RETRY && (routed ==> list.chunks != [] && list.chunks[0] != [])
    modifies list
    ensures |rep.claimed| <= 3 && rep.claimed == ClaimedPids(tries[..|rep.claimed|])
    ensures !rep.ending.Stopped? ==> Accounted(tries, rep.claimed, rep.idle, rep.moved)
    ensures !rep.ending.Stopped? ==> AllSettled(tries, rep.claimed, rep.idle, rep.moved)
    ensures rep.aborts <= 1
    ensures rep.ending.Refused? ==> rep.aborts == 1
    ensures rep.ending.ClientLost? ==> rep.aborts == 0
    ensures rep.ending.Done? ==> Conserves(Cleared(old(list.chunks)), rep.ending.relayed) && rep.aborts == rep.ending.relayed.aborts
    ensures rep.ending.Stopped? <==> routed && rep.claimed != [] && !FirstRecordDone(old(list.chunks[0]))
    ensures !routed ==> rep.ending.Refused? && rep.claimed == []
    ensures routed ==> EndsAsTried(tries, |rep.claimed|, rep.ending)
    ensures rep.ending.Done? ==>
              var polls := tries[|rep.claimed| - 1].fate.polls;
              AllFair(polls, |polls|) ==> Delivered(Cleared(old(list.chunks)), polls, |polls|, rep.ending.relayed)
    ensures list.chunks == if rep.claimed == [] || rep.ending.Stopped? then old(list.chunks) else Cleared(old(list.chunks))
  {
    hide SettledPids, ClaimedPids, Conserves, Delivered, AllFair, KeepConnCleared, FirstRecordDone, Cleared, AllSettled;
    var claimed: seq<Pid>, idle: seq<Pid>, moved: seq<Pid> := [], [], [];
    var retries, aborts := 0, 0;
    ghost var queue := list.chunks;
    NothingClaimed(tries);
    while true
      invariant retries == |claimed| <= MAX_RETRY
      invariant Accounted(tries, claimed, idle, moved) && AllSettled(tries, claimed, idle, moved)
      invariant aborts == if retries == MAX_RETRY then 1 else 0
      invariant !routed ==> claimed == []
      invariant list.chunks == if claimed == [] then queue else Cleared(queue)
      invariant claimed != [] ==> FirstRecordDone(queue[0])
      invariant forall i :: 0 <= i < retries ==> Failing(tries[i])
      decreases MAX_RETRY - retries
    {
      if !(MAX_RETRY > retries) {
        return Report(claimed, idle, moved, aborts, Refused);
      }
      var t := tries[retries];
      if !routed || t.NoChild? {
        return Report(claimed, idle, moved, aborts + 1, Refused);
      }
      AccountStep(tries, claimed, idle, moved);
      retries := retries + 1;
      claimed := claimed + [t.pid];
      RewrittenAgain(queue, list.chunks);
      var ok := RewriteFirst(list);
      if !ok {
        return Report(claimed, idle, moved, aborts, Stopped);
      }
      match t.fate {
        case NoSocket =>
        case NoName => moved := moved + [t.pid];
        case NoConnection => moved := moved + [t.pid];
        case ClientGone =>
          return Report(claimed, idle + [t.pid], moved, aborts, ClientLost);
        case Connected(polls) =>
          var r, turns := Run(list.chunks, polls);
          FairToTheEnd(polls, turns);
          return Report(claimed, idle + [t.pid], moved, aborts + r.aborts, Done(r));
      }
      if MAX_RETRY <= retries {
        aborts := aborts + 1;
      }
    }
  }
}
