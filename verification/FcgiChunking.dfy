/** Cutting the stream: which cuts leave the result of the session parser unchanged. */
module FcgiChunking {
  import opened FcgiParam
  import opened FcgiMessage
  import opened FcgiSession

  function Concat(chunks: seq<bytes>): bytes {
    if chunks == [] then [] else chunks[0] + Concat(chunks[1..])
  }

  predicate NonEmpty(chunks: seq<bytes>) {
    forall i :: 0 <= i < |chunks| ==> chunks[i] != []
  }

  /** One call of fcgi_session_parse per chunk. */
  function FeedChunks(mode: Mode, s: Session, chunks: seq<bytes>): (r: Result<Session>)
    requires GoodSession(mode, s) && NonEmpty(chunks)
    ensures r.Ok? ==> GoodSession(mode, r.value)
    decreases |chunks|
  {
    if chunks == [] then Ok(s)
    else
      var r := ParseSession(mode, s, chunks[0]);
      if r.Ok? then FeedChunks(mode, r.value, chunks[1..]) else r
  }

  function AndPush(r: Result<Session>, data: bytes): (r': Result<Session>)
    requires r.Ok? ==> GoodSession(AsCommented, r.value)
    ensures r'.Ok? ==> GoodSession(AsCommented, r'.value)
  {
    if r.Ok? then PushAll(r.value, data) else r
  }

  lemma {:induction false} PushAllAppend(s: Session, a: bytes, b: bytes)
    requires GoodSession(AsCommented, s)
    ensures PushAll(s, a + b) == AndPush(PushAll(s, a), b)
    decreases |a|
  {
    if a == [] {
      assert a + b == b;
    } else {
      assert (a + b)[0] == a[0] && (a + b)[1..] == a[1..] + b;
      if Push(Started(s), a[0]).Ok? {
        PushAllAppend(Push(Started(s), a[0]).value, a[1..], b);
      }
    }
  }

  /** As commented, every way to cut any stream, well-formed or not, gives the result of feeding
      the bytes one by one; so no two ways differ, and none differs from one call. */
  lemma {:induction false} AnyCutsAsCommented(s: Session, chunks: seq<bytes>)
    requires GoodSession(AsCommented, s) && NonEmpty(chunks)
    ensures FeedChunks(AsCommented, s, chunks) == PushAll(s, Concat(chunks))
    ensures Concat(chunks) != [] ==> FeedChunks(AsCommented, s, chunks) == ParseSession(AsCommented, s, Concat(chunks))
    decreases |chunks|
  {
    if chunks != [] {
      CommentedIsByteWise(s, chunks[0]);
      PushAllAppend(s, chunks[0], Concat(chunks[1..]));
      var r := ParseSession(AsCommented, s, chunks[0]);
      if r.Ok? {
        AnyCutsAsCommented(r.value, chunks[1..]);
      }
    }
    if Concat(chunks) != [] {
      CommentedIsByteWise(s, Concat(chunks));
    }
  }

  // As written.

  /** After this state the code as written parses the next chunk as intended. */
  predicate SafeState(s: Session) {
    AtBoundary(s) || Resumable(LastMessage(s))
  }

  lemma SafeIsGood(s: Session)
    requires GoodSession(AsCommented, s) && SafeState(s)
    ensures GoodSession(AsWritten, s)
  {
  }

  /** What the code as written makes of the session the comments describe. */
  function Written(c: Session): Session
    requires ValidSession(c)
  {
    if !AtBoundary(c) && Premature(LastMessage(c)) then WithPending(c, LastMessage(c).(parseDone := true)) else c
  }

  lemma {:induction false} OneCallSession(s: Session, data: bytes)
    requires GoodSession(AsCommented, s) && SafeState(s)
    ensures GoodSession(AsWritten, s)
    ensures var r := Feed(AsCommented, s, data);
            Feed(AsWritten, s, data) == if r.Ok? then Ok(Written(r.value)) else r
    decreases |data|
  {
    SafeIsGood(s);
    if data != [] {
      var m := Pending(s);
      PendingIsLive(AsCommented, s);
      OneCall(m, data);
      ParseLive(AsCommented, m, data);
      if ParseMessage(AsCommented, m, data).Ok? {
        var (c, n) := ParseMessage(AsCommented, m, data).value;
        WithPendingValid(s, c);
        if c.parseDone {
          OneCallSession(WithPending(s, c), data[n..]);
        }
      }
    }
  }

  /** Every cut between two of the chunks is safe. */
  predicate AllCutsSafe(s: Session, chunks: seq<bytes>)
    requires GoodSession(AsCommented, s) && NonEmpty(chunks)
    decreases |chunks|
  {
    if |chunks| <= 1 then true
    else
      var r := ParseSession(AsCommented, s, chunks[0]);
      r.Ok? ==> SafeState(r.value) && AllCutsSafe(r.value, chunks[1..])
  }

  lemma {:induction false} SafeCutsSuffice(s: Session, chunks: seq<bytes>, c: Session)
    requires GoodSession(AsCommented, s) && NonEmpty(chunks) && SafeState(s)
    requires FeedChunks(AsCommented, s, chunks) == Ok(c) && AtBoundary(c) && AllCutsSafe(s, chunks)
    ensures GoodSession(AsWritten, s) && FeedChunks(AsWritten, s, chunks) == Ok(c)
    decreases |chunks|
  {
    hide Feed;
    SafeIsGood(s);
    if chunks != [] {
      OneCallSession(Started(s), chunks[0]);
      var s1 := ParseSession(AsCommented, s, chunks[0]).value;
      if |chunks| == 1 {
        assert FeedChunks(AsCommented, s1, chunks[1..]) == Ok(s1);
      }
      SafeCutsSuffice(s1, chunks[1..], c);
    }
  }

  /** No message counts as done with content missing. */
  predicate NothingMissing(s: Session) {
    forall i :: 0 <= i < |s.messages| && s.messages[i].parseDone ==> s.messages[i].bytesRead == FullSize(s.messages[i])
  }

  lemma {:induction false} FeedMissesNothing(s: Session, data: bytes)
    requires GoodSession(AsCommented, s) && NothingMissing(s)
    ensures var r := Feed(AsCommented, s, data); r.Ok? ==> NothingMissing(r.value)
    decreases |data|
  {
    if data != [] {
      PendingIsLive(AsCommented, s);
      ParseLive(AsCommented, Pending(s), data);
      if ParseMessage(AsCommented, Pending(s), data).Ok? {
        var (m, n) := ParseMessage(AsCommented, Pending(s), data).value;
        DoneIsFull(Pending(s), data);
        WithPendingValid(s, m);
        if m.parseDone {
          FeedMissesNothing(WithPending(s, m), data[n..]);
        }
      }
    }
  }

  lemma DoneIsFull(m: Message, data: bytes)
    requires Live(AsCommented, m) && data != []
    ensures var r := ParseMessage(AsCommented, m, data);
            r.Ok? && r.value.0.parseDone ==> r.value.0.bytesRead == FullSize(r.value.0)
  {
    ParseLive(AsCommented, m, data);
  }

  lemma {:induction false} ChunksMissNothing(s: Session, chunks: seq<bytes>)
    requires GoodSession(AsCommented, s) && NonEmpty(chunks) && NothingMissing(s)
    ensures var r := FeedChunks(AsCommented, s, chunks); r.Ok? ==> NothingMissing(r.value)
    decreases |chunks|
  {
    if chunks != [] {
      FeedMissesNothing(Started(s), chunks[0]);
      var r := ParseSession(AsCommented, s, chunks[0]);
      if r.Ok? {
        ChunksMissNothing(r.value, chunks[1..]);
      }
    }
  }

  /** The done messages of s are still there, unchanged. */
  predicate KeepsDone(s: Session, s': Session) {
    |s.messages| <= |s'.messages|
    && forall i :: 0 <= i < |s.messages| && s.messages[i].parseDone ==> s'.messages[i] == s.messages[i]
  }

  lemma {:induction false} FeedKeepsDone(mode: Mode, s: Session, data: bytes)
    requires GoodSession(mode, s)
    ensures var r := Feed(mode, s, data); r.Ok? ==> KeepsDone(s, r.value)
    decreases |data|
  {
    hide ParseMessage, Feed, Evaluate;
    if data == [] {
      FeedNothing(mode, s);
    } else {
      FeedStep(mode, s, data);
      var r := ParseMessage(mode, Pending(s), data);
      if r.Ok? {
        WithPendingValid(s, r.value.0);
        FeedKeepsDone(mode, WithPending(s, r.value.0), data[r.value.1..]);
      }
    }
  }

  lemma {:induction false} ChunksKeepDone(s: Session, chunks: seq<bytes>)
    requires GoodSession(AsWritten, s) && NonEmpty(chunks)
    ensures var r := FeedChunks(AsWritten, s, chunks); r.Ok? ==> KeepsDone(s, r.value)
    decreases |chunks|
  {
    hide Feed;
    if chunks != [] {
      FeedKeepsDone(AsWritten, Started(s), chunks[0]);
      var r := ParseSession(AsWritten, s, chunks[0]);
      if r.Ok? {
        ChunksKeepDone(r.value, chunks[1..]);
      }
    }
  }

  /** A header was cut: the code as written never completes it. */
  predicate HeaderCut(s: Session) {
    !AtBoundary(s) && !LastMessage(s).headerDone
  }

  lemma CutHeaderStays(s: Session, data: bytes)
    requires GoodSession(AsWritten, s) && HeaderCut(s) && data != []
    ensures var r := Feed(AsWritten, s, data); r.Ok? ==> HeaderCut(r.value) && r.value.state == s.state
  {
    var m := Pending(s);
    PendingIsLive(AsWritten, s);
    ParseLive(AsWritten, m, data);
    assert 0 < m.bytesRead < HEADER;
    var r := ParseMessage(AsWritten, m, data);
    var n := Min(|data|, HEADER - m.bytesRead);
    if r.Ok? {
      assert HEADER * m.bytesRead + n <= 16;
      assert m.bytesRead == 1;
      var m1 := StoreHeader(m, HEADER, data[..n]);
      assert Type(m1) == 0;
      WithPendingValid(s, r.value.0);
    }
  }

  lemma {:induction false} CutHeaderForever(s: Session, chunks: seq<bytes>)
    requires GoodSession(AsWritten, s) && HeaderCut(s) && NonEmpty(chunks)
    ensures var r := FeedChunks(AsWritten, s, chunks);
            r.Ok? ==> HeaderCut(r.value) && Started(r.value).state == Started(s).state
    decreases |chunks|
  {
    if chunks != [] {
      CutHeaderStays(Started(s), chunks[0]);
      var r := ParseSession(AsWritten, s, chunks[0]);
      if r.Ok? {
        CutHeaderForever(r.value, chunks[1..]);
      }
    }
  }

  /** After an unsafe cut the code as written is past repair. */
  lemma UnsafeCut(s: Session, rest: seq<bytes>, c: Session)
    requires GoodSession(AsCommented, s) && NonEmpty(rest) && !SafeState(s) && NothingMissing(s)
    requires GoodSession(AsWritten, Written(s))
    requires FeedChunks(AsCommented, s, rest) == Ok(c) && AtBoundary(c)
    ensures FeedChunks(AsWritten, Written(s), rest) != Ok(c)
  {
    var w := Written(s);
    ChunksMissNothing(s, rest);
    if Premature(LastMessage(s)) {
      var m := LastMessage(s).(parseDone := true);
      WithPendingValid(s, m);
      ChunksKeepDone(w, rest);
      assert w.messages[|w.messages| - 1] == m && m.bytesRead < FullSize(m);
    } else {
      assert HeaderCut(w);
      CutHeaderForever(w, rest);
    }
  }

  lemma FirstChunk(s: Session, chunk: bytes)
    requires GoodSession(AsCommented, s) && SafeState(s) && NothingMissing(s) && chunk != []
    ensures GoodSession(AsWritten, s)
    ensures var r := ParseSession(AsCommented, s, chunk);
            r.Ok? ==> && NothingMissing(r.value)
                      && ParseSession(AsWritten, s, chunk) == Ok(Written(r.value))
                      && (SafeState(r.value) ==> Written(r.value) == r.value)
  {
    SafeIsGood(s);
    OneCallSession(Started(s), chunk);
    FeedMissesNothing(Started(s), chunk);
  }

  lemma {:induction false} SafeCutsNeeded(s: Session, chunks: seq<bytes>, c: Session)
    requires GoodSession(AsCommented, s) && NonEmpty(chunks) && SafeState(s) && NothingMissing(s)
    requires FeedChunks(AsCommented, s, chunks) == Ok(c) && AtBoundary(c) && !AllCutsSafe(s, chunks)
    ensures GoodSession(AsWritten, s) && FeedChunks(AsWritten, s, chunks) != Ok(c)
    decreases |chunks|
  {
    FirstChunk(s, chunks[0]);
    var s1 := ParseSession(AsCommented, s, chunks[0]).value;
    if SafeState(s1) {
      SafeCutsNeeded(s1, chunks[1..], c);
    } else {
      UnsafeCut(s1, chunks[1..], c);
    }
  }

  lemma SafeCutsDecide(chunks: seq<bytes>, c: Session)
    requires NonEmpty(chunks) && chunks != []
    requires ParseSession(AsCommented, NEW_SESSION, Concat(chunks)) == Ok(c) && AtBoundary(c)
    ensures ParseSession(AsWritten, NEW_SESSION, Concat(chunks)) == Ok(c)
    ensures FeedChunks(AsWritten, NEW_SESSION, chunks) == Ok(c) <==> AllCutsSafe(NEW_SESSION, chunks)
  {
    OneCallSession(Started(NEW_SESSION), Concat(chunks));
    AnyCutsAsCommented(NEW_SESSION, chunks);
    if AllCutsSafe(NEW_SESSION, chunks) {
      SafeCutsSuffice(NEW_SESSION, chunks, c);
    } else {
      SafeCutsNeeded(NEW_SESSION, chunks, c);
    }
  }

  // Safe cuts, read off the bytes.

  /** A cut of data after n bytes is safe on a record boundary, and inside a stream record after
      a whole header as long as fewer bytes than the content length, header included, are in. */
  predicate SafeCut(data: bytes, n: nat)
    requires n <= |data|
    decreases |data|
  {
    if n == 0 then true
    else if n < HEADER then false
    else
      var len := Number16(data[4], data[5]);
      if n >= HEADER + len then SafeCut(data[HEADER + len..], n - (HEADER + len))
      else IsStream(data[1]) && n < len
  }

  lemma WholeBody(h: Message, rest: bytes, used: nat)
    requires Valid(h) && h.headerDone && h.bytesRead == HEADER
    ensures var (m, n) := ParseBody(AsCommented, h, rest, used);
            && Valid(m) && m.headerDone && m.contentLength == h.contentLength && Type(m) == Type(h)
            && n == used + Min(|rest|, h.contentLength) && m.bytesRead == HEADER + Min(|rest|, h.contentLength)
            && (m.parseDone <==> m.bytesRead == HEADER + m.contentLength)
  {
    StoreKeepsValid(h, rest[..Min(|rest|, h.contentLength)]);
  }

  /** The first record of a call, by its bytes. */
  lemma FirstMessage(data: bytes)
    requires data != []
    ensures var r := ParseMessage(AsCommented, NEW, data);
            r.Ok? ==>
              var (m, n) := r.value;
              && (m.headerDone <==> |data| >= HEADER)
              && (|data| < HEADER ==> n == |data| && !m.parseDone)
              && (|data| >= HEADER ==>
                    && m.contentLength == Number16(data[4], data[5]) && Valid(m) && Type(m) == data[1]
                    && n == m.bytesRead == Min(|data|, HEADER + m.contentLength)
                    && (m.parseDone <==> n == HEADER + m.contentLength))
  {
    hide Splice, ParseBody;
    var n := Min(|data|, HEADER);
    SpliceAt(NEW.raw, 0, data[..n]);
    var m1 := StoreHeader(NEW, 0, data[..n]);
    if n == HEADER && FinishHeader(m1).Ok? {
      WholeBody(FinishHeader(m1).value, data[n..], n);
    }
  }

  lemma HeaderAccepted(data: bytes)
    requires |data| >= HEADER && Known(data[1]) && LengthFits(data[1], Number16(data[4], data[5]))
    ensures ParseMessage(AsCommented, NEW, data).Ok?
  {
    hide Splice, ParseBody;
    SpliceAt(NEW.raw, 0, data[..HEADER]);
  }

  /** A chunk that ends inside the header of a new record. */
  lemma ShortHeader(s: Session, data: bytes) returns (m: Message)
    requires GoodSession(AsWritten, s) && AtBoundary(s) && 0 < |data| < HEADER
    ensures Live(AsWritten, m) && !m.headerDone && m.bytesRead == |data|
    ensures GoodSession(AsWritten, WithPending(s, m)) && Feed(AsWritten, s, data) == Ok(WithPending(s, m))
    ensures HeaderCut(WithPending(s, m)) && WithPending(s, m).state == s.state
  {
    m := StoreHeader(NEW, 0, data);
    assert data[..|data|] == data;
    assert ParseMessage(AsWritten, NEW, data) == Ok((m, |data|));
    ParseLive(AsWritten, NEW, data);
    FeedStep(AsWritten, s, data);
    FeedNothing(AsWritten, WithPending(s, m));
  }

  lemma PushPrefix(s: Session, data: bytes, n: nat)
    requires GoodSession(AsCommented, s) && PushAll(s, data).Ok? && n <= |data|
    ensures PushAll(s, data[..n]).Ok? && PushAll(s, data) == PushAll(PushAll(s, data[..n]).value, data[n..])
  {
    assert data == data[..n] + data[n..];
    PushAllAppend(s, data[..n], data[n..]);
  }

  /** The first record of a stream, pushed byte by byte. */
  lemma FirstRecord(s: Session, data: bytes)
    requires GoodSession(AsCommented, s) && AtBoundary(s) && data != [] && PushAll(s, data).Ok?
    requires |data| >= HEADER ==> |data| <= HEADER + Number16(data[4], data[5])
    ensures var t := PushAll(s, data).value;
            && (AtBoundary(t) <==> |data| >= HEADER && |data| == HEADER + Number16(data[4], data[5]))
            && (SafeState(t) <==> SafeCut(data, |data|))
  {
    hide ParseMessage, Feed, PushAll, Evaluate;
    CommentedIsByteWise(s, data);
    FirstMessage(data);
    FeedStep(AsCommented, Started(s), data);
    var (m, n) := ParseMessage(AsCommented, NEW, data).value;
    WithPendingValid(Started(s), m);
    var t := WithPending(Started(s), m);
    assert LastMessage(t) == m;
    assert data[n..] == [];
    FeedNothing(AsCommented, t);
  }

  lemma SafeCutInFirst(data: bytes, n: nat)
    requires 0 < n <= |data| && (n >= HEADER ==> n < HEADER + Number16(data[4], data[5]))
    ensures SafeCut(data, n) <==> SafeCut(data[..n], n)
  {
  }

  lemma CutInFirst(s: Session, data: bytes, n: nat)
    requires GoodSession(AsCommented, s) && AtBoundary(s) && 0 < n <= |data| && PushAll(s, data[..n]).Ok?
    requires n >= HEADER ==> n < HEADER + Number16(data[4], data[5])
    ensures SafeState(PushAll(s, data[..n]).value) <==> SafeCut(data, n)
  {
    FirstRecord(s, data[..n]);
    SafeCutInFirst(data, n);
  }

  /** Going on behind the first record, with the rest of the stream. */
  lemma CutBehind(s: Session, data: bytes, n: nat, size: nat, rest: bytes) returns (t: Session)
    requires GoodSession(AsCommented, s) && AtBoundary(s) && PushAll(s, data).Ok? && HEADER <= n <= |data|
    requires size == HEADER + Number16(data[4], data[5]) && size <= n && rest == data[size..]
    ensures GoodSession(AsCommented, t) && AtBoundary(t) && PushAll(t, rest).Ok?
    ensures PushAll(s, data[..n]) == PushAll(t, rest[..n - size])
  {
    hide PushAll, SafeCut, SafeState;
    PushPrefix(s, data, size);
    FirstRecord(s, data[..size]);
    t := PushAll(s, data[..size]).value;
    PushPrefix(s, data, n);
    PushPrefix(s, data[..n], size);
    assert data[..n][..size] == data[..size] && data[..n][size..] == rest[..n - size];
  }

  lemma SafeCutBehind(data: bytes, n: nat, size: nat, rest: bytes)
    requires HEADER <= n <= |data| && size == HEADER + Number16(data[4], data[5]) && size <= n && rest == data[size..]
    ensures SafeCut(data, n) <==> SafeCut(rest, n - size)
  {
  }

  lemma PushNothing(s: Session)
    requires GoodSession(AsCommented, s)
    ensures PushAll(s, []) == Ok(s)
  {
  }

  /** The state a cut leaves behind is safe exactly if the bytes before it say so. */
  lemma {:induction false} CutState(s: Session, data: bytes, n: nat)
    requires GoodSession(AsCommented, s) && AtBoundary(s) && PushAll(s, data).Ok? && n <= |data|
    ensures PushAll(s, data[..n]).Ok?
    ensures SafeState(PushAll(s, data[..n]).value) <==> SafeCut(data, n)
    decreases |data|
  {
    hide PushAll, SafeCut;
    PushPrefix(s, data, n);
    if n == 0 {
      NoBytes(data);
      PushNothing(s);
      SafeCutNowhere(data);
    } else if n < HEADER || n < HEADER + Number16(data[4], data[5]) {
      CutInFirst(s, data, n);
    } else {
      var size := HEADER + Number16(data[4], data[5]);
      var rest := data[size..];
      var t := CutBehind(s, data, n, size, rest);
      CutState(t, rest, n - size);
      SafeCutBehind(data, n, size, rest);
    }
  }

  lemma SafeCutNowhere(data: bytes)
    ensures SafeCut(data, 0)
  {
  }

  /** The state after i of the chunks is a safe one. */
  predicate SafeAfter(s: Session, chunks: seq<bytes>, i: nat)
    requires GoodSession(AsCommented, s) && i <= |chunks|
  {
    var r := PushAll(s, Concat(chunks[..i]));
    r.Ok? && SafeState(r.value)
  }

  lemma SafeAfterFirst(s: Session, chunks: seq<bytes>, i: nat, s1: Session)
    requires GoodSession(AsCommented, s) && 0 < i <= |chunks|
    requires PushAll(s, chunks[0]) == Ok(s1) && GoodSession(AsCommented, s1)
    ensures SafeAfter(s, chunks, i) <==> SafeAfter(s1, chunks[1..], i - 1)
  {
    assert chunks[..i][1..] == chunks[1..][..i - 1];
    PushAllAppend(s, chunks[0], Concat(chunks[1..][..i - 1]));
  }

  /** The cuts between chunks, as states of the byte-wise parser. */
  lemma {:induction false} CutsAsStates(s: Session, chunks: seq<bytes>)
    requires GoodSession(AsCommented, s) && NonEmpty(chunks) && PushAll(s, Concat(chunks)).Ok?
    ensures AllCutsSafe(s, chunks) <==> forall i :: 0 < i < |chunks| ==> SafeAfter(s, chunks, i)
    decreases |chunks|
  {
    hide PushAll, Feed;
    if |chunks| > 1 {
      PushAllAppend(s, chunks[0], Concat(chunks[1..]));
      CommentedIsByteWise(s, chunks[0]);
      var s1 := PushAll(s, chunks[0]).value;
      var rest := chunks[1..];
      CutsAsStates(s1, rest);
      PushNothing(s1);
      assert rest[..0] == [];
      forall i | 0 < i < |chunks|
        ensures SafeAfter(s, chunks, i) <==> SafeAfter(s1, rest, i - 1)
      {
        SafeAfterFirst(s, chunks, i, s1);
      }
      ShiftAll(s, chunks, s1, rest);
    }
  }

  lemma ShiftAll(s: Session, chunks: seq<bytes>, s1: Session, rest: seq<bytes>)
    requires GoodSession(AsCommented, s) && GoodSession(AsCommented, s1) && |chunks| == |rest| + 1 > 1
    requires forall i :: 0 < i < |chunks| ==> (SafeAfter(s, chunks, i) <==> SafeAfter(s1, rest, i - 1))
    ensures (forall i :: 0 < i < |chunks| ==> SafeAfter(s, chunks, i)) <==>
            SafeAfter(s1, rest, 0) && forall i :: 0 < i < |rest| ==> SafeAfter(s1, rest, i)
  {
    if forall i :: 0 < i < |chunks| ==> SafeAfter(s, chunks, i) {
      assert SafeAfter(s, chunks, 1);
      forall i | 0 < i < |rest|
        ensures SafeAfter(s1, rest, i)
      {
        assert SafeAfter(s, chunks, i + 1);
      }
    }
  }

  lemma ConcatPrefix(chunks: seq<bytes>, i: nat)
    requires i <= |chunks|
    ensures Concat(chunks[..i]) <= Concat(chunks)
  {
    if i > 0 {
      assert chunks[..i][1..] == chunks[1..][..i - 1];
      ConcatPrefix(chunks[1..], i - 1);
    }
  }

  /** The cut behind the first i chunks, by its position in the stream. */
  predicate SafeCutAt(chunks: seq<bytes>, i: nat)
    requires i <= |chunks|
  {
    var n := |Concat(chunks[..i])|;
    n <= |Concat(chunks)| && SafeCut(Concat(chunks), n)
  }

  lemma SafeAfterIsSafeCut(chunks: seq<bytes>, i: nat)
    requires i <= |chunks| && PushAll(NEW_SESSION, Concat(chunks)).Ok?
    ensures SafeAfter(NEW_SESSION, chunks, i) <==> SafeCutAt(chunks, i)
  {
    hide PushAll, SafeCut;
    ConcatPrefix(chunks, i);
    var data, n := Concat(chunks), |Concat(chunks[..i])|;
    assert data[..n] == Concat(chunks[..i]);
    CutState(NEW_SESSION, data, n);
  }

  /** Chunking, exactly. For a stream that ends on a record boundary and every way to cut it, the
      code as written ends with the session of one call on the whole stream if and only if
      every cut is safe. */
  lemma ChunkingExactly(chunks: seq<bytes>, c: Session)
    requires NonEmpty(chunks) && chunks != []
    requires ParseSession(AsCommented, NEW_SESSION, Concat(chunks)) == Ok(c) && AtBoundary(c)
    ensures ParseSession(AsWritten, NEW_SESSION, Concat(chunks)) == Ok(c)
    ensures FeedChunks(AsWritten, NEW_SESSION, chunks) == Ok(c) <==>
            forall i :: 0 < i < |chunks| ==> SafeCutAt(chunks, i)
  {
    hide Feed, PushAll, FeedChunks, SafeCut;
    SafeCutsDecide(chunks, c);
    CommentedIsByteWise(NEW_SESSION, Concat(chunks));
    CutsAsStates(NEW_SESSION, chunks);
    forall i | 0 < i < |chunks|
      ensures SafeAfter(NEW_SESSION, chunks, i) <==> SafeCutAt(chunks, i)
    {
      SafeAfterIsSafeCut(chunks, i);
    }
  }
}
