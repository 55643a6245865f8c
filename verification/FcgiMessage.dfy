/** FastCGI records and the incremental record parser (fcgi_state.c). The parser exists in two
    modes: as the code is written, and as its comments describe it. */
module FcgiMessage {
  import opened FcgiParam

  const HEADER: nat := 8
  const BODY: nat := 8

  const BEGIN_REQUEST: byte := 1
  const ABORT_REQUEST: byte := 2
  const END_REQUEST: byte := 3
  const PARAMS: byte := 4
  const STDIN: byte := 5

  /** The role this program serves. */
  const RESPONDER: nat := 1

  /** Records with a fixed body of eight bytes. */
  predicate IsFixed(t: byte) {
    t == BEGIN_REQUEST || t == END_REQUEST
  }

  /** PARAMS, STDIN, STDOUT, STDERR, DATA */
  predicate IsStream(t: byte) {
    PARAMS <= t <= 8
  }

  predicate Known(t: byte) {
    IsFixed(t) || t == ABORT_REQUEST || IsStream(t)
  }

  datatype Mode = AsWritten | AsCommented

  /** The ways a record ends the parsing: the program exits on an unknown type, an assertion on the
      length of a fixed body fails, or a copy runs beyond the header and body fields. C leaves the
      last undefined; it counts as a failure here, whatever a given program makes of it. */
  datatype Error = UnknownType | BadBodyLength | HeaderOverrun

  datatype Result<T> = Ok(value: T) | Err(error: Error)

  /** struct fcgi_message_s; raw is the header followed by the body union. */
  datatype Message = Message(bytesRead: nat, contentLength: nat, headerDone: bool, parseDone: bool, raw: bytes, content: bytes)

  function Zeros(n: nat): (z: bytes)
    ensures |z| == n
  {
    seq(n, _ => 0)
  }

  const NEW := Message(0, 0, false, false, Zeros(16), [])

  function Type(m: Message): byte
    requires |m.raw| == 16
  {
    m.raw[1]
  }

  function Number16(hi: byte, lo: byte): nat {
    hi * 256 + lo
  }

  function RequestId(m: Message): nat
    requires |m.raw| == 16
  {
    Number16(m.raw[2], m.raw[3])
  }

  function Role(m: Message): nat
    requires |m.raw| == 16
  {
    Number16(m.raw[8], m.raw[9])
  }

  /** The size of the record a message with a complete header stands for. */
  function FullSize(m: Message): nat {
    HEADER + m.contentLength
  }

  predicate LengthFits(t: byte, len: nat) {
    (IsFixed(t) ==> len == BODY) && (t == ABORT_REQUEST ==> len == 0)
  }

  /** What fcgi_message_parse keeps. */
  predicate Valid(m: Message) {
    && |m.raw| == 16
    && (m.parseDone ==> m.headerDone)
    && (!m.headerDone ==> m.bytesRead < HEADER && m.content == [] && m.contentLength == 0)
    && (m.headerDone ==>
          && HEADER <= m.bytesRead <= FullSize(m)
          && Known(Type(m)) && m.contentLength == Number16(m.raw[4], m.raw[5]) && LengthFits(Type(m), m.contentLength)
          && |m.content| == if IsStream(Type(m)) then m.contentLength else 0)
  }

  function Min(a: nat, b: nat): nat {
    if a < b then a else b
  }

  /** The header has just become complete: take over its length and allocate the content. */
  function FinishHeader(m: Message): (r: Result<Message>)
    requires |m.raw| == 16 && m.bytesRead == HEADER
    ensures r.Ok? ==> r.value.raw == m.raw && r.value.headerDone && r.value.bytesRead == HEADER
                      && r.value.parseDone == m.parseDone
  {
    var len := Number16(m.raw[4], m.raw[5]);
    if !Known(Type(m)) then Err(UnknownType)
    else if !LengthFits(Type(m), len) then Err(BadBodyLength)
    else Ok(m.(contentLength := len, headerDone := true, content := if IsStream(Type(m)) then Zeros(len) else []))
  }

  predicate Complete(mode: Mode, m: Message) {
    match mode
    case AsWritten => m.bytesRead >= m.contentLength
    case AsCommented => m.bytesRead >= FullSize(m)
  }

  /** Copy a chunk to position `at` of the record: into the content or into the body union. */
  function Store(m: Message, at: nat, chunk: bytes): Message
    requires Valid(m) && m.headerDone && HEADER <= at && at + |chunk| <= FullSize(m)
  {
    if IsStream(Type(m)) then m.(content := Splice(m.content, at - HEADER, chunk), bytesRead := m.bytesRead + |chunk|)
    else m.(raw := Splice(m.raw, at, chunk), bytesRead := m.bytesRead + |chunk|)
  }

  /** The part of fcgi_message_parse behind the header; `used` bytes of the call are gone. */
  function ParseBody(mode: Mode, m: Message, data: bytes, used: nat): (Message, nat)
    requires Valid(m) && m.headerDone
  {
    var at := if mode == AsWritten && IsFixed(Type(m)) then HEADER else m.bytesRead;
    var n := Min(|data|, FullSize(m) - at);
    var m' := Store(m, at, data[..n]);
    (m'.(parseDone := Complete(mode, m')), used + n)
  }

  function StoreHeader(m: Message, at: nat, chunk: bytes): Message
    requires |m.raw| == 16 && at + |chunk| <= 16
  {
    m.(raw := Splice(m.raw, at, chunk), bytesRead := m.bytesRead + |chunk|)
  }

  /** Go on after copying header bytes: wait for more, or take the header and read the body. */
  function AfterHeader(mode: Mode, m: Message, rest: bytes, used: nat): Result<(Message, nat)>
    requires |m.raw| == 16 && !m.parseDone && m.bytesRead <= HEADER
  {
    if m.bytesRead < HEADER then Ok((m, used))
    else
      match FinishHeader(m)
      case Err(e) => Err(e)
      case Ok(h) => Ok(ParseBody(mode, h, rest, used))
  }

  /** fcgi_message_parse: the new message and the number of bytes read. As written, the copy
      that resumes a header starts bytesRead whole headers, not bytesRead bytes, into it. */
  function ParseMessage(mode: Mode, m: Message, data: bytes): Result<(Message, nat)>
    requires Valid(m)
  {
    if m.parseDone then Ok((m, 0))
    else if m.headerDone then Ok(ParseBody(mode, m, data, 0))
    else
      var n := Min(|data|, HEADER - m.bytesRead);
      var at := if mode == AsWritten then HEADER * m.bytesRead else m.bytesRead;
      if at + n > 16 then Err(HeaderOverrun)
      else AfterHeader(mode, StoreHeader(m, at, data[..n]), data[n..], n)
  }

  /** One byte at a time: the reference for what the comments describe. */
  function PushByte(m: Message, b: byte): Result<Message>
    requires Valid(m) && !m.parseDone && (m.headerDone ==> m.bytesRead < FullSize(m))
  {
    if m.bytesRead < HEADER then
      var m' := m.(raw := m.raw[m.bytesRead := b], bytesRead := m.bytesRead + 1);
      if m'.bytesRead < HEADER then Ok(m')
      else
        match FinishHeader(m')
        case Err(e) => Err(e)
        case Ok(h) => Ok(h.(parseDone := h.contentLength == 0))
    else
      var m' := if IsStream(Type(m)) then m.(content := m.content[m.bytesRead - HEADER := b])
                else m.(raw := m.raw[m.bytesRead := b]);
      Ok(m'.(bytesRead := m.bytesRead + 1, parseDone := m.bytesRead + 1 == FullSize(m)))
  }

  /** Between calls, as commented, an unfinished message has room left. */
  predicate Open(m: Message) {
    Valid(m) && !m.parseDone && (m.headerDone ==> m.bytesRead < FullSize(m))
  }

  lemma PushValid(m: Message, b: byte)
    requires Open(m)
    ensures var r := PushByte(m, b);
            r.Ok? ==> Valid(r.value) && (r.value.parseDone || Open(r.value)) && r.value.bytesRead == m.bytesRead + 1
                      && (r.value.parseDone ==> r.value.bytesRead == FullSize(r.value))
  {
  }

  lemma SplicePeel(s: bytes, at: nat, b: byte, data: bytes)
    requires at + 1 + |data| <= |s|
    ensures Splice(s, at, [b] + data) == Splice(s[at := b], at + 1, data)
  {
  }

  lemma SpliceNothing(s: bytes, at: nat)
    requires at <= |s|
    ensures Splice(s, at, []) == s
  {
  }

  lemma StoreNothing(m: Message, at: nat)
    requires Valid(m) && m.headerDone && HEADER <= at <= FullSize(m)
    ensures Store(m, at, []) == m
  {
    if IsStream(Type(m)) {
      SpliceNothing(m.content, at - HEADER);
    } else {
      SpliceNothing(m.raw, at);
    }
  }

  lemma StorePeel(m: Message, b: byte, chunk: bytes)
    requires Open(m) && m.headerDone && m.bytesRead + 1 + |chunk| <= FullSize(m)
    ensures PushByte(m, b).Ok? && Valid(PushByte(m, b).value)
    ensures Store(m, m.bytesRead, [b] + chunk)
         == Store(PushByte(m, b).value, m.bytesRead + 1, chunk).(parseDone := false)
  {
    if IsStream(Type(m)) {
      SplicePeel(m.content, m.bytesRead - HEADER, b, chunk);
    } else {
      SplicePeel(m.raw, m.bytesRead, b, chunk);
    }
  }

  lemma NoBytes(data: bytes)
    ensures data[..0] == []
  {
  }

  lemma BodyOfNothing(mode: Mode, m: Message, data: bytes, used: nat)
    requires Valid(m) && m.headerDone && (data == [] || FullSize(m) == m.bytesRead) && (mode == AsWritten ==> m.bytesRead == HEADER)
    ensures ParseBody(mode, m, data, used) == (m.(parseDone := Complete(mode, m)), used)
  {
    hide Store;
    StoreNothing(m, m.bytesRead);
    NoBytes(data);
    assert Min(|data|, FullSize(m) - m.bytesRead) == 0;
  }

  /** The bulk parser, as commented, takes the first byte like the byte-wise one. */
  lemma PeelBody(m: Message, b: byte, rest: bytes)
    requires Open(m) && m.headerDone
    ensures PushByte(m, b).Ok? && Valid(PushByte(m, b).value)
    ensures var m' := PushByte(m, b).value;
            ParseBody(AsCommented, m, [b] + rest, 0) ==
               (ParseBody(AsCommented, m', rest, 0).0, ParseBody(AsCommented, m', rest, 0).1 + 1)
  {
    var data := [b] + rest;
    var n := Min(|data|, FullSize(m) - m.bytesRead);
    assert data[..n] == [b] + rest[..n - 1];
    StorePeel(m, b, rest[..n - 1]);
  }

  /** Adding one to the count of bytes read. */
  function OneMore(r: Result<(Message, nat)>): Result<(Message, nat)> {
    match r
    case Ok((m, n)) => Ok((m, n + 1))
    case Err(e) => Err(e)
  }

  ghost predicate Peels(m: Message, b: byte, rest: bytes)
    requires Open(m)
  {
    match PushByte(m, b)
    case Err(e) => ParseMessage(AsCommented, m, [b] + rest) == Err(e)
    case Ok(m') =>
      && Valid(m')
      && ParseMessage(AsCommented, m, [b] + rest) ==
         if m'.parseDone || rest == [] then Ok((m', 1)) else OneMore(ParseMessage(AsCommented, m', rest))
  }

  lemma PeelInBody(m: Message, b: byte, rest: bytes)
    requires Open(m) && m.headerDone
    ensures Peels(m, b, rest)
  {
    PushValid(m, b);
    PeelBody(m, b, rest);
    var m' := PushByte(m, b).value;
    if rest == [] || m'.parseDone {
      BodyOfNothing(AsCommented, m', rest, 0);
    }
  }

  /** Counting the header bytes from an earlier start changes the count only. */
  lemma AfterHeaderShift(m: Message, rest: bytes, used: nat)
    requires |m.raw| == 16 && !m.parseDone && m.bytesRead <= HEADER
    ensures AfterHeader(AsCommented, m, rest, used + 1) == OneMore(AfterHeader(AsCommented, m, rest, used))
  {
  }

  function HeaderByte(m: Message, b: byte): Message
    requires |m.raw| == 16 && m.bytesRead < HEADER
  {
    m.(raw := m.raw[m.bytesRead := b], bytesRead := m.bytesRead + 1)
  }

  lemma StoreHeaderPeel(m: Message, b: byte, chunk: bytes)
    requires |m.raw| == 16 && m.bytesRead < HEADER && m.bytesRead + 1 + |chunk| <= 16
    ensures var m' := StoreHeader(HeaderByte(m, b), m.bytesRead + 1, chunk);
            && StoreHeader(m, m.bytesRead, [b] + chunk) == m'
            && |m'.raw| == 16 && m'.parseDone == m.parseDone && m'.bytesRead == m.bytesRead + 1 + |chunk|
    ensures chunk == [] ==> StoreHeader(m, m.bytesRead, [b] + chunk) == HeaderByte(m, b)
  {
    SplicePeel(m.raw, m.bytesRead, b, chunk);
  }

  lemma TakePeel(b: byte, rest: bytes, n: nat)
    requires 0 < n <= |rest| + 1
    ensures ([b] + rest)[..n] == [b] + rest[..n - 1] && ([b] + rest)[n..] == rest[n - 1..]
  {
  }

  lemma ParseInHeader(m: Message, data: bytes)
    requires Open(m) && !m.headerDone
    ensures var n := Min(|data|, HEADER - m.bytesRead);
            ParseMessage(AsCommented, m, data) == AfterHeader(AsCommented, StoreHeader(m, m.bytesRead, data[..n]), data[n..], n)
  {
    hide StoreHeader, AfterHeader;
  }

  lemma PushInHeader(m: Message, b: byte)
    requires Open(m) && m.bytesRead + 1 < HEADER
    ensures PushByte(m, b) == Ok(HeaderByte(m, b)) && Open(HeaderByte(m, b))
    ensures AfterHeader(AsCommented, HeaderByte(m, b), [], 1) == Ok((HeaderByte(m, b), 1))
  {
  }

  /** Inside the header, and not only its first byte. */
  lemma PeelMore(m: Message, b: byte, rest: bytes)
    requires Open(m) && m.bytesRead + 1 < HEADER && rest != []
    ensures Open(HeaderByte(m, b))
    ensures ParseMessage(AsCommented, m, [b] + rest) == OneMore(ParseMessage(AsCommented, HeaderByte(m, b), rest))
  {
    hide ParseMessage, PushByte, AfterHeader, StoreHeader, Splice;
    var n := Min(|rest|, HEADER - m.bytesRead - 1);
    PushInHeader(m, b);
    ParseInHeader(m, [b] + rest);
    ParseInHeader(HeaderByte(m, b), rest);
    TakePeel(b, rest, n + 1);
    StoreHeaderPeel(m, b, rest[..n]);
    var stored := StoreHeader(HeaderByte(m, b), m.bytesRead + 1, rest[..n]);
    AfterHeaderShift(stored, rest[n..], n);
  }

  lemma PeelOne(m: Message, b: byte)
    requires Open(m) && m.bytesRead + 1 < HEADER
    ensures ParseMessage(AsCommented, m, [b]) == Ok((HeaderByte(m, b), 1))
  {
    ParseInHeader(m, [b]);
    PushInHeader(m, b);
    StoreHeaderPeel(m, b, []);
    assert [b][..1] == [b] + [] && [b][1..] == [];
  }

  lemma PeelInHeader(m: Message, b: byte, rest: bytes)
    requires Open(m) && m.bytesRead + 1 < HEADER
    ensures Peels(m, b, rest)
  {
    hide ParseMessage, PushByte, AfterHeader;
    PushInHeader(m, b);
    if rest == [] {
      PeelOne(m, b);
      assert [b] + rest == [b];
    } else {
      PeelMore(m, b, rest);
    }
  }

  lemma PeelLastHeaderByte(m: Message, b: byte, rest: bytes)
    requires Open(m) && m.bytesRead + 1 == HEADER
    ensures Peels(m, b, rest)
  {
    var data := [b] + rest;
    assert data[..1] == [b] && data[1..] == rest;
    var m1 := m.(raw := m.raw[m.bytesRead := b], bytesRead := m.bytesRead + 1);
    assert StoreHeader(m, m.bytesRead, data[..1]) == m1;
    if FinishHeader(m1).Ok? {
      var h := FinishHeader(m1).value;
      if rest == [] || h.contentLength == 0 {
        BodyOfNothing(AsCommented, h, rest, 1);
      }
    }
  }

  lemma PeelMessage(m: Message, b: byte, rest: bytes)
    requires Open(m)
    ensures Peels(m, b, rest)
  {
    if m.headerDone {
      PeelInBody(m, b, rest);
    } else if m.bytesRead + 1 < HEADER {
      PeelInHeader(m, b, rest);
    } else {
      PeelLastHeaderByte(m, b, rest);
    }
  }

  // One call as written against one call as commented.

  /** A message as written may resume: new, or a stream record short of its own content length. */
  predicate Resumable(m: Message) {
    m == NEW || (m.headerDone && !m.parseDone && IsStream(TypeField(m)) && m.bytesRead < m.contentLength)
  }

  function TypeField(m: Message): byte {
    if |m.raw| == 16 then m.raw[1] else 0
  }

  /** The message is counted as complete although part of its content is missing. */
  predicate Premature(m: Message) {
    m.headerDone && m.contentLength <= m.bytesRead < FullSize(m)
  }

  /** From a resumable message the two modes differ in one way only: as written, a record that
      the call leaves incomplete may already count as done. */
  lemma OneCall(m: Message, data: bytes)
    requires Valid(m) && Resumable(m) && |data| > 0
    ensures match ParseMessage(AsCommented, m, data)
            case Err(e) => ParseMessage(AsWritten, m, data) == Err(e)
            case Ok((c, n)) =>
              && Valid(c) && 0 < n <= |data|
              && (c.parseDone ==> c.bytesRead == FullSize(c))
              && (!c.parseDone ==> n == |data| && Open(c))
              && ParseMessage(AsWritten, m, data) == Ok((if Premature(c) then c.(parseDone := true) else c, n))
  {
    if m != NEW {
      BodyCall(m, data, 0);
    } else {
      var n := Min(|data|, HEADER);
      var m1 := StoreHeader(NEW, 0, data[..n]);
      if n == HEADER && FinishHeader(m1).Ok? {
        BodyCall(FinishHeader(m1).value, data[n..], n);
      }
    }
  }

  lemma StoreKeepsValid(h: Message, chunk: bytes)
    requires Valid(h) && h.headerDone && h.bytesRead + |chunk| <= FullSize(h)
    ensures var m := Store(h, h.bytesRead, chunk);
            && Valid(m) && Type(m) == Type(h) && m.contentLength == h.contentLength && m.bytesRead == h.bytesRead + |chunk|
            && m.headerDone && m.parseDone == h.parseDone
  {
    var m := Store(h, h.bytesRead, chunk);
    assert Type(m) == Type(h) && m.raw[4] == h.raw[4] && m.raw[5] == h.raw[5];
  }

  lemma BodyCall(h: Message, data: bytes, used: nat)
    requires Valid(h) && h.headerDone && !h.parseDone && h.bytesRead <= FullSize(h)
    requires h.bytesRead == HEADER || (IsStream(Type(h)) && h.bytesRead < h.contentLength)
    ensures var (c, n) := ParseBody(AsCommented, h, data, used);
            && Valid(c) && used <= n <= used + |data| && (h.bytesRead < FullSize(h) && data != [] ==> used < n)
            && (c.parseDone ==> c.bytesRead == FullSize(c))
            && (!c.parseDone ==> n == used + |data| && Open(c))
            && ParseBody(AsWritten, h, data, used) == (if Premature(c) then c.(parseDone := true) else c, n)
  {
    hide Store;
    StoreKeepsValid(h, data[..Min(|data|, FullSize(h) - h.bytesRead)]);
  }

  // Records.

  datatype Record = Record(kind: byte, id: nat, content: bytes)

  predicate WellFormed(r: Record) {
    Known(r.kind) && r.id < 0x1_0000 && |r.content| < 0x1_0000 && LengthFits(r.kind, |r.content|)
  }

  function EncodeHeader(r: Record): (h: bytes)
    requires WellFormed(r)
    ensures |h| == HEADER
  {
    [1, r.kind, r.id / 256, r.id % 256, |r.content| / 256, |r.content| % 256, 0, 0]
  }

  /** Section 3.3: a record without padding. */
  function EncodeRecord(r: Record): bytes
    requires WellFormed(r)
  {
    EncodeHeader(r) + r.content
  }

  /** The message a complete record becomes. */
  function MessageOf(r: Record): Message
    requires WellFormed(r)
  {
    var len := |r.content|;
    Message(HEADER + len, len, true, true,
            EncodeHeader(r) + if IsFixed(r.kind) then r.content else Zeros(BODY),
            if IsStream(r.kind) then r.content else [])
  }

  lemma HeaderOf(r: Record, tail: bytes)
    requires WellFormed(r)
    ensures var data := EncodeRecord(r) + tail;
            data[..HEADER] == EncodeHeader(r) && data[HEADER..] == r.content + tail
    ensures (r.content + tail)[..|r.content|] == r.content
  {
  }

  /** The message once the header of r is read. */
  lemma HeaderRead(r: Record)
    requires WellFormed(r)
    ensures var m := StoreHeader(NEW, 0, EncodeHeader(r));
            && m.bytesRead == HEADER && FinishHeader(m).Ok?
            && var h := FinishHeader(m).value;
               && Valid(h) && h.contentLength == |r.content| && h.raw == EncodeHeader(r) + Zeros(BODY)
               && h.content == (if IsStream(r.kind) then Zeros(|r.content|) else [])
  {
    var m := StoreHeader(NEW, 0, EncodeHeader(r));
    assert m.raw == EncodeHeader(r) + Zeros(BODY);
  }

  /** A complete record at the front of a call is read to its end and no further, in both modes. */
  lemma RecordParses(mode: Mode, r: Record, tail: bytes)
    requires WellFormed(r)
    ensures ParseMessage(mode, NEW, EncodeRecord(r) + tail) == Ok((MessageOf(r), |EncodeRecord(r)|))
  {
    HeaderOf(r, tail);
    HeaderRead(r);
    var h := FinishHeader(StoreHeader(NEW, 0, EncodeHeader(r))).value;
    StoreWhole(h, r.content);
    BodyRead(mode, r, h, tail);
  }

  lemma BodyRead(mode: Mode, r: Record, h: Message, tail: bytes)
    requires WellFormed(r) && Valid(h) && h.headerDone && !h.parseDone && h.bytesRead == HEADER
    requires h.contentLength == |r.content| && h.raw == EncodeHeader(r) + Zeros(BODY)
    requires h.content == if IsStream(r.kind) then Zeros(|r.content|) else []
    ensures ParseBody(mode, h, r.content + tail, HEADER) == (MessageOf(r), HEADER + |r.content|)
  {
    HeaderOf(r, tail);
    StoreWhole(h, r.content);
  }

  lemma StoreWhole(h: Message, content: bytes)
    requires Valid(h) && h.headerDone && h.bytesRead == HEADER && h.contentLength == |content|
    ensures var m := Store(h, HEADER, content);
            && (IsStream(Type(h)) ==> m == h.(content := content, bytesRead := FullSize(h)))
            && (!IsStream(Type(h)) && |content| == BODY ==> m == h.(raw := h.raw[..HEADER] + content, bytesRead := FullSize(h)))
            && (content == [] ==> m == h)
  {
    if content == [] {
      StoreNothing(h, HEADER);
    }
  }

  lemma HeaderRefused(mode: Mode, data: bytes)
    requires |data| >= HEADER && !(Known(data[1]) && LengthFits(data[1], Number16(data[4], data[5])))
    ensures ParseMessage(mode, NEW, data).Err?
  {
    hide Splice, ParseBody;
    SpliceAt(NEW.raw, 0, data[..HEADER]);
  }

  // Building and writing messages.

  predicate Writable(m: Message) {
    && |m.raw| == 16 && m.headerDone
    && if IsStream(Type(m)) then |m.content| == m.contentLength else m.contentLength <= BODY
  }

  /** fcgi_message_write: the bytes put into a buffer of the given size. */
  function WriteMessage(m: Message, room: nat): bytes
    requires Writable(m)
  {
    var written := Min(FullSize(m), room);
    if !IsStream(Type(m)) || written <= HEADER then m.raw[..written]
    else m.raw[..HEADER] + m.content[..written - HEADER]
  }

  /** The fcgi_message_new_* constructors set everything but the count of bytes read. */
  function Build(r: Record): (m: Message)
    requires WellFormed(r)
    ensures |m.raw| == 16
  {
    MessageOf(r).(bytesRead := 0)
  }

  function BeginRecord(id: nat, role: nat, flags: byte): Record
    requires role < 0x1_0000
  {
    Record(BEGIN_REQUEST, id, [role / 256, role % 256, flags, 0, 0, 0, 0, 0])
  }

  /** Given room, writing a built message puts its record into the buffer; given less, a prefix. */
  lemma WriteIsRecord(r: Record, room: nat)
    requires WellFormed(r)
    ensures Writable(Build(r))
    ensures WriteMessage(Build(r), room) == EncodeRecord(r)[..Min(|EncodeRecord(r)|, room)]
    ensures |EncodeRecord(r)| <= room ==> WriteMessage(Build(r), room) == EncodeRecord(r)
  {
  }
}
