/** The relay between client and child (connection_manager.c): a loop over poll() with four
    readiness flags. */
module Relay {
  import opened FcgiParam
  import opened FcgiChunking

  datatype Read = Data(chunk: bytes) | EndOfFile | ReadError

  /** One turn of the loop: what poll() reports, and how the reads and writes would end. */
  datatype Poll =
    | Interrupted
    | TooManyFds
    | Ready(netOut: bool, childOut: bool, netIn: bool, childIn: bool,
            childWrite: bool, netRead: Read, childRead: Read, netWrite: bool)

  datatype Relayed = Relayed(
    toChild: bytes,      // written to the child
    fromNet: bytes,      // read from the client during the relay
    toNet: bytes,        // written to the client, without abort messages
    fromChild: bytes,    // read from the child
    passed: nat,         // chunks of the queue taken by the iterator
    aborts: nat,
    clean: bool          // no write failed
  )

  const NOTHING := Relayed([], [], [], [], 0, 0, true)

  lemma ConcatAppend(chunks: seq<bytes>, c: bytes)
    ensures Concat(chunks + [c]) == Concat(chunks) + c
  {
    if chunks == [] {
      assert [c][1..] == [];
    } else {
      assert (chunks + [c])[1..] == chunks[1..] + [c];
      ConcatAppend(chunks[1..], c);
    }
  }

  /** Conservation: the child gets the queue and then the later client bytes, in order, without
      loss or repetition up to a failing write; likewise the client gets what the child sent. */
  predicate Conserves(queue: seq<bytes>, r: Relayed) {
    && r.passed <= |queue|
    && (r.fromNet != [] ==> r.passed == |queue|)
    && r.toChild <= Concat(queue[..r.passed]) + r.fromNet
    && r.toNet <= r.fromChild
    && (r.clean ==> r.toChild == Concat(queue[..r.passed]) + r.fromNet && r.toNet == r.fromChild)
  }

  lemma NextChunk(queue: seq<bytes>, i: nat)
    requires i < |queue|
    ensures Concat(queue[..i + 1]) == Concat(queue[..i]) + queue[i]
  {
    assert queue[..i + 1] == queue[..i] + [queue[i]];
    ConcatAppend(queue[..i], queue[i]);
  }

  // The loop.

  /** The four readiness flags, kept from turn to turn. */
  datatype Flags = Flags(readNet: bool, writeNet: bool, readChild: bool, writeChild: bool)

  const NOT_READY := Flags(false, false, false, false)

  /** The half of a turn that writes to the child: queued chunks first, then client bytes. */
  method ToChild(queue: seq<bytes>, r: Relayed, p: Poll, canReadNet: bool) returns (r': Relayed, sent: bool, goOn: bool)
    requires Conserves(queue, r) && r.clean && r.aborts == 0 && p.Ready?
    ensures Conserves(queue, r') && r'.fromChild == r.fromChild && r'.toNet == r.toNet
    ensures r.passed < |queue| ==>
              && r'.passed == r.passed + 1 && r'.fromNet == r.fromNet && goOn == p.childWrite
              && (p.childWrite ==> r'.toChild == r.toChild + queue[r.passed])
    ensures r.passed == |queue| && canReadNet ==>
              && r'.passed == r.passed && goOn == (p.netRead.Data? && p.childWrite)
              && (p.netRead.Data? ==> r'.fromNet == r.fromNet + p.netRead.chunk)
              && (goOn ==> r'.toChild == r.toChild + p.netRead.chunk)
    ensures r.passed == |queue| && !canReadNet ==> r' == r && goOn
    ensures sent <==> goOn && (r.passed < |queue| || canReadNet)
    ensures r'.clean <==> r'.aborts == 0
    ensures r'.aborts == if !p.childWrite && (r.passed < |queue| || (canReadNet && p.netRead.Data?)) then 1 else 0
  {
    r', sent, goOn := r, false, true;
    if r.passed < |queue| {
      NextChunk(queue, r.passed);
      r' := r'.(passed := r.passed + 1);
      if !p.childWrite {
        r' := r'.(aborts := 1, clean := false);
        return r', false, false;
      }
      r' := r'.(toChild := r.toChild + queue[r.passed]);
      sent := true;
    } else if canReadNet {
      if !p.netRead.Data? {
        return r', false, false;
      }
      r' := r'.(fromNet := r.fromNet + p.netRead.chunk);
      if !p.childWrite {
        r' := r'.(aborts := 1, clean := false);
        return r', false, false;
      }
      r' := r'.(toChild := r.toChild + p.netRead.chunk);
      sent := true;
    }
  }

  /** The half that passes the answer on to the client. */
  method ToClient(queue: seq<bytes>, r: Relayed, p: Poll) returns (r': Relayed, goOn: bool)
    requires Conserves(queue, r) && r.clean && r.aborts == 0 && p.Ready?
    ensures Conserves(queue, r')
    ensures r'.passed == r.passed && r'.fromNet == r.fromNet && r'.toChild == r.toChild
    ensures r'.fromChild == if p.childRead.Data? then r.fromChild + p.childRead.chunk else r.fromChild
    ensures goOn <==> p.childRead.Data? && p.netWrite
    ensures goOn ==> r'.toNet == r.toNet + p.childRead.chunk
    ensures r'.aborts == if p.childRead.ReadError? then 1 else 0
    ensures !r'.clean <==> p.childRead.Data? && !p.netWrite
  {
    r', goOn := r, false;
    if p.childRead.ReadError? {
      r' := r'.(aborts := 1);
      return;
    }
    if p.childRead.EndOfFile? {
      return;
    }
    r' := r'.(fromChild := r.fromChild + p.childRead.chunk);
    if !p.netWrite {
      r' := r'.(clean := false);
      return;
    }
    r' := r'.(toNet := r.toNet + p.childRead.chunk);
    goOn := true;
  }

  /** A flag is set by a report and stays set. The client is asked for bytes only when the queue is
      empty. */
  predicate Latched(was: Flags, p: Poll, flushed: bool, now: Flags) {
    p.Ready? ==>
      && (now.readNet <==> was.readNet || (flushed && p.netIn)) && (now.writeNet <==> was.writeNet || p.netOut)
      && (now.readChild <==> was.readChild || p.childIn) && (now.writeChild <==> was.writeChild || p.childOut)
  }

  /** Everything a turn may try succeeds. */
  predicate Fair(p: Poll) {
    p.Ready? && p.childWrite && p.netRead.Data? && p.childRead.Data? && p.netWrite
  }

  /** What is passed on in a turn in which nothing fails: to the child as soon as it can be written
      to, whether or not it answers, and to the client as soon as an answer is there and the client
      can take it. The flags of what was done are cleared, the others kept. */
  predicate PassesOn(queue: seq<bytes>, r: Relayed, p: Poll, now: Flags, r': Relayed, flags: Flags)
    requires p.Ready? && p.netRead.Data? && p.childRead.Data? && r.passed <= |queue|
  {
    && r'.clean && r'.aborts == 0
    && (if now.writeChild && r.passed < |queue| then
          r'.passed == r.passed + 1 && r'.fromNet == r.fromNet && flags.writeChild == false && flags.readNet == now.readNet
        else if now.writeChild && now.readNet then
          r'.passed == r.passed && r'.fromNet == r.fromNet + p.netRead.chunk && flags.writeChild == flags.readNet == false
        else
          r'.passed == r.passed && r'.fromNet == r.fromNet && flags.writeChild == now.writeChild && flags.readNet == now.readNet)
    && (if now.readChild && now.writeNet then
          r'.fromChild == r.fromChild + p.childRead.chunk && flags.readChild == flags.writeNet == false
        else
          r'.fromChild == r.fromChild && flags.readChild == now.readChild && flags.writeNet == now.writeNet)
  }

  /** Why a turn is the last: a condition of poll(), a failed read or write, or an end of file. */
  predicate LastTurn(p: Poll, r: Relayed) {
    match p
    case Interrupted => r.aborts == 0 && r.clean
    case TooManyFds => r.aborts == 1 && r.clean
    case Ready(_, _, _, _, childWrite, netRead, childRead, netWrite) =>
      if r.aborts == 1 then (if r.clean then childRead.ReadError? else !childWrite)
      else if r.clean then !netRead.Data? || childRead.EndOfFile?
      else !netWrite
  }

  /** One turn of the poll loop. */
  method Turn(queue: seq<bytes>, r: Relayed, p: Poll, was: Flags) returns (r': Relayed, flags: Flags, goOn: bool)
    requires Conserves(queue, r) && r.clean && r.aborts == 0
    ensures Conserves(queue, r') && r'.aborts <= 1 && (goOn ==> p.Ready? && r'.clean && r'.aborts == 0)
    ensures !goOn ==> LastTurn(p, r')
    ensures Fair(p) ==>
              goOn && forall now: Flags :: Latched(was, p, r.passed == |queue|, now) ==> PassesOn(queue, r, p, now, r', flags)
    ensures p.Ready? && (was.writeChild || p.childOut) && r.passed < |queue| ==>
              r'.passed == r.passed + 1 && (p.childWrite ==> r'.toChild == r.toChild + queue[r.passed])
  {
    r', flags, goOn := r, was, false;
    if p.Interrupted? {
      return;
    }
    if p.TooManyFds? {
      r' := r.(aborts := 1);
      return;
    }
    var askNet := !was.readNet && r.passed == |queue|;
    flags := Flags(was.readNet || (askNet && p.netIn), was.writeNet || p.netOut, was.readChild || p.childIn, was.writeChild || p.childOut);

    if flags.writeChild {
      var fromQueue := r.passed < |queue|;
      var sent, ok;
      r', sent, ok := ToChild(queue, r, p, flags.readNet);
      if !ok {
        return;
      }
      flags := flags.(writeChild := !sent, readNet := flags.readNet && fromQueue);
    }

    if flags.readChild && flags.writeNet {
      var ok;
      r', ok := ToClient(queue, r', p);
      if !ok {
        return;
      }
      flags := flags.(readChild := false, writeNet := false);
    }
    goOn := true;
  }

  // What a relay delivers, read off the reports of poll().

  datatype Readiness = NetOut | ChildOut | NetIn | ChildIn

  predicate Reports(p: Poll, e: Readiness) {
    p.Ready? && match e { case NetOut => p.netOut case ChildOut => p.childOut case NetIn => p.netIn case ChildIn => p.childIn }
  }

  /** Reported in some turn from `from` up to, but without, `to`. */
  ghost predicate Seen(polls: seq<Poll>, e: Readiness, from: nat, to: nat)
    requires to <= |polls|
  {
    exists j :: from <= j < to && Reports(polls[j], e)
  }

  /** In how many of the first k turns the child could be written to. */
  function Outs(polls: seq<Poll>, k: nat): nat
    requires k <= |polls|
  {
    if k == 0 then 0 else Outs(polls, k - 1) + if Reports(polls[k - 1], ChildOut) then 1 else 0
  }

  /** Turn k passes on an answer: since the last one the child had output and the client had room. */
  ghost predicate Answers(polls: seq<Poll>, k: nat)
    requires k < |polls|
    decreases k, 1
  {
    Seen(polls, ChildIn, AnswerBase(polls, k), k + 1) && Seen(polls, NetOut, AnswerBase(polls, k), k + 1)
  }

  ghost function AnswerBase(polls: seq<Poll>, k: nat): nat
    requires k <= |polls|
    decreases k, 0
  {
    if k == 0 then 0 else if Answers(polls, k - 1) then k else AnswerBase(polls, k - 1)
  }

  /** Turn k passes on client bytes, n chunks being queued: since the queue was empty, and since the
      last time, the client had bytes and the child had room. */
  ghost predicate Forwards(polls: seq<Poll>, n: nat, k: nat)
    requires k < |polls|
    decreases k, 1
  {
    && n <= Outs(polls, k)
    && Seen(polls, ChildOut, ForwardBase(polls, n, k), k + 1) && Seen(polls, NetIn, ForwardBase(polls, n, k), k + 1)
  }

  ghost function ForwardBase(polls: seq<Poll>, n: nat, k: nat): nat
    requires k <= |polls|
    decreases k, 0
  {
    if k == 0 then 0
    else if Outs(polls, k - 1) < n || Forwards(polls, n, k - 1) then k
    else ForwardBase(polls, n, k - 1)
  }

  function NetChunk(p: Poll): bytes {
    if p.Ready? && p.netRead.Data? then p.netRead.chunk else []
  }

  function ChildChunk(p: Poll): bytes {
    if p.Ready? && p.childRead.Data? then p.childRead.chunk else []
  }

  ghost function Answered(polls: seq<Poll>, k: nat): bytes
    requires k <= |polls|
  {
    if k == 0 then [] else Answered(polls, k - 1) + if Answers(polls, k - 1) then ChildChunk(polls[k - 1]) else []
  }

  ghost function Forwarded(polls: seq<Poll>, n: nat, k: nat): bytes
    requires k <= |polls|
  {
    if k == 0 then [] else Forwarded(polls, n, k - 1) + if Forwards(polls, n, k - 1) then NetChunk(polls[k - 1]) else []
  }

  /** After k turns: a queued chunk for every turn in which the child could be written to, then client
      bytes, and every answer. */
  ghost predicate Delivered(queue: seq<bytes>, polls: seq<Poll>, k: nat, r: Relayed)
    requires k <= |polls|
  {
    && r.clean && r.aborts == 0
    && r.passed == (if Outs(polls, k) < |queue| then Outs(polls, k) else |queue|)
    && r.fromNet == Forwarded(polls, |queue|, k)
    && r.fromChild == Answered(polls, k)
  }

  /** The flags after k turns. */
  ghost predicate FlagsAt(polls: seq<Poll>, n: nat, k: nat, f: Flags)
    requires k <= |polls|
  {
    && (f.readChild <==> Seen(polls, ChildIn, AnswerBase(polls, k), k))
    && (f.writeNet <==> Seen(polls, NetOut, AnswerBase(polls, k), k))
    && (f.writeChild <==> Seen(polls, ChildOut, ForwardBase(polls, n, k), k))
    && (f.readNet <==> Seen(polls, NetIn, ForwardBase(polls, n, k), k))
  }

  lemma SeenNext(polls: seq<Poll>, e: Readiness, from: nat, k: nat)
    requires from <= k < |polls|
    ensures Seen(polls, e, from, k + 1) <==> Seen(polls, e, from, k) || Reports(polls[k], e)
    ensures !Seen(polls, e, k + 1, k + 1)
  {
    if Seen(polls, e, from, k) {
      var j :| from <= j < k && Reports(polls[j], e);
      assert from <= j < k + 1;
    }
  }

  lemma Bases(polls: seq<Poll>, n: nat, k: nat)
    requires k <= |polls|
    ensures AnswerBase(polls, k) <= k && ForwardBase(polls, n, k) <= k
    ensures Outs(polls, k) < n ==> ForwardBase(polls, n, k) == k
  {
    if k > 0 {
      Bases(polls, n, k - 1);
    }
  }

  /** The flags as poll() has left them in turn k. */
  ghost function FlagsIn(polls: seq<Poll>, n: nat, k: nat): Flags
    requires k < |polls|
  {
    Flags(n <= Outs(polls, k) && Seen(polls, NetIn, ForwardBase(polls, n, k), k + 1),
          Seen(polls, NetOut, AnswerBase(polls, k), k + 1),
          Seen(polls, ChildIn, AnswerBase(polls, k), k + 1),
          Seen(polls, ChildOut, ForwardBase(polls, n, k), k + 1))
  }

  lemma LatchedAt(polls: seq<Poll>, n: nat, k: nat, was: Flags)
    requires k < |polls| && FlagsAt(polls, n, k, was)
    ensures Latched(was, polls[k], n <= Outs(polls, k), FlagsIn(polls, n, k))
  {
    Bases(polls, n, k);
    SeenNext(polls, ChildIn, AnswerBase(polls, k), k);
    SeenNext(polls, NetOut, AnswerBase(polls, k), k);
    SeenNext(polls, ChildOut, ForwardBase(polls, n, k), k);
    SeenNext(polls, NetIn, ForwardBase(polls, n, k), k);
  }

  lemma TurnDelivers(queue: seq<bytes>, polls: seq<Poll>, k: nat, r: Relayed, r': Relayed, flags: Flags)
    requires k < |polls| && Fair(polls[k]) && Delivered(queue, polls, k, r)
    requires PassesOn(queue, r, polls[k], FlagsIn(polls, |queue|, k), r', flags)
    ensures Delivered(queue, polls, k + 1, r') && FlagsAt(polls, |queue|, k + 1, flags)
  {
    var n := |queue|;
    Bases(polls, n, k);
    SeenNext(polls, ChildIn, AnswerBase(polls, k), k);
    SeenNext(polls, NetOut, AnswerBase(polls, k), k);
    SeenNext(polls, ChildOut, ForwardBase(polls, n, k), k);
    SeenNext(polls, NetIn, ForwardBase(polls, n, k), k);
  }

  predicate AllFair(polls: seq<Poll>, k: nat)
    requires k <= |polls|
  {
    forall i :: 0 <= i < k ==> Fair(polls[i])
  }

  lemma NothingYet(queue: seq<bytes>, polls: seq<Poll>)
    ensures Delivered(queue, polls, 0, NOTHING) && FlagsAt(polls, |queue|, 0, NOT_READY) && Conserves(queue, NOTHING)
  {
    assert queue[..0] == [];
  }

  /** The relay: how many turns it takes, what it passes on, and why it ends. */
  method Run(queue: seq<bytes>, polls: seq<Poll>) returns (r: Relayed, turns: nat)
    ensures Conserves(queue, r) && r.aborts <= 1
    ensures turns <= |polls| && forall k :: 0 <= k < turns - 1 ==> polls[k].Ready?
    ensures (r.clean && r.aborts == 0 && turns == |polls|) || (turns > 0 && LastTurn(polls[turns - 1], r))
    ensures AllFair(polls, turns) ==> turns == |polls| && Delivered(queue, polls, turns, r)
  {
    hide Conserves, Delivered, FlagsAt, FlagsIn, Latched, PassesOn, LastTurn;
    r, turns := NOTHING, 0;
    var flags, goOn := NOT_READY, true;
    NothingYet(queue, polls);
    while turns < |polls|
      invariant turns <= |polls| && r.aborts == 0 && r.clean && Conserves(queue, r)
      invariant forall k :: 0 <= k < turns ==> polls[k].Ready?
      invariant AllFair(polls, turns) ==> Delivered(queue, polls, turns, r) && FlagsAt(polls, |queue|, turns, flags)
    {
      ghost var r0, was := r, flags;
      var p := polls[turns];
      r, flags, goOn := Turn(queue, r, p, flags);
      turns := turns + 1;
      if !goOn {
        return;
      }
      if AllFair(polls, turns) {
        FairTurn(queue, polls, turns - 1, r0, was, r, flags);
      }
    }
  }

  lemma FairTurn(queue: seq<bytes>, polls: seq<Poll>, k: nat, r: Relayed, was: Flags, r': Relayed, flags: Flags)
    requires k < |polls| && Fair(polls[k]) && Delivered(queue, polls, k, r) && FlagsAt(polls, |queue|, k, was)
    requires forall now: Flags :: Latched(was, polls[k], r.passed == |queue|, now) ==> PassesOn(queue, r, polls[k], now, r', flags)
    ensures Delivered(queue, polls, k + 1, r') && FlagsAt(polls, |queue|, k + 1, flags)
  {
    hide FlagsAt, FlagsIn, Latched, PassesOn;
    LatchedAt(polls, |queue|, k, was);
    TurnDelivers(queue, polls, k, r, r', flags);
  }
}
