/** The asynchronous writer of internal/asyncbufio/asyncbufio.go: callers and writeLoop as one system
    of interleaved steps. */
module AsyncWriters {
  import opened Common
  import opened PacketBytes

  /** Where writeLoop is: in its select statement, inside flush (called to answer someone, and if so
      because the channel was closed, or by the ticker), about to signal flushComplete, or returned. */
  datatype Loop = Select | Flushing(reply: bool, last: bool) | Replying(last: bool) | Done

  /** Someone waiting for flushComplete: the bytes accepted before the call, whether the call is Close,
      and whether it came while no Flush was under way. */
  datatype Waiter = Waiter(before: seq<byte>, closing: bool, alone: bool)

  /** The state; `accepted` records what Write accepted so far. */
  datatype State = State(
    depth: nat, queue: seq<seq<byte>>,      // datachannel
    pending: seq<byte>, out: seq<byte>,     // in the buffered writer, and passed on by it
    loop: Loop, closed: bool,               // closed: flushNow is
    senders: seq<seq<byte>>,                // Flush calls not yet received, with the bytes accepted before
    waiters: seq<Waiter>, panicked: bool, accepted: seq<byte>)

  datatype Event =
    | Write(p: seq<byte>)
    | CallFlush | CallClose
    | Receive(passed: nat)                  // select takes data; the buffered writer passes on some bytes
    | Handover(i: nat)                      // select receives from flushNow
    | SeeClosed                             // select finds flushNow closed
    | Tick                                  // select takes the ticker
    | FlushReceive(passed: nat)             // flush takes data
    | FlushDone                             // flush finds the channel empty
    | Reply(i: nat)                         // flushComplete reaches a waiter, whose call returns

  function Initial(depth: nat): State {
    State(depth, [], [], [], Select, false, [], [], false, [])
  }

  predicate Enabled(s: State, e: Event) {
    && !s.panicked
    && match e
       case Write(_) => true
       case CallFlush => true
       case CallClose => true
       case Receive(passed) => s.loop == Select && s.queue != [] && passed <= |s.pending + s.queue[0]|
       case Handover(i) => s.loop == Select && i < |s.senders|
       case SeeClosed => s.loop == Select && s.closed
       case Tick => s.loop == Select
       case FlushReceive(passed) => s.loop.Flushing? && s.queue != [] && passed <= |s.pending + s.queue[0]|
       case FlushDone => s.loop.Flushing? && s.queue == []
       case Reply(i) => s.loop.Replying? && i < |s.waiters|
  }

  function Without<T>(s: seq<T>, i: nat): seq<T>
    requires i < |s|
  {
    s[..i] + s[i + 1..]
  }

  /** bufio.Writer.Write of the oldest data; how much it passes on depends on how full it is. */
  function TakeData(s: State, passed: nat): State
    requires s.queue != [] && passed <= |s.pending + s.queue[0]|
  {
    var all := s.pending + s.queue[0];
    s.(queue := s.queue[1..], out := s.out + all[..passed], pending := all[passed..])
  }

  function Apply(s: State, e: Event): State
    requires Enabled(s, e)
  {
    match e
    case Write(p) =>
      if |s.queue| < s.depth then s.(queue := s.queue + [p], accepted := s.accepted + p) else s
    case CallFlush =>
      if s.closed then s.(panicked := true) else s.(senders := s.senders + [s.accepted])
    case CallClose =>
      if s.closed || s.senders != [] then s.(panicked := true)
      else s.(closed := true, waiters := s.waiters + [Waiter(s.accepted, true, s.waiters == [])])
    case Receive(passed) => TakeData(s, passed)
    case Handover(i) =>
      s.(loop := Flushing(true, false), senders := Without(s.senders, i),
         waiters := s.waiters + [Waiter(s.senders[i], false, true)])
    case SeeClosed => s.(loop := Flushing(true, true))
    case Tick => s.(loop := Flushing(false, false))
    case FlushReceive(passed) => TakeData(s, passed)
    case FlushDone =>
      s.(out := s.out + s.pending, pending := [], loop := if s.loop.reply then Replying(s.loop.last) else Select)
    case Reply(i) =>
      s.(waiters := Without(s.waiters, i), loop := if s.loop.last then Done else Select)
  }

  // ---------------------------------------------------------------------------------------------
  // Runs

  predicate Possible(s: State, run: seq<Event>)
    decreases |run|, 0
  {
    run == [] || (Possible(s, run[..|run| - 1]) && Enabled(After(s, run[..|run| - 1]), run[|run| - 1]))
  }

  function After(s: State, run: seq<Event>): State
    requires Possible(s, run)
    decreases |run|, 1
  {
    if run == [] then s else Apply(After(s, run[..|run| - 1]), run[|run| - 1])
  }

  /** What is passed on, what the buffered writer holds and what is queued are the accepted bytes, in order. */
  ghost predicate Fifo(s: State) { s.out + s.pending + Flatten(s.queue) == s.accepted && |s.queue| <= s.depth }

  /** writeLoop is busy with a Flush call. */
  predicate AnswersFlush(l: Loop) {
    match l
    case Flushing(reply, last) => reply && !last
    case Replying(last) => !last
    case _ => false
  }

  /** How many calls are owed a signal. */
  function Due(s: State): nat {
    (if AnswersFlush(s.loop) then 1 else 0) + (if s.closed && s.loop != Done then 1 else 0)
  }

  ghost predicate Calls(s: State) {
    && |s.waiters| == Due(s)
    && (s.senders != [] ==> !s.closed)
    && ((s.loop.Flushing? || s.loop.Replying?) && s.loop.last ==> s.closed)
    && (s.loop.Flushing? && s.loop.last ==> s.loop.reply)
    && (s.loop == Done ==> s.closed)
  }

  /** Everyone who waits was promised bytes that are accepted, and whoever may be answered now has them,
      but for a Close that came in while a Flush was under way. */
  ghost predicate Promises(s: State) {
    && (forall i :: 0 <= i < |s.senders| ==> s.senders[i] <= s.accepted)
    && (forall i :: 0 <= i < |s.waiters| ==> s.waiters[i].before <= s.accepted)
    && (forall i :: 0 <= i < |s.waiters| && s.waiters[i].closing ==> s.closed)
    && (forall i :: 0 <= i < |s.waiters| && s.waiters[i].closing && s.waiters[i].alone ==>
          |s.waiters| == 1 && !AnswersFlush(s.loop))
    && (s.loop.Replying? ==> forall i :: 0 <= i < |s.waiters| && (!s.waiters[i].closing || s.loop.last) ==>
          s.waiters[i].before <= s.out)
  }

  ghost predicate Inv(s: State) { !s.panicked ==> Fifo(s) && Calls(s) && Promises(s) }

  lemma {:induction false} FlattenFront(h: seq<byte>, t: seq<seq<byte>>)
    ensures Flatten([h] + t) == h + Flatten(t)
  {
    var all := [h] + t;
    if t == [] {
      assert all[..|all| - 1] == [];
    } else {
      assert all[..|all| - 1] == [h] + t[..|t| - 1];
      FlattenFront(h, t[..|t| - 1]);
    }
  }

  lemma FlattenBack(q: seq<seq<byte>>, p: seq<byte>)
    ensures Flatten(q + [p]) == Flatten(q) + p
  {
    assert (q + [p])[..|q + [p]| - 1] == q;
  }

  lemma TakeKeepsFifo(s: State, passed: nat)
    requires Fifo(s) && s.queue != [] && passed <= |s.pending + s.queue[0]|
    ensures Fifo(TakeData(s, passed)) && s.out <= TakeData(s, passed).out
  {
    assert s.queue == [s.queue[0]] + s.queue[1..];
    FlattenFront(s.queue[0], s.queue[1..]);
    var all := s.pending + s.queue[0];
    assert all == all[..passed] + all[passed..];
  }

  lemma KeepsFifo(s: State, e: Event)
    requires Enabled(s, e) && Fifo(s)
    ensures Fifo(Apply(s, e)) && s.out <= Apply(s, e).out && s.accepted <= Apply(s, e).accepted
  {
    match e
    case Write(p) => FlattenBack(s.queue, p);
    case Receive(passed) => TakeKeepsFifo(s, passed);
    case FlushReceive(passed) => TakeKeepsFifo(s, passed);
    case _ =>
  }

  lemma KeepsCalls(s: State, e: Event)
    requires Enabled(s, e) && Calls(s) && !Apply(s, e).panicked
    ensures Calls(Apply(s, e))
  {
  }

  lemma KeepsPromises(s: State, e: Event)
    requires Enabled(s, e) && Fifo(s) && Calls(s) && Promises(s) && !Apply(s, e).panicked
    ensures Promises(Apply(s, e))
  {
    KeepsFifo(s, e);
    KeepsCalls(s, e);
  }

  lemma {:induction false} InvAlways(s: State, run: seq<Event>)
    requires Inv(s) && Possible(s, run)
    ensures Inv(After(s, run))
    ensures s.out <= After(s, run).out && s.accepted <= After(s, run).accepted
  {
    hide Fifo, Calls, Promises;
    if run != [] {
      var t, e := After(s, run[..|run| - 1]), run[|run| - 1];
      InvAlways(s, run[..|run| - 1]);
      KeepsFifo(t, e);
      if !Apply(t, e).panicked {
        KeepsCalls(t, e);
        KeepsPromises(t, e);
      }
    }
  }

  lemma InitialInv(depth: nat)
    ensures Inv(Initial(depth))
  {
  }

  /** A FIFO: in every interleaving, the bytes passed on, then those in the buffered writer, then those
      in the channel are the accepted bytes in the order they were accepted. */
  lemma FifoAlways(depth: nat, run: seq<Event>)
    requires Possible(Initial(depth), run) && !After(Initial(depth), run).panicked
    ensures var s := After(Initial(depth), run); s.out + s.pending + Flatten(s.queue) == s.accepted
  {
    InitialInv(depth);
    InvAlways(Initial(depth), run);
  }

  /** When Flush returns, and when a Close returns that was called with no Flush under way, every byte
      accepted before the call has been passed on. */
  lemma ReturnMeansDelivered(depth: nat, run: seq<Event>, i: nat)
    requires Possible(Initial(depth), run) && Enabled(After(Initial(depth), run), Reply(i))
    ensures var s := After(Initial(depth), run);
            && s.waiters[i].before <= s.accepted
            && (!s.waiters[i].closing || s.waiters[i].alone ==> s.waiters[i].before <= s.out)
  {
    InitialInv(depth);
    InvAlways(Initial(depth), run);
  }

  // ---------------------------------------------------------------------------------------------
  // Close together with Flush

  ghost predicate CloserSafe(s: State) {
    s.loop == Replying(false) ==>
      forall i :: 0 <= i < |s.waiters| && s.waiters[i].closing ==> s.waiters[i].before <= s.out
  }

  lemma {:induction false} CloserSafeAlways(s: State, run: seq<Event>)
    requires Inv(s) && !s.panicked && s.closed && CloserSafe(s) && Possible(s, run)
    ensures var t := After(s, run); !t.panicked ==> t.closed && CloserSafe(t)
  {
    hide Calls;
    if run != [] {
      var t, e := After(s, run[..|run| - 1]), run[|run| - 1];
      CloserSafeAlways(s, run[..|run| - 1]);
      InvAlways(s, run[..|run| - 1]);
      assert Calls(t);
      KeepsFifo(t, e);
      NoHandoverOnceClosed(t);
    }
  }

  lemma NoHandoverOnceClosed(s: State)
    requires Calls(s) && s.closed
    ensures s.senders == []
  {
  }

  /** A call to Close that returns although bytes accepted before it are not passed on. */
  ghost predicate ReturnsEarly(s: State, run: seq<Event>, i: nat) {
    && Possible(s, run) && Enabled(After(s, run), Reply(i))
    && (var w := After(s, run).waiters[i]; w.closing && !(w.before <= After(s, run).out))
  }

  /** Close can return before everything accepted is passed on exactly when it is called while writeLoop
      has emptied the channel for a Flush that has not returned yet, and more was accepted meanwhile. */
  lemma CloseReturnsEarlyExactly(depth: nat, past: seq<Event>)
    requires Possible(Initial(depth), past)
    requires var s := After(Initial(depth), past); !s.panicked && !s.closed && s.senders == []
    ensures var s := After(Initial(depth), past);
            (exists run, i :: ReturnsEarly(Apply(s, CallClose), run, i)) <==>
            s.loop == Replying(false) && s.out != s.accepted
  {
    hide Promises, Calls, Fifo;
    InitialInv(depth);
    InvAlways(Initial(depth), past);
    var s := After(Initial(depth), past);
    var t := Apply(s, CallClose);
    CloserAdded(s);
    if s.loop == Replying(false) && s.out != s.accepted {
      assert ReturnsEarly(t, [], |s.waiters|) by {
        FifoPrefix(s);
      }
    } else {
      forall run, i: nat ensures !ReturnsEarly(t, run, i) {
        if Possible(t, run) && Enabled(After(t, run), Reply(i)) {
          CloserSafeAlways(t, run);
          InvAlways(t, run);
          Answered(After(t, run), i);
        }
      }
    }
  }

  lemma FifoPrefix(s: State)
    requires Fifo(s)
    ensures s.accepted <= s.out ==> s.out == s.accepted
  {
  }

  lemma CloserAdded(s: State)
    requires Inv(s) && !s.panicked && !s.closed && s.senders == []
    ensures Inv(Apply(s, CallClose))
    ensures !(s.loop == Replying(false) && s.out != s.accepted) ==> CloserSafe(Apply(s, CallClose))
  {
    KeepsFifo(s, CallClose);
    KeepsCalls(s, CallClose);
    KeepsPromises(s, CallClose);
  }

  lemma Answered(s: State, i: nat)
    requires Promises(s) && CloserSafe(s) && Enabled(s, Reply(i))
    ensures s.waiters[i].closing ==> s.waiters[i].before <= s.out
  {
  }

  /** Such a state can come about. */
  lemma FlushAndCloseRace(p: seq<byte>)
    requires p != []
    ensures var run := [CallFlush, Handover(0), FlushDone, Write(p)];
            && Possible(Initial(1), run)
            && (var s := After(Initial(1), run);
                s.loop == Replying(false) && s.out == [] && s.accepted == p && !s.closed && s.senders == [])
  {
    var s0 := Initial(1);
    var run := [CallFlush, Handover(0), FlushDone, Write(p)];
    assert run[..3] == [CallFlush, Handover(0), FlushDone] && run[..3][..2] == [CallFlush, Handover(0)];
    assert [CallFlush, Handover(0)][..1] == [CallFlush] && [CallFlush][..0] == [];
    assert After(s0, [CallFlush]) == s0.(senders := [[]]);
    assert Possible(s0, [CallFlush, Handover(0)]);
    assert Possible(s0, [CallFlush, Handover(0), FlushDone]);
  }

  // ---------------------------------------------------------------------------------------------
  // No call waits in vain; what is written after Close

  /** As long as a call waits, writeLoop can take a step towards answering one. */
  lemma NoDeadlock(depth: nat, run: seq<Event>)
    requires Possible(Initial(depth), run)
    requires var s := After(Initial(depth), run); !s.panicked && (s.waiters != [] || s.senders != [])
    ensures var s := After(Initial(depth), run);
            || Enabled(s, Handover(0)) || Enabled(s, SeeClosed)
            || Enabled(s, FlushReceive(0)) || Enabled(s, FlushDone) || Enabled(s, Reply(0))
  {
    InitialInv(depth);
    InvAlways(Initial(depth), run);
  }

  /** Once writeLoop has returned, Write still accepts data while there is room, but nothing is ever
      passed on again. */
  lemma {:induction false} LostAfterClose(s: State, run: seq<Event>)
    requires s.loop == Done && Possible(s, run)
    ensures var t := After(s, run); t.loop == Done && t.out == s.out && t.pending == s.pending && s.queue <= t.queue
    ensures !s.panicked && |s.queue| < s.depth ==>
              forall p :: Enabled(s, Write(p)) && Apply(s, Write(p)).accepted == s.accepted + p
  {
    if run != [] {
      LostAfterClose(s, run[..|run| - 1]);
    }
  }

  // ---------------------------------------------------------------------------------------------
  // The data side of the writer

  class Writer {
    const depth: nat
    var datachannel: seq<seq<byte>>
    var pending: seq<byte>
    var out: seq<byte>

    /** The state with these contents, the other parts as in s. */
    ghost function In(s: State): State
      reads this
    {
      s.(depth := depth, queue := datachannel, pending := pending, out := out)
    }

    constructor (depth: nat)
      ensures this.depth == depth && In(Initial(depth)) == Initial(depth)
    {
      this.depth := depth;
      datachannel, pending, out := [], [], [];
    }

    /** Write accepts all of p or nothing: the Write step of the system, whatever the rest of the state. */
    method Write(p: seq<byte>, ghost s: State) returns (n: nat, shortWrite: bool)
      requires !s.panicked && In(s) == s
      modifies this`datachannel
      ensures shortWrite <==> |old(datachannel)| >= depth
      ensures n == if shortWrite then 0 else |p|
      ensures var t := Apply(s, Event.Write(p));
              In(t) == t && t.accepted == s.accepted + if shortWrite then [] else p
    {
      if |datachannel| < depth {
        datachannel := datachannel + [p];
        return |p|, false;
      }
      assert s.accepted + [] == s.accepted;
      return 0, true;
    }

    /** One piece of data into the buffered writer, which may pass on any part of what it holds. */
    method Take()
      requires datachannel != []
      modifies this`datachannel, this`pending, this`out
      ensures datachannel == old(datachannel)[1..]
      ensures out + pending == old(out) + old(pending) + old(datachannel)[0]
    {
      var all := pending + datachannel[0];
      datachannel := datachannel[1..];
      var passed :| 0 <= passed <= |all|;
      out, pending := out + all[..passed], all[passed..];
      assert all[..passed] + all[passed..] == all;
    }

    /** flush, with no Write in between: everything queued is passed on, in order. */
    method Flush()
      modifies this`datachannel, this`pending, this`out
      ensures datachannel == [] && pending == []
      ensures out == old(out) + old(pending) + Flatten(old(datachannel))
    {
      ghost var all := out + pending + Flatten(datachannel);
      while |datachannel| > 0
        invariant out + pending + Flatten(datachannel) == all
        decreases |datachannel|
      {
        assert datachannel == [datachannel[0]] + datachannel[1..];
        FlattenFront(datachannel[0], datachannel[1..]);
        Take();
      }
      assert Flatten(datachannel) == [] && out + pending + [] == out + pending;
      out, pending := out + pending, [];
    }
  }
}
