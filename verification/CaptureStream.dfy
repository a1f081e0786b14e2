/** The capture loop of stream.c: every buffer index is with the driver, with the one running
    callback, or stranded; and, joined to the encoder hand-off, the encoder only ever reads
    the buffer the callback holds. */
module CaptureStream {
  import opened EncoderHandoff

  // ----- the ownership machine -----

  /** Where the stream thread is: about to test the start flag, in poll, about to test the flag
      again, about to dequeue, in the callback with a buffer, about to queue it again, or gone. */
  datatype Phase = Looping | Polling | Ready | Dequeuing | InCallback(index: nat) | Requeuing(index: nat) | Exited

  /** queued are the indices with the driver, outside those never given to it, and stranded those
      that were lost. */
  datatype Stream = Stream(
    count: nat, started: bool, phase: Phase, queued: set<nat>, outside: set<nat>, stranded: set<nat>, frames: nat)

  /** What the thread, the driver, the callback and streamStop do. */
  datatype Event =
    | LoopTest
    | PollFailed
    | Timeout
    | PolledReady
    | ReadyTest
    | DequeueFailed
    | Dequeued(index: nat)
    | CallbackReturned(ret: int)
    | Requeued(ret: int, newSecond: bool)
    | StopFlag

  /** The driver returns only an index it was given; the start flag can be cleared at any time. */
  predicate Possible(s: Stream, ev: Event) {
    match ev
    case LoopTest => s.phase == Looping
    case PollFailed => s.phase == Polling
    case Timeout => s.phase == Polling
    case PolledReady => s.phase == Polling
    case ReadyTest => s.phase == Ready
    case DequeueFailed => s.phase == Dequeuing
    case Dequeued(i) => s.phase == Dequeuing && i in s.queued
    case CallbackReturned(_) => s.phase.InCallback?
    case Requeued(_, _) => s.phase.Requeuing?
    case StopFlag => true
  }

  function After(s: Stream, ev: Event): Stream
    requires Possible(s, ev)
  {
    match ev
    case LoopTest => s.(phase := if s.started then Polling else Exited)
    case PollFailed => s.(phase := Exited)
    case Timeout => s.(phase := Looping)
    case PolledReady => s.(phase := Ready)
    case ReadyTest => s.(phase := if s.started then Dequeuing else Exited)
    case DequeueFailed => s.(phase := Exited)
    case Dequeued(i) => s.(phase := InCallback(i), queued := s.queued - {i})
    case CallbackReturned(ret) =>
      if ret != 0 then s.(phase := Exited, stranded := s.stranded + {s.phase.index})
      else s.(phase := Requeuing(s.phase.index))
    case Requeued(ret, newSecond) =>
      var i := s.phase.index;
      var frames := if newSecond then 0 else s.frames + 1;
      if ret == 0 then s.(phase := Looping, queued := s.queued + {i}, frames := frames)
      else s.(phase := Looping, stranded := s.stranded + {i}, frames := frames)
    case StopFlag => s.(started := false)
  }

  /** The stream thread has index i in hand. */
  predicate Holds(s: Stream, i: nat) {
    s.phase == InCallback(i) || s.phase == Requeuing(i)
  }

  /** In how many places index i is. */
  function Places(s: Stream, i: nat): nat {
    (if i in s.queued then 1 else 0) + (if i in s.outside then 1 else 0)
    + (if Holds(s, i) then 1 else 0) + (if i in s.stranded then 1 else 0)
  }

  /** Every index below the buffer count is in exactly one place, and no other index in any. */
  ghost predicate Partition(s: Stream) {
    forall i: nat :: Places(s, i) == if i < s.count then 1 else 0
  }

  lemma AfterPlaces(s: Stream, ev: Event, i: nat)
    requires Possible(s, ev) && Places(s, i) == (if i < s.count then 1 else 0)
    ensures Places(After(s, ev), i) == if i < After(s, ev).count then 1 else 0
  {
  }

  lemma AfterKeeps(s: Stream, ev: Event)
    requires Partition(s) && Possible(s, ev)
    ensures Partition(After(s, ev))
  {
    forall i: nat
      ensures Places(After(s, ev), i) == if i < After(s, ev).count then 1 else 0
    {
      AfterPlaces(s, ev, i);
    }
  }

  /** An index is stranded only by a failed requeue or by a callback that asks to stop, and
      then it never reaches the driver or a callback again. */
  lemma StrandedOnlyBy(s: Stream, ev: Event)
    requires Partition(s) && Possible(s, ev)
    ensures s.stranded <= After(s, ev).stranded && After(s, ev).outside == s.outside
    ensures After(s, ev).stranded != s.stranded <==>
            (ev.Requeued? && ev.ret != 0) || (ev.CallbackReturned? && ev.ret != 0)
  {
    if ev.Requeued? || ev.CallbackReturned? {
      assert Places(s, s.phase.index) <= 1;
    }
  }

  ghost predicate StreamRun(ss: seq<Stream>, evs: seq<Event>) {
    && |ss| == |evs| + 1
    && forall k {:trigger evs[k]} :: 0 <= k < |evs| ==> Possible(ss[k], evs[k]) && ss[k + 1] == After(ss[k], evs[k])
  }

  lemma {:induction false} OwnershipHolds(ss: seq<Stream>, evs: seq<Event>, n: nat)
    requires StreamRun(ss, evs) && n < |ss| && Partition(ss[0])
    ensures Partition(ss[n]) && ss[n].count == ss[0].count
  {
    if n > 0 {
      OwnershipHolds(ss, evs, n - 1);
      AfterKeeps(ss[n - 1], evs[n - 1]);
    }
  }

  // ----- when the thread leaves, and what it counts -----

  /** The thread leaves when it finds the start flag cleared, when poll or a dequeue fails, or when the
      callback asks to stop; and for no other reason. */
  lemma ExitedOnlyBy(s: Stream, ev: Event)
    requires Possible(s, ev)
    ensures After(s, ev).phase == Exited <==>
            || s.phase == Exited || ev == PollFailed || ev == DequeueFailed
            || ((ev == LoopTest || ev == ReadyTest) && !s.started)
            || (ev.CallbackReturned? && ev.ret != 0)
    ensures s.phase == Exited ==> ev == StopFlag
  {
  }

  function Dequeues(evs: seq<Event>): nat {
    if evs == [] then 0 else Dequeues(evs[..|evs| - 1]) + if evs[|evs| - 1].Dequeued? then 1 else 0
  }

  /** Frames handled: buffers queued again, or lost in trying. */
  function Requeues(evs: seq<Event>): nat {
    if evs == [] then 0 else Requeues(evs[..|evs| - 1]) + if evs[|evs| - 1].Requeued? then 1 else 0
  }

  function AboutToDequeue(s: Stream): nat {
    if s.phase == Dequeuing then 1 else 0
  }

  lemma StoppedStep(s: Stream, ev: Event)
    requires Possible(s, ev) && !s.started
    ensures !After(s, ev).started
    ensures AboutToDequeue(After(s, ev)) + (if ev.Dequeued? then 1 else 0) <= AboutToDequeue(s)
  {
  }

  lemma LastEvent(evs: seq<Event>, k: nat, n: nat)
    requires k < n <= |evs|
    ensures Dequeues(evs[k..n]) == Dequeues(evs[k..n - 1]) + if evs[n - 1].Dequeued? then 1 else 0
    ensures Requeues(evs[k..n]) == Requeues(evs[k..n - 1]) + if evs[n - 1].Requeued? then 1 else 0
  {
    assert evs[k..n][..n - k - 1] == evs[k..n - 1];
  }

  /** Once the start flag is cleared no buffer is taken from the driver any more, except one by a thread
      that had already passed its second test of the flag. */
  lemma {:induction false} AtMostOneMore(ss: seq<Stream>, evs: seq<Event>, k: nat, n: nat)
    requires StreamRun(ss, evs) && k <= n < |ss| && !ss[k].started
    ensures !ss[n].started && Dequeues(evs[k..n]) + AboutToDequeue(ss[n]) <= AboutToDequeue(ss[k])
  {
    if k < n {
      AtMostOneMore(ss, evs, k, n - 1);
      var ev := evs[n - 1];
      StoppedStep(ss[n - 1], ev);
      LastEvent(evs, k, n);
    }
  }

  lemma FramesStep(s: Stream, ev: Event)
    requires Possible(s, ev)
    ensures After(s, ev).frames == if !ev.Requeued? then s.frames else if ev.newSecond then 0 else s.frames + 1
  {
  }

  /** The frame count is the number of frames handled since the last one of a new second. */
  lemma {:induction false} FramesCounted(ss: seq<Stream>, evs: seq<Event>, m: nat, n: nat)
    requires StreamRun(ss, evs) && m < n < |ss| && evs[m].Requeued? && evs[m].newSecond
    requires forall k :: m < k < n && evs[k].Requeued? ==> !evs[k].newSecond
    ensures ss[n].frames == Requeues(evs[m + 1..n])
  {
    var ev := evs[n - 1];
    FramesStep(ss[n - 1], ev);
    if m + 1 == n {
      assert evs[m + 1..n] == [];
    } else {
      FramesCounted(ss, evs, m, n - 1);
      LastEvent(evs, m + 1, n);
    }
  }

  function Indices(n: nat): (r: set<nat>)
    ensures forall i :: i in r <==> 0 <= i < n
    ensures |r| == n
  {
    if n == 0 then {} else Indices(n - 1) + {n - 1}
  }

  /** What the thread has in hand. */
  function InHand(s: Stream): set<nat> {
    if s.phase.InCallback? || s.phase.Requeuing? then {s.phase.index} else {}
  }

  /** At every point of every run the buffers with the driver, the one in hand, the stranded ones
      and those never handed over add up to the buffer count. */
  lemma OwnershipCounts(ss: seq<Stream>, evs: seq<Event>, n: nat)
    requires StreamRun(ss, evs) && n < |ss| && Partition(ss[0])
    ensures var s := ss[n];
            |s.queued| + |s.outside| + |s.stranded| + |InHand(s)| == ss[0].count && |InHand(s)| <= 1
  {
    OwnershipHolds(ss, evs, n);
    PartitionSizes(ss[n]);
  }

  lemma PartitionSizes(s: Stream)
    requires Partition(s)
    ensures |s.queued| + |s.outside| + |s.stranded| + |InHand(s)| == s.count
  {
    var held := InHand(s);
    forall i: nat
      ensures i in s.queued || i in s.outside || i in held || i in s.stranded <==> i in Indices(s.count)
    {
      assert Places(s, i) == if i < s.count then 1 else 0;
    }
    assert s.queued + s.outside + held + s.stranded == Indices(s.count);
    PartitionApart(s);
    assert |s.queued + s.outside| == |s.queued| + |s.outside|;
    assert |(s.queued + s.outside) + held| == |s.queued + s.outside| + |held|;
    assert |((s.queued + s.outside) + held) + s.stranded| == |(s.queued + s.outside) + held| + |s.stranded|;
  }

  lemma PartitionApart(s: Stream)
    requires Partition(s)
    ensures s.queued !! s.outside && s.queued !! InHand(s) && s.queued !! s.stranded
    ensures s.outside !! InHand(s) && s.outside !! s.stranded && InHand(s) !! s.stranded
  {
    forall i: nat
      ensures !(i in s.queued && (i in s.outside || i in InHand(s) || i in s.stranded))
      ensures !(i in s.outside && (i in InHand(s) || i in s.stranded)) && !(i in InHand(s) && i in s.stranded)
    {
      assert Places(s, i) <= 1;
    }
  }

  // ----- the stream object -----

  /** What one pass of the loop meets, with the start flag set at its first test. `stop` says that
      the flag is cleared during the pass: in StoppedMeanwhile before the second test, in a Frame
      after it. */
  datatype Turn =
    | PollError
    | NothingReady(stop: bool)
    | StoppedMeanwhile
    | NoBuffer
    | Frame(index: nat, callbackRet: int, qbufRet: int, newSecond: bool, stop: bool)

  function StopIf(stop: bool): seq<Event> {
    if stop then [StopFlag] else []
  }

  /** The events of one pass. */
  function EventsOf(t: Turn): seq<Event> {
    match t
    case PollError => [LoopTest] + ([PollFailed] + [])
    case NothingReady(stop) => [LoopTest] + ([Timeout] + StopIf(stop))
    case StoppedMeanwhile => [LoopTest] + ([StopFlag] + ([PolledReady] + ([ReadyTest] + [])))
    case NoBuffer => [LoopTest] + ([PolledReady] + ([ReadyTest] + ([DequeueFailed] + [])))
    case Frame(i, c, q, n, stop) =>
      [LoopTest] + ([PolledReady] + ([ReadyTest] + ([Dequeued(i)] + ([CallbackReturned(c)] +
      if c != 0 then StopIf(stop) else [Requeued(q, n)] + StopIf(stop)))))
  }

  ghost predicate AllPossible(s: Stream, evs: seq<Event>)
    decreases |evs|
  {
    evs == [] || (Possible(s, evs[0]) && AllPossible(After(s, evs[0]), evs[1..]))
  }

  ghost function AfterAll(s: Stream, evs: seq<Event>): Stream
    requires AllPossible(s, evs)
    decreases |evs|
  {
    if evs == [] then s else AfterAll(After(s, evs[0]), evs[1..])
  }

  /** The passes of the loop up to the one that leaves it. */
  ghost predicate TurnsPossible(s: Stream, turns: seq<Turn>)
    decreases |turns|
  {
    turns == [] || s.phase == Exited || !s.started ||
    (AllPossible(s, EventsOf(turns[0])) && TurnsPossible(AfterAll(s, EventsOf(turns[0])), turns[1..]))
  }

  ghost function AfterTurns(s: Stream, turns: seq<Turn>): Stream
    requires TurnsPossible(s, turns)
    decreases |turns|
  {
    if s.phase == Exited then s
    else if !s.started then s.(phase := Exited)
    else if turns == [] then s
    else AfterTurns(AfterAll(s, EventsOf(turns[0])), turns[1..])
  }

  lemma AfterMore(s: Stream, a: Event, rest: seq<Event>)
    requires Possible(s, a)
    ensures AllPossible(s, [a] + rest) <==> AllPossible(After(s, a), rest)
    ensures AllPossible(s, [a] + rest) ==> AfterAll(s, [a] + rest) == AfterAll(After(s, a), rest)
  {
    assert ([a] + rest)[1..] == rest;
  }

  /** A pass is possible exactly when the driver has the index it returns. */
  predicate TurnPossible(s: Stream, t: Turn) {
    t.Frame? ==> t.index in s.queued
  }

  /** Where a pass ends. */
  function TurnResult(s: Stream, t: Turn): Stream {
    match t
    case PollError => s.(phase := Exited)
    case NothingReady(stop) => s.(started := s.started && !stop)
    case StoppedMeanwhile => s.(started := false, phase := Exited)
    case NoBuffer => s.(phase := Exited)
    case Frame(i, c, q, n, stop) =>
      var d := s.(started := s.started && !stop, queued := s.queued - {i});
      if c != 0 then d.(phase := Exited, stranded := s.stranded + {i})
      else
        var e := d.(frames := if n then 0 else s.frames + 1);
        if q == 0 then e.(queued := d.queued + {i}) else e.(stranded := s.stranded + {i})
  }

  lemma StopsAfter(s: Stream, stop: bool)
    ensures AllPossible(s, StopIf(stop)) && AfterAll(s, StopIf(stop)) == s.(started := s.started && !stop)
  {
    if stop { AfterMore(s, StopFlag, []); }
  }

  lemma FrameEnd(s: Stream, t: Turn)
    requires t.Frame? && s.started && s.phase == Dequeuing && t.index in s.queued
    ensures var tail := if t.callbackRet != 0 then StopIf(t.stop)
                        else [Requeued(t.qbufRet, t.newSecond)] + StopIf(t.stop);
            var evs := [Dequeued(t.index)] + ([CallbackReturned(t.callbackRet)] + tail);
            AllPossible(s, evs) && AfterAll(s, evs) == TurnResult(s.(phase := Looping), t)
  {
    var tail := if t.callbackRet != 0 then StopIf(t.stop) else [Requeued(t.qbufRet, t.newSecond)] + StopIf(t.stop);
    var d := After(s, Dequeued(t.index));
    var c := After(d, CallbackReturned(t.callbackRet));
    AfterMore(s, Dequeued(t.index), [CallbackReturned(t.callbackRet)] + tail);
    AfterMore(d, CallbackReturned(t.callbackRet), tail);
    if t.callbackRet != 0 {
      StopsAfter(c, t.stop);
    } else {
      AfterMore(c, Requeued(t.qbufRet, t.newSecond), StopIf(t.stop));
      StopsAfter(After(c, Requeued(t.qbufRet, t.newSecond)), t.stop);
    }
  }

  /** The events of a pass, one after the other, end where the pass does. */
  lemma TurnEnd(s: Stream, t: Turn)
    requires s.phase == Looping && s.started
    ensures AllPossible(s, EventsOf(t)) <==> TurnPossible(s, t)
    ensures TurnPossible(s, t) ==> AfterAll(s, EventsOf(t)) == TurnResult(s, t)
  {
    var p := After(s, LoopTest);
    match t {
      case PollError =>
        AfterMore(s, LoopTest, [PollFailed] + []);
        AfterMore(p, PollFailed, []);
      case NothingReady(stop) =>
        AfterMore(s, LoopTest, [Timeout] + StopIf(stop));
        AfterMore(p, Timeout, StopIf(stop));
        StopsAfter(After(p, Timeout), stop);
      case StoppedMeanwhile =>
        AfterMore(s, LoopTest, [StopFlag] + ([PolledReady] + ([ReadyTest] + [])));
        AfterMore(p, StopFlag, [PolledReady] + ([ReadyTest] + []));
        ReadyEnd(After(p, StopFlag), []);
      case NoBuffer =>
        AfterMore(s, LoopTest, [PolledReady] + ([ReadyTest] + ([DequeueFailed] + [])));
        ReadyEnd(p, [DequeueFailed] + []);
        AfterMore(p.(phase := Dequeuing), DequeueFailed, []);
      case Frame(i, c, q, n, stop) => FrameTurn(s, t);
    }
  }

  lemma ReadyEnd(p: Stream, rest: seq<Event>)
    requires p.phase == Polling
    ensures var d := p.(phase := if p.started then Dequeuing else Exited);
            var evs := [PolledReady] + ([ReadyTest] + rest);
            && (AllPossible(p, evs) <==> AllPossible(d, rest))
            && (AllPossible(p, evs) ==> AfterAll(p, evs) == AfterAll(d, rest))
  {
    AfterMore(p, PolledReady, [ReadyTest] + rest);
    AfterMore(After(p, PolledReady), ReadyTest, rest);
  }

  lemma FrameTurn(s: Stream, t: Turn)
    requires t.Frame? && s.phase == Looping && s.started
    ensures AllPossible(s, EventsOf(t)) <==> t.index in s.queued
    ensures t.index in s.queued ==> AfterAll(s, EventsOf(t)) == TurnResult(s, t)
  {
    var tail := if t.callbackRet != 0 then StopIf(t.stop) else [Requeued(t.qbufRet, t.newSecond)] + StopIf(t.stop);
    var rest := [Dequeued(t.index)] + ([CallbackReturned(t.callbackRet)] + tail);
    var p := After(s, LoopTest);
    AfterMore(s, LoopTest, [PolledReady] + ([ReadyTest] + rest));
    ReadyEnd(p, rest);
    if t.index in s.queued {
      FrameEnd(p.(phase := Dequeuing), t);
    }
  }

  /** The loop of streamSetBuffers: copy each entry and give its index to the driver. */
  method QueueAll<Buffer(0)>(granted: nat, table: array<Buffer>) returns (copy: array<Buffer>, ghost given: set<nat>)
    requires granted <= table.Length
    ensures fresh(copy) && copy[..] == table[..granted] && given == Indices(granted)
  {
    copy, given := new Buffer[granted], {};
    for i := 0 to granted
      invariant copy[..i] == table[..i]
      invariant given == Indices(i)
    {
      copy[i] := table[i];
      given := given + {i};
    }
  }

  /** The stream with that many new buffers, all with the driver or none. */
  function Granted(s: Stream, granted: nat, given: bool): Stream {
    var all := Indices(granted);
    s.(count := granted, queued := if given then all else {}, outside := if given then {} else all, stranded := {})
  }

  lemma GrantedInOnePlace(s: Stream, granted: nat, given: bool)
    ensures Partition(Granted(s, granted, given)) <==> InHand(s) == {}
  {
    var t := Granted(s, granted, given);
    if InHand(s) != {} {
      assert Places(t, s.phase.index) != if s.phase.index < granted then 1 else 0;
    }
  }

  class StreamObject<Buffer(0)> {
    var bufferCount: nat
    var started: bool
    var frames: nat
    var buffers: array<Buffer>
    ghost var phase: Phase
    ghost var queued: set<nat>
    ghost var outside: set<nat>
    ghost var stranded: set<nat>

    ghost function Now(): Stream
      reads this
    {
      Stream(bufferCount, started, phase, queued, outside, stranded, frames)
    }

    constructor ()
      ensures Now() == Stream(0, false, Looping, {}, {}, {}, 0) && Partition(Now())
    {
      bufferCount, started, frames := 0, false, 0;
      buffers := new Buffer[0];
      phase, queued, outside, stranded := Looping, {}, {}, {};
    }

    /** streamSetBuffers: with a table, copy each entry and give its index to the driver; without
        one, give it none. `granted` is the driver's answer to the buffer request.  Every index is
        then in one place exactly when the thread has no buffer in hand. */
    method SetBuffers(granted: nat, table: array?<Buffer>)
      requires table != null ==> granted <= table.Length
      modifies this
      ensures fresh(buffers) && buffers.Length == granted && (table != null ==> buffers[..] == table[..granted])
      ensures Now() == Granted(old(Now()), granted, table != null)
      ensures Partition(Now()) <==> InHand(old(Now())) == {}
    {
      if table == null {
        buffers := new Buffer[granted];
        queued, outside := {}, Indices(granted);
      } else {
        var copy, given := QueueAll(granted, table);
        buffers := copy;
        queued, outside := given, {};
      }
      bufferCount := granted;
      stranded := {};
      GrantedInOnePlace(old(Now()), granted, table != null);
    }

    /** Lines 95-118 with a buffer dequeued: run the callback, then queue the buffer again. */
    method HandleFrame(t: Turn) returns (again: bool)
      requires t.Frame? && phase == Looping && t.index in queued
      modifies this`started, this`frames, this`phase, this`queued, this`stranded
      ensures again == (t.callbackRet == 0) && Now() == TurnResult(old(Now()), t)
    {
      var idx := t.index;
      queued := queued - {idx};
      started := started && !t.stop;
      if t.callbackRet != 0 {
        phase, stranded := Exited, stranded + {idx};
        return false;
      }
      if t.qbufRet == 0 {
        queued := queued + {idx};
      } else {
        stranded := stranded + {idx};
      }
      frames := frames + 1;
      if t.newSecond {
        frames := 0;
      }
      return true;
    }

    /** One pass of the loop; false when the thread leaves it. */
    method Pass(turn: Turn) returns (again: bool)
      requires Partition(Now()) && phase == Looping && started && TurnPossible(Now(), turn)
      modifies this`started, this`frames, this`phase, this`queued, this`stranded
      ensures AllPossible(old(Now()), EventsOf(turn)) && Now() == AfterAll(old(Now()), EventsOf(turn))
      ensures Partition(Now()) && phase == if again then Looping else Exited
    {
      TurnEnd(Now(), turn);
      AllKeep(Now(), EventsOf(turn));
      match turn {
        case PollError =>
          phase := Exited;
          return false;
        case NothingReady(stop) =>
          started := started && !stop;
          return true;
        case StoppedMeanwhile =>
          started := false;
          phase := Exited;
          return false;
        case NoBuffer =>
          phase := Exited;
          return false;
        case Frame(_, _, _, _, _) =>
          again := HandleFrame(turn);
      }
    }

    /** streamThread, for as many passes as the turns given. */
    method StreamThread(turns: seq<Turn>)
      requires Partition(Now()) && phase == Looping && TurnsPossible(Now(), turns)
      modifies this`started, this`frames, this`phase, this`queued, this`stranded
      ensures Partition(Now()) && Now() == AfterTurns(old(Now()), turns)
    {
      var k, again := 0, true;
      while again && started && k < |turns|
        invariant k <= |turns| && Partition(Now()) && phase == if again then Looping else Exited
        invariant TurnsPossible(Now(), turns[k..])
        invariant AfterTurns(Now(), turns[k..]) == AfterTurns(old(Now()), turns)
        decreases |turns| - k
      {
        assert turns[k..][0] == turns[k] && turns[k..][1..] == turns[k + 1..];
        TurnEnd(Now(), turns[k]);
        again := Pass(turns[k]);
        k := k + 1;
      }
      if again && !started {
        AfterKeeps(Now(), LoopTest);
        phase := Exited;
      }
    }
  }

  lemma {:induction false} AllKeep(s: Stream, evs: seq<Event>)
    requires Partition(s) && AllPossible(s, evs)
    ensures Partition(AfterAll(s, evs))
    decreases |evs|
  {
    if evs != [] {
      AfterKeeps(s, evs[0]);
      AllKeep(After(s, evs[0]), evs[1..]);
    }
  }

  // ----- the stream feeding the encoder -----

  /** videoCallback hands the buffer it holds to GEncEncodeFrame once and returns after that
      call; `called` says the call was made for the present buffer. */
  datatype Pipeline = Pipeline(stream: Stream, enc: State, called: bool)

  datatype Move = StreamMove(ev: Event) | EncMove(step: Step)

  predicate CanMove(p: Pipeline, m: Move) {
    match m
    case StreamMove(ev) =>
      Possible(p.stream, ev) && (ev.CallbackReturned? ==> p.called && p.enc.pro == PIdle)
    case EncMove(step) =>
      Enabled(p.enc, step) && (step.Call? ==> p.stream.phase == InCallback(step.frame) && !p.called)
  }

  function MoveTo(p: Pipeline, m: Move): Pipeline
    requires CanMove(p, m)
  {
    match m
    case StreamMove(ev) => p.(stream := After(p.stream, ev), called := if ev.Dequeued? then false else p.called)
    case EncMove(step) => p.(enc := Do(p.enc, step), called := p.called || step.Call?)
  }

  ghost predicate PipeInv(p: Pipeline) {
    && Partition(p.stream) && Inv(p.enc)
    && (p.enc.pro != PIdle ==> p.called && p.stream.phase == InCallback(p.enc.cur))
  }

  lemma MoveKeeps(p: Pipeline, m: Move)
    requires PipeInv(p) && CanMove(p, m)
    ensures PipeInv(MoveTo(p, m))
  {
    match m {
      case StreamMove(ev) => AfterKeeps(p.stream, ev);
      case EncMove(step) =>
        StepKeeps(p.enc, step);
        if !step.Call? { CurFixed(p.enc, step); }
    }
  }

  lemma CurFixed(s: State, step: Step)
    requires Enabled(s, step) && !step.Call?
    ensures Do(s, step).cur == s.cur && (Do(s, step).pro != PIdle ==> s.pro != PIdle)
  {
  }

  ghost predicate PipeRun(ps: seq<Pipeline>, ms: seq<Move>) {
    && |ps| == |ms| + 1 && ps[0].enc == START && Partition(ps[0].stream)
    && forall k {:trigger ms[k]} :: 0 <= k < |ms| ==> CanMove(ps[k], ms[k]) && ps[k + 1] == MoveTo(ps[k], ms[k])
  }

  lemma {:induction false} PipeRunInv(ps: seq<Pipeline>, ms: seq<Move>, n: nat)
    requires PipeRun(ps, ms) && n < |ps|
    ensures PipeInv(ps[n])
  {
    if n > 0 {
      PipeRunInv(ps, ms, n - 1);
      MoveKeeps(ps[n - 1], ms[n - 1]);
    }
  }

  /** In every interleaving the frame in the hand-off, and so the buffer being encoded, is the
      one the callback holds: it is not with the driver and not stranded. */
  lemma EncoderReadsHeld(ps: seq<Pipeline>, ms: seq<Move>, n: nat)
    requires PipeRun(ps, ms) && n < |ps|
    ensures var p := ps[n];
            && (p.enc.enc == EEncode ==> p.enc.frame.Some?)
            && (p.enc.frame.Some? ==>
                  && p.stream.phase == InCallback(p.enc.frame.value)
                  && p.enc.frame.value !in p.stream.queued && p.enc.frame.value !in p.stream.stranded)
  {
    PipeRunInv(ps, ms, n);
    assert Places(ps[n].stream, ps[n].enc.cur) <= 1;
  }
}
