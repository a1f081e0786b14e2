/** The scaler library's session machine: handles that lock the one scaler, set formats and
    data, start and stop the streams. The driver's answers are arguments of the calls. */
module ScalerSession {
  import opened Common
  import opened ImageLayout

  const EBUSY := 16
  const EINVAL := 22
  const ETIMEDOUT := 110

  datatype State = Idle | Locked | Started

  datatype Flag = SrcFormat | SrcData | DstFormat | DstData | Streaming

  /** One handle: the fields of the library, and whether the driver streams its two queues. */
  datatype Session = Session(state: State, flags: set<Flag>, srcOn: bool, dstOn: bool)

  const FRESH := Session(Idle, {}, false, false)

  /** A format with the driver's answer to applying it, as scalerApplyFormat returns it. */
  datatype FormatTry = FormatTry(format: ImageFormat, applied: int)

  /** The answers of STREAMON(src), STREAMON(dst) and, after a failure, STREAMOFF(src). */
  datatype OnAnswers = OnAnswers(src: int, dst: int, undo: int)

  /** The answers of STREAMOFF and REQBUFS for src, then for dst. */
  datatype OffAnswers = OffAnswers(src: int, srcFree: int, dst: int, dstFree: int)

  /** The answers of poll and of DQBUF for dst, then for src. */
  datatype WaitAnswers = WaitAnswers(poll: int, dst: int, src: int)

  datatype Call =
    | SetCoeff(answer: int)
    | Lock(answer: int)
    | Unlock
    | SetImageFormat(src: Option<FormatTry>, dst: Option<FormatTry>)
    | SetImageData(srcQueued: Option<int>, dstQueued: Option<int>)
    | Run(on: OnAnswers)
    | WaitDone(wait: WaitAnswers)
    | RunSync(on: OnAnswers, wait: WaitAnswers)
    | Cancel
    | Stop(off: OffAnswers)
    | Close

  datatype Outcome = Outcome(s: Session, ret: int)

  // ----- the calls as functions -----

  function AfterSetCoeff(s: Session, answer: int): Outcome {
    match s.state
    case Idle => Outcome(s, -EINVAL)
    case Locked => Outcome(s, answer)
    case Started => Outcome(s, -EBUSY)
  }

  function AfterLock(s: Session, answer: int): Outcome {
    if s.state != Idle then Outcome(s, -EBUSY)
    else if answer == 0 then Outcome(s.(state := Locked), 0)
    else Outcome(s, 0)
  }

  function AfterUnlock(s: Session): Outcome {
    match s.state
    case Idle => Outcome(s, -EINVAL)
    case Locked => Outcome(s.(state := Idle), 0)
    case Started => Outcome(s, -EBUSY)
  }

  function AfterOneFormat(s: Session, t: Option<FormatTry>, isDst: bool): Outcome {
    if t.None? then Outcome(s, 0)
    else if !IsValidImageFormat(t.value.format, isDst) then Outcome(s, -EINVAL)
    else if t.value.applied == 0 then Outcome(s.(flags := s.flags + {if isDst then DstFormat else SrcFormat}), 0)
    else Outcome(s, 0)
  }

  function AfterSetImageFormat(s: Session, src: Option<FormatTry>, dst: Option<FormatTry>): Outcome {
    var first := AfterOneFormat(s, src, false);
    if first.ret < 0 then first else AfterOneFormat(first.s, dst, true)
  }

  function AfterOneData(s: Session, queued: Option<int>, isDst: bool): Outcome {
    if queued.None? then Outcome(s, 0)
    else if (if isDst then DstFormat else SrcFormat) !in s.flags then Outcome(s, -EINVAL)
    else if queued.value == 0 then Outcome(s.(flags := s.flags + {if isDst then DstData else SrcData}), 0)
    else Outcome(s, 0)
  }

  function AfterSetImageData(s: Session, src: Option<int>, dst: Option<int>): Outcome {
    var first := AfterOneData(s, src, false);
    if first.ret < 0 then first else AfterOneData(first.s, dst, true)
  }

  function AfterStartStreaming(s: Session, on: OnAnswers): Outcome {
    if Streaming in s.flags then Outcome(s, 0)
    else if on.src < 0 then Outcome(s, -1)
    else if on.dst < 0 then Outcome(s.(srcOn := on.undo < 0), -1)
    else Outcome(s.(srcOn := true, dstOn := true, flags := s.flags + {Streaming}), 0)
  }

  function AfterStop(s: Session, off: OffAnswers): Outcome {
    if Streaming !in s.flags then Outcome(s, 0)
    else match s.state
      case Idle => Outcome(s, 0)
      case Started => Outcome(s, -EBUSY)
      case Locked =>
        if off.src < 0 then Outcome(s, -1)
        else if off.srcFree < 0 || off.dst < 0 then Outcome(s.(srcOn := false), -1)
        else if off.dstFree < 0 then Outcome(s.(srcOn := false, dstOn := false), -1)
        else Outcome(s.(srcOn := false, dstOn := false, flags := s.flags - {Streaming}), 0)
  }

  const NEEDED: set<Flag> := {SrcFormat, DstFormat, SrcData, DstData}

  function AfterRun(s: Session, on: OnAnswers): Outcome {
    match s.state
    case Idle => Outcome(s, -EINVAL)
    case Started => Outcome(s, -EBUSY)
    case Locked =>
      if !(NEEDED <= s.flags) then Outcome(s, -EINVAL)
      else
        var started := AfterStartStreaming(s, on);
        if started.ret < 0 then Outcome(started.s, -EBUSY) else Outcome(started.s.(state := Started), 0)
  }

  function AfterWaitDone(s: Session, wait: WaitAnswers): Outcome {
    if s.state != Started then Outcome(s, -EINVAL)
    else if wait.poll == 0 then Outcome(s, -ETIMEDOUT)
    else if wait.poll < 0 then Outcome(s, wait.poll)
    else if wait.dst < 0 || wait.src < 0 then Outcome(s, -1)
    else Outcome(s.(state := Locked), 0)
  }

  function AfterRunSync(s: Session, on: OnAnswers, wait: WaitAnswers): Outcome {
    var run := AfterRun(s, on);
    if run.ret < 0 then run else AfterWaitDone(run.s, wait)
  }

  function AfterCancel(s: Session): Outcome {
    if s.state != Started then Outcome(s, -EINVAL) else Outcome(s.(state := Locked), 0)
  }

  function After(s: Session, c: Call): Outcome {
    match c
    case SetCoeff(answer) => AfterSetCoeff(s, answer)
    case Lock(answer) => AfterLock(s, answer)
    case Unlock => AfterUnlock(s)
    case SetImageFormat(src, dst) => AfterSetImageFormat(s, src, dst)
    case SetImageData(src, dst) => AfterSetImageData(s, src, dst)
    case Run(on) => AfterRun(s, on)
    case WaitDone(wait) => AfterWaitDone(s, wait)
    case RunSync(on, wait) => AfterRunSync(s, on, wait)
    case Cancel => AfterCancel(s)
    case Stop(off) => AfterStop(s, off)
    case Close => Outcome(AfterCancel(s).s, 0)
  }

  // ----- the flags of one handle -----

  /** Data only with its format; a started scaler streams with both formats and both data. */
  ghost predicate FlagsInOrder(s: Session) {
    && (SrcData in s.flags ==> SrcFormat in s.flags) && (DstData in s.flags ==> DstFormat in s.flags)
    && (s.state == Started ==> NEEDED <= s.flags && Streaming in s.flags)
  }

  /** The streaming flag tells the truth about both queues of the driver. */
  ghost predicate Coherent(s: Session) {
    s.srcOn == s.dstOn == (Streaming in s.flags)
  }

  lemma FormatsKept(s: Session, src: Option<FormatTry>, dst: Option<FormatTry>)
    requires FlagsInOrder(s)
    ensures FlagsInOrder(AfterSetImageFormat(s, src, dst).s) && s.flags <= AfterSetImageFormat(s, src, dst).s.flags
  {
  }

  lemma DataKept(s: Session, src: Option<int>, dst: Option<int>)
    requires FlagsInOrder(s)
    ensures FlagsInOrder(AfterSetImageData(s, src, dst).s) && s.flags <= AfterSetImageData(s, src, dst).s.flags
  {
  }

  lemma FlagsKept(s: Session, c: Call)
    requires FlagsInOrder(s)
    ensures FlagsInOrder(After(s, c).s)
    ensures s.flags - {Streaming} <= After(s, c).s.flags
  {
    match c {
      case SetImageFormat(src, dst) => FormatsKept(s, src, dst);
      case SetImageData(src, dst) => DataKept(s, src, dst);
      case _ =>
    }
  }

  /** STARTED is left only by a completed wait, a cancel or a close, and entered only by a run. */
  lemma StartedLeftOnlyBy(s: Session, c: Call)
    requires s.state == Started
    ensures After(s, c).s.state != Started <==>
            c == Cancel || c == Close || (c.WaitDone? && After(s, c).ret == 0)
    ensures After(s, c).s.state != Idle
  {
  }

  /** Idle is left only by a granted lock and entered only by an unlock. */
  lemma IdleLeftOnlyBy(s: Session, c: Call)
    ensures s.state == Idle ==> (After(s, c).s.state != Idle <==> c == Lock(0))
    ensures s.state != Idle ==> (After(s, c).s.state == Idle <==> c == Unlock && s.state == Locked)
  {
  }

  /** Lock reports success to every idle handle; it holds the scaler only when granted. */
  lemma LockReportsSuccess(s: Session, answer: int)
    ensures AfterLock(s, answer).ret == 0 <==> s.state == Idle
    ensures s.state == Idle ==> (AfterLock(s, answer).s.state == Locked <==> answer == 0)
  {
  }

  /** A run leaves the flag truthful, except exactly when src was switched on, dst failed and
      switching src off again failed. */
  lemma RunCoherentIff(s: Session, on: OnAnswers)
    requires Coherent(s) && s.state == Locked && NEEDED <= s.flags && Streaming !in s.flags
    ensures Coherent(AfterRun(s, on).s) <==> !(on.src >= 0 && on.dst < 0 && on.undo < 0)
  {
  }

  /** A stop of a locked, streaming scaler leaves the flag truthful exactly when its first
      ioctl fails or all four succeed. */
  lemma StopCoherentIff(s: Session, off: OffAnswers)
    requires Coherent(s) && s.state == Locked && Streaming in s.flags
    ensures Coherent(AfterStop(s, off).s) <==>
            off.src < 0 || (off.srcFree >= 0 && off.dst >= 0 && off.dstFree >= 0)
  {
  }

  /** After a stop that failed midway the scaler starts with its source queue off: the run asks
      the driver nothing. */
  lemma HalfStoppedRuns(s: Session, off: OffAnswers, on: OnAnswers)
    requires Coherent(s) && s.state == Locked && NEEDED <= s.flags && Streaming in s.flags
    requires off.src >= 0 && (off.srcFree < 0 || off.dst < 0 || off.dstFree < 0)
    ensures var stopped := AfterStop(s, off).s;
            AfterRun(stopped, on) == Outcome(stopped.(state := Started), 0) && !stopped.srcOn
  {
  }

  /** The call issues a coefficient ioctl. */
  predicate Asks(s: Session, c: Call) {
    c.SetCoeff? && s.state == Locked
  }

  /** The calls whose stream-off and buffer-release answers are successes. */
  predicate Clean(c: Call) {
    match c
    case Run(on) => on.undo >= 0
    case RunSync(on, _) => on.undo >= 0
    case Stop(off) => off.src >= 0 && off.srcFree >= 0 && off.dst >= 0 && off.dstFree >= 0
    case _ => true
  }

  lemma CoherenceKept(s: Session, c: Call)
    requires Coherent(s) && Clean(c)
    ensures Coherent(After(s, c).s)
  {
  }

  // ----- the library's methods -----

  class MScaler {
    var state: State
    var flags: set<Flag>
    ghost var srcOn: bool
    ghost var dstOn: bool

    ghost function Now(): Session
      reads this
    {
      Session(state, flags, srcOn, dstOn)
    }

    /** MScalerOpen. */
    constructor ()
      ensures Now() == FRESH
    {
      state, flags := Idle, {};
      srcOn, dstOn := false, false;
    }

    /** scalerSetCoeff; `asked` tells whether the ioctl was issued. */
    method SetCoeff(answer: int) returns (ret: int, asked: bool)
      ensures ret == AfterSetCoeff(Now(), answer).ret
      ensures asked <==> Asks(Now(), Call.SetCoeff(answer))
      ensures asked ==> ret == answer
    {
      match state {
        case Idle => return -EINVAL, false;
        case Locked =>
        case Started => return -EBUSY, false;
      }
      return answer, true;
    }

    method Lock(answer: int) returns (ret: int)
      modifies this`state
      ensures Outcome(Now(), ret) == AfterLock(old(Now()), answer)
    {
      match state {
        case Idle =>
        case Locked => return -EBUSY;
        case Started => return -EBUSY;
      }
      if answer == 0 {
        state := Locked;
      }
      return 0;
    }

    method Unlock() returns (ret: int)
      modifies this`state
      ensures Outcome(Now(), ret) == AfterUnlock(old(Now()))
    {
      match state {
        case Idle => return -EINVAL;
        case Locked =>
        case Started => return -EBUSY;
      }
      state := Idle;
      return 0;
    }

    method SetImageFormat(src: Option<FormatTry>, dst: Option<FormatTry>) returns (ret: int)
      modifies this`flags
      ensures Outcome(Now(), ret) == AfterSetImageFormat(old(Now()), src, dst)
    {
      if src.Some? {
        if !IsValidImageFormat(src.value.format, false) {
          return -EINVAL;
        }
        if src.value.applied == 0 {
          flags := flags + {SrcFormat};
        }
      }
      if dst.Some? {
        if !IsValidImageFormat(dst.value.format, true) {
          return -EINVAL;
        }
        if dst.value.applied == 0 {
          flags := flags + {DstFormat};
        }
      }
      return 0;
    }

    method SetImageData(src: Option<int>, dst: Option<int>) returns (ret: int)
      modifies this`flags
      ensures Outcome(Now(), ret) == AfterSetImageData(old(Now()), src, dst)
    {
      if src.Some? {
        if SrcFormat !in flags {
          return -EINVAL;
        }
        if src.value == 0 {
          flags := flags + {SrcData};
        }
      }
      if dst.Some? {
        if DstFormat !in flags {
          return -EINVAL;
        }
        if dst.value == 0 {
          flags := flags + {DstData};
        }
      }
      return 0;
    }

    method StartStreaming(on: OnAnswers) returns (ret: int)
      modifies this`flags, this`srcOn, this`dstOn
      ensures Outcome(Now(), ret) == AfterStartStreaming(old(Now()), on)
    {
      if Streaming in flags {
        return 0;
      }
      if on.src < 0 {
        return -1;
      }
      srcOn := true;
      if on.dst < 0 {
        if on.undo >= 0 {
          srcOn := false;
        }
        return -1;
      }
      dstOn := true;
      flags := flags + {Streaming};
      return 0;
    }

    method StopStreaming(off: OffAnswers) returns (ret: int)
      modifies this`flags, this`srcOn, this`dstOn
      ensures Outcome(Now(), ret) == AfterStop(old(Now()), off)
    {
      if Streaming !in flags {
        return 0;
      }
      match state {
        case Idle => return 0;
        case Locked =>
        case Started => return -EBUSY;
      }
      if off.src < 0 {
        return -1;
      }
      srcOn := false;
      if off.srcFree < 0 {
        return -1;
      }
      if off.dst < 0 {
        return -1;
      }
      dstOn := false;
      if off.dstFree < 0 {
        return -1;
      }
      flags := flags - {Streaming};
      return 0;
    }

    method Run(on: OnAnswers) returns (ret: int)
      modifies this
      ensures Outcome(Now(), ret) == AfterRun(old(Now()), on)
    {
      match state {
        case Idle => return -EINVAL;
        case Locked =>
        case Started => return -EBUSY;
      }
      if SrcFormat !in flags {
        return -EINVAL;
      }
      if DstFormat !in flags {
        return -EINVAL;
      }
      if SrcData !in flags {
        return -EINVAL;
      }
      if DstData !in flags {
        return -EINVAL;
      }
      var started := StartStreaming(on);
      if started < 0 {
        return -EBUSY;
      }
      state := Started;
      return 0;
    }

    method WaitDone(wait: WaitAnswers) returns (ret: int)
      modifies this`state
      ensures Outcome(Now(), ret) == AfterWaitDone(old(Now()), wait)
    {
      match state {
        case Idle => return -EINVAL;
        case Locked => return -EINVAL;
        case Started =>
      }
      ret := wait.poll;
      if ret > 0 {
        if wait.dst < 0 {
          return -1;
        }
        if wait.src < 0 {
          return -1;
        }
        state := Locked;
        ret := 0;
      } else if ret == 0 {
        ret := -ETIMEDOUT;
      }
    }

    method RunSync(on: OnAnswers, wait: WaitAnswers) returns (ret: int)
      modifies this
      ensures Outcome(Now(), ret) == AfterRunSync(old(Now()), on, wait)
    {
      ret := Run(on);
      if ret < 0 {
        return;
      }
      ret := WaitDone(wait);
    }

    method Cancel() returns (ret: int)
      modifies this`state
      ensures Outcome(Now(), ret) == AfterCancel(old(Now()))
    {
      match state {
        case Idle => return -EINVAL;
        case Locked => return -EINVAL;
        case Started =>
      }
      state := Locked;
      return 0;
    }

    /** MScalerClose, up to the close of the descriptor, which ends the handle. */
    method Close()
      modifies this`state
      ensures Now() == After(old(Now()), Call.Close).s && state != Started
    {
      var _ := Cancel();
    }
  }

  // ----- any number of handles against one driver lock -----

  /** The open handles, and the one the driver granted its lock. */
  datatype System = System(handles: map<nat, Session>, holder: Option<nat>)

  datatype Event = Open(id: nat) | Do(id: nat, call: Call)

  /** The lock is exclusive: the driver grants it only when nobody holds it. */
  ghost predicate Possible(y: System, e: Event) {
    match e
    case Open(id) => id !in y.handles
    case Do(id, c) => id in y.handles && (c == Lock(0) && y.handles[id].state == Idle ==> y.holder == None)
  }

  /** What the call makes of the driver's lock: an ioctl grants it, an ioctl or the close of the
      holder's descriptor releases it. */
  function HolderAfter(y: System, id: nat, c: Call): Option<nat>
    requires id in y.handles
  {
    if c == Lock(0) && y.handles[id].state == Idle then Some(id)
    else if c == Unlock && y.handles[id].state == Locked && y.holder == Some(id) then None
    else if c == Close && y.holder == Some(id) then None
    else y.holder
  }

  function Next(y: System, e: Event): System
    requires e.Do? ==> e.id in y.handles
  {
    match e
    case Open(id) => y.(handles := y.handles[id := FRESH])
    case Do(id, c) =>
      var s := After(y.handles[id], c).s;
      System(if c == Close then y.handles - {id} else y.handles[id := s], HolderAfter(y, id, c))
  }

  ghost predicate AllPossible(y: System, es: seq<Event>)
    decreases |es|
  {
    es == [] || (Possible(y, es[0]) && AllPossible(Next(y, es[0]), es[1..]))
  }

  function RunAll(y: System, es: seq<Event>): System
    requires AllPossible(y, es)
    decreases |es|
  {
    if es == [] then y else RunAll(Next(y, es[0]), es[1..])
  }

  const BOOT := System(map[], None)

  /** A handle is locked or started exactly when it holds the driver's lock. */
  ghost predicate Exclusive(y: System) {
    && (forall id :: id in y.handles ==> (y.handles[id].state != Idle <==> y.holder == Some(id)))
    && (y.holder.Some? ==> y.holder.value in y.handles)
  }

  ghost predicate InOrder(y: System) {
    forall id :: id in y.handles ==> FlagsInOrder(y.handles[id])
  }

  ghost predicate AllCoherent(y: System) {
    forall id :: id in y.handles ==> Coherent(y.handles[id])
  }

  predicate CleanEvent(e: Event) {
    e.Do? ==> Clean(e.call)
  }

  lemma ExclusiveKept(y: System, e: Event)
    requires Exclusive(y) && Possible(y, e)
    ensures Exclusive(Next(y, e))
  {
    if e.Do? {
      IdleLeftOnlyBy(y.handles[e.id], e.call);
    }
  }

  lemma OrderKept(y: System, e: Event)
    requires InOrder(y) && Possible(y, e)
    ensures InOrder(Next(y, e))
    ensures AllCoherent(y) && CleanEvent(e) ==> AllCoherent(Next(y, e))
  {
    if e.Do? {
      FlagsKept(y.handles[e.id], e.call);
      if AllCoherent(y) && CleanEvent(e) {
        CoherenceKept(y.handles[e.id], e.call);
      }
    }
  }

  lemma {:induction false} RunKeeps(y: System, es: seq<Event>)
    requires AllPossible(y, es) && Exclusive(y) && InOrder(y)
    ensures Exclusive(RunAll(y, es)) && InOrder(RunAll(y, es))
    ensures AllCoherent(y) && (forall i :: 0 <= i < |es| ==> CleanEvent(es[i])) ==> AllCoherent(RunAll(y, es))
    decreases |es|
  {
    if es != [] {
      ExclusiveKept(y, es[0]);
      OrderKept(y, es[0]);
      RunKeeps(Next(y, es[0]), es[1..]);
    }
  }

  /** Mutual exclusion over every run of any number of handles. */
  lemma AtMostOneHolds(es: seq<Event>, a: nat, b: nat)
    requires AllPossible(BOOT, es) && a in RunAll(BOOT, es).handles && b in RunAll(BOOT, es).handles
    requires RunAll(BOOT, es).handles[a].state != Idle && RunAll(BOOT, es).handles[b].state != Idle
    ensures a == b && RunAll(BOOT, es).holder == Some(a)
  {
    RunKeeps(BOOT, es);
  }

  lemma {:induction false} PrefixPossible(y: System, es: seq<Event>, i: nat)
    requires AllPossible(y, es) && i < |es|
    ensures AllPossible(y, es[..i]) && Possible(RunAll(y, es[..i]), es[i])
    decreases |es|
  {
    if i > 0 {
      PrefixPossible(Next(y, es[0]), es[1..], i - 1);
      assert es[..i][1..] == es[1..][..i - 1];
    }
  }

  /** In every run each coefficient call reaches the driver exactly when its handle holds the lock
      and is not running: so every coefficient ioctl comes from the holder. */
  lemma CoefficientsOnlyByHolder(es: seq<Event>, i: nat, id: nat, answer: int)
    requires AllPossible(BOOT, es) && i < |es| && es[i] == Do(id, SetCoeff(answer))
    ensures AllPossible(BOOT, es[..i]) && id in RunAll(BOOT, es[..i]).handles
    ensures var y := RunAll(BOOT, es[..i]);
            Asks(y.handles[id], es[i].call) <==> y.holder == Some(id) && y.handles[id].state != Started
  {
    PrefixPossible(BOOT, es, i);
    RunKeeps(BOOT, es[..i]);
  }

  /** The unlock ioctl, whose success the library asserts, is only issued by the holder, and it
      leaves the lock free. */
  lemma UnlockOnlyByHolder(es: seq<Event>, id: nat)
    requires AllPossible(BOOT, es) && id in RunAll(BOOT, es).handles && RunAll(BOOT, es).handles[id].state == Locked
    ensures RunAll(BOOT, es).holder == Some(id) && HolderAfter(RunAll(BOOT, es), id, Unlock) == None
  {
    RunKeeps(BOOT, es);
  }

  /** In every run whose stream-off and buffer-release ioctls succeed, the streaming flag of
      every handle is set exactly when both its queues are on; whatever they answer, a started
      handle has both formats, both data and the streaming flag. */
  lemma StreamingFlagTruthful(es: seq<Event>, id: nat)
    requires AllPossible(BOOT, es) && id in RunAll(BOOT, es).handles
    ensures FlagsInOrder(RunAll(BOOT, es).handles[id])
    ensures (forall i :: 0 <= i < |es| ==> CleanEvent(es[i])) ==> Coherent(RunAll(BOOT, es).handles[id])
  {
    RunKeeps(BOOT, es);
  }

  /** While one handle holds the scaler, another handle's lock still reports success, and the
      handle stays idle. */
  lemma SecondLockLies(es: seq<Event>, a: nat, b: nat, answer: int)
    requires AllPossible(BOOT, es) && a != b && b in RunAll(BOOT, es).handles && RunAll(BOOT, es).holder == Some(a)
    requires Possible(RunAll(BOOT, es), Do(b, Lock(answer)))
    ensures AfterLock(RunAll(BOOT, es).handles[b], answer) == Outcome(RunAll(BOOT, es).handles[b], 0)
    ensures RunAll(BOOT, es).handles[b].state == Idle
  {
    RunKeeps(BOOT, es);
  }

  // ----- a run to a half-stopped handle -----

  const IMAGE := ImageFormat(16, 2, NV12, Rect(0, 0, 16, 2))

  // Open, lock, formats, data, a run, a wait, and a stop whose buffer release fails.
  const HALF_STOP: seq<Event> := [
    Open(0), Do(0, Lock(0)),
    Do(0, SetImageFormat(Some(FormatTry(IMAGE, 0)), Some(FormatTry(IMAGE, 0)))),
    Do(0, SetImageData(Some(0), Some(0))),
    Do(0, Run(OnAnswers(0, 0, 0))), Do(0, WaitDone(WaitAnswers(1, 0, 0))),
    Do(0, Stop(OffAnswers(0, -1, 0, 0)))]

  /** The system whose only handle, 0, is s and holds the lock. */
  function Alone(s: Session): System {
    System(map[0 := s], Some(0))
  }

  lemma First(y: System, e: Event, next: System, es: seq<Event>)
    requires Possible(y, e) && Next(y, e) == next
    ensures AllPossible(y, [e] + es) <==> AllPossible(next, es)
    ensures AllPossible(next, es) ==> RunAll(y, [e] + es) == RunAll(next, es)
  {
    assert ([e] + es)[1..] == es;
  }

  lemma OneCall(s: Session, c: Call, t: Session, es: seq<Event>)
    requires c != Lock(0) && c != Unlock && c != Close && After(s, c).s == t
    ensures AllPossible(Alone(s), [Do(0, c)] + es) <==> AllPossible(Alone(t), es)
    ensures AllPossible(Alone(t), es) ==> RunAll(Alone(s), [Do(0, c)] + es) == RunAll(Alone(t), es)
  {
    assert map[0 := s][0 := t] == map[0 := t];
    First(Alone(s), Do(0, c), Alone(t), es);
  }

  lemma OpenAndLock(es: seq<Event>)
    ensures AllPossible(BOOT, [Open(0), Do(0, Lock(0))] + es) <==> AllPossible(Alone(FRESH.(state := Locked)), es)
    ensures AllPossible(Alone(FRESH.(state := Locked)), es) ==>
              RunAll(BOOT, [Open(0), Do(0, Lock(0))] + es) == RunAll(Alone(FRESH.(state := Locked)), es)
  {
    var first, locked := System(map[0 := FRESH], None), FRESH.(state := Locked);
    var rest := [Do(0, Lock(0))] + es;
    assert [Open(0), Do(0, Lock(0))] + es == [Open(0)] + rest;
    First(BOOT, Open(0), first, rest);
    assert map[0 := FRESH][0 := locked] == map[0 := locked];
    First(first, Do(0, Lock(0)), Alone(locked), es);
  }

  lemma SetUp(es: seq<Event>)
    ensures var ready := Session(Locked, NEEDED, false, false);
            && (AllPossible(BOOT, HALF_STOP[..4] + es) <==> AllPossible(Alone(ready), es))
            && (AllPossible(Alone(ready), es) ==> RunAll(BOOT, HALF_STOP[..4] + es) == RunAll(Alone(ready), es))
  {
    var formats := SetImageFormat(Some(FormatTry(IMAGE, 0)), Some(FormatTry(IMAGE, 0)));
    var data := SetImageData(Some(0), Some(0));
    var locked := FRESH.(state := Locked);
    var formatted := locked.(flags := {SrcFormat, DstFormat});
    var rest3 := [Do(0, data)] + es;
    var rest2 := [Do(0, formats)] + rest3;
    assert HALF_STOP[..4] + es == [Open(0), Do(0, Lock(0))] + rest2;
    OpenAndLock(rest2);
    OneCall(locked, formats, formatted, rest3);
    OneCall(formatted, data, Session(Locked, NEEDED, false, false), es);
  }

  const HALF_STOPPED := Session(Locked, NEEDED + {Streaming}, false, true)

  lemma RunAndHalfStop()
    ensures AllPossible(Alone(Session(Locked, NEEDED, false, false)), HALF_STOP[4..])
    ensures RunAll(Alone(Session(Locked, NEEDED, false, false)), HALF_STOP[4..]) == Alone(HALF_STOPPED)
  {
    var run, wait, stop := Run(OnAnswers(0, 0, 0)), WaitDone(WaitAnswers(1, 0, 0)), Stop(OffAnswers(0, -1, 0, 0));
    var ready := Session(Locked, NEEDED, false, false);
    var streaming := Session(Locked, NEEDED + {Streaming}, true, true);
    var rest2 := [Do(0, stop)] + [];
    var rest1 := [Do(0, wait)] + rest2;
    assert HALF_STOP[4..] == [Do(0, run)] + rest1;
    OneCall(ready, run, streaming.(state := Started), rest1);
    OneCall(streaming.(state := Started), wait, streaming, rest2);
    OneCall(streaming, stop, HALF_STOPPED, []);
  }

  lemma HalfStopRun()
    ensures AllPossible(BOOT, HALF_STOP) && RunAll(BOOT, HALF_STOP) == Alone(HALF_STOPPED)
  {
    SetUp(HALF_STOP[4..]);
    RunAndHalfStop();
    assert HALF_STOP[..4] + HALF_STOP[4..] == HALF_STOP;
  }

  /** Handle 0 after that run is locked with its streaming flag set and its source queue off, and
      the next run reports success. */
  lemma HalfStopReached(on: OnAnswers)
    ensures AllPossible(BOOT, HALF_STOP) && 0 in RunAll(BOOT, HALF_STOP).handles
    ensures var s := RunAll(BOOT, HALF_STOP).handles[0];
            s.state == Locked && Streaming in s.flags && !s.srcOn && AfterRun(s, on) == Outcome(s.(state := Started), 0)
  {
    HalfStopRun();
  }
}
