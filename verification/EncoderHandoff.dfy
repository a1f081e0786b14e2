/** The frame hand-off of vid-enc.c: one producer in GEncEncodeFrame, the encoder thread and one
    caller of stopEncoderThread, sharing a mutex and a condition variable.  One step is one
    statement of one thread; a thread in pthread_cond_wait has released the lock and sleeps
    until a broadcast or a spurious wakeup, and then has to take the lock again. */
module EncoderHandoff {
  import opened Common

  datatype Thread = Encoder | Producer | Stopper

  /** encoderThreadSync, lines 111-132. */
  datatype EncPc =
    | ELock | EWhile | EAsleep | EWoken | ETest | EEncode | EClear | EBroadcast | EUnlock | EStopUnlock | EDone

  /** GEncEncodeFrame, lines 250-261; PIdle is between calls. */
  datatype ProPc = PIdle | PLock | PPut | PBroadcast | PWhile | PAsleep | PWoken | PCheck | PUnlock

  /** stopEncoderThread, lines 149-155. */
  datatype StpPc = SIdle | SLock | SSet | SBroadcast | SUnlock | SJoin | SDone

  /** lock, frame and stopRequest are the shared fields; cur is the frame of the call in
      progress; log lists the encoded frames, begun and done the calls entered and returned;
      failed is set when an ASSERT fires. */
  datatype State = State(
    lock: Option<Thread>, frame: Option<nat>, stop: bool,
    enc: EncPc, pro: ProPc, stp: StpPc,
    cur: nat, log: seq<nat>, frameCount: nat, begun: seq<nat>, done: seq<nat>, failed: bool)

  const START := State(None, None, false, ELock, PIdle, SIdle, 0, [], 0, [], [], false)

  datatype Step = Enc | Pro | Stp | Call(frame: nat) | Stop | WakeEnc | WakePro

  // ----- the steps -----

  /** A thread can take its next step; Call and Stop start a call, WakeEnc and WakePro are
      spurious wakeups. */
  predicate Enabled(s: State, step: Step) {
    match step
    case Enc => if s.enc == ELock || s.enc == EWoken then s.lock.None? else s.enc != EAsleep && s.enc != EDone
    case Pro => if s.pro == PLock || s.pro == PWoken then s.lock.None? else s.pro != PAsleep && s.pro != PIdle
    case Stp =>
      if s.stp == SLock then s.lock.None?
      else if s.stp == SJoin then s.enc == EDone
      else s.stp != SIdle && s.stp != SDone
    case Call(_) => s.pro == PIdle
    case Stop => s.stp == SIdle
    case WakeEnc => s.enc == EAsleep
    case WakePro => s.pro == PAsleep
  }

  function Broadcast(s: State): State {
    s.(enc := if s.enc == EAsleep then EWoken else s.enc, pro := if s.pro == PAsleep then PWoken else s.pro)
  }

  function EncStep(s: State): State {
    match s.enc
    case ELock => s.(lock := Some(Encoder), enc := EWhile)
    case EWoken => s.(lock := Some(Encoder), enc := EWhile)
    case EWhile => if s.frame.None? && !s.stop then s.(lock := None, enc := EAsleep) else s.(enc := ETest)
    case ETest => if s.stop then s.(enc := EStopUnlock) else s.(enc := EEncode, failed := s.failed || s.frame.None?)
    case EEncode =>
      s.(enc := EClear, frameCount := (s.frameCount + 1) % WORD,
         log := if s.frame.Some? then s.log + [s.frame.value] else s.log, failed := s.failed || s.frame.None?)
    case EClear => s.(enc := EBroadcast, frame := None)
    case EBroadcast => Broadcast(s.(enc := EUnlock))
    case EUnlock => s.(enc := ELock, lock := None)
    case EStopUnlock => s.(enc := EDone, lock := None)
    case EAsleep => s
    case EDone => s
  }

  function ProStep(s: State): State {
    match s.pro
    case PLock => s.(lock := Some(Producer), pro := PPut)
    case PPut => s.(pro := PBroadcast, frame := Some(s.cur), failed := s.failed || s.frame.Some?)
    case PBroadcast => Broadcast(s.(pro := PWhile))
    case PWhile => if s.frame.Some? then s.(lock := None, pro := PAsleep) else s.(pro := PCheck)
    case PWoken => s.(lock := Some(Producer), pro := PWhile)
    case PCheck => s.(pro := PUnlock, failed := s.failed || s.frame.Some?)
    case PUnlock => s.(lock := None, pro := PIdle, done := s.done + [s.cur])
    case PAsleep => s
    case PIdle => s
  }

  function StpStep(s: State): State {
    match s.stp
    case SLock => s.(lock := Some(Stopper), stp := SSet)
    case SSet => s.(stop := true, stp := SBroadcast)
    case SBroadcast => Broadcast(s.(stp := SUnlock))
    case SUnlock => s.(lock := None, stp := SJoin)
    case SJoin => s.(stp := SDone)
    case SIdle => s
    case SDone => s
  }

  function Do(s: State, step: Step): State {
    match step
    case Enc => EncStep(s)
    case Pro => ProStep(s)
    case Stp => StpStep(s)
    case Call(f) => s.(pro := PLock, cur := f, begun := s.begun + [f])
    case Stop => s.(stp := SLock)
    case WakeEnc => s.(enc := EWoken)
    case WakePro => s.(pro := PWoken)
  }

  /** The states of a run. */
  ghost predicate Run(ss: seq<State>, steps: seq<Step>) {
    && |ss| == |steps| + 1
    && forall i {:trigger steps[i]} :: 0 <= i < |steps| ==> Enabled(ss[i], steps[i]) && ss[i + 1] == Do(ss[i], steps[i])
  }

  lemma RunStep(ss: seq<State>, steps: seq<Step>, i: nat)
    requires Run(ss, steps) && i < |steps|
    ensures Enabled(ss[i], steps[i]) && ss[i + 1] == Do(ss[i], steps[i])
  {
  }

  // ----- the invariant -----

  predicate EncHolds(e: EncPc) {
    e !in {ELock, EAsleep, EWoken, EDone}
  }

  predicate ProHolds(p: ProPc) {
    p in {PPut, PBroadcast, PWhile, PCheck, PUnlock}
  }

  predicate StpHolds(t: StpPc) {
    t in {SSet, SBroadcast, SUnlock}
  }

  ghost predicate LockInv(s: State) {
    && (EncHolds(s.enc) <==> s.lock == Some(Encoder))
    && (ProHolds(s.pro) <==> s.lock == Some(Producer))
    && (StpHolds(s.stp) <==> s.lock == Some(Stopper))
  }

  /** Where each thread may be while a frame is pending and while none is. */
  ghost predicate FrameInv(s: State) {
    && (s.frame.Some? ==> s.frame.value == s.cur && s.pro in {PBroadcast, PWhile, PAsleep, PWoken})
    && (s.pro == PBroadcast ==> s.frame.Some?)
    && (s.enc in {EEncode, EClear} ==> s.frame.Some?)
    && (s.enc == ETest ==> s.frame.Some? || s.stop)
    && (s.enc in {EBroadcast, EUnlock} ==> s.frame.None?)
    && (s.stop <==> s.stp in {SBroadcast, SUnlock, SJoin, SDone})
    && (s.enc in {EStopUnlock, EDone} ==> s.stop)
    && (s.stp == SDone ==> s.enc == EDone)
  }

  /** A sleeper sleeps for a reason, unless the thread that removed the reason is just about
      to broadcast. */
  ghost predicate SleepInv(s: State) {
    && (s.enc == EAsleep ==> (s.frame.Some? ==> s.pro == PBroadcast) && (s.stop ==> s.stp == SBroadcast))
    && (s.pro == PAsleep ==> s.frame.Some? || s.enc == EBroadcast)
  }

  /** The frame of the call in progress has been encoded. */
  predicate Encoded(s: State) {
    s.enc == EClear || (s.frame.None? && s.pro in {PWhile, PAsleep, PWoken, PCheck, PUnlock})
  }

  ghost predicate LogInv(s: State) {
    && s.log == (if Encoded(s) then s.done + [s.cur] else s.done)
    && s.begun == (if s.pro != PIdle then s.done + [s.cur] else s.done)
    && s.frameCount == |s.log| % WORD
  }

  ghost predicate Inv(s: State) {
    LockInv(s) && FrameInv(s) && SleepInv(s) && LogInv(s) && !s.failed
  }

  lemma EncKeepsControl(s: State)
    requires Inv(s) && Enabled(s, Enc)
    ensures LockInv(EncStep(s)) && FrameInv(EncStep(s)) && SleepInv(EncStep(s))
  {
  }

  lemma EncKeepsLog(s: State)
    requires Inv(s) && Enabled(s, Enc)
    ensures LogInv(EncStep(s)) && !EncStep(s).failed
  {
  }

  lemma ProKeeps(s: State)
    requires Inv(s) && Enabled(s, Pro)
    ensures Inv(ProStep(s))
  {
  }

  lemma StpKeeps(s: State)
    requires Inv(s) && Enabled(s, Stp)
    ensures Inv(StpStep(s))
  {
  }

  lemma StepKeeps(s: State, step: Step)
    requires Inv(s) && Enabled(s, step)
    ensures Inv(Do(s, step))
  {
    match step {
      case Enc =>
        EncKeepsControl(s);
        EncKeepsLog(s);
      case Pro => ProKeeps(s);
      case Stp => StpKeeps(s);
      case _ =>
    }
  }

  lemma {:induction false} RunInv(ss: seq<State>, steps: seq<Step>, n: nat)
    requires Run(ss, steps) && ss[0] == START && n < |ss|
    ensures Inv(ss[n])
  {
    if n > 0 {
      RunInv(ss, steps, n - 1);
      StepKeeps(ss[n - 1], steps[n - 1]);
    }
  }

  // ----- what it means -----

  /** No lost wakeup: with the lock free, a sleeping encoder means no frame and no stop
      request, and a sleeping producer means its frame is pending; they never both sleep; and
      while a call is in progress, before any stop request, one of the two can step. */
  lemma NoLostWakeup(ss: seq<State>, steps: seq<Step>, n: nat)
    requires Run(ss, steps) && ss[0] == START && n < |ss|
    ensures var s := ss[n];
            && (s.lock.None? && s.enc == EAsleep ==> s.frame.None? && !s.stop)
            && (s.lock.None? && s.pro == PAsleep ==> s.frame == Some(s.cur))
            && !(s.enc == EAsleep && s.pro == PAsleep)
            && (s.stp == SIdle && s.pro != PIdle ==> Enabled(s, Enc) || Enabled(s, Pro))
  {
    RunInv(ss, steps, n);
    match ss[n].lock {
      case None =>
      case Some(Encoder) =>
      case Some(Producer) =>
      case Some(Stopper) =>
    }
  }

  /** Every frame is encoded exactly once, in call order; the asserts at lines 121, 252 and 259
      never fire; the counter is the length of the log in 32 bits. */
  lemma ExactlyOnce(ss: seq<State>, steps: seq<Step>, n: nat)
    requires Run(ss, steps) && ss[0] == START && n < |ss|
    ensures var s := ss[n];
            && s.done <= s.log <= s.begun && |s.begun| <= |s.done| + 1
            && (s.pro == PIdle ==> s.log == s.done == s.begun)
            && s.frameCount == |s.log| % WORD && !s.failed
  {
    RunInv(ss, steps, n);
    var s := ss[n];
    assert s.log == s.begun || s.log == s.done;
  }

  lemma StopSticks(s: State, step: Step)
    requires s.enc in {EStopUnlock, EDone} && Enabled(s, step)
    ensures Do(s, step).enc in {EStopUnlock, EDone} && Do(s, step).log == s.log
  {
  }

  /** Once the encoder has seen the stop request it encodes nothing more. */
  lemma {:induction false} NothingAfterStop(ss: seq<State>, steps: seq<Step>, m: nat, n: nat)
    requires Run(ss, steps) && m <= n < |ss| && ss[m].enc in {EStopUnlock, EDone}
    ensures ss[n].enc in {EStopUnlock, EDone} && ss[n].log == ss[m].log
  {
    if m < n {
      NothingAfterStop(ss, steps, m, n - 1);
      StopSticks(ss[n - 1], steps[n - 1]);
    }
  }

  // ----- a call ends, or the stop request came first -----

  /** The encoder has left and the frame is still there. */
  ghost predicate Stranded(s: State) {
    s.enc in {EStopUnlock, EDone} && s.frame.Some?
  }

  lemma StrandedStep(s: State, step: Step)
    requires Inv(s) && Stranded(s) && Enabled(s, step)
    ensures Stranded(Do(s, step)) && Do(s, step).done == s.done && Do(s, step).pro != PIdle
  {
  }

  lemma StrandedNext(s: State)
    requires Inv(s) && Stranded(s)
    ensures forall step :: Enabled(s, step) ==>
              Stranded(Do(s, step)) && Do(s, step).done == s.done && Do(s, step).pro != PIdle
  {
    forall step | Enabled(s, step)
      ensures Stranded(Do(s, step)) && Do(s, step).done == s.done && Do(s, step).pro != PIdle
    {
      StrandedStep(s, step);
    }
  }

  lemma StrandedBusy(s: State)
    requires Inv(s) && Stranded(s)
    ensures s.pro != PIdle
  {
  }

  /** A call whose frame is pending when the encoder leaves never returns. */
  lemma {:induction false} StrandedForever(ss: seq<State>, steps: seq<Step>, m: nat, n: nat)
    requires Run(ss, steps) && ss[0] == START && m <= n < |ss| && Stranded(ss[m])
    ensures Stranded(ss[n]) && ss[n].done == ss[m].done && ss[n].pro != PIdle
  {
    if m == n {
      RunInv(ss, steps, n);
      StrandedBusy(ss[n]);
    } else {
      RunInv(ss, steps, n - 1);
      StrandedForever(ss, steps, m, n - 1);
      StrandedNext(ss[n - 1]);
      RunStep(ss, steps, n - 1);
    }
  }

  // ----- a run that strands a call -----

  /** A run that ends in s. */
  ghost predicate RunTo(ss: seq<State>, steps: seq<Step>, s: State) {
    Run(ss, steps) && ss[0] == START && ss[|steps|] == s
  }

  lemma Extend(ss: seq<State>, steps: seq<Step>, s: State, step: Step) returns (ss': seq<State>, steps': seq<Step>)
    requires RunTo(ss, steps, s) && Enabled(s, step)
    ensures RunTo(ss', steps', Do(s, step))
  {
    ss', steps' := ss + [Do(s, step)], steps + [step];
  }

  const ASLEEP := START.(frame := Some(7), pro := PAsleep, cur := 7, begun := [7])

  /** The producer puts its frame and sleeps before the encoder first takes the lock. */
  lemma PutAndSleep() returns (ss: seq<State>, steps: seq<Step>)
    ensures RunTo(ss, steps, ASLEEP)
  {
    var s := START;
    ss, steps := Extend([s], [], s, Call(7));
    s := Do(s, Call(7));
    ss, steps := Extend(ss, steps, s, Pro);
    s := ProStep(s);
    ss, steps := Extend(ss, steps, s, Pro);
    s := ProStep(s);
    ss, steps := Extend(ss, steps, s, Pro);
    s := ProStep(s);
    ss, steps := Extend(ss, steps, s, Pro);
  }

  const STOPPED := ASLEEP.(pro := PWoken, stop := true, stp := SJoin)

  /** Then the stop request goes through. */
  lemma StopFirst() returns (ss: seq<State>, steps: seq<Step>)
    ensures RunTo(ss, steps, STOPPED)
  {
    ss, steps := PutAndSleep();
    var s := ASLEEP;
    ss, steps := Extend(ss, steps, s, Stop);
    s := Do(s, Stop);
    ss, steps := Extend(ss, steps, s, Stp);
    s := StpStep(s);
    ss, steps := Extend(ss, steps, s, Stp);
    s := StpStep(s);
    ss, steps := Extend(ss, steps, s, Stp);
    s := StpStep(s);
    ss, steps := Extend(ss, steps, s, Stp);
  }

  /** And the encoder finds it before it looks at the frame: the call is stranded. */
  lemma StrandedReached() returns (ss: seq<State>, steps: seq<Step>)
    ensures Run(ss, steps) && ss[0] == START && Stranded(ss[|steps|])
  {
    ss, steps := StopFirst();
    var s := STOPPED;
    ss, steps := Extend(ss, steps, s, Enc);
    s := EncStep(s);
    ss, steps := Extend(ss, steps, s, Enc);
    s := EncStep(s);
    ss, steps := Extend(ss, steps, s, Enc);
  }

  // ----- a call ends unless it is stranded -----

  /** Phase of a call: 3 before the frame is put, 2 while it is pending, 1 once it is cleared. */
  function Phase(s: State): nat {
    if s.pro == PIdle then 0
    else if s.pro in {PLock, PPut} then 3
    else if s.frame.Some? then 2
    else 1
  }

  function EncRank(s: State): nat {
    if s.frame.Some? then
      match s.enc
      case EAsleep => 6
      case ELock => 5
      case EWoken => 5
      case EWhile => 4
      case ETest => 3
      case EEncode => 2
      case EClear => 1
      case _ => 0
    else
      match s.enc
      case EBroadcast => 6
      case EUnlock => 5
      case ELock => 4
      case EWoken => 4
      case EWhile => 3
      case ETest => 2
      case EStopUnlock => 1
      case _ => 0
  }

  function ProRank(s: State): nat {
    match Phase(s)
    case 3 => if s.pro == PLock then 2 else 1
    case 2 => if s.pro == PBroadcast then 4 else if s.pro == PWoken then 2 else if s.pro == PWhile then 1 else 0
    case 1 => if s.pro == PAsleep then 5 else if s.pro == PWoken then 4 else if s.pro == PWhile then 3
              else if s.pro == PCheck then 2 else 1
    case _ => 0
  }

  /** What is left of a stop request. */
  function StpRank(s: State): nat {
    match s.stp
    case SIdle => 6
    case SLock => 5
    case SSet => 4
    case SBroadcast => 3
    case SUnlock => 2
    case SJoin => 1
    case SDone => 0
  }

  function Rank(s: State): nat {
    30 * StpRank(s) + 20 * Phase(s) + EncRank(s) + ProRank(s)
  }

  const MAX_RANK := 248

  lemma RankAtMost(s: State)
    ensures Rank(s) <= MAX_RANK
  {
  }

  lemma EncRanks(s: State)
    requires Inv(s) && s.pro != PIdle && Enabled(s, Enc) && !Stranded(s) && !Stranded(EncStep(s))
    ensures Rank(EncStep(s)) < Rank(s)
  {
  }

  lemma ProRanks(s: State)
    requires Inv(s) && s.pro != PIdle && Enabled(s, Pro) && !Stranded(s) && !Stranded(ProStep(s))
    ensures Rank(ProStep(s)) < Rank(s)
  {
  }

  lemma StpRanks(s: State)
    requires Inv(s) && s.pro != PIdle && Enabled(s, Stp)
    ensures Rank(StpStep(s)) < Rank(s)
  {
  }

  lemma WakeRanks(s: State, step: Step)
    requires Inv(s) && s.pro != PIdle && Enabled(s, step) && step in {WakeEnc, WakePro}
    ensures Rank(Do(s, step)) <= Rank(s) + 4
  {
  }

  function Wakes(step: Step): nat {
    if step.WakeEnc? || step.WakePro? then 1 else 0
  }

  function CountWakes(steps: seq<Step>): nat {
    if steps == [] then 0 else CountWakes(steps[..|steps| - 1]) + Wakes(steps[|steps| - 1])
  }

  /** Every step of a call, of whatever thread, brings it closer to its end or strands it, except
      a spurious wakeup, which costs four. */
  lemma RankStep(s: State, step: Step)
    requires Inv(s) && s.pro != PIdle && Enabled(s, step) && !Stranded(s) && !Stranded(Do(s, step))
    ensures Rank(Do(s, step)) + 1 <= Rank(s) + 5 * Wakes(step)
  {
    match step {
      case Enc => EncRanks(s);
      case Pro => ProRanks(s);
      case Stp => StpRanks(s);
      case WakeEnc => WakeRanks(s, step);
      case WakePro => WakeRanks(s, step);
      case _ =>
    }
  }

  /** The call in progress has neither returned nor been stranded. */
  ghost predicate Underway(s: State) {
    s.pro != PIdle && !Stranded(s)
  }

  lemma RankNext(s: State)
    requires Inv(s) && Underway(s)
    ensures forall step :: Enabled(s, step) && Underway(Do(s, step)) ==>
              Rank(Do(s, step)) + 1 <= Rank(s) + 5 * Wakes(step)
  {
    forall step | Enabled(s, step) && Underway(Do(s, step))
      ensures Rank(Do(s, step)) + 1 <= Rank(s) + 5 * Wakes(step)
    {
      RankStep(s, step);
    }
  }

  lemma RankAt(ss: seq<State>, steps: seq<Step>, i: nat)
    requires Run(ss, steps) && ss[0] == START && i < |steps| && Underway(ss[i]) && Underway(ss[i + 1])
    ensures Rank(ss[i + 1]) + 1 <= Rank(ss[i]) + 5 * Wakes(steps[i])
  {
    RunInv(ss, steps, i);
    RankNext(ss[i]);
    RunStep(ss, steps, i);
  }

  /** Ranks that fall by one a step, but for the wakeups. */
  lemma {:induction false} RanksFall(ranks: seq<nat>, steps: seq<Step>, m: nat, n: nat)
    requires |ranks| == |steps| + 1 && m <= n < |ranks|
    requires forall k {:trigger steps[k]} :: m <= k < n ==> ranks[k + 1] + 1 <= ranks[k] + 5 * Wakes(steps[k])
    ensures ranks[n] + (n - m) <= ranks[m] + 5 * CountWakes(steps[m..n])
  {
    if m < n {
      RanksFall(ranks, steps, m, n - 1);
      CountWakesStep(steps, m, n - 1);
      assert steps[n - 1] in steps;
    }
  }

  lemma CountWakesStep(steps: seq<Step>, m: nat, n: nat)
    requires m <= n < |steps|
    ensures CountWakes(steps[m..n + 1]) == CountWakes(steps[m..n]) + Wakes(steps[n])
  {
    assert steps[m..n + 1][..n - m] == steps[m..n];
  }

  lemma WindowRanks(ss: seq<State>, steps: seq<Step>, m: nat, n: nat)
    requires Run(ss, steps) && ss[0] == START && m <= n < |ss|
    requires forall k :: m <= k <= n ==> Underway(ss[k])
    ensures Rank(ss[n]) + (n - m) <= Rank(ss[m]) + 5 * CountWakes(steps[m..n])
  {
    var ranks: seq<nat> := seq(|ss|, i requires 0 <= i < |ss| => Rank(ss[i]));
    forall k {:trigger steps[k]} | m <= k < n
      ensures ranks[k + 1] + 1 <= ranks[k] + 5 * Wakes(steps[k])
    {
      assert Underway(ss[k]) && Underway(ss[k + 1]);
      RankAt(ss, steps, k);
    }
    RanksFall(ranks, steps, m, n);
  }

  /** A call returns or is stranded within 248 steps, and five more for every spurious wakeup
      among them, whether or not a stop is requested. */
  lemma CallsEnd(ss: seq<State>, steps: seq<Step>, m: nat, n: nat)
    requires Run(ss, steps) && ss[0] == START && m <= n < |ss|
    requires n - m > MAX_RANK + 5 * CountWakes(steps[m..n])
    ensures exists k :: m <= k <= n && (ss[k].pro == PIdle || Stranded(ss[k]))
  {
    RankAtMost(ss[m]);
    if forall k :: m <= k <= n ==> Underway(ss[k]) {
      WindowRanks(ss, steps, m, n);
    }
  }

  lemma UnstoppedRanks(s: State)
    requires s.stp == SIdle
    ensures 180 <= Rank(s) <= MAX_RANK
  {
  }

  lemma UnstoppedUnderway(s: State)
    requires Inv(s) && s.pro != PIdle && s.stp == SIdle
    ensures Underway(s)
  {
  }

  /** A call that no stop request meets is over within 68 of them. */
  lemma UnstoppedCallsEnd(ss: seq<State>, steps: seq<Step>, m: nat, n: nat)
    requires Run(ss, steps) && ss[0] == START && m <= n < |ss|
    requires n - m > 68 + 5 * CountWakes(steps[m..n])
    ensures exists k :: m <= k <= n && (ss[k].pro == PIdle || ss[k].stp != SIdle)
  {
    if forall k :: m <= k <= n ==> ss[k].pro != PIdle && ss[k].stp == SIdle {
      forall k | m <= k <= n
        ensures Underway(ss[k])
      {
        RunInv(ss, steps, k);
        UnstoppedUnderway(ss[k]);
      }
      UnstoppedRanks(ss[m]);
      UnstoppedRanks(ss[n]);
      WindowRanks(ss, steps, m, n);
    }
  }

  /** Until then some thread can step. */
  lemma CallsProgress(ss: seq<State>, steps: seq<Step>, n: nat)
    requires Run(ss, steps) && ss[0] == START && n < |ss| && Underway(ss[n])
    ensures Enabled(ss[n], Enc) || Enabled(ss[n], Pro) || Enabled(ss[n], Stp)
  {
    RunInv(ss, steps, n);
    UnderwayEnabled(ss[n]);
  }

  lemma UnderwayEnabled(s: State)
    requires Inv(s) && Underway(s)
    ensures Enabled(s, Enc) || Enabled(s, Pro) || Enabled(s, Stp)
  {
    match s.lock {
      case None =>
      case Some(Encoder) =>
      case Some(Producer) =>
      case Some(Stopper) =>
    }
  }

  /** The call in progress at m has returned by n. */
  ghost predicate Returned(ss: seq<State>, m: nat, n: nat)
    requires m <= n < |ss|
  {
    exists k :: m <= k <= n && ss[k].pro == PIdle
  }

  /** A call never returns exactly when the encoder leaves with its frame pending: after enough
      steps it has not returned if and only if it was stranded, and then it never will. */
  lemma NeverReturnsIff(ss: seq<State>, steps: seq<Step>, m: nat, n: nat)
    requires Run(ss, steps) && ss[0] == START && m <= n < |ss|
    requires n - m > MAX_RANK + 5 * CountWakes(steps[m..n])
    ensures !Returned(ss, m, n) <==> exists k :: m <= k <= n && Stranded(ss[k]) && !Returned(ss, m, k)
    ensures !Returned(ss, m, n) ==> forall k :: n <= k < |ss| ==> ss[k].pro != PIdle
  {
    if !Returned(ss, m, n) {
      CallsEnd(ss, steps, m, n);
      var k :| m <= k <= n && (ss[k].pro == PIdle || Stranded(ss[k]));
      assert Stranded(ss[k]) && !Returned(ss, m, k);
    }
    if k :| m <= k <= n && Stranded(ss[k]) && !Returned(ss, m, k) {
      forall j | k <= j < |ss|
        ensures ss[j].pro != PIdle
      {
        StrandedForever(ss, steps, k, j);
      }
    }
  }
}
