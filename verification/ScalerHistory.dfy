/** What a scaler handle has become, by the calls made on it so far, and what every call answers. */
module ScalerHistory {
  import opened Common
  import opened ImageLayout
  import opened ScalerSession

  /** A handle after its calls. */
  function Replay(cs: seq<Call>): Session {
    if cs == [] then FRESH else After(Replay(cs[..|cs| - 1]), cs[|cs| - 1]).s
  }

  // ----- formats and data, by the calls -----

  /** The call applies a valid format to the source, or to the destination; an invalid source format
      in the same call stops it before the destination. */
  predicate Applies(c: Call, dst: bool) {
    c.SetImageFormat? &&
    var given := if dst then c.dst else c.src;
    && given.Some? && IsValidImageFormat(given.value.format, dst) && given.value.applied == 0
    && (dst && c.src.Some? ==> IsValidImageFormat(c.src.value.format, false))
  }

  ghost predicate HasFormat(cs: seq<Call>, n: nat, dst: bool)
    requires n <= |cs|
  {
    exists i :: 0 <= i < n && Applies(cs[i], dst)
  }

  /** Call i queues data, which needs the format to have been applied before. */
  ghost predicate Queued(cs: seq<Call>, i: nat, dst: bool)
    requires i < |cs|
  {
    cs[i].SetImageData? &&
    var given := if dst then cs[i].dstQueued else cs[i].srcQueued;
    && given == Some(0) && HasFormat(cs, i, dst)
    && (dst && cs[i].srcQueued.Some? ==> HasFormat(cs, i, false))
  }

  ghost predicate HasData(cs: seq<Call>, n: nat, dst: bool)
    requires n <= |cs|
  {
    exists i :: 0 <= i < n && Queued(cs, i, dst)
  }

  lemma FormatStep(s: Session, c: Call, dst: bool)
    ensures var flag := if dst then DstFormat else SrcFormat;
            flag in After(s, c).s.flags <==> flag in s.flags || Applies(c, dst)
  {
  }

  lemma DataStep(s: Session, c: Call)
    ensures SrcData in After(s, c).s.flags <==>
            SrcData in s.flags || (c.SetImageData? && c.srcQueued == Some(0) && SrcFormat in s.flags)
    ensures DstData in After(s, c).s.flags <==>
            || DstData in s.flags
            || (&& c.SetImageData? && c.dstQueued == Some(0) && DstFormat in s.flags
                && (c.srcQueued.Some? ==> SrcFormat in s.flags))
  {
  }

  lemma ReplayStep(cs: seq<Call>, n: nat, next: nat)
    requires next == n + 1 <= |cs|
    ensures Replay(cs[..next]) == After(Replay(cs[..n]), cs[n]).s
  {
    assert cs[..next][..n] == cs[..n];
  }

  /** A format flag is set exactly when some call applied such a format. */
  lemma {:induction false} FormatIff(cs: seq<Call>, n: nat, dst: bool)
    requires n <= |cs|
    ensures (if dst then DstFormat else SrcFormat) in Replay(cs[..n]).flags <==> HasFormat(cs, n, dst)
  {
    if n > 0 {
      FormatIff(cs, n - 1, dst);
      ReplayStep(cs, n - 1, n);
      FormatStep(Replay(cs[..n - 1]), cs[n - 1], dst);
    }
  }

  lemma HasDataNext(cs: seq<Call>, n: nat, next: nat, dst: bool)
    requires next == n + 1 <= |cs|
    ensures HasData(cs, next, dst) <==> HasData(cs, n, dst) || Queued(cs, n, dst)
  {
  }

  lemma QueuedIff(cs: seq<Call>, n: nat)
    requires n < |cs|
    ensures var s, c := Replay(cs[..n]), cs[n];
            && (Queued(cs, n, false) <==> c.SetImageData? && c.srcQueued == Some(0) && SrcFormat in s.flags)
            && (Queued(cs, n, true) <==>
                  && c.SetImageData? && c.dstQueued == Some(0) && DstFormat in s.flags
                  && (c.srcQueued.Some? ==> SrcFormat in s.flags))
  {
    FormatIff(cs, n, false);
    FormatIff(cs, n, true);
  }

  /** A data flag is set exactly when some call queued such data after its format. */
  lemma {:induction false} DataIff(cs: seq<Call>, n: nat, dst: bool)
    requires n <= |cs|
    ensures (if dst then DstData else SrcData) in Replay(cs[..n]).flags <==> HasData(cs, n, dst)
  {
    if n > 0 {
      DataIff(cs, n - 1, dst);
      ReplayStep(cs, n - 1, n);
      QueuedIff(cs, n - 1);
      DataStep(Replay(cs[..n - 1]), cs[n - 1]);
      HasDataNext(cs, n - 1, n, dst);
    }
  }

  // ----- the answers -----

  /** SetImageFormat fails exactly for an invalid format, with -22. */
  lemma FormatAnswer(s: Session, src: Option<FormatTry>, dst: Option<FormatTry>)
    ensures After(s, SetImageFormat(src, dst)).ret ==
            if (src.Some? && !IsValidImageFormat(src.value.format, false))
               || (dst.Some? && !IsValidImageFormat(dst.value.format, true)) then -22 else 0
  {
  }

  /** SetImageData fails exactly when a side it is given data for never had a format, with -22. */
  lemma DataAnswer(cs: seq<Call>, src: Option<int>, dst: Option<int>)
    ensures After(Replay(cs), SetImageData(src, dst)).ret ==
            if (src.Some? && !HasFormat(cs, |cs|, false)) || (dst.Some? && !HasFormat(cs, |cs|, true)) then -22 else 0
  {
    assert cs[..|cs|] == cs;
    FormatIff(cs, |cs|, false);
    FormatIff(cs, |cs|, true);
  }

  /** Both sides have had a format and data. */
  ghost predicate Prepared(cs: seq<Call>) {
    HasFormat(cs, |cs|, false) && HasFormat(cs, |cs|, true) && HasData(cs, |cs|, false) && HasData(cs, |cs|, true)
  }

  lemma PreparedIff(cs: seq<Call>)
    ensures NEEDED <= Replay(cs).flags <==> Prepared(cs)
  {
    assert cs[..|cs|] == cs;
    FormatIff(cs, |cs|, false);
    FormatIff(cs, |cs|, true);
    DataIff(cs, |cs|, false);
    DataIff(cs, |cs|, true);
    assert NEEDED <= Replay(cs).flags <==>
           SrcFormat in Replay(cs).flags && DstFormat in Replay(cs).flags
           && SrcData in Replay(cs).flags && DstData in Replay(cs).flags;
  }

  /** What a run answers: -22 to a handle that is not locked, or has not been prepared by its calls;
      -16 to one that runs, or when a queue cannot be switched on; 0 otherwise, and only then is the
      handle started. */
  lemma RunAnswer(cs: seq<Call>, on: OnAnswers)
    ensures var s, r := Replay(cs), After(Replay(cs), Run(on));
            && r.ret == (if s.state == Idle then -22
                         else if s.state == Started then -16
                         else if !Prepared(cs) then -22
                         else if Streaming !in s.flags && (on.src < 0 || on.dst < 0) then -16
                         else 0)
            && (r.s.state == Started <==> s.state == Started || r.ret == 0)
  {
    PreparedIff(cs);
  }

  /** The queues after a run of a prepared, locked handle: those of a streaming one stay; otherwise both
      are on when both calls succeed, and a source switched on alone stays on only when it cannot be
      switched off. */
  lemma RunQueues(cs: seq<Call>, on: OnAnswers)
    requires Replay(cs).state == Locked && Prepared(cs)
    ensures var s, t := Replay(cs), After(Replay(cs), Run(on)).s;
            && (Streaming in t.flags <==> Streaming in s.flags || (on.src >= 0 && on.dst >= 0))
            && (Streaming in s.flags || on.src < 0 ==> t.srcOn == s.srcOn && t.dstOn == s.dstOn)
            && (Streaming !in s.flags && on.src >= 0 && on.dst >= 0 ==> t.srcOn && t.dstOn)
            && (Streaming !in s.flags && on.src >= 0 && on.dst < 0 ==> (t.srcOn <==> on.undo < 0) && t.dstOn == s.dstOn)
  {
    PreparedIff(cs);
  }

  /** A wait completes exactly when the handle runs, the poll reports a buffer and both buffers come
      back, destination first. */
  lemma WaitAnswer(s: Session, wait: WaitAnswers)
    ensures var r := After(s, WaitDone(wait));
            && (r.ret == 0 <==> s.state == Started && wait.poll > 0 && wait.dst >= 0 && wait.src >= 0)
            && r.s == (if r.ret == 0 then s.(state := Locked) else s)
            && (s.state != Started ==> r.ret == -22)
            && (s.state == Started && wait.poll == 0 ==> r.ret == -110)
            && (s.state == Started && wait.poll < 0 ==> r.ret == wait.poll)
            && (s.state == Started && wait.poll > 0 && r.ret != 0 ==> r.ret == -1)
  {
  }

  /** RunSync is a run and, unless that fails, a wait. */
  lemma RunSyncIs(s: Session, on: OnAnswers, wait: WaitAnswers)
    ensures var run := After(s, Run(on));
            After(s, RunSync(on, wait)) == if run.ret < 0 then run else After(run.s, WaitDone(wait))
  {
  }

  /** A stop answers 0 when nothing streams, or the handle is idle, or all four ioctls succeed; -16
      while it runs, -1 otherwise. The queues go off one after the other, and the flag goes only when
      all four succeed. */
  lemma StopAnswer(s: Session, off: OffAnswers)
    ensures var r := After(s, Stop(off));
            var all := off.src >= 0 && off.srcFree >= 0 && off.dst >= 0 && off.dstFree >= 0;
            var acts := Streaming in s.flags && s.state == Locked;
            && r.ret == (if Streaming !in s.flags || s.state == Idle then 0
                         else if s.state == Started then -16
                         else if all then 0 else -1)
            && r.s.state == s.state
            && r.s.flags == (if acts && all then s.flags - {Streaming} else s.flags)
            && r.s.srcOn == (s.srcOn && !(acts && off.src >= 0))
            && r.s.dstOn == (s.dstOn && !(acts && off.src >= 0 && off.srcFree >= 0 && off.dst >= 0))
  {
  }

  /** The remaining calls look only at the state. */
  lemma StateAnswers(s: Session, answer: int)
    ensures After(s, SetCoeff(answer)) ==
            Outcome(s, match s.state case Idle => -22 case Started => -16 case Locked => answer)
    ensures After(s, Unlock).ret == (match s.state case Idle => -22 case Started => -16 case Locked => 0)
    ensures After(s, Unlock).s == s.(state := if s.state == Locked then Idle else s.state)
    ensures After(s, Lock(answer)).ret == (if s.state == Idle then 0 else -16)
    ensures After(s, Lock(answer)).s == s.(state := if s.state == Idle && answer == 0 then Locked else s.state)
    ensures After(s, Cancel).ret == (if s.state == Started then 0 else -22)
    ensures After(s, Cancel).s == s.(state := if s.state == Started then Locked else s.state)
  {
  }

  // ----- the handles of a system -----

  /** The calls on a handle since it was opened. */
  function CallsOf(es: seq<Event>, id: nat): seq<Call> {
    if es == [] then []
    else
      var before := CallsOf(es[..|es| - 1], id);
      match es[|es| - 1]
      case Open(i) => if i == id then [] else before
      case Do(i, c) => if i == id then before + [c] else before
  }

  lemma {:induction false} RunMore(y: System, es: seq<Event>, e: Event)
    requires AllPossible(y, es + [e])
    ensures AllPossible(y, es) && Possible(RunAll(y, es), e)
    ensures RunAll(y, es + [e]) == Next(RunAll(y, es), e)
    decreases |es|
  {
    var all := es + [e];
    if es == [] {
      assert all[1..] == [];
    } else {
      assert all[1..] == es[1..] + [e];
      RunMore(Next(y, es[0]), es[1..], e);
    }
  }

  /** In every run of any number of handles, each open handle is what its own calls made it. */
  lemma {:induction false} HandleReplays(es: seq<Event>, id: nat)
    requires AllPossible(BOOT, es) && id in RunAll(BOOT, es).handles
    ensures RunAll(BOOT, es).handles[id] == Replay(CallsOf(es, id))
    decreases |es|
  {
    if es != [] {
      var n := |es| - 1;
      var before, e := es[..n], es[n];
      assert es == before + [e];
      RunMore(BOOT, before, e);
      if e != Open(id) {
        HandleReplays(before, id);
        if e.Do? && e.id == id {
          var cs := CallsOf(before, id);
          assert (cs + [e.call])[..|cs|] == cs;
        }
      }
    }
  }
}
