/** Which destination descriptors a PLAY closes after they were queued.  The driver succeeds in these
    runs; what the clients send is arbitrary. */
module CompositorDestination {
  import opened Compositor
  import opened CompositorOwnership
  import opened CompositorDisplay
  import opened CompositorSuperseded

  /** The driver grants whatever the event asks. */
  ghost predicate Untroubled(ev: Event) {
    ev.EvCommit? ==> AllSucceed(ev.answers)
  }

  lemma CommitSmooth(w: World, a: Answers)
    requires Inv(w) && Smooth(w) && AllSucceed(a)
    ensures Smooth(CommitStep(w, a))
  {
    SmoothLayers(w, LAYERS, a);
    var c := CommitLayers(w, LAYERS, a);
    forall i | 0 <= i < LAYERS
      ensures SwapLayers(c, LAYERS).slots[i].status == 0
    {
      SwapsCount(c, LAYERS, i);
    }
  }

  lemma UntroubledSmooth(w: World, ev: Event)
    requires Inv(w) && Smooth(w) && Legal(w, ev) && Untroubled(ev) && Shaped(Next(w, ev))
    ensures Smooth(Next(w, ev))
  {
    match ev {
      case EvSet(appId, pipe, id) =>
      case EvPlay(appId, m) =>
      case EvUnset(appId) =>
      case EvCommit(a) => CommitSmooth(w, a);
    }
  }

  // ----- what is queued -----

  /** The event is a commit that queues data naming fd. */
  ghost predicate Queuing(w: World, ev: Event, fd: int)
    requires Shaped(w)
  {
    ev.EvCommit? && exists j :: 0 <= j < LAYERS && Queues(w, j) && fd in Named(w.slots[j].back)
  }

  /** A destination is named only by the data it is part of. */
  lemma DestinationNamed(w: World, i: nat, front: bool, j: nat)
    requires Inv(w) && i < LAYERS && j < LAYERS
    requires var fd := At(w, Place(i, front, 3)); fd > 0 && fd in Named(w.slots[j].back)
    ensures j == i && !front
  {
    var d := w.slots[j].back;
    var fd := At(w, Place(i, front, 3));
    var named := d.data[..d.numPlane] + [d.dst];
    var n :| 0 <= n < |named| && named[n] == fd;
    var q := Place(j, false, if n < d.numPlane then n else 3);
    PlacesApart(w, Place(i, front, 3), q);
  }

  lemma BackQueuing(w: World, ev: Event, i: nat)
    requires Inv(w) && i < LAYERS && ev.EvCommit? && w.slots[i].back.dst > 0
    ensures Queuing(w, ev, w.slots[i].back.dst) <==> Queues(w, i)
  {
    var d := w.slots[i].back;
    assert d.dst == At(w, Place(i, false, 3));
    if Queuing(w, ev, d.dst) {
      var j :| 0 <= j < LAYERS && Queues(w, j) && d.dst in Named(w.slots[j].back);
      DestinationNamed(w, i, false, j);
    }
    assert d.dst in Named(d) by {
      assert (d.data[..d.numPlane] + [d.dst])[d.numPlane] == d.dst;
    }
  }

  lemma FrontNotQueuing(w: World, ev: Event, i: nat)
    requires Inv(w) && i < LAYERS && w.slots[i].front.dst > 0
    ensures !Queuing(w, ev, w.slots[i].front.dst)
  {
    assert w.slots[i].front.dst == At(w, Place(i, true, 3));
    if Queuing(w, ev, w.slots[i].front.dst) {
      var j :| 0 <= j < LAYERS && Queues(w, j) && w.slots[i].front.dst in Named(w.slots[j].back);
      DestinationNamed(w, i, true, j);
    }
  }

  // ----- what happened since a PLAY -----

  ghost predicate CommitSince(evs: seq<Event>, p: nat, k: nat)
    requires k <= |evs|
  {
    exists q :: p < q < k && evs[q].EvCommit?
  }

  ghost predicate WorldsShaped(ws: seq<World>, n: nat) {
    n <= |ws| && forall q :: 0 <= q < n ==> Shaped(ws[q])
  }

  ghost predicate QueuedSince(ws: seq<World>, evs: seq<Event>, p: nat, k: nat, fd: int)
    requires k <= |evs| && WorldsShaped(ws, |evs|)
  {
    exists q {:trigger evs[q]} :: p < q < k && Queuing(ws[q], evs[q], fd)
  }

  /** No later PLAY brought a descriptor of that number. */
  ghost predicate NotBroughtSince(evs: seq<Event>, p: nat, k: nat, fd: int)
    requires k <= |evs|
  {
    forall q :: p < q < k && evs[q].EvPlay? ==> fd !in evs[q].msg.fds
  }

  lemma CommitSinceNext(evs: seq<Event>, p: nat, k: nat, next: nat)
    requires p < k < |evs| && next == k + 1
    ensures CommitSince(evs, p, next) <==> CommitSince(evs, p, k) || evs[k].EvCommit?
  {
  }

  lemma QueuedSinceNext(ws: seq<World>, evs: seq<Event>, p: nat, k: nat, next: nat, fd: int)
    requires p < k < |evs| && next == k + 1 && WorldsShaped(ws, |evs|)
    ensures QueuedSince(ws, evs, p, next, fd) <==> QueuedSince(ws, evs, p, k, fd) || Queuing(ws[k], evs[k], fd)
  {
  }

  lemma NotBroughtSinceNext(evs: seq<Event>, p: nat, k: nat, next: nat, fd: int)
    requires p < k < |evs| && next == k + 1 && NotBroughtSince(evs, p, k, fd)
    requires evs[k].EvPlay? ==> fd !in evs[k].msg.fds
    ensures NotBroughtSince(evs, p, next, fd)
  {
  }

  /** PLAY p of the application brought destination fd. */
  ghost predicate Brings(ev: Event, appId: int, fd: int) {
    && ev.EvPlay? && ev.appId == appId && ev.msg.dstUsed
    && ev.msg.fds != [] && ev.msg.fds[|ev.msg.fds| - 1] == fd
  }

  /** The destination of d came with PLAY p, and was queued since exactly if that PLAY had planes
      and a commit has come.  Until then d waits in the back buffer. */
  ghost predicate Traced(ws: seq<World>, evs: seq<Event>, p: nat, k: nat, appId: int, d: OverlayData, waiting: bool)
    requires Run(ws, evs) && p < k <= |evs| && |d.data| == 3
  {
    && Brings(evs[p], appId, d.dst) && evs[p].msg.numPlane == d.numPlane
    && NotBroughtSince(evs, p, k, d.dst)
    && (QueuedSince(ws, evs, p, k, d.dst) <==> d.numPlane > 0 && CommitSince(evs, p, k))
    && (!CommitSince(evs, p, k) ==> waiting && (d.numPlane > 0 ==> d.data[0] > 0))
    && (d.numPlane == 0 ==> d.data[0] == -1)
  }

  ghost predicate Traceable(ws: seq<World>, evs: seq<Event>, k: nat, appId: int, d: OverlayData, waiting: bool)
    requires Run(ws, evs) && k <= |evs| && |d.data| == 3
  {
    d.dst > 0 ==> appId != 0 && exists p :: 0 <= p < k && Traced(ws, evs, p, k, appId, d, waiting)
  }

  ghost predicate SlotTraceable(ws: seq<World>, evs: seq<Event>, k: nat, i: nat)
    requires Run(ws, evs) && k <= |evs| && i < LAYERS && Shaped(ws[k])
  {
    var s := ws[k].slots[i];
    && Traceable(ws, evs, k, s.appId, s.back, s.isNewData)
    && Traceable(ws, evs, k, s.appId, s.front, false)
  }

  // ----- one step -----

  /** A held destination is not brought again. */
  lemma HeldNotBrought(w: World, ev: Event, i: nat, front: bool)
    requires Inv(w) && Legal(w, ev) && i < LAYERS && At(w, Place(i, front, 3)) > 0
    ensures ev.EvPlay? ==> At(w, Place(i, front, 3)) !in ev.msg.fds
  {
    PlacesApart(w, Place(i, front, 3), Place(i, front, 3));
  }

  lemma TracedQuiet(ws: seq<World>, evs: seq<Event>, p: nat, k: nat, next: nat, appId: int, d: OverlayData,
                    waiting: bool, still: bool)
    requires Run(ws, evs) && p < k < |evs| && next == k + 1 && |d.data| == 3 && Traced(ws, evs, p, k, appId, d, waiting)
    requires !evs[k].EvCommit? && (evs[k].EvPlay? ==> d.dst !in evs[k].msg.fds) && (waiting ==> still)
    ensures Traced(ws, evs, p, next, appId, d, still)
  {
    CommitSinceNext(evs, p, k, next);
    NotBroughtSinceNext(evs, p, k, next, d.dst);
    QueuedSinceNext(ws, evs, p, k, next, d.dst);
  }

  lemma TraceableQuiet(ws: seq<World>, evs: seq<Event>, k: nat, next: nat, appId: int, d: OverlayData, waiting: bool,
                       still: bool)
    requires Run(ws, evs) && k < |evs| && next == k + 1 && |d.data| == 3
    requires Traceable(ws, evs, k, appId, d, waiting)
    requires !evs[k].EvCommit? && (evs[k].EvPlay? && d.dst > 0 ==> d.dst !in evs[k].msg.fds) && (waiting ==> still)
    ensures Traceable(ws, evs, next, appId, d, still)
  {
    if d.dst > 0 {
      var p :| 0 <= p < k && Traced(ws, evs, p, k, appId, d, waiting);
      TracedQuiet(ws, evs, p, k, next, appId, d, waiting, still);
    }
  }

  /** A commit, for data d whose slot it finds in the back buffer or in the front one, and d', where
      it leaves the destination. */
  lemma TracedCommit(ws: seq<World>, evs: seq<Event>, p: nat, k: nat, next: nat, appId: int, d: OverlayData,
                     waiting: bool, d': OverlayData, still: bool)
    requires Run(ws, evs) && p < k < |evs| && next == k + 1 && |d.data| == |d'.data| == 3
    requires evs[k].EvCommit? && Traced(ws, evs, p, k, appId, d, waiting)
    requires Queuing(ws[k], evs[k], d.dst) ==> d.data[0] != -1
    requires waiting && d.data[0] > 0 ==> Queuing(ws[k], evs[k], d.dst)
    requires d'.dst == d.dst && d'.numPlane == d.numPlane && (d.numPlane == 0 ==> d'.data == d.data)
    ensures Traced(ws, evs, p, next, appId, d', still)
  {
    CommitSinceNext(evs, p, k, next);
    NotBroughtSinceNext(evs, p, k, next, d.dst);
    QueuedSinceNext(ws, evs, p, k, next, d.dst);
  }

  lemma TraceableCommit(ws: seq<World>, evs: seq<Event>, k: nat, next: nat, appId: int, d: OverlayData, waiting: bool,
                        d': OverlayData, still: bool)
    requires Run(ws, evs) && k < |evs| && next == k + 1 && |d.data| == |d'.data| == 3 && evs[k].EvCommit?
    requires Traceable(ws, evs, k, appId, d, waiting)
    requires d.dst > 0 && Queuing(ws[k], evs[k], d.dst) ==> d.data[0] != -1
    requires d.dst > 0 && waiting && d.data[0] > 0 ==> Queuing(ws[k], evs[k], d.dst)
    requires d'.dst == d.dst && d'.numPlane == d.numPlane && (d.numPlane == 0 ==> d'.data == d.data)
    ensures Traceable(ws, evs, next, appId, d', still)
  {
    if d.dst > 0 {
      var p :| 0 <= p < k && Traced(ws, evs, p, k, appId, d, waiting);
      TracedCommit(ws, evs, p, k, next, appId, d, waiting, d', still);
    }
  }

  lemma SpendSame(d: OverlayData)
    requires |d.data| == 3 && d.numPlane <= 3
    ensures Spend(d).dst == d.dst && Spend(d).numPlane == d.numPlane
    ensures d.numPlane == 0 ==> Spend(d).data == d.data
  {
  }

  lemma CommitTraceable(ws: seq<World>, evs: seq<Event>, k: nat, next: nat, i: nat)
    requires Run(ws, evs) && k < |evs| && next == k + 1 && i < LAYERS && Inv(ws[k]) && Smooth(ws[k])
    requires evs[k].EvCommit? && AllSucceed(evs[k].answers) && Shaped(ws[next])
    requires SlotTraceable(ws, evs, k, i)
    ensures SlotTraceable(ws, evs, next, i)
  {
    var s, t := ws[k].slots[i], ws[next].slots[i];
    CommitSlot(ws[k], evs[k].answers, i);
    if s.appId != 0 {
      if s.back.dst > 0 { BackQueuing(ws[k], evs[k], i); }
      if s.front.dst > 0 { FrontNotQueuing(ws[k], evs[k], i); }
      SpendSame(s.front);
      TraceableCommit(ws, evs, k, next, s.appId, s.back, s.isNewData, t.front, false);
      TraceableCommit(ws, evs, k, next, s.appId, s.front, false, t.back, t.isNewData);
    }
  }

  /** What a PLAY leaves in the slot of its application. */
  lemma PlayedSlot(w: World, m: PlayMsg, i: nat)
    requires Inv(w) && i < LAYERS && w.slots[i].appId != 0 && FreshMsg(w.env, m)
    ensures var s := w.slots[i];
            PlayStep(w, s.appId, m).1.slots[i] == s.(back := Request(m, s.ovId), isNewData := true)
  {
    RegisteredAt(w.slots, i);
  }

  lemma RequestTraced(ws: seq<World>, evs: seq<Event>, k: nat, next: nat, appId: int, id: int)
    requires Run(ws, evs) && k < |evs| && next == k + 1 && evs[k].EvPlay? && evs[k].appId == appId != 0
    requires FreshMsg(ws[k].env, evs[k].msg)
    ensures Traceable(ws, evs, next, appId, Request(evs[k].msg, id), true)
  {
    var d := Request(evs[k].msg, id);
    assert !CommitSince(evs, k, next) && !QueuedSince(ws, evs, k, next, d.dst);
    if d.dst > 0 {
      assert Traced(ws, evs, k, next, appId, d, true);
    }
  }

  lemma PlayTraceable(ws: seq<World>, evs: seq<Event>, k: nat, next: nat, i: nat)
    requires Run(ws, evs) && k < |evs| && next == k + 1 && i < LAYERS && Inv(ws[k])
    requires evs[k].EvPlay? && evs[k].appId == ws[k].slots[i].appId && Shaped(ws[next])
    requires SlotTraceable(ws, evs, k, i)
    ensures SlotTraceable(ws, evs, next, i)
  {
    var s := ws[k].slots[i];
    PlayedSlot(ws[k], evs[k].msg, i);
    RequestTraced(ws, evs, k, next, s.appId, s.ovId);
    if s.front.dst > 0 { HeldNotBrought(ws[k], evs[k], i, true); }
    TraceableQuiet(ws, evs, k, next, s.appId, s.front, false, false);
  }

  /** A slot keeps its data, and its owner if it has one; registration may give a free slot one. */
  predicate KeptSlot(s: Overlay, t: Overlay) {
    && t.back == s.back && t.front == s.front && t.isNewData == s.isNewData
    && (s.appId != 0 ==> t.appId == s.appId)
  }

  lemma SetSlot(s: seq<Overlay>, appId: int, pipe: PipeType, id: int, i: nat)
    requires |s| == SLOTS && i < SLOTS
    ensures KeptSlot(s[i], SetStep(s, appId, pipe, id).1[i])
  {
  }

  lemma UnsetSlot(w: World, appId: int, i: nat)
    requires Shaped(w) && i < SLOTS
    ensures var t := UnsetStep(w, appId).1;
            |t.slots| == SLOTS && (t.slots[i] == ZERO || t.slots[i] == w.slots[i])
  {
  }

  lemma ElsewhereSlot(w: World, ev: Event, i: nat)
    requires Inv(w) && Legal(w, ev) && !ev.EvCommit? && i < LAYERS
    requires ev.EvPlay? ==> ev.appId != w.slots[i].appId
    requires Shaped(Next(w, ev))
    ensures Next(w, ev).slots[i] == ZERO || KeptSlot(w.slots[i], Next(w, ev).slots[i])
  {
    match ev {
      case EvSet(appId, pipe, id) => SetSlot(w.slots, appId, pipe, id, i);
      case EvPlay(appId, m) => PlayElsewhere(w, appId, m, i);
      case EvUnset(appId) => UnsetSlot(w, appId, i);
    }
  }

  lemma ElsewhereTraceable(ws: seq<World>, evs: seq<Event>, k: nat, next: nat, i: nat)
    requires Run(ws, evs) && k < |evs| && next == k + 1 && i < LAYERS && Inv(ws[k])
    requires !evs[k].EvCommit? && (evs[k].EvPlay? ==> evs[k].appId != ws[k].slots[i].appId)
    requires Shaped(ws[next]) && SlotTraceable(ws, evs, k, i)
    ensures SlotTraceable(ws, evs, next, i)
  {
    var s := ws[k].slots[i];
    ElsewhereSlot(ws[k], evs[k], i);
    if s.appId != 0 && ws[next].slots[i] != ZERO {
      if s.back.dst > 0 { HeldNotBrought(ws[k], evs[k], i, false); }
      if s.front.dst > 0 { HeldNotBrought(ws[k], evs[k], i, true); }
      TraceableQuiet(ws, evs, k, next, s.appId, s.back, s.isNewData, s.isNewData);
      TraceableQuiet(ws, evs, k, next, s.appId, s.front, false, false);
    }
  }

  lemma NextTraceable(ws: seq<World>, evs: seq<Event>, k: nat, next: nat, i: nat)
    requires Run(ws, evs) && k < |evs| && next == k + 1 && i < LAYERS && Inv(ws[k]) && Smooth(ws[k])
    requires Untroubled(evs[k]) && Shaped(ws[next]) && SlotTraceable(ws, evs, k, i)
    ensures SlotTraceable(ws, evs, next, i)
  {
    if evs[k].EvCommit? {
      CommitTraceable(ws, evs, k, next, i);
    } else if evs[k].EvPlay? && evs[k].appId == ws[k].slots[i].appId {
      PlayTraceable(ws, evs, k, next, i);
    } else {
      ElsewhereTraceable(ws, evs, k, next, i);
    }
  }

  // ----- runs -----

  lemma {:induction false} AllTraceable(ws: seq<World>, evs: seq<Event>, n: nat, i: nat)
    requires Run(ws, evs) && n <= |evs| && i < LAYERS
    requires forall j :: 0 <= j < n ==> Untroubled(evs[j])
    ensures Inv(ws[n]) && Smooth(ws[n]) && SlotTraceable(ws, evs, n, i)
  {
    RunInv(ws, evs, n);
    if n == 0 {
      assert START.slots[i].back.dst == 0 && START.slots[i].front.dst == 0;
    } else {
      AllTraceable(ws, evs, n - 1, i);
      UntroubledSmooth(ws[n - 1], evs[n - 1]);
      NextTraceable(ws, evs, n - 1, n, i);
    }
  }

  /** An accepted PLAY closes the destination it finds in its slot. */
  lemma DestinationCloses(w: World, m: PlayMsg, i: nat)
    requires Inv(w) && i < LAYERS && w.slots[i].appId != 0 && FreshMsg(w.env, m) && w.slots[i].back.dst > 0
    ensures w.slots[i].back.dst in w.env.open
    ensures w.slots[i].back.dst !in PlayStep(w, w.slots[i].appId, m).1.env.open
  {
    RegisteredAt(w.slots, i);
    BackOpen(w, i, 3);
    var e := Receive(w.env, m.fds);
    BackHeldOpen(w, i, e);
    CloseBackCloses(e, w.slots[i].back);
  }

  /** When the destination that a PLAY closes had been queued.  While the driver succeeds, the
      destination came with an earlier PLAY of the same application, the last one to bring a
      descriptor of that number; and a commit between the two PLAYs queued it exactly when the
      earlier one had a plane and there was a commit at all. */
  lemma ClosedDestinationQueuedIff(ws: seq<World>, evs: seq<Event>, k: nat, i: nat) returns (p: nat)
    requires Run(ws, evs) && k < |evs| && i < LAYERS && Shaped(ws[k]) && Shaped(ws[k + 1])
    requires forall j :: 0 <= j < k ==> Untroubled(evs[j])
    requires evs[k].EvPlay? && evs[k].appId == ws[k].slots[i].appId && ws[k].slots[i].back.dst > 0
    ensures var fd := ws[k].slots[i].back.dst;
            && fd in ws[k].env.open && fd !in ws[k + 1].env.open
            && p < k && Brings(evs[p], evs[k].appId, fd) && NotBroughtSince(evs, p, k, fd)
            && (QueuedSince(ws, evs, p, k, fd) <==> evs[p].msg.numPlane > 0 && CommitSince(evs, p, k))
  {
    AllTraceable(ws, evs, k, i);
    DestinationCloses(ws[k], evs[k].msg, i);
    var s := ws[k].slots[i];
    p :| 0 <= p < k && Traced(ws, evs, p, k, s.appId, s.back, s.isNewData);
  }
}
