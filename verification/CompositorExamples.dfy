/** Two short runs of the compositor: one that closes what is on display, and one that closes a
    destination descriptor after it was queued. */
module CompositorExamples {
  import opened Compositor
  import opened CompositorOwnership
  import opened CompositorDisplay
  import opened CompositorSuperseded
  import CompositorDestination

  const GOOD := Answers([(0, 1), (0, 2), (0, 3), (0, 4), (0, 5)], [0, 0, 0, 0, 0])

  // ----- what was received -----

  lemma NotReceivedNotOpen(w: World, fd: int)
    requires Inv(w) && fd > 0 && w.env.received[fd] == 0
    ensures fd !in w.env.open
  {
    assert BalancedAt(w, fd);
  }

  lemma CloseBackReceived(e: Env, d: OverlayData)
    requires |d.data| == 3
    ensures CloseBack(e, d).received == e.received
  {
    CloseUsedReceived(e, d.data, 3);
  }

  lemma {:induction false} CloseUsedReceived(e: Env, data: seq<int>, n: nat)
    requires n <= |data|
    ensures CloseUsed(e, data, n).received == e.received
  {
    if n > 0 { CloseUsedReceived(e, data, n - 1); }
  }

  lemma {:induction false} ClosePlanesReceived(e: Env, data: seq<int>, n: nat)
    requires n <= |data|
    ensures ClosePlanes(e, data, n).received == e.received
  {
    if n > 0 { ClosePlanesReceived(e, data, n - 1); }
  }

  lemma LayerReceived(w: World, i: nat, a: Answers)
    requires Shaped(w) && ValidAnswers(a) && i < LAYERS
    ensures CommitLayer(w, i, a).env.received == w.env.received
  {
    if w.slots[i].appId != 0 {
      var c := w.(slots := w.slots[i := Configure(w.slots[i], a.set_[i])]);
      if WantsQueue(c.slots[i]) {
        QueueLayerEnv(c, i, a.queue[i]);
        var s := c.slots[i];
        ClosePlanesReceived(if s.status == 0 then QueueEnv(c.env, i, s) else c.env, s.front.data, s.front.numPlane);
      }
    }
  }

  lemma {:induction false} LayersReceived(w: World, n: nat, a: Answers)
    requires Shaped(w) && ValidAnswers(a) && n <= LAYERS
    ensures CommitLayers(w, n, a).env.received == w.env.received
  {
    if n > 0 {
      LayersReceived(w, n - 1, a);
      LayerReceived(CommitLayers(w, n - 1, a), n - 1, a);
    }
  }

  lemma {:induction false} SwapsReceived(w: World, n: nat)
    requires Shaped(w) && n <= LAYERS
    ensures SwapLayers(w, n).env.received == w.env.received
  {
    if n > 0 { SwapsReceived(w, n - 1); }
  }

  lemma CommitReceived(w: World, a: Answers)
    requires Shaped(w) && ValidAnswers(a)
    ensures CommitStep(w, a).env.received == w.env.received
  {
    LayersReceived(w, LAYERS, a);
    SwapsReceived(CommitLayers(w, LAYERS, a), LAYERS);
  }

  // ----- a run for application 1 on the first video slot -----

  /** A run to w in which application 1 owns slot 0 and only descriptors below `next` came in. */
  ghost predicate RunTo(ws: seq<World>, evs: seq<Event>, w: World, next: int) {
    && Run(ws, evs) && ws[|evs|] == w && Inv(w) && Smooth(w) && ShownAt(w, 0)
    && w.slots[0].appId == 1 && forall fd :: fd >= next ==> w.env.received[fd] == 0
  }

  lemma Extend(ws: seq<World>, evs: seq<Event>, w: World, ev: Event) returns (ws': seq<World>, evs': seq<Event>)
    requires Run(ws, evs) && ws[|evs|] == w && Shaped(w) && Legal(w, ev)
    ensures evs' == evs + [ev] && Run(ws', evs') && ws' == ws + [Next(w, ev)]
  {
    ws', evs' := ws + [Next(w, ev)], evs + [ev];
  }

  lemma Registered() returns (ws: seq<World>, evs: seq<Event>, w: World)
    ensures RunTo(ws, evs, w, 1) && evs == [EvSet(1, PipeVideo, 7)] && w.env.shown[0] == []
    ensures !w.slots[0].isNewData && !HasPlane(w.slots[0].back) && w.slots[0].back.dst == 0
  {
    StartInv();
    var ev := EvSet(1, PipeVideo, 7);
    assert FindRegistered(START.slots, 1) == SLOTS by { NobodyRegistered(); }
    assert FindEmpty(START.slots, PipeVideo) == 0;
    ws, evs := Extend([START], [], START, ev);
    w := Next(START, ev);
    NextKeeps(START, ev);
  }

  lemma NobodyRegistered()
    ensures FindRegistered(START.slots, 1) == SLOTS
  {
    assert forall j :: 0 <= j < SLOTS ==> START.slots[j].appId == 0;
  }

  /** A message whose descriptors are next, next + 1, ... */
  ghost predicate Numbered(m: PlayMsg, next: int) {
    ValidMsg(m) && next > 0 && forall i :: 0 <= i < |m.fds| ==> m.fds[i] == next + i
  }

  lemma NumberedFresh(w: World, m: PlayMsg, next: int)
    requires Inv(w) && Numbered(m, next) && forall fd :: fd >= next ==> w.env.received[fd] == 0
    ensures FreshMsg(w.env, m)
  {
    forall i | 0 <= i < |m.fds|
      ensures m.fds[i] > 0 && m.fds[i] !in w.env.open
    {
      NotReceivedNotOpen(w, m.fds[i]);
    }
  }

  lemma PlayReceived(w: World, m: PlayMsg, next: int)
    requires Inv(w) && w.slots[0].appId == 1 && Numbered(m, next)
    requires forall fd :: fd >= next ==> w.env.received[fd] == 0
    ensures forall fd :: fd >= next + |m.fds| ==> PlayStep(w, 1, m).1.env.received[fd] == 0
  {
    RegisteredAt(w.slots, 0);
    CloseBackReceived(Receive(w.env, m.fds), w.slots[0].back);
    assert forall fd :: fd >= next + |m.fds| ==> fd !in m.fds;
  }

  lemma PlayedSlot(w: World, m: PlayMsg)
    requires Inv(w) && w.slots[0].appId == 1 && ValidMsg(m)
    ensures var t := PlayStep(w, 1, m).1.slots[0];
            t.appId == 1 && t.front == w.slots[0].front && t.back == Request(m, w.slots[0].ovId) && t.isNewData
  {
    RegisteredAt(w.slots, 0);
  }

  /** A PLAY that finds nothing on display, or the display in front. */
  lemma Played(ws: seq<World>, evs: seq<Event>, w: World, next: int, m: PlayMsg)
    returns (ws': seq<World>, evs': seq<Event>, w': World)
    requires RunTo(ws, evs, w, next) && Numbered(m, next)
    requires w.env.shown[0] == [] || w.env.idle[0] % 2 == 1
    ensures evs' == evs + [EvPlay(1, m)] && RunTo(ws', evs', w', next + |m.fds|)
    ensures ws' == ws + [w'] && w' == PlayStep(w, 1, m).1
    ensures w'.env.shown == w.env.shown && w'.env.idle == w.env.idle
  {
    NumberedFresh(w, m, next);
    var ev := EvPlay(1, m);
    ws', evs' := Extend(ws, evs, w, ev);
    w' := Next(w, ev);
    NextKeeps(w, ev);
    PlayReceived(w, m, next);
    PlayedSlot(w, m);
    PlayedSmooth(w, m);
    if w.env.shown[0] != [] { PlayHitsDisplayedIff(w, 0, m); }
  }

  lemma PlayedSmooth(w: World, m: PlayMsg)
    requires Inv(w) && Smooth(w) && ValidMsg(m)
    ensures Smooth(PlayStep(w, 1, m).1)
  {
  }

  lemma Committed(ws: seq<World>, evs: seq<Event>, w: World, next: int)
    returns (ws': seq<World>, evs': seq<Event>, w': World)
    requires RunTo(ws, evs, w, next)
    ensures evs' == evs + [EvCommit(GOOD)] && RunTo(ws', evs', w', next)
    ensures ws' == ws + [w'] && w' == CommitStep(w, GOOD)
    ensures Queues(w, 0) ==> w'.env.shown[0] == Planes(w.slots[0].back) && w'.env.idle[0] == 1
  {
    var ev := EvCommit(GOOD);
    ws', evs' := Extend(ws, evs, w, ev);
    w' := Next(w, ev);
    CommitShown(w, GOOD, 0);
    CommitSlot(w, GOOD, 0);
    CommitReceived(w, GOOD);
  }

  const FIRST := PlayMsg(1, false, [1])
  const SECOND := PlayMsg(1, false, [2])
  const NOTHING := PlayMsg(0, false, [])
  const THIRD := PlayMsg(1, false, [3])

  /** SET, a PLAY with a plane and a commit: the plane is on display. */
  lemma OnePlaneShown() returns (ws: seq<World>, evs: seq<Event>, w: World)
    ensures evs == [EvSet(1, PipeVideo, 7), EvPlay(1, FIRST), EvCommit(GOOD)]
    ensures RunTo(ws, evs, w, 2) && w.env.shown[0] == [1] && w.env.idle[0] == 1
  {
    ws, evs, w := Registered();
    ws, evs, w := Played(ws, evs, w, 1, FIRST);
    var p := w.slots[0].back;
    FirstBack(w);
    ws, evs, w := Committed(ws, evs, w, 2);
  }

  lemma FirstBack(w: World)
    requires Shaped(w) && w.slots[0].appId == 1 && w.slots[0].isNewData
    requires exists id :: w.slots[0].back == Request(FIRST, id)
    ensures Queues(w, 0) && Planes(w.slots[0].back) == [1]
  {
  }

  /** Then a PLAY with a plane and one without: the next commit has nothing to queue. */
  lemma NothingToQueue() returns (ws: seq<World>, evs: seq<Event>, w: World)
    ensures evs == [EvSet(1, PipeVideo, 7), EvPlay(1, FIRST), EvCommit(GOOD), EvPlay(1, SECOND), EvPlay(1, NOTHING)]
    ensures RunTo(ws, evs, w, 3) && w.env.shown[0] == [1] && w.env.idle[0] == 1 && !WantsQueue(w.slots[0])
  {
    ws, evs, w := OnePlaneShown();
    ws, evs, w := Played(ws, evs, w, 2, SECOND);
    var before := w;
    ws, evs, w := Played(ws, evs, w, 3, NOTHING);
    PlayedSlot(before, NOTHING);
  }

  /** After that commit the next PLAY closes what is on display. */
  lemma DisplayClosed() returns (ws: seq<World>, evs: seq<Event>)
    ensures evs == [EvSet(1, PipeVideo, 7), EvPlay(1, FIRST), EvCommit(GOOD),
                    EvPlay(1, SECOND), EvPlay(1, NOTHING), EvCommit(GOOD), EvPlay(1, THIRD)]
    ensures Run(ws, evs) && Shaped(ws[7]) && ws[7].env.shown[0] != [] && !OnDisplay(ws[7], 0)
  {
    var w, c;
    ws, evs, w := NothingToQueue();
    ws, evs, c := Committed(ws, evs, w, 3);
    NumberedFresh(c, THIRD, 3);
    CommitShown(w, GOOD, 0);
    NextPlayHarmlessIff(w, 0, GOOD, THIRD);
    ws, evs := Extend(ws, evs, c, EvPlay(1, THIRD));
  }

  // ----- destination descriptors -----

  const ROTATED := PlayMsg(1, true, [1, 2])
  const FOURTH := PlayMsg(1, false, [4])

  /** A PLAY with a plane and a destination, and the commit that queues both. */
  lemma DestinationQueued() returns (ws: seq<World>, evs: seq<Event>, w: World)
    ensures evs == [EvSet(1, PipeVideo, 7), EvPlay(1, ROTATED), EvCommit(GOOD)] && RunTo(ws, evs, w, 3)
    ensures Shaped(ws[2]) && Queues(ws[2], 0) && 2 in Named(ws[2].slots[0].back)
    ensures w.env.shown[0] != [] && w.env.idle[0] == 1 && w.slots[0].front.dst == 2
  {
    ws, evs, w := Registered();
    var before := w;
    ws, evs, w := Played(ws, evs, w, 1, ROTATED);
    PlayedSlot(before, ROTATED);
    CommitSlot(w, GOOD, 0);
    ws, evs, w := Committed(ws, evs, w, 3);
  }

  /** The next commit closes the plane and leaves the destination in the back buffer. */
  lemma DestinationLeft() returns (ws: seq<World>, evs: seq<Event>, w: World)
    ensures evs == [EvSet(1, PipeVideo, 7), EvPlay(1, ROTATED), EvCommit(GOOD), EvPlay(1, THIRD), EvCommit(GOOD)]
    ensures RunTo(ws, evs, w, 4)
    ensures Shaped(ws[2]) && Queues(ws[2], 0) && 2 in Named(ws[2].slots[0].back)
    ensures w.slots[0].back.dst == 2
  {
    ws, evs, w := DestinationQueued();
    var before := w;
    ws, evs, w := Played(ws, evs, w, 3, THIRD);
    PlayedSlot(before, THIRD);
    CommitSlot(w, GOOD, 0);
    ws, evs, w := Committed(ws, evs, w, 4);
  }

  /** A destination descriptor is queued with its plane, stays in the slot when the plane is spent,
      and is closed by a later PLAY: superseded, but not unqueued. */
  lemma DestinationClosed() returns (ws: seq<World>, evs: seq<Event>)
    ensures evs == [EvSet(1, PipeVideo, 7), EvPlay(1, ROTATED), EvCommit(GOOD),
                    EvPlay(1, THIRD), EvCommit(GOOD), EvPlay(1, FOURTH)]
    ensures Run(ws, evs) && Shaped(ws[2]) && Queues(ws[2], 0) && 2 in Named(ws[2].slots[0].back)
    ensures 2 in ws[5].env.open && 2 !in ws[6].env.open
  {
    var w;
    ws, evs, w := DestinationLeft();
    NumberedFresh(w, FOURTH, 4);
    CompositorDestination.DestinationCloses(w, FOURTH, 0);
    ws, evs := Extend(ws, evs, w, EvPlay(1, FOURTH));
  }
}
