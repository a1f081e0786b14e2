/** When a buffer on display stays open.  Runs here have every driver call succeed. */
module CompositorDisplay {
  import opened Compositor
  import opened CompositorOwnership

  ghost predicate Smooth(w: World)
    requires Shaped(w)
  {
    forall i :: 0 <= i < LAYERS ==> w.slots[i].status == 0
  }

  ghost predicate AllSucceed(a: Answers) {
    ValidAnswers(a) && forall i :: 0 <= i < LAYERS ==> a.set_[i].0 == 0 && a.queue[i] == 0
  }

  function Planes(d: OverlayData): seq<int>
    requires d.numPlane <= |d.data|
  {
    d.data[..d.numPlane]
  }

  /** The planes last queued for layer i sit in its front buffer after an odd number of swaps
      and in its back buffer after an even number. */
  ghost predicate ShownAt(w: World, i: nat)
    requires Shaped(w) && i < LAYERS
  {
    w.env.shown[i] != [] ==>
      && w.env.shown[i] == Planes(if w.env.idle[i] % 2 == 1 then w.slots[i].front else w.slots[i].back)
      && w.env.shown[i][0] > 0
  }

  ghost predicate OnDisplay(w: World, i: nat)
    requires Shaped(w) && i < LAYERS
  {
    forall fd :: fd in w.env.shown[i] ==> fd in w.env.open
  }

  /** Planes found where they were left are open. */
  lemma ShownOpen(w: World, i: nat)
    requires Inv(w) && i < LAYERS && ShownAt(w, i)
    ensures OnDisplay(w, i)
  {
    var d := if w.env.idle[i] % 2 == 1 then w.slots[i].front else w.slots[i].back;
    forall fd | fd in w.env.shown[i]
      ensures fd in w.env.open
    {
      var j :| 0 <= j < |w.env.shown[i]| && w.env.shown[i][j] == fd;
      assert d.data[0] == w.env.shown[i][0] && DataAt(d, j) == fd;
      if w.env.idle[i] % 2 == 1 { FrontOpen(w, i, j); } else { BackOpen(w, i, j); }
    }
  }

  // ----- the commit -----

  lemma ConfigureSmooth(s: Overlay, answer: (int, int))
    requires s.status == 0 && answer.0 == 0
    ensures var c := Configure(s, answer);
            c.status == 0 && c.appId == s.appId && c.front == s.front && c.back == s.back && c.isNewData == s.isNewData
  {
  }

  ghost predicate Queues(w: World, i: nat)
    requires Shaped(w) && i < LAYERS
  {
    w.slots[i].appId != 0 && WantsQueue(w.slots[i])
  }

  /** The pass over layer i queues its back buffer, which becomes the displayed one, or leaves
      its buffers and its count alone. */
  lemma LayerOwn(w: World, i: nat, a: Answers)
    requires Shaped(w) && Smooth(w) && AllSucceed(a) && i < LAYERS
    ensures var w' := CommitLayer(w, i, a);
            && w'.slots[i].appId == w.slots[i].appId && SameHoldings(w.slots[i].back, w'.slots[i].back)
            && if Queues(w, i) then w'.env.shown[i] == Planes(w.slots[i].back) && w'.env.idle[i] == 0
               else && w'.slots[i].front == w.slots[i].front
                    && w'.env.shown[i] == w.env.shown[i] && w'.env.idle[i] == w.env.idle[i]
  {
    if w.slots[i].appId != 0 {
      ConfigureSmooth(w.slots[i], a.set_[i]);
      var c := w.(slots := w.slots[i := Configure(w.slots[i], a.set_[i])]);
      if WantsQueue(c.slots[i]) {
        QueueLayerEnv(c, i, a.queue[i]);
        ClosePlanesKeeps(QueueEnv(c.env, i, c.slots[i]), c.slots[i].front.data, c.slots[i].front.numPlane);
        QueueLayerSlots(c, i, a.queue[i]);
      }
    }
  }

  /** Other layers are left alone. */
  lemma LayerOther(w: World, i: nat, a: Answers, j: nat)
    requires Shaped(w) && Smooth(w) && AllSucceed(a) && i < LAYERS && j < LAYERS && j != i
    ensures var w' := CommitLayer(w, i, a);
            && w'.slots[j] == w.slots[j]
            && w'.env.shown[j] == w.env.shown[j] && w'.env.idle[j] == w.env.idle[j]
  {
    if w.slots[i].appId != 0 {
      ConfigureSmooth(w.slots[i], a.set_[i]);
      var c := w.(slots := w.slots[i := Configure(w.slots[i], a.set_[i])]);
      if WantsQueue(c.slots[i]) {
        QueueLayerEnv(c, i, a.queue[i]);
        ClosePlanesKeeps(QueueEnv(c.env, i, c.slots[i]), c.slots[i].front.data, c.slots[i].front.numPlane);
        QueueLayerSlots(c, i, a.queue[i]);
        assert w.slots[j].(status := 0) == w.slots[j];
      }
    }
  }

  lemma LayerSmooth(w: World, i: nat, a: Answers)
    requires Shaped(w) && Smooth(w) && AllSucceed(a) && i < LAYERS
    ensures Smooth(CommitLayer(w, i, a))
  {
    if w.slots[i].appId != 0 {
      ConfigureSmooth(w.slots[i], a.set_[i]);
      var c := w.(slots := w.slots[i := Configure(w.slots[i], a.set_[i])]);
      if WantsQueue(c.slots[i]) { QueueLayerSlots(c, i, a.queue[i]); }
    }
  }

  lemma QueueLayerSlots(w: World, i: nat, answer: int)
    requires Shaped(w) && i < LAYERS && w.slots[i].status == 0 && answer == 0
    ensures var s := QueueLayer(w, i, answer).slots;
            && SameHoldings(w.slots[i].back, s[i].back) && s[i].appId == w.slots[i].appId && s[i].status == 0
            && forall j :: 0 <= j < SLOTS && j != i ==> s[j] == w.slots[j] || s[j] == w.slots[j].(status := 0)
  {
  }

  lemma BackPositive(w: World, i: nat)
    requires Shaped(w) && SlotsOk(w) && i < LAYERS && WantsQueue(w.slots[i]) && Planes(w.slots[i].back) != []
    ensures Planes(w.slots[i].back)[0] > 0
  {
  }

  lemma LayerKeepsShown(w: World, i: nat, a: Answers, j: nat)
    requires Shaped(w) && SlotsOk(w) && Smooth(w) && AllSucceed(a) && i < LAYERS && j < LAYERS && ShownAt(w, j)
    ensures ShownAt(CommitLayer(w, i, a), j)
  {
    if j == i {
      LayerOwn(w, i, a);
      if Queues(w, i) && Planes(w.slots[i].back) != [] { BackPositive(w, i); }
    } else {
      LayerOther(w, i, a, j);
    }
  }

  /** p is w after the first n layer passes, as far as layer j goes. */
  ghost predicate Passed(w: World, p: World, n: nat, j: nat)
    requires Shaped(w) && Shaped(p) && j < LAYERS
  {
    && p.slots[j].appId == w.slots[j].appId
    && (n <= j ==> p.slots[j] == w.slots[j])
    && if j < n && Queues(w, j) then p.env.idle[j] == 0
       else p.env.shown[j] == w.env.shown[j] && p.env.idle[j] == w.env.idle[j]
  }

  lemma PassStep(w: World, p: World, n: nat, a: Answers, j: nat)
    requires Shaped(w) && Shaped(p) && Smooth(p) && AllSucceed(a) && n < LAYERS && j < LAYERS && Passed(w, p, n, j)
    ensures Passed(w, CommitLayer(p, n, a), n + 1, j)
  {
    if j == n {
      LayerOwn(p, n, a);
    } else {
      LayerOther(p, n, a, j);
    }
  }

  lemma {:induction false} SmoothLayers(w: World, n: nat, a: Answers)
    requires Shaped(w) && Smooth(w) && AllSucceed(a) && n <= LAYERS
    ensures Smooth(CommitLayers(w, n, a))
  {
    if n > 0 {
      SmoothLayers(w, n - 1, a);
      LayerSmooth(CommitLayers(w, n - 1, a), n - 1, a);
    }
  }

  lemma LayersSmooth(w: World, n: nat, a: Answers)
    requires Inv(w) && Smooth(w) && AllSucceed(a) && n <= LAYERS
    ensures Inv(CommitLayers(w, n, a)) && Smooth(CommitLayers(w, n, a))
  {
    CommitLayersKeep(w, n, a);
    SmoothLayers(w, n, a);
  }

  lemma {:induction false} LayersShown(w: World, n: nat, a: Answers, j: nat)
    requires Inv(w) && Smooth(w) && AllSucceed(a) && n <= LAYERS && j < LAYERS && ShownAt(w, j)
    ensures ShownAt(CommitLayers(w, n, a), j)
  {
    if n > 0 {
      LayersShown(w, n - 1, a, j);
      LayersSmooth(w, n - 1, a);
      LayerKeepsShown(CommitLayers(w, n - 1, a), n - 1, a, j);
    }
  }

  lemma {:induction false} LayersPassed(w: World, n: nat, a: Answers, j: nat)
    requires Inv(w) && Smooth(w) && AllSucceed(a) && n <= LAYERS && j < LAYERS
    ensures Passed(w, CommitLayers(w, n, a), n, j)
  {
    if n > 0 {
      LayersPassed(w, n - 1, a, j);
      LayersSmooth(w, n - 1, a);
      PassStep(w, CommitLayers(w, n - 1, a), n - 1, a, j);
    }
  }

  lemma SwapShown(w: World, i: nat, j: nat)
    requires Shaped(w) && i < LAYERS && j < LAYERS && ShownAt(w, j)
    ensures ShownAt(SwapLayer(w, i), j)
  {
  }

  lemma {:induction false} SwapsShown(w: World, n: nat, j: nat)
    requires Shaped(w) && n <= LAYERS && j < LAYERS && ShownAt(w, j)
    ensures ShownAt(SwapLayers(w, n), j)
  {
    if n > 0 {
      SwapsShown(w, n - 1, j);
      SwapShown(SwapLayers(w, n - 1), n - 1, j);
    }
  }

  lemma SwapCount(w: World, i: nat, j: nat)
    requires Shaped(w) && i < LAYERS && j < LAYERS
    ensures var w' := SwapLayer(w, i);
            && w'.env.shown == w.env.shown
            && w'.slots[j].appId == w.slots[j].appId && w'.slots[j].status == w.slots[j].status
            && w'.env.idle[j] == w.env.idle[j] + if j == i && w.slots[j].appId != 0 then 1 else 0
  {
  }

  lemma {:induction false} SwapsCount(w: World, n: nat, j: nat)
    requires Shaped(w) && n <= LAYERS && j < LAYERS
    ensures var w' := SwapLayers(w, n);
            && w'.env.shown == w.env.shown
            && w'.slots[j].appId == w.slots[j].appId && w'.slots[j].status == w.slots[j].status
            && w'.env.idle[j] == w.env.idle[j] + if j < n && w.slots[j].appId != 0 then 1 else 0
  {
    if n > 0 {
      var p := SwapLayers(w, n - 1);
      SwapsCount(w, n - 1, j);
      SwapCount(p, n - 1, j);
      assert SwapLayers(w, n) == SwapLayer(p, n - 1);
    }
  }

  /** A successful commit keeps the displayed planes of every layer where the swap count says,
      and restarts the count exactly for the layers it queues. */
  lemma CommitShown(w: World, a: Answers, j: nat)
    requires Inv(w) && Smooth(w) && AllSucceed(a) && j < LAYERS && ShownAt(w, j)
    ensures var w' := CommitStep(w, a);
            && Inv(w') && Smooth(w') && ShownAt(w', j) && w'.slots[j].appId == w.slots[j].appId
            && if Queues(w, j) then w'.env.idle[j] == 1
               else w'.env.shown[j] == w.env.shown[j]
                    && w'.env.idle[j] == w.env.idle[j] + if w.slots[j].appId != 0 then 1 else 0
  {
    LayersSmooth(w, LAYERS, a);
    LayersShown(w, LAYERS, a, j);
    LayersPassed(w, LAYERS, a, j);
    CommitKeeps(w, a);
    var c := CommitLayers(w, LAYERS, a);
    SwapsShown(c, LAYERS, j);
    forall i | 0 <= i < LAYERS
      ensures SwapLayers(c, LAYERS).slots[i].status == 0
    {
      SwapsCount(c, LAYERS, i);
    }
    SwapsCount(c, LAYERS, j);
  }

  // ----- PLAY -----

  /** A PLAY for layer i closes its displayed planes exactly when they were swapped an even
      number of times, and otherwise leaves them on display. */
  lemma PlayHitsDisplayedIff(w: World, i: nat, m: PlayMsg)
    requires Inv(w) && i < LAYERS && ShownAt(w, i) && w.env.shown[i] != []
    requires w.slots[i].appId != 0 && FreshMsg(w.env, m)
    ensures var w' := PlayStep(w, w.slots[i].appId, m).1;
            && (OnDisplay(w', i) <==> w.env.idle[i] % 2 == 1)
            && (w.env.idle[i] % 2 == 1 ==> ShownAt(w', i))
  {
    RegisteredAt(w.slots, i);
    var s := w.slots[i];
    var e := Receive(w.env, m.fds);
    ShownOpen(w, i);
    BackHeldOpen(w, i, e);
    CloseBackCloses(e, s.back);
    var first := w.env.shown[i][0];
    assert first in w.env.shown[i];
    if w.env.idle[i] % 2 == 1 {
      FrontApart(w, i, m);
    } else {
      assert DataAt(s.back, 0) == first;
      DataHas(s.back, 0);
    }
  }

  lemma RegisteredAt(s: seq<Overlay>, i: nat)
    requires UniqueApps(s) && i < |s| && s[i].appId != 0
    ensures FindRegistered(s, s[i].appId) == i
  {
  }

  /** The front planes are not among what a PLAY closes. */
  lemma FrontApart(w: World, i: nat, m: PlayMsg)
    requires Inv(w) && i < LAYERS && FreshMsg(w.env, m)
    requires w.env.shown[i] == Planes(w.slots[i].front) && w.env.shown[i] != [] && w.env.shown[i][0] > 0
    ensures forall fd :: fd in w.env.shown[i] ==> fd in w.env.open && fd > 0 && DataCount(w.slots[i].back, fd) == 0
  {
    var f := w.slots[i].front;
    forall fd | fd in w.env.shown[i]
      ensures fd in w.env.open && fd > 0 && DataCount(w.slots[i].back, fd) == 0
    {
      var j :| 0 <= j < |w.env.shown[i]| && w.env.shown[i][j] == fd;
      assert f.data[0] == w.env.shown[i][0] && DataAt(f, j) == fd;
      FrontOpen(w, i, j);
      DataHas(f, j);
      HeldUpdate(w.slots, i, w.slots[i], fd);
      assert BalancedAt(w, fd);
    }
  }

  /** A PLAY for another slot, or a rejected one, leaves layer j alone. */
  lemma PlayElsewhere(w: World, appId: int, m: PlayMsg, j: nat)
    requires Inv(w) && appId != 0 && FreshMsg(w.env, m) && j < LAYERS && w.slots[j].appId != appId
    ensures var w' := PlayStep(w, appId, m).1;
            && w'.slots[j] == w.slots[j]
            && (ShownAt(w, j) ==> ShownAt(w', j))
  {
    var i := FindRegistered(w.slots, appId);
    if i < SLOTS {
      var e := Receive(w.env, m.fds);
      BackHeldOpen(w, i, e);
      CloseBackCloses(e, w.slots[i].back);
    }
  }

  /** Planes went on display in the last commit. After the next commit, a PLAY leaves them open
      exactly when that commit found new data to queue. */
  lemma NextPlayHarmlessIff(w: World, i: nat, a: Answers, m: PlayMsg)
    requires Inv(w) && Smooth(w) && AllSucceed(a) && i < LAYERS && ShownAt(w, i)
    requires w.slots[i].appId != 0 && w.env.shown[i] != [] && w.env.idle[i] == 1
    requires FreshMsg(CommitStep(w, a).env, m)
    ensures var c := CommitStep(w, a);
            Shaped(c) && (OnDisplay(PlayStep(c, w.slots[i].appId, m).1, i) <==> WantsQueue(w.slots[i]))
  {
    CommitShown(w, a, i);
    var c := CommitStep(w, a);
    if c.env.shown[i] != [] {
      PlayHitsDisplayedIff(c, i, m);
    }
  }

  // ----- runs that refresh -----

  /** Every driver call succeeds, nothing is unregistered, and each commit finds new data for
      every registered layer that has planes on display. */
  ghost predicate Refreshing(w: World, ev: Event)
    requires Shaped(w)
  {
    match ev
    case EvUnset(_) => false
    case EvCommit(a) =>
      AllSucceed(a) &&
      forall i :: 0 <= i < LAYERS && w.slots[i].appId != 0 && w.env.shown[i] != [] ==> WantsQueue(w.slots[i])
    case _ => true
  }

  ghost predicate Steady(w: World, i: nat)
    requires Shaped(w) && i < LAYERS
  {
    && ShownAt(w, i)
    && (w.env.shown[i] != [] ==> w.env.idle[i] == 1 && w.slots[i].appId != 0)
  }

  lemma NextSteady(w: World, ev: Event, i: nat)
    requires Inv(w) && Smooth(w) && Legal(w, ev) && Refreshing(w, ev) && i < LAYERS && Steady(w, i)
    requires Shaped(Next(w, ev))
    ensures Steady(Next(w, ev), i)
  {
    match ev {
      case EvSet(appId, pipe, id) =>
      case EvPlay(appId, m) =>
        if w.slots[i].appId != appId {
          PlayElsewhere(w, appId, m, i);
        } else if w.env.shown[i] != [] {
          PlayHitsDisplayedIff(w, i, m);
          RegisteredAt(w.slots, i);
        }
      case EvCommit(a) =>
        CommitShown(w, a, i);
        CommitQueuedRegistered(w, a, i);
    }
  }

  /** Only a registered layer is queued. */
  lemma CommitQueuedRegistered(w: World, a: Answers, i: nat)
    requires Inv(w) && Smooth(w) && AllSucceed(a) && i < LAYERS && ShownAt(w, i)
    ensures CommitStep(w, a).env.shown[i] != w.env.shown[i] ==> CommitStep(w, a).slots[i].appId != 0
  {
    CommitShown(w, a, i);
  }

  lemma NextSmooth(w: World, ev: Event)
    requires Inv(w) && Smooth(w) && Legal(w, ev) && Refreshing(w, ev)
    requires forall i :: 0 <= i < LAYERS ==> ShownAt(w, i)
    requires Shaped(Next(w, ev))
    ensures Smooth(Next(w, ev))
  {
    match ev {
      case EvCommit(a) => CommitShown(w, a, 0);
      case _ =>
    }
  }

  /** At every point of every refreshing run, whatever was last queued is still open. */
  lemma {:induction false} DisplayedStaysAlive(ws: seq<World>, evs: seq<Event>, n: nat)
    requires Run(ws, evs) && n < |ws|
    requires forall k :: 0 <= k < n ==> Refreshing(ws[k], evs[k])
    ensures Inv(ws[n]) && Smooth(ws[n])
    ensures forall i :: 0 <= i < LAYERS ==> Steady(ws[n], i) && OnDisplay(ws[n], i)
  {
    RunInv(ws, evs, n);
    if n == 0 {
      StartInv();
    } else {
      DisplayedStaysAlive(ws, evs, n - 1);
      NextKeeps(ws[n - 1], evs[n - 1]);
      var w := ws[n - 1];
      forall i | 0 <= i < LAYERS
        ensures ShownAt(w, i)
      {
        assert Steady(w, i);
      }
      NextSmooth(ws[n - 1], evs[n - 1]);
      forall i | 0 <= i < LAYERS
        ensures Steady(ws[n], i)
      {
        NextSteady(ws[n - 1], evs[n - 1], i);
      }
    }
    forall i | 0 <= i < LAYERS
      ensures OnDisplay(ws[n], i)
    {
      assert Steady(ws[n], i);
      ShownOpen(ws[n], i);
    }
  }

  // ----- what clients have to do -----

  /** An accepted PLAY leaves the next commit something to queue exactly when it has a plane. */
  lemma PlayWantsQueueIff(w: World, i: nat, m: PlayMsg)
    requires Inv(w) && i < LAYERS && w.slots[i].appId != 0 && FreshMsg(w.env, m)
    ensures var w' := PlayStep(w, w.slots[i].appId, m).1;
            w'.slots[i].appId == w.slots[i].appId && (WantsQueue(w'.slots[i]) <==> m.numPlane > 0)
  {
    RegisteredAt(w.slots, i);
  }

  /** An event that neither commits nor unregisters nor is a PLAY for the application of layer i. */
  ghost predicate Quiet(w: World, ev: Event, i: nat)
    requires Shaped(w) && i < LAYERS
  {
    !ev.EvCommit? && !ev.EvUnset? && (ev.EvPlay? ==> ev.appId != w.slots[i].appId)
  }

  lemma QuietKeeps(w: World, ev: Event, i: nat)
    requires Inv(w) && Legal(w, ev) && i < LAYERS && Quiet(w, ev, i) && w.slots[i].appId != 0
    requires Shaped(Next(w, ev))
    ensures Next(w, ev).slots[i].appId == w.slots[i].appId
    ensures WantsQueue(w.slots[i]) ==> WantsQueue(Next(w, ev).slots[i])
  {
    match ev {
      case EvSet(appId, pipe, id) =>
      case EvPlay(appId, m) => PlayElsewhere(w, appId, m, i);
    }
  }

  /** Nothing from m to k disturbs layer i. */
  ghost predicate QuietFrom(ws: seq<World>, evs: seq<Event>, m: nat, k: nat, i: nat)
    requires Run(ws, evs) && k <= |evs| && i < LAYERS
  {
    forall q {:trigger evs[q]} :: m <= q < k ==> Quiet(ws[q], evs[q], i)
  }

  /** Event p is an accepted PLAY with a plane for layer i, and nothing up to k disturbs it. */
  ghost predicate Feeds(ws: seq<World>, evs: seq<Event>, p: nat, k: nat, i: nat)
    requires Run(ws, evs) && p < k < |evs| && i < LAYERS
  {
    && evs[p].EvPlay? && evs[p].appId == ws[p].slots[i].appId && evs[p].msg.numPlane > 0
    && QuietFrom(ws, evs, p + 1, k, i)
  }

  ghost predicate Waiting(w: World, i: nat)
    requires i < LAYERS
  {
    Shaped(w) && w.slots[i].appId != 0 && WantsQueue(w.slots[i])
  }

  lemma PlayedAt(ws: seq<World>, evs: seq<Event>, p: nat, next: nat, i: nat)
    requires Run(ws, evs) && p < |evs| && next == p + 1 && i < LAYERS
    requires evs[p].EvPlay? && evs[p].appId == ws[p].slots[i].appId && evs[p].msg.numPlane > 0
    ensures Waiting(ws[next], i)
  {
    RunInv(ws, evs, p);
    PlayWantsQueueIff(ws[p], i, evs[p].msg);
  }

  lemma QuietAt(ws: seq<World>, evs: seq<Event>, q: nat, next: nat, i: nat)
    requires Run(ws, evs) && q < |evs| && next == q + 1 && i < LAYERS
    requires Quiet(ws[q], evs[q], i) && Waiting(ws[q], i)
    ensures Waiting(ws[next], i)
  {
    RunInv(ws, evs, q);
    QuietKeeps(ws[q], evs[q], i);
  }

  lemma {:induction false} WaitingStays(ws: seq<World>, evs: seq<Event>, m: nat, k: nat, i: nat)
    requires Run(ws, evs) && m <= k < |evs| && i < LAYERS && QuietFrom(ws, evs, m, k, i) && Waiting(ws[m], i)
    ensures Waiting(ws[k], i)
    decreases k
  {
    if m < k {
      WaitingStays(ws, evs, m, k - 1, i);
      QuietAt(ws, evs, k - 1, k, i);
    }
  }

  lemma FedUntil(ws: seq<World>, evs: seq<Event>, p: nat, k: nat, i: nat)
    requires Run(ws, evs) && p < k < |evs| && i < LAYERS && Feeds(ws, evs, p, k, i)
    ensures Waiting(ws[k], i)
  {
    PlayedAt(ws, evs, p, p + 1, i);
    WaitingStays(ws, evs, p + 1, k, i);
  }

  /** Since its last PLAY with a plane nothing disturbed layer i. */
  ghost predicate Fed(ws: seq<World>, evs: seq<Event>, k: nat, i: nat)
    requires Run(ws, evs) && k < |evs| && i < LAYERS
  {
    exists p :: 0 <= p < k && Feeds(ws, evs, p, k, i)
  }

  /** What the clients promise: nobody unregisters, and for each registered layer with planes on
      display the last PLAY since the commit before has a plane.  The driver calls succeed. */
  ghost predicate WellFed(ws: seq<World>, evs: seq<Event>, k: nat)
    requires Run(ws, evs) && k < |evs|
  {
    && !evs[k].EvUnset?
    && (evs[k].EvCommit? ==>
          && AllSucceed(evs[k].answers)
          && forall i ::
               0 <= i < LAYERS && ws[k].slots[i].appId != 0 && ws[k].env.shown[i] != [] ==> Fed(ws, evs, k, i))
  }

  lemma WellFedRefreshes(ws: seq<World>, evs: seq<Event>, k: nat)
    requires Run(ws, evs) && k < |evs| && WellFed(ws, evs, k)
    ensures Refreshing(ws[k], evs[k])
  {
    if evs[k].EvCommit? {
      forall i | 0 <= i < LAYERS && ws[k].slots[i].appId != 0 && ws[k].env.shown[i] != []
        ensures WantsQueue(ws[k].slots[i])
      {
        var p :| 0 <= p < k && Feeds(ws, evs, p, k, i);
        FedUntil(ws, evs, p, k, i);
      }
    }
  }

  /** A displayed buffer stays alive: while the clients feed every layer on display, whatever was
      last queued is open at every point of the run. */
  lemma FedDisplayStaysAlive(ws: seq<World>, evs: seq<Event>, n: nat)
    requires Run(ws, evs) && n < |ws|
    requires forall k :: 0 <= k < n ==> WellFed(ws, evs, k)
    ensures forall i :: 0 <= i < LAYERS ==> Shaped(ws[n]) && OnDisplay(ws[n], i)
  {
    forall k | 0 <= k < n
      ensures Refreshing(ws[k], evs[k])
    {
      WellFedRefreshes(ws, evs, k);
    }
    DisplayedStaysAlive(ws, evs, n);
  }
}
