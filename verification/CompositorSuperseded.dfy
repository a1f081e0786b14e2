/** Which planes a PLAY closes: in well-fed runs only those of a PLAY since the last commit, which
    were never queued. */
module CompositorSuperseded {
  import opened Compositor
  import opened CompositorOwnership
  import opened CompositorDisplay

  // ----- a layer across a commit -----

  /** What the queueing pass makes of slot s: t. */
  ghost predicate PassedOver(s: Overlay, queued: bool, t: Overlay)
    requires |s.front.data| == 3 && s.front.numPlane <= 3
  {
    && t.appId == s.appId && SameHoldings(s.back, t.back)
    && if queued then t.front == Spend(s.front) && !t.isNewData
       else t.front == s.front && t.isNewData == s.isNewData
  }

  lemma LayerOwnSlot(w: World, i: nat, a: Answers)
    requires Shaped(w) && Smooth(w) && AllSucceed(a) && i < LAYERS
    ensures PassedOver(w.slots[i], Queues(w, i), CommitLayer(w, i, a).slots[i])
    ensures Queues(w, i) ==> CommitLayer(w, i, a).env.shown[i] == Planes(w.slots[i].back)
  {
    LayerOwn(w, i, a);
    if w.slots[i].appId != 0 {
      ConfigureSmooth(w.slots[i], a.set_[i]);
      var c := w.(slots := w.slots[i := Configure(w.slots[i], a.set_[i])]);
      if WantsQueue(c.slots[i]) { QueuedSlot(c, i, a.queue[i]); }
    }
  }

  lemma QueuedSlot(w: World, i: nat, answer: int)
    requires Shaped(w) && i < LAYERS
    ensures var t := QueueLayer(w, i, answer).slots[i];
            t.appId == w.slots[i].appId && SameHoldings(w.slots[i].back, t.back)
            && t.front == Spend(w.slots[i].front) && !t.isNewData
  {
  }

  /** Slot j after the passes over the first n layers. */
  ghost predicate PassedSlot(w: World, p: World, n: nat, j: nat)
    requires Shaped(w) && Shaped(p) && j < LAYERS
  {
    if j < n then
      && PassedOver(w.slots[j], Queues(w, j), p.slots[j])
      && (Queues(w, j) ==> p.env.shown[j] == Planes(w.slots[j].back))
    else p.slots[j] == w.slots[j]
  }

  lemma PassedStep(w: World, p: World, n: nat, a: Answers, j: nat)
    requires Shaped(w) && Shaped(p) && Smooth(p) && AllSucceed(a) && n < LAYERS && j < LAYERS && PassedSlot(w, p, n, j)
    ensures PassedSlot(w, CommitLayer(p, n, a), n + 1, j)
  {
    if j == n {
      LayerOwnSlot(p, n, a);
    } else {
      LayerOther(p, n, a, j);
    }
  }

  lemma {:induction false} PassedSlots(w: World, n: nat, a: Answers, j: nat)
    requires Inv(w) && Smooth(w) && AllSucceed(a) && n <= LAYERS && j < LAYERS
    ensures PassedSlot(w, CommitLayers(w, n, a), n, j)
  {
    if n > 0 {
      var p := CommitLayers(w, n - 1, a);
      PassedSlots(w, n - 1, a, j);
      LayersSmooth(w, n - 1, a);
      PassedStep(w, p, n - 1, a, j);
    }
  }

  lemma SwapSlot(p: World, n: nat, j: nat)
    requires Shaped(p) && n < LAYERS && j < LAYERS
    ensures var t := SwapLayer(p, n);
            && t.slots[j] == (if j == n && p.slots[j].appId != 0 then Swapped(p.slots[j]) else p.slots[j])
            && t.env.shown == p.env.shown
  {
  }

  lemma {:induction false} SwappedSlots(w: World, n: nat, j: nat)
    requires Shaped(w) && n <= LAYERS && j < LAYERS
    ensures SwapLayers(w, n).slots[j] == if j < n && w.slots[j].appId != 0 then Swapped(w.slots[j]) else w.slots[j]
    ensures SwapLayers(w, n).env.shown == w.env.shown
  {
    if n > 0 {
      SwappedSlots(w, n - 1, j);
      SwapSlot(SwapLayers(w, n - 1), n - 1, j);
    }
  }

  /** A successful commit on slot j: a queued layer's front buffer holds what it queued and its back
      buffer what it had displayed, spent; any other registered layer's buffers change places. */
  lemma CommitSlot(w: World, a: Answers, j: nat)
    requires Inv(w) && Smooth(w) && AllSucceed(a) && j < LAYERS
    ensures var s, w' := w.slots[j], CommitStep(w, a);
            var t := w'.slots[j];
            && t.appId == s.appId
            && (s.appId == 0 ==> SameHoldings(s.back, t.back) && t.front == s.front && t.isNewData == s.isNewData)
            && (s.appId != 0 ==> SameHoldings(s.back, t.front))
            && (Queues(w, j) ==> t.back == Spend(s.front) && !t.isNewData && w'.env.shown[j] == Planes(s.back))
            && (s.appId != 0 && !Queues(w, j) ==> t.back == s.front && t.isNewData == s.isNewData)
  {
    PassedSlots(w, LAYERS, a, j);
    SwappedSlots(CommitLayers(w, LAYERS, a), LAYERS, j);
  }

  // ----- the buffers of a layer in refreshing runs -----

  /** A plane descriptor is in the buffer. */
  predicate HasPlane(d: OverlayData)
    requires d.numPlane <= |d.data|
  {
    d.numPlane > 0 && d.data[0] > 0
  }

  /** An unregistered layer has no planes, one with nothing on display none in front, and planes
      in back are new. */
  ghost predicate Orderly(w: World, i: nat)
    requires Shaped(w) && i < LAYERS
  {
    var s := w.slots[i];
    && (s.appId == 0 || w.env.shown[i] == [] ==> !HasPlane(s.front))
    && (HasPlane(s.back) ==> s.isNewData && s.appId != 0)
  }

  lemma CommitOrderly(w: World, a: Answers, i: nat)
    requires Inv(w) && Smooth(w) && i < LAYERS && Orderly(w, i) && ShownAt(w, i) && Refreshing(w, EvCommit(a))
    ensures Orderly(CommitStep(w, a), i)
    ensures !HasPlane(CommitStep(w, a).slots[i].back)
  {
    CommitSlot(w, a, i);
    CommitShown(w, a, i);
    var s := w.slots[i];
    if s.appId != 0 && !Queues(w, i) {
      assert w.env.shown[i] == [];
    }
  }

  lemma PlayOrderly(w: World, appId: int, m: PlayMsg, i: nat)
    requires Inv(w) && appId != 0 && FreshMsg(w.env, m) && i < LAYERS && Orderly(w, i)
    ensures Orderly(PlayStep(w, appId, m).1, i)
  {
    if w.slots[i].appId != appId {
      PlayElsewhere(w, appId, m, i);
    } else {
      RegisteredAt(w.slots, i);
    }
  }

  lemma NextOrderly(w: World, ev: Event, i: nat)
    requires Inv(w) && Smooth(w) && Legal(w, ev) && Refreshing(w, ev) && i < LAYERS && Orderly(w, i) && ShownAt(w, i)
    requires Shaped(Next(w, ev))
    ensures Orderly(Next(w, ev), i)
  {
    match ev {
      case EvSet(appId, pipe, id) =>
      case EvPlay(appId, m) => PlayOrderly(w, appId, m, i);
      case EvCommit(a) => CommitOrderly(w, a, i);
    }
  }

  // ----- where the planes in back came from -----

  /** PLAY p for the application of layer i brought plane fd, and no commit came after it. */
  ghost predicate Brought(ws: seq<World>, evs: seq<Event>, p: nat, k: nat, i: nat, fd: int)
    requires |ws| == |evs| + 1 && p < k < |ws| && Shaped(ws[k]) && i < LAYERS
  {
    && evs[p].EvPlay? && evs[p].appId == ws[k].slots[i].appId
    && evs[p].msg.numPlane <= |evs[p].msg.fds| && fd in evs[p].msg.fds[..evs[p].msg.numPlane]
    && forall q {:trigger evs[q]} :: p < q < k ==> !evs[q].EvCommit?
  }

  ghost predicate Recent(ws: seq<World>, evs: seq<Event>, k: nat, i: nat, fd: int)
    requires |ws| == |evs| + 1 && k < |ws| && Shaped(ws[k]) && i < LAYERS
  {
    exists p :: 0 <= p < k && Brought(ws, evs, p, k, i, fd)
  }

  /** Every plane in the back buffer of layer i was brought since the last commit. */
  ghost predicate BackRecent(ws: seq<World>, evs: seq<Event>, k: nat, i: nat)
    requires |ws| == |evs| + 1 && k < |ws| && Shaped(ws[k]) && i < LAYERS
  {
    forall fd :: fd > 0 && fd in Planes(ws[k].slots[i].back) ==> Recent(ws, evs, k, i, fd)
  }

  /** What a client-side event other than a PLAY for layer i, or an unsuccessful one, does to its
      slot: it may be registered, its planes stay. */
  lemma QuietBack(w: World, ev: Event, i: nat)
    requires Inv(w) && Legal(w, ev) && !ev.EvCommit? && !ev.EvUnset? && i < LAYERS
    requires ev.EvPlay? ==> ev.appId != w.slots[i].appId
    requires Shaped(Next(w, ev))
    ensures Planes(Next(w, ev).slots[i].back) == Planes(w.slots[i].back)
    ensures w.slots[i].appId != 0 ==> Next(w, ev).slots[i].appId == w.slots[i].appId
  {
    match ev {
      case EvSet(appId, pipe, id) =>
      case EvPlay(appId, m) => PlayElsewhere(w, appId, m, i);
    }
  }

  lemma PlayedBack(w: World, m: PlayMsg, i: nat)
    requires Inv(w) && i < LAYERS && w.slots[i].appId != 0 && FreshMsg(w.env, m)
    ensures var w' := PlayStep(w, w.slots[i].appId, m).1;
            w'.slots[i].appId == w.slots[i].appId && Planes(w'.slots[i].back) == m.fds[..m.numPlane]
  {
    RegisteredAt(w.slots, i);
    var d := Request(m, w.slots[i].ovId);
    assert Planes(d) == m.fds[..m.numPlane];
  }

  lemma BroughtStays(ws: seq<World>, evs: seq<Event>, p: nat, k: nat, i: nat, fd: int)
    requires |ws| == |evs| + 1 && p < k < |evs| && i < LAYERS && !evs[k].EvCommit?
    requires Shaped(ws[k]) && Shaped(ws[k + 1]) && ws[k + 1].slots[i].appId == ws[k].slots[i].appId
    requires Brought(ws, evs, p, k, i, fd)
    ensures Brought(ws, evs, p, k + 1, i, fd)
  {
  }

  /** The state of a well-fed run at k, as far as layer i goes. */
  ghost predicate Tracked(ws: seq<World>, evs: seq<Event>, k: nat, i: nat)
    requires Run(ws, evs) && k < |ws| && i < LAYERS
  {
    Shaped(ws[k]) && Inv(ws[k]) && Smooth(ws[k]) && Steady(ws[k], i) && Orderly(ws[k], i)
  }

  lemma TrackedStart(ws: seq<World>, evs: seq<Event>, i: nat)
    requires Run(ws, evs) && i < LAYERS
    ensures Tracked(ws, evs, 0, i) && BackRecent(ws, evs, 0, i)
  {
    StartInv();
    RunInv(ws, evs, 0);
    assert !HasPlane(START.slots[i].back) && Planes(START.slots[i].back) == [];
  }

  lemma TrackedNext(ws: seq<World>, evs: seq<Event>, k: nat, i: nat)
    requires Run(ws, evs) && k < |evs| && i < LAYERS && Tracked(ws, evs, k, i) && Refreshing(ws[k], evs[k])
    requires Shaped(ws[k + 1]) && Inv(ws[k + 1]) && Smooth(ws[k + 1]) && Steady(ws[k + 1], i)
    ensures Tracked(ws, evs, k + 1, i)
  {
    NextOrderly(ws[k], evs[k], i);
    assert ws[k + 1] == Next(ws[k], evs[k]);
  }

  lemma RecentPlay(ws: seq<World>, evs: seq<Event>, k: nat, next: nat, i: nat)
    requires Run(ws, evs) && k < |evs| && next == k + 1 && i < LAYERS && Shaped(ws[k]) && Inv(ws[k])
    requires ws[k].slots[i].appId != 0 && evs[k].EvPlay? && evs[k].appId == ws[k].slots[i].appId
    requires Shaped(ws[next])
    ensures BackRecent(ws, evs, next, i)
  {
    PlayedBack(ws[k], evs[k].msg, i);
    var d := ws[next].slots[i].back;
    forall fd | fd > 0 && fd in Planes(d)
      ensures Recent(ws, evs, next, i, fd)
    {
      assert Brought(ws, evs, k, next, i, fd);
    }
  }

  lemma RecentStays(ws: seq<World>, evs: seq<Event>, k: nat, next: nat, i: nat, fd: int)
    requires |ws| == |evs| + 1 && k < |evs| && next == k + 1 && i < LAYERS && !evs[k].EvCommit?
    requires Shaped(ws[k]) && Shaped(ws[next]) && ws[next].slots[i].appId == ws[k].slots[i].appId
    requires Recent(ws, evs, k, i, fd)
    ensures Recent(ws, evs, next, i, fd)
  {
    var p :| 0 <= p < k && Brought(ws, evs, p, k, i, fd);
    BroughtStays(ws, evs, p, k, i, fd);
  }

  lemma RecentQuiet(ws: seq<World>, evs: seq<Event>, k: nat, next: nat, i: nat)
    requires |ws| == |evs| + 1 && k < |evs| && next == k + 1 && i < LAYERS && Shaped(ws[k]) && Shaped(ws[next])
    requires !evs[k].EvCommit? && BackRecent(ws, evs, k, i)
    requires Planes(ws[next].slots[i].back) == Planes(ws[k].slots[i].back)
    requires forall fd ::
               fd > 0 && fd in Planes(ws[k].slots[i].back) ==> ws[next].slots[i].appId == ws[k].slots[i].appId
    ensures BackRecent(ws, evs, next, i)
  {
    var d := ws[k].slots[i].back;
    forall fd | fd > 0 && fd in Planes(d)
      ensures Recent(ws, evs, next, i, fd)
    {
      RecentStays(ws, evs, k, next, i, fd);
    }
  }

  lemma NoPlaneIn(d: OverlayData)
    requires |d.data| == 3 && d.numPlane <= 3 && DataOk(d) && !HasPlane(d)
    ensures forall fd :: fd > 0 ==> fd !in Planes(d)
  {
  }

  lemma RegisteredPlanes(w: World, i: nat)
    requires Inv(w) && i < LAYERS && Orderly(w, i)
    ensures forall fd :: fd > 0 && fd in Planes(w.slots[i].back) ==> w.slots[i].appId != 0
  {
    if !HasPlane(w.slots[i].back) { NoPlaneIn(w.slots[i].back); }
  }

  lemma RecentNext(ws: seq<World>, evs: seq<Event>, k: nat, next: nat, i: nat)
    requires Run(ws, evs) && k < |evs| && next == k + 1 && i < LAYERS
    requires Tracked(ws, evs, k, i) && BackRecent(ws, evs, k, i)
    requires Refreshing(ws[k], evs[k]) && Shaped(ws[next]) && Inv(ws[next])
    ensures BackRecent(ws, evs, next, i)
  {
    if evs[k].EvCommit? {
      CommitOrderly(ws[k], evs[k].answers, i);
      NoPlaneIn(ws[next].slots[i].back);
    } else if evs[k].EvPlay? && evs[k].appId == ws[k].slots[i].appId {
      RecentPlay(ws, evs, k, next, i);
    } else {
      QuietBack(ws[k], evs[k], i);
      RegisteredPlanes(ws[k], i);
      RecentQuiet(ws, evs, k, next, i);
    }
  }

  lemma {:induction false} AllRecent(ws: seq<World>, evs: seq<Event>, n: nat, i: nat)
    requires Run(ws, evs) && n < |ws| && i < LAYERS
    requires forall k :: 0 <= k < n ==> Refreshing(ws[k], evs[k])
    ensures Tracked(ws, evs, n, i) && BackRecent(ws, evs, n, i)
  {
    if n == 0 {
      TrackedStart(ws, evs, i);
    } else {
      AllRecent(ws, evs, n - 1, i);
      DisplayedStaysAlive(ws, evs, n);
      TrackedNext(ws, evs, n - 1, i);
      RecentNext(ws, evs, n - 1, n, i);
    }
  }

  /** A PLAY closes superseded planes only: in a well-fed run each plane that a PLAY for layer i
      finds in the back buffer, and so closes, was brought by an earlier PLAY for the same
      application with no commit between the two, and so was never queued. */
  lemma OnlySupersededClosed(ws: seq<World>, evs: seq<Event>, k: nat, i: nat, fd: int)
    requires Run(ws, evs) && k < |evs| && i < LAYERS && Shaped(ws[k])
    requires forall j :: 0 <= j < k ==> WellFed(ws, evs, j)
    requires evs[k].EvPlay? && evs[k].appId == ws[k].slots[i].appId
    requires fd > 0 && fd in Planes(ws[k].slots[i].back)
    ensures Recent(ws, evs, k, i, fd)
  {
    forall j | 0 <= j < k
      ensures Refreshing(ws[j], evs[j])
    {
      WellFedRefreshes(ws, evs, j);
    }
    AllRecent(ws, evs, k, i);
  }
}
