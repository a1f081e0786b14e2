/** What one commit does to every slot, whatever the driver answers. */
module CompositorCommit {
  import opened Compositor
  import opened CompositorOwnership
  import opened CompositorDisplay
  import opened CompositorSuperseded

  // ----- what happens to a slot, by its fields and the answers -----

  /** The driver is asked to configure the slot. */
  predicate Asked(s: Overlay) {
    s.appId != 0 && s.isUpdate && s.status == 0
  }

  /** It refuses, and the slot loses its application. */
  predicate Refused(s: Overlay, answer: (int, int)) {
    Asked(s) && answer.0 != 0
  }

  /** The status the slot has when its data is considered. */
  function Settled(s: Overlay, answer: (int, int)): int {
    if Asked(s) then answer.0 else s.status
  }

  /** The plane id it then has. */
  function Plane(s: Overlay, answer: (int, int)): int {
    if Asked(s) then answer.1 else if s.appId != 0 && s.isUpdate then s.cfgId else s.ovId
  }

  /** It has new data with a first plane. */
  predicate Offers(s: Overlay)
    requires |s.back.data| == 3
  {
    s.appId != 0 && s.isNewData && s.back.data[0] != -1
  }

  /** The data goes to the driver. */
  predicate Taken(s: Overlay, answer: (int, int))
    requires |s.back.data| == 3
  {
    Offers(s) && Settled(s, answer) == 0
  }

  predicate Threes(s: Overlay) {
    |s.front.data| == 3 && |s.back.data| == 3 && s.front.numPlane <= 3 && s.back.numPlane <= 3
  }

  /** Slot s after its own pass, but for its status: t. */
  ghost predicate Handled(s: Overlay, answer: (int, int), t: Overlay)
    requires Threes(s)
  {
    && t.appId == (if Refused(s, answer) then 0 else s.appId)
    && t.ovId == Plane(s, answer) && t.isUpdate == (s.isUpdate && s.appId == 0)
    && t.isNewData == (s.isNewData && !Offers(s))
    && t.front == (if Offers(s) then Spend(s.front) else s.front)
    && t.back == (if Offers(s) then s.back.(id := Plane(s, answer)) else s.back)
  }

  /** The status of slot j after n passes: its own queue result for a video slot, the one of layer
      j + 2 for the first slot numbers, which is where a graphics layer stores it. */
  function StatusAfter(w: World, a: Answers, n: nat, j: nat): int
    requires Shaped(w) && ValidAnswers(a) && j < n <= LAYERS
  {
    if j + 2 < n && Taken(w.slots[j + 2], a.set_[j + 2]) then a.queue[j + 2]
    else if j < 2 && Taken(w.slots[j], a.set_[j]) then a.queue[j]
    else Settled(w.slots[j], a.set_[j])
  }

  // ----- one pass -----

  lemma ConfiguredIs(s: Overlay, answer: (int, int))
    ensures var c := Configure(s, answer);
            s.appId != 0 ==>
              && c.appId == (if Refused(s, answer) then 0 else s.appId) && c.status == Settled(s, answer)
              && c.ovId == Plane(s, answer) && !c.isUpdate
              && c.front == s.front && c.back == s.back && c.isNewData == s.isNewData
  {
  }

  lemma QueueOwn(w: World, i: nat, answer: int)
    requires Shaped(w) && i < LAYERS
    ensures var s, t := w.slots[i], QueueLayer(w, i, answer).slots[i];
            && t == s.(front := Spend(s.front), back := s.back.(id := s.ovId), isNewData := false,
                       status := if i < 2 && s.status == 0 then answer else s.status)
  {
  }

  lemma QueueOther(w: World, i: nat, answer: int, j: nat)
    requires Shaped(w) && i < LAYERS && j < SLOTS && j != i
    ensures QueueLayer(w, i, answer).slots[j] ==
            if j + 2 == i && w.slots[i].status == 0 then w.slots[j].(status := answer) else w.slots[j]
  {
  }

  lemma OwnPass(w: World, i: nat, a: Answers)
    requires Shaped(w) && ValidAnswers(a) && i < LAYERS
    ensures var s, t := w.slots[i], CommitLayer(w, i, a).slots[i];
            && Handled(s, a.set_[i], t)
            && t.status == if i < 2 && Taken(s, a.set_[i]) then a.queue[i] else Settled(s, a.set_[i])
  {
    var s := w.slots[i];
    if s.appId != 0 {
      ConfiguredIs(s, a.set_[i]);
      var c := w.(slots := w.slots[i := Configure(s, a.set_[i])]);
      if WantsQueue(c.slots[i]) { QueueOwn(c, i, a.queue[i]); }
    }
  }

  lemma OtherPass(w: World, i: nat, a: Answers, j: nat)
    requires Shaped(w) && ValidAnswers(a) && i < LAYERS && j < SLOTS && j != i
    ensures CommitLayer(w, i, a).slots[j] ==
            if j + 2 == i && Taken(w.slots[i], a.set_[i]) then w.slots[j].(status := a.queue[i]) else w.slots[j]
  {
    var s := w.slots[i];
    if s.appId != 0 {
      ConfiguredIs(s, a.set_[i]);
      var c := w.(slots := w.slots[i := Configure(s, a.set_[i])]);
      if WantsQueue(c.slots[i]) { QueueOther(c, i, a.queue[i], j); }
    }
  }

  // ----- all passes -----

  ghost predicate HandledSlot(w: World, p: World, n: nat, a: Answers, j: nat)
    requires Shaped(w) && Shaped(p) && ValidAnswers(a) && n <= LAYERS && j < SLOTS
  {
    if j < n then Handled(w.slots[j], a.set_[j], p.slots[j]) && p.slots[j].status == StatusAfter(w, a, n, j)
    else p.slots[j] == w.slots[j]
  }

  lemma PassHandles(w: World, p: World, n: nat, next: nat, a: Answers, j: nat)
    requires Shaped(w) && Shaped(p) && ValidAnswers(a) && n < LAYERS && next == n + 1 && j < SLOTS
    requires HandledSlot(w, p, n, a, j) && p.slots[n] == w.slots[n]
    ensures HandledSlot(w, CommitLayer(p, n, a), next, a, j)
  {
    if j == n {
      OwnPass(p, n, a);
    } else {
      OtherPass(p, n, a, j);
    }
  }

  lemma {:induction false} NotYet(w: World, n: nat, a: Answers, j: nat)
    requires Shaped(w) && ValidAnswers(a) && n <= LAYERS && n <= j < SLOTS
    ensures CommitLayers(w, n, a).slots[j] == w.slots[j]
  {
    if n > 0 {
      NotYet(w, n - 1, a, j);
      OtherPass(CommitLayers(w, n - 1, a), n - 1, a, j);
    }
  }

  lemma {:induction false} PassesHandle(w: World, n: nat, a: Answers, j: nat)
    requires Shaped(w) && ValidAnswers(a) && n <= LAYERS && j < SLOTS
    ensures HandledSlot(w, CommitLayers(w, n, a), n, a, j)
  {
    if n > 0 {
      PassesHandle(w, n - 1, a, j);
      NotYet(w, n - 1, a, n - 1);
      PassHandles(w, CommitLayers(w, n - 1, a), n - 1, n, a, j);
    }
  }

  lemma {:induction false} FramebufferStays(w: World, n: nat)
    requires Shaped(w) && n <= LAYERS
    ensures SwapLayers(w, n).slots[LAYERS] == w.slots[LAYERS]
  {
    if n > 0 { FramebufferStays(w, n - 1); }
  }

  /** Every slot after a commit, under every answer of the driver. A refused slot loses its
      application. New data is spent whether it is queued or not, and with it the planes of the front
      buffer. The buffers of every slot that keeps an application change places. The status of a
      slot is the answer to configuring it, unless a queue result is stored over it: its own for a
      video slot, or the one of the graphics layer two further on. */
  lemma CommitSlots(w: World, a: Answers, j: nat)
    requires Shaped(w) && ValidAnswers(a) && j < LAYERS
    ensures var s, t := w.slots[j], CommitStep(w, a).slots[j];
            && (t.appId != 0 ==> Handled(s, a.set_[j], t.(front := t.back, back := t.front)))
            && (t.appId == 0 ==> Handled(s, a.set_[j], t))
            && t.status == StatusAfter(w, a, LAYERS, j)
  {
    PassesHandle(w, LAYERS, a, j);
    SwappedSlots(CommitLayers(w, LAYERS, a), LAYERS, j);
  }

  /** The framebuffer's slot is left alone. */
  lemma CommitFramebuffer(w: World, a: Answers)
    requires Shaped(w) && ValidAnswers(a)
    ensures CommitStep(w, a).slots[LAYERS] == w.slots[LAYERS]
  {
    NotYet(w, LAYERS, a, LAYERS);
    FramebufferStays(CommitLayers(w, LAYERS, a), LAYERS);
  }

  /** A graphics layer whose data the driver rejects keeps its own good status; the slot two before it
      gets the bad one. */
  lemma StatusGoesAstray(w: World, a: Answers, j: nat)
    requires Shaped(w) && ValidAnswers(a) && j + 2 < LAYERS
    requires Taken(w.slots[j + 2], a.set_[j + 2]) && a.queue[j + 2] != 0
    ensures CommitStep(w, a).slots[j].status == a.queue[j + 2] != 0
    ensures j == 1 || j == 2 ==> CommitStep(w, a).slots[j + 2].status == 0
    ensures j == 0 && !Taken(w.slots[4], a.set_[4]) ==> CommitStep(w, a).slots[2].status == 0
  {
    CommitSlots(w, a, j);
    CommitSlots(w, a, j + 2);
  }

  /** A slot with a bad status is neither configured nor queued. */
  lemma BadStatusIdles(s: Overlay, answer: (int, int))
    requires Threes(s) && s.status != 0
    ensures !Asked(s) && !Taken(s, answer) && !Refused(s, answer)
  {
  }

  // ----- descriptors and what is shown -----

  lemma FrontCloses(w: World, e: Env, i: nat)
    requires Inv(w) && i < LAYERS && e.open == w.env.open
    ensures var f := w.slots[i].front;
            Closes(e, ClosePlanes(e, f.data, f.numPlane), f.data, f.numPlane)
  {
    FrontClosable(w, i);
    SpendOk(w.slots[i].front);
    ClosePlanesCloses(e, w.slots[i].front.data, w.slots[i].front.numPlane);
  }

  lemma PassEnv(w: World, i: nat, a: Answers)
    requires Inv(w) && ValidAnswers(a) && i < LAYERS
    ensures var s, e, e' := w.slots[i], w.env, CommitLayer(w, i, a).env;
            && (forall fd :: fd in e'.open <==> fd in e.open && !(Offers(s) && fd > 0 && fd in Planes(s.front)))
            && e'.shown == (if Taken(s, a.set_[i]) then e.shown[i := Planes(s.back)] else e.shown)
  {
    var s := w.slots[i];
    if Offers(s) {
      ConfiguredIs(s, a.set_[i]);
      var c := w.(slots := w.slots[i := Configure(s, a.set_[i])]);
      var e := if Taken(s, a.set_[i]) then QueueEnv(w.env, i, c.slots[i]) else w.env;
      QueueLayerEnv(c, i, a.queue[i]);
      FrontCloses(w, e, i);
    }
  }

  /** A front plane of one of the first n layers that has new data. */
  ghost predicate Outgoing(w: World, n: nat, fd: int)
    requires Shaped(w) && n <= LAYERS
  {
    exists j :: 0 <= j < n && Offers(w.slots[j]) && fd in Planes(w.slots[j].front)
  }

  lemma OutgoingNext(w: World, n: nat, next: nat, fd: int)
    requires Shaped(w) && n < LAYERS && next == n + 1
    ensures Outgoing(w, next, fd) <==>
            Outgoing(w, n, fd) || (Offers(w.slots[n]) && fd in Planes(w.slots[n].front))
  {
  }

  lemma PassOpens(w: World, p: World, n: nat, next: nat, a: Answers, fd: int)
    requires Shaped(w) && Inv(p) && ValidAnswers(a) && n < LAYERS && next == n + 1 && fd > 0
    requires p.slots[n] == w.slots[n] && (fd in p.env.open <==> fd in w.env.open && !Outgoing(w, n, fd))
    ensures fd in CommitLayer(p, n, a).env.open <==> fd in w.env.open && !Outgoing(w, next, fd)
  {
    PassEnv(p, n, a);
    OutgoingNext(w, n, next, fd);
  }

  lemma {:induction false} PassesOpen(w: World, n: nat, a: Answers, fd: int)
    requires Inv(w) && ValidAnswers(a) && n <= LAYERS && fd > 0
    ensures fd in CommitLayers(w, n, a).env.open <==> fd in w.env.open && !Outgoing(w, n, fd)
  {
    if n > 0 {
      PassesOpen(w, n - 1, a, fd);
      CommitLayersKeep(w, n - 1, a);
      NotYet(w, n - 1, a, n - 1);
      PassOpens(w, CommitLayers(w, n - 1, a), n - 1, n, a, fd);
    }
  }

  ghost predicate ShownSoFar(w: World, p: World, n: nat, a: Answers, j: nat)
    requires Shaped(w) && Shaped(p) && ValidAnswers(a) && n <= LAYERS && j < LAYERS
  {
    p.env.shown[j] == if j < n && Taken(w.slots[j], a.set_[j]) then Planes(w.slots[j].back) else w.env.shown[j]
  }

  lemma PassShows(w: World, p: World, n: nat, next: nat, a: Answers, j: nat)
    requires Shaped(w) && Inv(p) && ValidAnswers(a) && n < LAYERS && next == n + 1 && j < LAYERS
    requires ShownSoFar(w, p, n, a, j) && p.slots[n] == w.slots[n]
    ensures ShownSoFar(w, CommitLayer(p, n, a), next, a, j)
  {
    PassEnv(p, n, a);
  }

  lemma {:induction false} PassesShown(w: World, n: nat, a: Answers, j: nat)
    requires Inv(w) && ValidAnswers(a) && n <= LAYERS && j < LAYERS
    ensures ShownSoFar(w, CommitLayers(w, n, a), n, a, j)
  {
    if n > 0 {
      PassesShown(w, n - 1, a, j);
      CommitLayersKeep(w, n - 1, a);
      NotYet(w, n - 1, a, n - 1);
      PassShows(w, CommitLayers(w, n - 1, a), n - 1, n, a, j);
    }
  }

  lemma {:induction false} SwapsOpen(w: World, n: nat)
    requires Shaped(w) && n <= LAYERS
    ensures SwapLayers(w, n).env.open == w.env.open
  {
    if n > 0 { SwapsOpen(w, n - 1); }
  }

  /** What a commit closes: exactly the front planes of the layers that have new data. */
  lemma CommitCloses(w: World, a: Answers, fd: int)
    requires Inv(w) && ValidAnswers(a) && fd > 0
    ensures fd in CommitStep(w, a).env.open <==> fd in w.env.open && !Outgoing(w, LAYERS, fd)
  {
    PassesOpen(w, LAYERS, a, fd);
    SwapsOpen(CommitLayers(w, LAYERS, a), LAYERS);
  }

  /** What it puts on display: exactly the back planes of the layers whose data the driver takes. */
  lemma CommitShows(w: World, a: Answers, j: nat)
    requires Inv(w) && ValidAnswers(a) && j < LAYERS
    ensures CommitStep(w, a).env.shown[j] ==
            if Taken(w.slots[j], a.set_[j]) then Planes(w.slots[j].back) else w.env.shown[j]
  {
    PassesShown(w, LAYERS, a, j);
    SwappedSlots(CommitLayers(w, LAYERS, a), LAYERS, j);
  }
}
