/** Who owns each descriptor the compositor received, over every interleaving of messages and
    commits and every answer of the driver. */
module CompositorOwnership {
  import opened Compositor

  // ----- the invariant -----

  /** Planes below numPlane are descriptors, the rest are unused. */
  ghost predicate Live(d: OverlayData)
    requires |d.data| == 3
  {
    forall j :: 0 <= j < 3 ==> if j < d.numPlane then d.data[j] > 0 else d.data[j] in {-1, 0}
  }

  /** The planes were closed, or there never were any. */
  ghost predicate Spent(d: OverlayData)
    requires |d.data| == 3
  {
    forall j :: 0 <= j < 3 ==> if j < d.numPlane then d.data[j] == -1 else d.data[j] in {-1, 0}
  }

  ghost predicate DataOk(d: OverlayData)
    requires |d.data| == 3
  {
    d.dst >= 0 && (Live(d) || Spent(d))
  }

  ghost predicate SlotsOk(w: World)
    requires Shaped(w)
  {
    forall i :: 0 <= i < SLOTS ==> DataOk(w.slots[i].front) && DataOk(w.slots[i].back)
  }

  /** Each application owns at most one slot. */
  ghost predicate UniqueApps(s: seq<Overlay>) {
    forall i, j :: 0 <= i < j < |s| && s[i].appId != 0 ==> s[i].appId != s[j].appId
  }

  function One(x: int, fd: int): nat {
    if x == fd then 1 else 0
  }

  /** How often a data block, a slot and the table hold descriptor fd. */
  function DataCount(d: OverlayData, fd: int): nat
    requires |d.data| == 3
  {
    One(d.data[0], fd) + One(d.data[1], fd) + One(d.data[2], fd) + One(d.dst, fd)
  }

  ghost predicate ThreePlanes(s: seq<Overlay>) {
    |s| == SLOTS && forall i :: 0 <= i < SLOTS ==> |s[i].front.data| == 3 && |s[i].back.data| == 3
  }

  function SlotCount(s: Overlay, fd: int): nat
    requires |s.front.data| == 3 && |s.back.data| == 3
  {
    DataCount(s.front, fd) + DataCount(s.back, fd)
  }

  ghost function HeldCount(s: seq<Overlay>, fd: int): nat
    requires ThreePlanes(s)
  {
    SlotCount(s[0], fd) + SlotCount(s[1], fd) + SlotCount(s[2], fd) +
    SlotCount(s[3], fd) + SlotCount(s[4], fd) + SlotCount(s[5], fd)
  }

  /** A descriptor is open exactly when it is held once or was left behind once; as often as
      it was received it is held, was closed, or was left behind. */
  ghost predicate BalancedAt(w: World, fd: int)
    requires Shaped(w)
  {
    && HeldCount(w.slots, fd) + w.env.abandoned[fd] == (if fd in w.env.open then 1 else 0)
    && w.env.received[fd] == HeldCount(w.slots, fd) + w.env.closed[fd] + w.env.abandoned[fd]
  }

  ghost predicate Balanced(w: World)
    requires Shaped(w)
  {
    && (forall fd :: fd > 0 ==> BalancedAt(w, fd))
    && (forall fd :: fd in w.env.open ==> fd > 0)
    && w.env.badCloses == 0 && w.env.badQueues == 0
  }

  ghost predicate Inv(w: World) {
    Shaped(w) && SlotsOk(w) && UniqueApps(w.slots) && Balanced(w)
  }

  lemma HeldUpdate(s: seq<Overlay>, i: nat, x: Overlay, fd: int)
    requires ThreePlanes(s) && i < SLOTS && |x.front.data| == 3 && |x.back.data| == 3
    ensures ThreePlanes(s[i := x])
    ensures HeldCount(s[i := x], fd) + SlotCount(s[i], fd) == HeldCount(s, fd) + SlotCount(x, fd)
    ensures SlotCount(s[i], fd) <= HeldCount(s, fd)
  {
  }

  // ----- closing -----

  function PlanesCount(data: seq<int>, n: nat, fd: int): nat
    requires n <= |data|
  {
    if n == 0 then 0 else PlanesCount(data, n - 1, fd) + One(data[n - 1], fd)
  }

  lemma PlanesCountThree(d: OverlayData, fd: int)
    requires |d.data| == 3
    ensures PlanesCount(d.data, 0, fd) == 0
    ensures PlanesCount(d.data, 1, fd) == One(d.data[0], fd)
    ensures PlanesCount(d.data, 2, fd) == One(d.data[0], fd) + One(d.data[1], fd)
    ensures PlanesCount(d.data, 3, fd) == One(d.data[0], fd) + One(d.data[1], fd) + One(d.data[2], fd)
  {
    assert PlanesCount(d.data, 1, fd) == PlanesCount(d.data, 0, fd) + One(d.data[0], fd);
    assert PlanesCount(d.data, 2, fd) == PlanesCount(d.data, 1, fd) + One(d.data[1], fd);
  }

  /** The first n entries are open descriptors, each once, or unused. */
  ghost predicate Closable(e: Env, data: seq<int>, n: nat)
    requires n <= |data|
  {
    && (forall j :: 0 <= j < n && data[j] > 0 ==> data[j] in e.open)
    && (forall j, k :: 0 <= j < k < n && data[j] > 0 ==> data[j] != data[k])
  }

  /** e' is e after closing exactly the descriptors counted by c, once each. */
  ghost predicate Closes(e: Env, e': Env, data: seq<int>, n: nat)
    requires n <= |data|
  {
    && e' == e.(open := e'.open, closed := e'.closed)
    && (forall fd :: fd in e'.open <==> fd in e.open && !(fd > 0 && fd in data[..n]))
    && (forall fd :: fd > 0 ==> e'.closed[fd] == e.closed[fd] + PlanesCount(data, n, fd))
  }

  lemma CloseOne(e: Env, p: Env, data: seq<int>, n: nat)
    requires n < |data| && Closable(e, data, n + 1) && Closes(e, p, data, n)
    ensures Closes(e, if data[n] > 0 then CloseFd(p, data[n]) else p, data, n + 1)
  {
    assert data[..n + 1] == data[..n] + [data[n]];
  }

  lemma {:induction false} ClosePlanesCloses(e: Env, data: seq<int>, n: nat)
    requires n <= |data| && Closable(e, data, n) && forall j :: 0 <= j < n ==> data[j] != 0
    ensures Closes(e, ClosePlanes(e, data, n), data, n)
  {
    if n > 0 {
      ClosePlanesCloses(e, data, n - 1);
      CloseOne(e, ClosePlanes(e, data, n - 1), data, n - 1);
    }
  }

  lemma {:induction false} CloseUsedCloses(e: Env, data: seq<int>, n: nat)
    requires n <= |data| && Closable(e, data, n)
    ensures Closes(e, CloseUsed(e, data, n), data, n)
  {
    if n > 0 {
      CloseUsedCloses(e, data, n - 1);
      CloseOne(e, CloseUsed(e, data, n - 1), data, n - 1);
    }
  }

  // ----- held descriptors are open, once -----

  /** A place in a slot: front or back, plane 0..2 or the destination 3. */
  function DataAt(d: OverlayData, j: nat): int
    requires |d.data| == 3 && j < 4
  {
    if j < 3 then d.data[j] else d.dst
  }

  lemma DataHas(d: OverlayData, j: nat)
    requires |d.data| == 3 && j < 4
    ensures DataCount(d, DataAt(d, j)) >= 1
    ensures forall k :: 0 <= k < 4 && k != j && DataAt(d, k) == DataAt(d, j) ==> DataCount(d, DataAt(d, j)) >= 2
  {
  }

  lemma BackOpen(w: World, i: nat, j: nat)
    requires Inv(w) && i < SLOTS && j < 4 && DataAt(w.slots[i].back, j) > 0
    ensures DataAt(w.slots[i].back, j) in w.env.open
    ensures forall k :: 0 <= k < 4 && k != j ==> DataAt(w.slots[i].back, k) != DataAt(w.slots[i].back, j)
  {
    var d := w.slots[i].back;
    DataHas(d, j);
    HeldUpdate(w.slots, i, w.slots[i], DataAt(d, j));
    assert BalancedAt(w, DataAt(d, j));
  }

  lemma FrontOpen(w: World, i: nat, j: nat)
    requires Inv(w) && i < SLOTS && j < 4 && DataAt(w.slots[i].front, j) > 0
    ensures DataAt(w.slots[i].front, j) in w.env.open
    ensures forall k :: 0 <= k < 4 && k != j ==> DataAt(w.slots[i].front, k) != DataAt(w.slots[i].front, j)
  {
    var d := w.slots[i].front;
    DataHas(d, j);
    HeldUpdate(w.slots, i, w.slots[i], DataAt(d, j));
    assert BalancedAt(w, DataAt(d, j));
  }

  // ----- steps that move no descriptor -----

  ghost predicate SameHoldings(d: OverlayData, d': OverlayData) {
    d'.data == d.data && d'.dst == d.dst && d'.numPlane == d.numPlane
  }

  /** Changing a slot without changing what it holds. */
  lemma KeepsHeld(w: World, i: nat, x: Overlay)
    requires Inv(w) && i < SLOTS
    requires SameHoldings(w.slots[i].front, x.front) && SameHoldings(w.slots[i].back, x.back)
    requires x.appId == w.slots[i].appId || x.appId == 0 ||
             forall j :: 0 <= j < SLOTS && j != i ==> w.slots[j].appId != x.appId
    ensures Inv(w.(slots := w.slots[i := x]))
  {
    BalancedKeeps(w, i, x);
  }

  lemma BalancedKeeps(w: World, i: nat, x: Overlay)
    requires Inv(w) && i < SLOTS && |x.front.data| == 3 && |x.back.data| == 3
    requires x.front.numPlane <= 3 && x.back.numPlane <= 3
    requires forall fd :: SlotCount(x, fd) == SlotCount(w.slots[i], fd)
    ensures Balanced(w.(slots := w.slots[i := x]))
  {
    var w' := w.(slots := w.slots[i := x]);
    forall fd | fd > 0
      ensures BalancedAt(w', fd)
    {
      assert BalancedAt(w, fd);
      HeldUpdate(w.slots, i, x, fd);
    }
  }

  lemma SwapKeeps(w: World, i: nat)
    requires Inv(w) && i < LAYERS
    ensures Inv(SwapLayer(w, i))
  {
    if w.slots[i].appId != 0 {
      BalancedKeeps(w, i, Swapped(w.slots[i]));
      var w' := w.(slots := w.slots[i := Swapped(w.slots[i])]);
      assert forall fd :: BalancedAt(w', fd) ==> BalancedAt(SwapLayer(w, i), fd);
    }
  }

  lemma {:induction false} SwapLayersKeep(w: World, n: nat)
    requires Inv(w) && n <= LAYERS
    ensures Inv(SwapLayers(w, n))
  {
    if n > 0 {
      SwapLayersKeep(w, n - 1);
      SwapKeeps(SwapLayers(w, n - 1), n - 1);
    }
  }

  // ----- the commit -----

  lemma SpendOk(d: OverlayData)
    requires |d.data| == 3 && d.numPlane <= 3 && DataOk(d)
    ensures DataOk(Spend(d))
    ensures forall j :: 0 <= j < d.numPlane ==> d.data[j] != 0
    ensures forall fd :: fd > 0 ==> DataCount(Spend(d), fd) + PlanesCount(d.data, d.numPlane, fd) == DataCount(d, fd)
    ensures forall fd :: fd > 0 ==> (fd in d.data[..d.numPlane] <==> PlanesCount(d.data, d.numPlane, fd) > 0)
  {
    forall fd | fd > 0
      ensures DataCount(Spend(d), fd) + PlanesCount(d.data, d.numPlane, fd) == DataCount(d, fd)
      ensures fd in d.data[..d.numPlane] <==> PlanesCount(d.data, d.numPlane, fd) > 0
    {
      PlanesCountThree(d, fd);
      PlanesCountMember(d.data, d.numPlane, fd);
    }
  }

  lemma {:induction false} PlanesCountMember(data: seq<int>, n: nat, fd: int)
    requires n <= |data|
    ensures fd in data[..n] <==> PlanesCount(data, n, fd) > 0
  {
    if n > 0 {
      PlanesCountMember(data, n - 1, fd);
      assert data[..n] == data[..n - 1] + [data[n - 1]];
    }
  }

  lemma FrontClosable(w: World, i: nat)
    requires Inv(w) && i < SLOTS
    ensures Closable(w.env, w.slots[i].front.data, w.slots[i].front.numPlane)
  {
    var d := w.slots[i].front;
    forall j | 0 <= j < d.numPlane && d.data[j] > 0
      ensures d.data[j] in w.env.open && forall k :: j < k < d.numPlane ==> d.data[j] != d.data[k]
    {
      FrontOpen(w, i, j);
      assert forall k :: j < k < d.numPlane ==> DataAt(d, k) == d.data[k];
    }
  }

  lemma DropFrontKeeps(w: World, i: nat)
    requires Inv(w) && i < SLOTS
    ensures Inv(DropFront(w, i))
  {
    var f := w.slots[i].front;
    SpendOk(f);
    FrontClosable(w, i);
    ClosePlanesCloses(w.env, f.data, f.numPlane);
    DropFrontBalances(w, i);
  }

  lemma DropFrontBalances(w: World, i: nat)
    requires Inv(w) && i < SLOTS
    requires Closes(w.env, ClosePlanes(w.env, w.slots[i].front.data, w.slots[i].front.numPlane),
                    w.slots[i].front.data, w.slots[i].front.numPlane)
    ensures Balanced(DropFront(w, i))
  {
    var f := w.slots[i].front;
    var x := w.slots[i].(front := Spend(f));
    SpendOk(f);
    forall fd | fd > 0
      ensures BalancedAt(DropFront(w, i), fd)
    {
      assert BalancedAt(w, fd);
      HeldUpdate(w.slots, i, x, fd);
    }
  }

  /** Every descriptor of data about to be queued is open. */
  lemma NamedOpen(w: World, i: nat)
    requires Inv(w) && i < SLOTS
    ensures Named(w.slots[i].back) <= w.env.open
  {
    var d := w.slots[i].back;
    forall fd | fd in Named(d)
      ensures fd in w.env.open
    {
      var planes := d.data[..d.numPlane];
      var j := if fd == d.dst then 3 else var k :| 0 <= k < |planes| && planes[k] == fd; k;
      assert DataAt(d, j) == fd;
      BackOpen(w, i, j);
    }
  }

  lemma QueueEnvKeeps(w: World, i: nat)
    requires Inv(w) && i < LAYERS
    ensures Inv(w.(env := QueueEnv(w.env, i, w.slots[i])))
  {
    NamedOpen(w, i);
    var w' := w.(env := QueueEnv(w.env, i, w.slots[i]));
    assert forall fd :: BalancedAt(w, fd) ==> BalancedAt(w', fd);
  }

  lemma QueueLayerKeeps(w: World, i: nat, answer: int)
    requires Inv(w) && i < LAYERS
    ensures Inv(QueueLayer(w, i, answer))
  {
    var s := w.slots[i];
    QueueEnvKeeps(w, i);
    var w1 := if s.status == 0 then w.(env := QueueEnv(w.env, i, s)) else w;
    KeepsHeld(w1, i, Requeued(s));
    var w2 := w1.(slots := w1.slots[i := Requeued(s)]);
    if s.status == 0 {
      var home := StatusHome(i);
      KeepsHeld(w2, home, w2.slots[home].(status := answer));
      DropFrontKeeps(w2.(slots := w2.slots[home := w2.slots[home].(status := answer)]), i);
    } else {
      DropFrontKeeps(w2, i);
    }
  }

  lemma CommitLayerKeeps(w: World, i: nat, a: Answers)
    requires Inv(w) && ValidAnswers(a) && i < LAYERS
    ensures Inv(CommitLayer(w, i, a))
  {
    if w.slots[i].appId != 0 {
      KeepsHeld(w, i, Configure(w.slots[i], a.set_[i]));
      QueueLayerKeeps(w.(slots := w.slots[i := Configure(w.slots[i], a.set_[i])]), i, a.queue[i]);
    }
  }

  lemma {:induction false} CommitLayersKeep(w: World, n: nat, a: Answers)
    requires Inv(w) && ValidAnswers(a) && n <= LAYERS
    ensures Inv(CommitLayers(w, n, a))
  {
    if n > 0 {
      CommitLayersKeep(w, n - 1, a);
      CommitLayerKeeps(CommitLayers(w, n - 1, a), n - 1, a);
    }
  }

  lemma CommitKeeps(w: World, a: Answers)
    requires Inv(w) && ValidAnswers(a)
    ensures Inv(CommitStep(w, a))
  {
    CommitLayersKeep(w, LAYERS, a);
    SwapLayersKeep(CommitLayers(w, LAYERS, a), LAYERS);
  }

  // ----- the messages -----

  lemma SetKeeps(w: World, appId: int, pipe: PipeType, id: int)
    requires Inv(w) && appId != 0
    ensures Inv(w.(slots := SetStep(w.slots, appId, pipe, id).1))
  {
    var i := FindRegistered(w.slots, appId);
    if i < SLOTS {
      KeepsHeld(w, i, w.slots[i].(cfgId := w.slots[i].ovId, isUpdate := true));
    } else {
      var e := FindEmpty(w.slots, pipe);
      if e < SLOTS {
        KeepsHeld(w, e, w.slots[e].(appId := appId, cfgId := id, ovId := id, isUpdate := true));
      }
    }
  }

  lemma HeldDataCount(d: OverlayData, fd: int)
    requires |d.data| == 3 && fd > 0
    ensures HeldData(d)[fd] == DataCount(d, fd)
  {
  }

  lemma HeldSlotCount(s: Overlay, fd: int)
    requires |s.front.data| == 3 && |s.back.data| == 3 && fd > 0
    ensures HeldSlot(s)[fd] == SlotCount(s, fd)
  {
    HeldDataCount(s.front, fd);
    HeldDataCount(s.back, fd);
  }

  lemma UnsetBalances(w: World, i: nat, fd: int)
    requires Inv(w) && i < SLOTS && fd > 0
    ensures BalancedAt(ClearSlot(w, i), fd)
  {
    assert BalancedAt(w, fd);
    HeldUpdate(w.slots, i, ZERO, fd);
    HeldSlotCount(w.slots[i], fd);
    assert SlotCount(ZERO, fd) == 0;
  }

  lemma UnsetBalanced(w: World, i: nat)
    requires Inv(w) && i < SLOTS
    ensures Balanced(ClearSlot(w, i))
  {
    var w' := ClearSlot(w, i);
    assert w'.env.open == w.env.open && w'.env.badCloses == 0 && w'.env.badQueues == 0;
    forall fd | fd > 0
      ensures BalancedAt(w', fd)
    {
      UnsetBalances(w, i, fd);
    }
  }

  lemma UnsetKeeps(w: World, appId: int)
    requires Inv(w) && appId != 0
    ensures Inv(UnsetStep(w, appId).1)
  {
    var i := FindRegistered(w.slots, appId);
    if i < SLOTS { ClearKeeps(w, i); }
  }

  lemma ClearKeeps(w: World, i: nat)
    requires Inv(w) && i < SLOTS
    ensures Inv(ClearSlot(w, i))
  {
    UnsetBalanced(w, i);
    ZeroOk();
    var s := ClearSlot(w, i).slots;
    assert forall j :: 0 <= j < SLOTS ==> s[j] == if j == i then ZERO else w.slots[j];
  }

  lemma ZeroOk()
    ensures DataOk(ZERO.front) && DataOk(ZERO.back) && ZERO.appId == 0
  {
  }

  /** The descriptors of a message are new to the process, positive and distinct. */
  ghost predicate FreshMsg(e: Env, m: PlayMsg) {
    && ValidMsg(m)
    && (forall i :: 0 <= i < |m.fds| ==> m.fds[i] > 0 && m.fds[i] !in e.open)
    && (forall i, j :: 0 <= i < j < |m.fds| ==> m.fds[i] != m.fds[j])
  }

  lemma {:induction false} DistinctCount(s: seq<int>, fd: int)
    requires forall i, j :: 0 <= i < j < |s| ==> s[i] != s[j]
    ensures multiset(s)[fd] == if fd in s then 1 else 0
    decreases |s|
  {
    if s != [] {
      var n := |s| - 1;
      DistinctCount(s[..n], fd);
      assert s == s[..n] + [s[n]];
    }
  }

  /** A request holds exactly the descriptors that came with it. */
  lemma RequestHolds(m: PlayMsg, id: int, fd: int)
    requires ValidMsg(m) && fd > 0 && forall i, j :: 0 <= i < j < |m.fds| ==> m.fds[i] != m.fds[j]
    ensures DataCount(Request(m, id), fd) == if fd in m.fds then 1 else 0
  {
    var d := Request(m, id);
    assert forall i :: 0 <= i < m.numPlane ==> d.data[i] == m.fds[i];
    assert m.dstUsed ==> d.dst == m.fds[m.numPlane];
  }

  lemma RequestOk(m: PlayMsg, id: int)
    requires ValidMsg(m) && forall i :: 0 <= i < |m.fds| ==> m.fds[i] > 0
    ensures DataOk(Request(m, id))
  {
  }

  /** The effect of closing a whole back buffer: planes in use, then the destination. */
  ghost predicate ClosesData(e: Env, e': Env, d: OverlayData)
    requires |d.data| == 3
  {
    && e' == e.(open := e'.open, closed := e'.closed)
    && (forall fd :: fd in e'.open <==> fd in e.open && !(fd > 0 && DataCount(d, fd) > 0))
    && (forall fd :: fd > 0 ==> e'.closed[fd] == e.closed[fd] + DataCount(d, fd))
  }

  ghost predicate HeldOpen(e: Env, d: OverlayData)
    requires |d.data| == 3
  {
    forall j :: 0 <= j < 4 && DataAt(d, j) > 0 ==>
      DataAt(d, j) in e.open && forall k :: 0 <= k < 4 && k != j ==> DataAt(d, k) != DataAt(d, j)
  }

  lemma CloseBackCloses(e: Env, d: OverlayData)
    requires |d.data| == 3 && d.dst >= 0 && HeldOpen(e, d)
    ensures ClosesData(e, CloseBack(e, d), d)
  {
    forall j | 0 <= j < 3 && d.data[j] > 0
      ensures d.data[j] in e.open && d.dst != d.data[j] && forall k :: 0 <= k < 3 && k != j ==> d.data[k] != d.data[j]
    {
      assert DataAt(d, j) == d.data[j] && DataAt(d, 3) == d.dst;
      assert forall k :: 0 <= k < 3 ==> DataAt(d, k) == d.data[k];
    }
    assert d.dst > 0 ==> DataAt(d, 3) in e.open;
    CloseUsedCloses(e, d.data, 3);
    assert d.data[..3] == d.data;
    forall fd
      ensures PlanesCount(d.data, 3, fd) == One(d.data[0], fd) + One(d.data[1], fd) + One(d.data[2], fd)
      ensures fd in d.data[..3] <==> PlanesCount(d.data, 3, fd) > 0
    {
      PlanesCountThree(d, fd);
      PlanesCountMember(d.data, 3, fd);
    }
  }

  lemma BackHeldOpen(w: World, i: nat, e: Env)
    requires Inv(w) && i < SLOTS && w.env.open <= e.open
    ensures HeldOpen(e, w.slots[i].back)
  {
    var d := w.slots[i].back;
    forall j | 0 <= j < 4 && DataAt(d, j) > 0
      ensures DataAt(d, j) in e.open && forall k :: 0 <= k < 4 && k != j ==> DataAt(d, k) != DataAt(d, j)
    {
      BackOpen(w, i, j);
    }
  }

  lemma PlayBalances(w: World, i: nat, m: PlayMsg)
    requires Inv(w) && i < SLOTS && FreshMsg(w.env, m)
    ensures var s := w.slots[i];
            var w' := World(w.slots[i := s.(back := Request(m, s.ovId), isNewData := true)],
                            CloseBack(Receive(w.env, m.fds), s.back));
            Shaped(w') && Balanced(w')
  {
    var s := w.slots[i];
    var e := Receive(w.env, m.fds);
    var x := s.(back := Request(m, s.ovId), isNewData := true);
    var w' := World(w.slots[i := x], CloseBack(e, s.back));
    BackHeldOpen(w, i, e);
    CloseBackCloses(e, s.back);
    forall fd | fd > 0
      ensures BalancedAt(w', fd)
    {
      assert BalancedAt(w, fd);
      HeldUpdate(w.slots, i, x, fd);
      RequestHolds(m, s.ovId, fd);
      DistinctCount(m.fds, fd);
    }
  }

  lemma RejectedBalances(w: World, m: PlayMsg)
    requires Inv(w) && FreshMsg(w.env, m)
    ensures var e := Receive(w.env, m.fds);
            Balanced(w.(env := e.(abandoned := e.abandoned + multiset(m.fds))))
  {
    var e := Receive(w.env, m.fds);
    var w' := w.(env := e.(abandoned := e.abandoned + multiset(m.fds)));
    forall fd | fd > 0
      ensures BalancedAt(w', fd)
    {
      assert BalancedAt(w, fd);
      DistinctCount(m.fds, fd);
    }
  }

  lemma PlayKeeps(w: World, appId: int, m: PlayMsg)
    requires Inv(w) && appId != 0 && FreshMsg(w.env, m)
    ensures Inv(PlayStep(w, appId, m).1)
  {
    var i := FindRegistered(w.slots, appId);
    if i < SLOTS {
      PlayBalances(w, i, m);
      RequestOk(m, w.slots[i].ovId);
    } else {
      RejectedBalances(w, m);
    }
  }

  // ----- every run -----

  ghost predicate Legal(w: World, ev: Event)
    requires Shaped(w)
  {
    match ev
    case EvSet(appId, _, _) => appId != 0
    case EvPlay(appId, m) => appId != 0 && FreshMsg(w.env, m)
    case EvUnset(appId) => appId != 0
    case EvCommit(a) => ValidAnswers(a)
  }

  ghost function Next(w: World, ev: Event): World
    requires Shaped(w) && Legal(w, ev)
  {
    match ev
    case EvSet(appId, pipe, id) => w.(slots := SetStep(w.slots, appId, pipe, id).1)
    case EvPlay(appId, m) => PlayStep(w, appId, m).1
    case EvUnset(appId) => UnsetStep(w, appId).1
    case EvCommit(a) => CommitStep(w, a)
  }

  lemma NextKeeps(w: World, ev: Event)
    requires Inv(w) && Legal(w, ev)
    ensures Inv(Next(w, ev))
  {
    match ev {
      case EvSet(appId, pipe, id) => SetKeeps(w, appId, pipe, id);
      case EvPlay(appId, m) => PlayKeeps(w, appId, m);
      case EvUnset(appId) => UnsetKeeps(w, appId);
      case EvCommit(a) => CommitKeeps(w, a);
    }
  }

  /** The worlds of a run: each from the one before by a legal event. */
  ghost predicate Run(ws: seq<World>, evs: seq<Event>) {
    && |ws| == |evs| + 1 && ws[0] == START
    && (forall i :: 0 <= i < |evs| ==> Shaped(ws[i]))
    && forall i {:trigger evs[i]} :: 0 <= i < |evs| ==> Legal(ws[i], evs[i]) && ws[i + 1] == Next(ws[i], evs[i])
  }

  lemma StartInv()
    ensures Inv(START)
  {
    assert forall fd :: fd > 0 ==> SlotCount(INITIAL, fd) == 0 && SlotCount(ZERO, fd) == 0;
    assert forall fd :: fd > 0 ==> BalancedAt(START, fd);
  }

  /** Ownership holds at every point of every run. */
  lemma {:induction false} RunInv(ws: seq<World>, evs: seq<Event>, n: nat)
    requires Run(ws, evs) && n < |ws|
    ensures Inv(ws[n])
  {
    if n == 0 {
      StartInv();
    } else {
      RunInv(ws, evs, n - 1);
      NextKeeps(ws[n - 1], evs[n - 1]);
    }
  }

  // ----- what the balance means for single descriptors -----

  /** A place for a descriptor: slot, front or back, plane 0..2 or the destination 3. */
  datatype Place = Place(slot: nat, front: bool, plane: nat)

  ghost predicate ValidPlace(p: Place) {
    p.slot < SLOTS && p.plane < 4
  }

  ghost function At(w: World, p: Place): int
    requires Shaped(w) && ValidPlace(p)
  {
    DataAt(if p.front then w.slots[p.slot].front else w.slots[p.slot].back, p.plane)
  }

  lemma TwoSlots(s: seq<Overlay>, i: nat, j: nat, fd: int)
    requires ThreePlanes(s) && i < SLOTS && j < SLOTS && i != j && fd > 0
    ensures SlotCount(s[i], fd) + SlotCount(s[j], fd) <= HeldCount(s, fd)
  {
    HeldUpdate(s, i, ZERO, fd);
    HeldUpdate(s[i := ZERO], j, s[j], fd);
  }

  lemma TwoPlaces(w: World, p: Place, q: Place)
    requires Shaped(w) && ValidPlace(p) && ValidPlace(q) && p != q && At(w, p) == At(w, q) > 0
    ensures HeldCount(w.slots, At(w, p)) >= 2
  {
    var fd := At(w, p);
    DataHas(if p.front then w.slots[p.slot].front else w.slots[p.slot].back, p.plane);
    DataHas(if q.front then w.slots[q.slot].front else w.slots[q.slot].back, q.plane);
    HeldUpdate(w.slots, p.slot, w.slots[p.slot], fd);
    if p.slot != q.slot { TwoSlots(w.slots, p.slot, q.slot, fd); }
  }

  /** Held descriptors are open, and no two places hold the same one. */
  lemma PlacesApart(w: World, p: Place, q: Place)
    requires Inv(w) && ValidPlace(p) && ValidPlace(q) && At(w, p) > 0
    ensures At(w, p) in w.env.open
    ensures p != q ==> At(w, p) != At(w, q)
  {
    if p.front { FrontOpen(w, p.slot, p.plane); } else { BackOpen(w, p.slot, p.plane); }
    assert BalancedAt(w, At(w, p));
    if p != q && At(w, p) == At(w, q) { TwoPlaces(w, p, q); }
  }

  /** Only a rejected PLAY or an UNSET leaves a descriptor behind. */
  lemma AbandonedOnlyBy(w: World, ev: Event)
    requires Inv(w) && Legal(w, ev) && Next(w, ev).env.abandoned != w.env.abandoned
    ensures ev.EvUnset? || (ev.EvPlay? && PlayStep(w, ev.appId, ev.msg).0 == -1)
  {
    match ev {
      case EvCommit(a) =>
        CommitAbandons(w, LAYERS, a);
        SwapAbandons(CommitLayers(w, LAYERS, a), LAYERS);
      case EvPlay(appId, m) =>
        var i := FindRegistered(w.slots, appId);
        if i < SLOTS {
          var e := Receive(w.env, m.fds);
          BackHeldOpen(w, i, e);
          CloseBackCloses(e, w.slots[i].back);
        }
      case _ =>
    }
  }

  lemma {:induction false} CommitAbandons(w: World, n: nat, a: Answers)
    requires Shaped(w) && ValidAnswers(a) && n <= LAYERS
    ensures CommitLayers(w, n, a).env.abandoned == w.env.abandoned
  {
    if n > 0 {
      CommitAbandons(w, n - 1, a);
      LayerAbandons(CommitLayers(w, n - 1, a), n - 1, a);
    }
  }

  lemma {:induction false} CloseAbandons(e: Env, data: seq<int>, n: nat)
    requires n <= |data|
    ensures ClosePlanes(e, data, n).abandoned == e.abandoned
  {
    if n > 0 { CloseAbandons(e, data, n - 1); }
  }

  lemma LayerAbandons(w: World, i: nat, a: Answers)
    requires Shaped(w) && ValidAnswers(a) && i < LAYERS
    ensures CommitLayer(w, i, a).env.abandoned == w.env.abandoned
  {
    if w.slots[i].appId != 0 {
      var c := w.(slots := w.slots[i := Configure(w.slots[i], a.set_[i])]);
      if WantsQueue(c.slots[i]) {
        var s := c.slots[i];
        var env := if s.status == 0 then QueueEnv(c.env, i, s) else c.env;
        CloseAbandons(env, s.front.data, s.front.numPlane);
        QueueLayerEnv(c, i, a.queue[i]);
      }
    }
  }

  lemma QueueLayerEnv(w: World, i: nat, answer: int)
    requires Shaped(w) && i < LAYERS
    ensures var s := w.slots[i];
            QueueLayer(w, i, answer).env ==
            ClosePlanes(if s.status == 0 then QueueEnv(w.env, i, s) else w.env, s.front.data, s.front.numPlane)
  {
  }

  lemma {:induction false} SwapAbandons(w: World, n: nat)
    requires Shaped(w) && n <= LAYERS
    ensures SwapLayers(w, n).env.abandoned == w.env.abandoned
  {
    if n > 0 { SwapAbandons(w, n - 1); }
  }
}
