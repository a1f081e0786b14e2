/** The overlay table of hwcomposer.c: SET, PLAY and UNSET messages from clients, and the
    commit body that queues back buffers, closes old front buffers and swaps.  Each client
    message and each commit body is one step.  The descriptor bookkeeping in Env is what the
    process owns; the display driver is an oracle that answers each call. */
module Compositor {

  // vid_cfg[2], gfx_cfg[3] and fb_cfg are adjacent members of the context: one table.
  const MAX_VID_OVERLAY := 2
  const MAX_GFX_OVERLAY := 3
  const LAYERS := MAX_VID_OVERLAY + MAX_GFX_OVERLAY
  const SLOTS := LAYERS + 1

  datatype PipeType = PipeVideo | PipeGfx | PipeFb | PipeOther

  /** gdm_dss_overlay_data: up to three plane descriptors and one destination descriptor. */
  datatype OverlayData = OverlayData(id: int, numPlane: nat, data: seq<int>, dst: int)

  datatype Overlay = Overlay(
    appId: int, isUpdate: bool, isNewData: bool, ovId: int, cfgId: int, status: int,
    front: OverlayData, back: OverlayData)

  /** Descriptors open in the process, every one received, closed or left behind so far, the
      number of close calls on a descriptor that was not open, and of queue calls that named
      one; per layer, the planes last queued and the swaps since. */
  datatype Env = Env(
    open: set<int>, received: multiset<int>, closed: multiset<int>, abandoned: multiset<int>,
    badCloses: nat, badQueues: nat, shown: seq<seq<int>>, idle: seq<nat>)

  datatype World = World(slots: seq<Overlay>, env: Env)

  /** A PLAY message: plane count, whether a destination buffer is used, the descriptors. */
  datatype PlayMsg = PlayMsg(numPlane: nat, dstUsed: bool, fds: seq<int>)

  /** The driver's answers to one commit: status and assigned id of each set_overlay, status
      of each overlay_queue. */
  datatype Answers = Answers(set_: seq<(int, int)>, queue: seq<int>)

  datatype Event =
    | EvSet(appId: int, pipe: PipeType, id: int)
    | EvPlay(appId: int, msg: PlayMsg)
    | EvUnset(appId: int)
    | EvCommit(answers: Answers)

  const NO_DATA := OverlayData(0, 0, [-1, -1, -1], 0)
  const ZERO_DATA := OverlayData(0, 0, [0, 0, 0], 0)
  const ZERO := Overlay(0, false, false, 0, 0, 0, ZERO_DATA, ZERO_DATA)
  const INITIAL := ZERO.(front := NO_DATA, back := NO_DATA)

  /** main and open_framebuffer_device: zeroed, plane ids of the layers set to -1. */
  const START := World(
    [INITIAL, INITIAL, INITIAL, INITIAL, INITIAL, ZERO],
    Env({}, multiset{}, multiset{}, multiset{}, 0, 0, [[], [], [], [], []], [0, 0, 0, 0, 0]))

  // ----- the steps -----

  function FindRegistered(s: seq<Overlay>, appId: int): (i: nat)
    ensures i <= |s| && (i < |s| ==> s[i].appId == appId)
    ensures forall j :: 0 <= j < i ==> s[j].appId != appId
  {
    if s == [] || s[0].appId == appId then 0 else 1 + FindRegistered(s[1..], appId)
  }

  /** The slots a pipe type may use: lo <= i < hi. */
  function PipeRange(pipe: PipeType): (r: (nat, nat))
    ensures r.0 <= r.1 <= SLOTS
  {
    match pipe
    case PipeVideo => (0, MAX_VID_OVERLAY)
    case PipeGfx => (MAX_VID_OVERLAY, LAYERS)
    case PipeFb => (LAYERS, SLOTS)
    case PipeOther => (0, 0)
  }

  /** The first free slot of the pipe's range, or SLOTS. */
  function FindEmpty(s: seq<Overlay>, pipe: PipeType): (i: nat)
    requires |s| == SLOTS
    ensures i < |s| ==> s[i].appId == 0 && PipeRange(pipe).0 <= i < PipeRange(pipe).1
  {
    var r := PipeRange(pipe);
    var i := r.0 + FindRegistered(s[r.0..r.1], 0);
    if i < r.1 then i else SLOTS
  }

  lemma FirstIn(s: seq<Overlay>, lo: nat, hi: nat, k: nat)
    requires lo <= k < hi <= |s| && s[k].appId == 0
    requires forall j :: lo <= j < k ==> s[j].appId != 0
    ensures FindRegistered(s[lo..hi], 0) == k - lo
  {
    var part := s[lo..hi];
    assert forall j :: 0 <= j < hi - lo ==> part[j] == s[lo + j];
    assert part[k - lo].appId == 0;
  }

  lemma FindEmptyIs(s: seq<Overlay>, pipe: PipeType, k: nat)
    requires |s| == SLOTS && PipeRange(pipe).0 <= k < PipeRange(pipe).1 && s[k].appId == 0
    requires forall j :: PipeRange(pipe).0 <= j < k ==> s[j].appId != 0
    ensures FindEmpty(s, pipe) == k
  {
    FirstIn(s, PipeRange(pipe).0, PipeRange(pipe).1, k);
  }

  lemma FindEmptyNone(s: seq<Overlay>, pipe: PipeType)
    requires |s| == SLOTS
    requires forall j :: PipeRange(pipe).0 <= j < PipeRange(pipe).1 ==> s[j].appId != 0
    ensures FindEmpty(s, pipe) == SLOTS
  {
  }

  function SetStep(s: seq<Overlay>, appId: int, pipe: PipeType, id: int): (r: (int, seq<Overlay>))
    requires |s| == SLOTS
    ensures |r.1| == SLOTS
  {
    var i := FindRegistered(s, appId);
    if i < SLOTS then (0, s[i := s[i].(cfgId := s[i].ovId, isUpdate := true)])
    else
      var e := FindEmpty(s, pipe);
      if e == SLOTS then (-1, s)
      else (0, s[e := s[e].(appId := appId, cfgId := id, ovId := id, isUpdate := true)])
  }

  function CloseFd(e: Env, fd: int): Env {
    if fd < 0 then e
    else e.(open := e.open - {fd}, closed := e.closed + multiset{fd},
            badCloses := e.badCloses + if fd in e.open then 0 else 1)
  }

  /** `for (j = 0; j < n; j++) close(data[j])`. */
  function ClosePlanes(e: Env, data: seq<int>, n: nat): Env
    requires n <= |data|
  {
    if n == 0 then e else CloseFd(ClosePlanes(e, data, n - 1), data[n - 1])
  }

  /** The same, skipping -1 and 0. */
  function CloseUsed(e: Env, data: seq<int>, n: nat): Env
    requires n <= |data|
  {
    if n == 0 then e
    else
      var p := CloseUsed(e, data, n - 1);
      if data[n - 1] != -1 && data[n - 1] != 0 then CloseFd(p, data[n - 1]) else p
  }

  ghost predicate ValidMsg(m: PlayMsg) {
    m.numPlane <= 3 && |m.fds| == m.numPlane + if m.dstUsed then 1 else 0
  }

  /** The overlay data a message becomes in place. */
  function Request(m: PlayMsg, id: int): (d: OverlayData)
    requires ValidMsg(m)
    ensures |d.data| == 3 && d.numPlane == m.numPlane
  {
    OverlayData(id, m.numPlane,
      seq(3, i requires 0 <= i < 3 => if i < m.numPlane then m.fds[i] else -1),
      if m.dstUsed then m.fds[|m.fds| - 1] else 0)
  }

  function Receive(e: Env, fds: seq<int>): Env {
    e.(open := e.open + (set fd | fd in fds), received := e.received + multiset(fds))
  }

  lemma {:induction false} CloseUsedKeeps(e: Env, data: seq<int>, n: nat)
    requires n <= |data|
    ensures CloseUsed(e, data, n).shown == e.shown && CloseUsed(e, data, n).idle == e.idle
  {
    if n > 0 { CloseUsedKeeps(e, data, n - 1); }
  }

  /** Close everything a back buffer still uses, planes first. */
  function CloseBack(e: Env, d: OverlayData): (r: Env)
    requires |d.data| == 3
    ensures r.shown == e.shown && r.idle == e.idle
  {
    CloseUsedKeeps(e, d.data, 3);
    var c := CloseUsed(e, d.data, 3);
    if d.dst > 0 then CloseFd(c, d.dst) else c
  }

  function PlayStep(w: World, appId: int, m: PlayMsg): (r: (int, World))
    requires ValidMsg(m) && Shaped(w)
    ensures Shaped(r.1) && r.1.env.shown == w.env.shown && r.1.env.idle == w.env.idle
  {
    var e := Receive(w.env, m.fds);
    var i := FindRegistered(w.slots, appId);
    if i == SLOTS then (-1, w.(env := e.(abandoned := e.abandoned + multiset(m.fds))))
    else
      var s := w.slots[i];
      (0, World(w.slots[i := s.(back := Request(m, s.ovId), isNewData := true)], CloseBack(e, s.back)))
  }

  /** `memset` on a slot: what it held stays open with nobody to close it. */
  function ClearSlot(w: World, i: nat): (r: World)
    requires Shaped(w) && i < SLOTS
    ensures Shaped(r)
  {
    World(w.slots[i := ZERO], w.env.(abandoned := w.env.abandoned + HeldSlot(w.slots[i])))
  }

  function UnsetStep(w: World, appId: int): (r: (int, World))
    requires Shaped(w)
  {
    var i := FindRegistered(w.slots, appId);
    if i == SLOTS then (-1, w)
    else (0, ClearSlot(w, i))
  }

  /** set_overlay for a slot with a changed configuration; a failure unregisters it. */
  function Configure(s: Overlay, answer: (int, int)): Overlay {
    if !s.isUpdate then s
    else if s.status != 0 then s.(ovId := s.cfgId, isUpdate := false)
    else
      s.(status := answer.0, cfgId := answer.1, appId := if answer.0 != 0 then 0 else s.appId,
         ovId := answer.1, isUpdate := false)
  }

  predicate WantsQueue(s: Overlay)
    requires |s.back.data| == 3
  {
    s.back.data[0] != -1 && s.isNewData
  }

  /** Descriptors named by queued data. */
  function Named(d: OverlayData): set<int>
    requires d.numPlane <= |d.data|
  {
    set fd | fd in d.data[..d.numPlane] + [d.dst] && fd > 0
  }

  function Spend(d: OverlayData): (r: OverlayData)
    requires |d.data| == 3 && d.numPlane <= 3
    ensures |r.data| == 3
  {
    d.(data := seq(3, i requires 0 <= i < 3 => if i < d.numPlane then -1 else d.data[i]))
  }

  /** The slot whose status receives the result of queueing layer i: a graphics layer stores
      it in vid_cfg at its own graphics index. */
  function StatusHome(i: nat): nat {
    if i < MAX_VID_OVERLAY then i else i - MAX_VID_OVERLAY
  }

  function Requeued(s: Overlay): Overlay {
    s.(back := s.back.(id := s.ovId), isNewData := false)
  }

  function QueueEnv(e: Env, i: nat, s: Overlay): Env
    requires s.back.numPlane <= |s.back.data| && i < |e.shown| && i < |e.idle|
  {
    e.(badQueues := e.badQueues + (if Named(s.back) <= e.open then 0 else 1),
       shown := e.shown[i := s.back.data[..s.back.numPlane]], idle := e.idle[i := 0])
  }

  ghost predicate Shaped(w: World) {
    && |w.slots| == SLOTS && |w.env.shown| == LAYERS && |w.env.idle| == LAYERS
    && forall i :: 0 <= i < SLOTS ==>
         && |w.slots[i].front.data| == 3 && w.slots[i].front.numPlane <= 3
         && |w.slots[i].back.data| == 3 && w.slots[i].back.numPlane <= 3
  }

  ghost predicate ValidAnswers(a: Answers) {
    |a.set_| == LAYERS && |a.queue| == LAYERS
  }

  lemma {:induction false} ClosePlanesKeeps(e: Env, data: seq<int>, n: nat)
    requires n <= |data|
    ensures ClosePlanes(e, data, n).shown == e.shown && ClosePlanes(e, data, n).idle == e.idle
  {
    if n > 0 { ClosePlanesKeeps(e, data, n - 1); }
  }

  /** Close the planes of slot i's front buffer and mark them spent. */
  function DropFront(w: World, i: nat): (r: World)
    requires Shaped(w) && i < SLOTS
    ensures Shaped(r)
  {
    var f := w.slots[i].front;
    ClosePlanesKeeps(w.env, f.data, f.numPlane);
    World(w.slots[i := w.slots[i].(front := Spend(f))], ClosePlanes(w.env, f.data, f.numPlane))
  }

  /** Queue slot i's back buffer unless its status is bad, then drop its front buffer. */
  function QueueLayer(w: World, i: nat, answer: int): (r: World)
    requires Shaped(w) && i < LAYERS
    ensures Shaped(r)
  {
    var s := w.slots[i];
    var env := if s.status == 0 then QueueEnv(w.env, i, s) else w.env;
    var slots := w.slots[i := Requeued(s)];
    var home := StatusHome(i);
    DropFront(World(if s.status == 0 then slots[home := slots[home].(status := answer)] else slots, env), i)
  }

  /** One layer in the first two loops of the commit: configure, queue, close the old front. */
  function CommitLayer(w: World, i: nat, a: Answers): (r: World)
    requires Shaped(w) && ValidAnswers(a) && i < LAYERS
    ensures Shaped(r)
  {
    if w.slots[i].appId == 0 then w
    else
      var c := w.(slots := w.slots[i := Configure(w.slots[i], a.set_[i])]);
      if WantsQueue(c.slots[i]) then QueueLayer(c, i, a.queue[i]) else c
  }

  function Swapped(s: Overlay): Overlay {
    s.(front := s.back, back := s.front)
  }

  /** One layer in the swap loops. */
  function SwapLayer(w: World, i: nat): (r: World)
    requires Shaped(w) && i < LAYERS
    ensures Shaped(r)
  {
    if w.slots[i].appId == 0 then w
    else World(w.slots[i := Swapped(w.slots[i])], w.env.(idle := w.env.idle[i := w.env.idle[i] + 1]))
  }

  function CommitLayers(w: World, n: nat, a: Answers): (r: World)
    requires Shaped(w) && ValidAnswers(a) && n <= LAYERS
    ensures Shaped(r)
  {
    if n == 0 then w else CommitLayer(CommitLayers(w, n - 1, a), n - 1, a)
  }

  function SwapLayers(w: World, n: nat): (r: World)
    requires Shaped(w) && n <= LAYERS
    ensures Shaped(r)
  {
    if n == 0 then w else SwapLayer(SwapLayers(w, n - 1), n - 1)
  }

  function CommitStep(w: World, a: Answers): (r: World)
    requires Shaped(w) && ValidAnswers(a)
    ensures Shaped(r)
  {
    SwapLayers(CommitLayers(w, LAYERS, a), LAYERS)
  }

  // ----- descriptors held -----

  function Pos(fd: int): multiset<int> {
    if fd > 0 then multiset{fd} else multiset{}
  }

  function HeldData(d: OverlayData): multiset<int>
    requires |d.data| == 3
  {
    Pos(d.data[0]) + Pos(d.data[1]) + Pos(d.data[2]) + Pos(d.dst)
  }

  function HeldSlot(s: Overlay): multiset<int>
    requires |s.front.data| == 3 && |s.back.data| == 3
  {
    HeldData(s.front) + HeldData(s.back)
  }
}
