/** What each message of a client does: where SET puts an application, what PLAY and UNSET change, and
    which pipe the owner of a slot asked for. */
module CompositorMessages {
  import opened Compositor
  import opened CompositorOwnership
  import opened CompositorCommit

  // ----- SET -----

  /** Slots 0 and 1 are video, 2 to 4 graphics, 5 is the framebuffer. */
  predicate Serves(i: nat, pipe: PipeType) {
    match pipe
    case PipeVideo => i == 0 || i == 1
    case PipeGfx => i == 2 || i == 3 || i == 4
    case PipeFb => i == 5
    case PipeOther => false
  }

  ghost predicate Owns(s: seq<Overlay>, appId: int) {
    exists i :: 0 <= i < |s| && s[i].appId == appId
  }

  lemma OwnsIff(s: seq<Overlay>, appId: int)
    ensures Owns(s, appId) <==> FindRegistered(s, appId) < |s|
  {
  }

  lemma RangeServes(pipe: PipeType, i: nat)
    ensures PipeRange(pipe).0 <= i < PipeRange(pipe).1 <==> Serves(i, pipe)
  {
  }

  lemma BeforeFirst(s: seq<Overlay>, lo: nat, hi: nat, j: nat)
    requires lo <= j < hi <= |s| && j < lo + FindRegistered(s[lo..hi], 0)
    ensures s[j].appId != 0
  {
    assert s[lo..hi][j - lo] == s[j];
  }

  lemma EmptyIs(s: seq<Overlay>, pipe: PipeType)
    requires |s| == SLOTS
    ensures var i := FindEmpty(s, pipe);
            && i <= SLOTS && (i < SLOTS ==> Serves(i, pipe) && s[i].appId == 0)
            && forall j :: 0 <= j < i && Serves(j, pipe) ==> s[j].appId != 0
  {
    var i, r := FindEmpty(s, pipe), PipeRange(pipe);
    RangeServes(pipe, i);
    forall j | 0 <= j < i && Serves(j, pipe)
      ensures s[j].appId != 0
    {
      RangeServes(pipe, j);
      BeforeFirst(s, r.0, r.1, j);
    }
  }

  /** SET fails exactly when the application is new and no slot of its pipe is free, and then changes
      nothing. */
  lemma SetFailsIff(s: seq<Overlay>, appId: int, pipe: PipeType, id: int)
    requires |s| == SLOTS
    ensures var r := SetStep(s, appId, pipe, id);
            && (r.0 == -1 <==> !Owns(s, appId) && forall i :: 0 <= i < SLOTS && Serves(i, pipe) ==> s[i].appId != 0)
            && (r.0 != -1 ==> r.0 == 0) && (r.0 == -1 ==> r.1 == s)
  {
    OwnsIff(s, appId);
    EmptyIs(s, pipe);
  }

  /** Otherwise a new application gets the first free slot of its pipe, with the id it gave. */
  lemma SetLands(s: seq<Overlay>, appId: int, pipe: PipeType, id: int) returns (i: nat)
    requires |s| == SLOTS && !Owns(s, appId) && SetStep(s, appId, pipe, id).0 == 0
    ensures i < SLOTS && Serves(i, pipe) && s[i].appId == 0
    ensures forall j :: 0 <= j < i && Serves(j, pipe) ==> s[j].appId != 0
    ensures SetStep(s, appId, pipe, id).1 == s[i := s[i].(appId := appId, ovId := id, cfgId := id, isUpdate := true)]
  {
    OwnsIff(s, appId);
    EmptyIs(s, pipe);
    i := FindEmpty(s, pipe);
  }

  /** An application that has a slot keeps it, and the plane id the driver gave it, whatever pipe and
      id it asks for. */
  lemma SetAgain(s: seq<Overlay>, appId: int, pipe: PipeType, id: int, i: nat)
    requires |s| == SLOTS && UniqueApps(s) && appId != 0 && i < SLOTS && s[i].appId == appId
    ensures SetStep(s, appId, pipe, id) == (0, s[i := s[i].(cfgId := s[i].ovId, isUpdate := true)])
  {
    assert FindRegistered(s, appId) == i;
  }

  // ----- PLAY -----

  /** PLAY fails exactly for an application without a slot; the descriptors it brought stay open. */
  lemma PlayFails(w: World, appId: int, m: PlayMsg)
    requires Inv(w) && appId != 0 && FreshMsg(w.env, m)
    ensures PlayStep(w, appId, m).0 == (if Owns(w.slots, appId) then 0 else -1)
    ensures !Owns(w.slots, appId) ==>
              var w' := PlayStep(w, appId, m).1;
              && w'.slots == w.slots && w'.env.closed == w.env.closed
              && forall fd :: fd in w'.env.open <==> fd in w.env.open || fd in m.fds
  {
    OwnsIff(w.slots, appId);
  }

  /** The data an accepted PLAY leaves in the back buffer: the planes in the order received, the
      destination last, and unused places marked. */
  ghost predicate Carries(d: OverlayData, m: PlayMsg, id: int)
    requires ValidMsg(m)
  {
    && d.id == id && d.numPlane == m.numPlane && |d.data| == 3
    && (forall k :: 0 <= k < 3 ==> d.data[k] == if k < m.numPlane then m.fds[k] else -1)
    && d.dst == if m.dstUsed then m.fds[m.numPlane] else 0
  }

  /** An accepted PLAY replaces the back buffer of the slot and nothing else, closes what that buffer
      held, and leaves open what came. */
  lemma PlayReplaces(w: World, m: PlayMsg, i: nat)
    requires Inv(w) && i < SLOTS && w.slots[i].appId != 0 && FreshMsg(w.env, m)
    ensures var s, w' := w.slots[i], PlayStep(w, w.slots[i].appId, m).1;
            && Carries(w'.slots[i].back, m, s.ovId)
            && w'.slots == w.slots[i := s.(back := w'.slots[i].back, isNewData := true)]
            && (forall fd :: fd > 0 ==>
                  (fd in w'.env.open <==> fd in m.fds || (fd in w.env.open && DataCount(s.back, fd) == 0)))
            && (forall fd :: fd > 0 ==> w'.env.closed[fd] == w.env.closed[fd] + DataCount(s.back, fd))
            && w'.env.abandoned == w.env.abandoned
  {
    var s := w.slots[i];
    assert FindRegistered(w.slots, s.appId) == i;
    var e := Receive(w.env, m.fds);
    BackHeldOpen(w, i, e);
    CloseBackCloses(e, s.back);
    HeldApart(w, i, m);
  }

  /** What a buffer holds is not among descriptors that come new. */
  lemma HeldApart(w: World, i: nat, m: PlayMsg)
    requires Inv(w) && i < SLOTS && FreshMsg(w.env, m)
    ensures forall fd :: fd > 0 && fd in m.fds ==> DataCount(w.slots[i].back, fd) == 0
  {
    var d := w.slots[i].back;
    BackHeldOpen(w, i, w.env);
    assert DataAt(d, 0) == d.data[0] && DataAt(d, 1) == d.data[1] && DataAt(d, 2) == d.data[2] && DataAt(d, 3) == d.dst;
  }

  // ----- UNSET -----

  /** UNSET fails exactly for an application without a slot, and then changes nothing; otherwise it
      clears the slot and closes nothing. */
  lemma UnsetClears(w: World, appId: int, i: nat)
    requires Inv(w) && appId != 0 && i < SLOTS
    ensures UnsetStep(w, appId).0 == if Owns(w.slots, appId) then 0 else -1
    ensures !Owns(w.slots, appId) ==> UnsetStep(w, appId).1 == w
    ensures w.slots[i].appId == appId ==>
              var w' := UnsetStep(w, appId).1;
              && w'.slots == w.slots[i := ZERO]
              && w'.env.open == w.env.open && w'.env.closed == w.env.closed
              && forall fd :: fd > 0 ==> w'.env.abandoned[fd] == w.env.abandoned[fd] + SlotCount(w.slots[i], fd)
  {
    OwnsIff(w.slots, appId);
    if w.slots[i].appId == appId {
      assert FindRegistered(w.slots, appId) == i;
      forall fd | fd > 0
        ensures HeldSlot(w.slots[i])[fd] == SlotCount(w.slots[i], fd)
      {
        HeldSlotCount(w.slots[i], fd);
      }
    }
  }

  // ----- the pipe of a slot -----

  /** SET p gave slot i to its owner of world n: the application was new and asked for the pipe that the
      slot serves, and it has had the slot ever since. */
  ghost predicate GaveSlot(ws: seq<World>, evs: seq<Event>, p: nat, n: nat, i: nat)
    requires Run(ws, evs) && p < n < |ws| && i < SLOTS && Shaped(ws[n])
  {
    var appId := ws[n].slots[i].appId;
    && evs[p].EvSet? && evs[p].appId == appId && Serves(i, evs[p].pipe)
    && !Owns(ws[p].slots, appId)
    && forall q {:trigger ws[q]} :: p < q <= n ==> |ws[q].slots| == SLOTS && ws[q].slots[i].appId == appId
  }

  /** What an event does to the owner of a slot. */
  lemma OwnerAfter(w: World, ev: Event, i: nat)
    requires Inv(w) && Legal(w, ev) && i < SLOTS && Shaped(Next(w, ev))
    ensures var before, after := w.slots[i].appId, Next(w, ev).slots[i].appId;
            || after == before || after == 0
            || (before == 0 && ev.EvSet? && ev.appId == after && Serves(i, ev.pipe) && !Owns(w.slots, after))
  {
    match ev {
      case EvSet(appId, pipe, id) =>
        SetFailsIff(w.slots, appId, pipe, id);
        if !Owns(w.slots, appId) && SetStep(w.slots, appId, pipe, id).0 == 0 {
          var e := SetLands(w.slots, appId, pipe, id);
        }
      case EvPlay(appId, m) =>
      case EvUnset(appId) =>
      case EvCommit(a) =>
        if i < LAYERS { CommitSlots(w, a, i); } else { CommitFramebuffer(w, a); }
    }
  }

  lemma SlotKept(ws: seq<World>, evs: seq<Event>, p: nat, k: nat, n: nat, i: nat)
    requires Run(ws, evs) && p < k < |evs| && n == k + 1 && i < SLOTS && Shaped(ws[k]) && Shaped(ws[n])
    requires GaveSlot(ws, evs, p, k, i) && ws[n].slots[i].appId == ws[k].slots[i].appId
    ensures GaveSlot(ws, evs, p, n, i)
  {
  }

  /** In every run, under every answer of the driver, each owned slot was given to its owner by a SET
      for the pipe it serves: video applications are only ever in video slots, graphics applications
      in graphics slots. */
  lemma {:induction false} PipesKept(ws: seq<World>, evs: seq<Event>, n: nat, i: nat) returns (p: nat)
    requires Run(ws, evs) && n < |ws| && i < SLOTS
    ensures Shaped(ws[n])
    ensures ws[n].slots[i].appId != 0 ==> p < n && GaveSlot(ws, evs, p, n, i)
  {
    RunInv(ws, evs, n);
    p := 0;
    if n > 0 && ws[n].slots[i].appId != 0 {
      var k := n - 1;
      RunInv(ws, evs, k);
      OwnerAfter(ws[k], evs[k], i);
      if ws[n].slots[i].appId == ws[k].slots[i].appId {
        p := PipesKept(ws, evs, k, i);
        SlotKept(ws, evs, p, k, n, i);
      } else {
        p := k;
      }
    }
  }
}
