/** The compositor's overlay table as hwcomposer.c updates it, in place. */
module HwcContext {
  import opened Compositor
  import opened CompositorOwnership

  class Context {
    /** vid_cfg[0..1], gfx_cfg[0..2], fb_cfg. */
    var slots: seq<Overlay>
    ghost var env: Env

    ghost function Now(): World
      reads this
    {
      World(slots, env)
    }

    constructor ()
      ensures Now() == START && Inv(Now())
    {
      slots := START.slots;
      env := START.env;
      new;
      StartInv();
    }

    method FindRegisteredOverlay(appId: int) returns (i: nat)
      requires |slots| == SLOTS
      ensures i == FindRegistered(slots, appId)
    {
      for k := 0 to MAX_VID_OVERLAY
        invariant forall j :: 0 <= j < k ==> slots[j].appId != appId
      {
        if slots[k].appId == appId {
          return k;
        }
      }
      for k := MAX_VID_OVERLAY to LAYERS
        invariant forall j :: 0 <= j < k ==> slots[j].appId != appId
      {
        if slots[k].appId == appId {
          return k;
        }
      }
      i := if slots[LAYERS].appId == appId then LAYERS else SLOTS;
    }

    method FindEmptyOverlay(pipe: PipeType) returns (i: nat)
      requires |slots| == SLOTS
      ensures i == FindEmpty(slots, pipe)
    {
      var r := PipeRange(pipe);
      for k := r.0 to r.1
        invariant forall j :: r.0 <= j < k ==> slots[j].appId != 0
      {
        if slots[k].appId == 0 {
          FindEmptyIs(slots, pipe, k);
          return k;
        }
      }
      FindEmptyNone(slots, pipe);
      i := SLOTS;
    }

    /** -1 when the application is new and its pipe has no free slot. */
    method RegisterOverlayCfg(appId: int, pipe: PipeType, id: int) returns (ret: int)
      requires Inv(Now()) && appId != 0
      modifies this`slots
      ensures Inv(Now()) && (ret, slots) == SetStep(old(slots), appId, pipe, id)
    {
      SetKeeps(Now(), appId, pipe, id);
      var i := FindRegisteredOverlay(appId);
      if i == SLOTS {
        i := FindEmptyOverlay(pipe);
        if i == SLOTS {
          return -1;
        }
        slots := slots[i := slots[i].(appId := appId, cfgId := id, ovId := id, isUpdate := true)];
      } else {
        slots := slots[i := slots[i].(cfgId := slots[i].ovId, isUpdate := true)];
      }
      return 0;
    }

    /** Close what the back buffer still holds. */
    method CloseBackBuffer(i: nat)
      requires Shaped(Now()) && i < SLOTS
      modifies this`env
      ensures env == CloseBack(old(env), slots[i].back)
    {
      var back := slots[i].back;
      for j := 0 to 3
        invariant env == CloseUsed(old(env), back.data, j)
      {
        if back.data[j] != -1 && back.data[j] != 0 {
          env := CloseFd(env, back.data[j]);
        }
      }
      if back.dst > 0 {
        env := CloseFd(env, back.dst);
      }
    }

    /** -1, leaving the received descriptors open, when the application has no slot. */
    method RegisterOverlayData(appId: int, msg: PlayMsg) returns (ret: int)
      requires Inv(Now()) && appId != 0 && FreshMsg(env, msg)
      modifies this
      ensures Inv(Now()) && (ret, Now()) == PlayStep(old(Now()), appId, msg)
    {
      PlayKeeps(Now(), appId, msg);
      env := Receive(env, msg.fds);
      var i := FindRegisteredOverlay(appId);
      if i == SLOTS {
        env := env.(abandoned := env.abandoned + multiset(msg.fds));
        return -1;
      }
      CloseBackBuffer(i);
      slots := slots[i := slots[i].(back := Request(msg, slots[i].ovId), isNewData := true)];
      return 0;
    }

    /** The slot is zeroed without closing anything it holds. */
    method UnregisterOverlayCfg(appId: int) returns (ret: int)
      requires Inv(Now()) && appId != 0
      modifies this
      ensures Inv(Now()) && (ret, Now()) == UnsetStep(old(Now()), appId)
    {
      UnsetKeeps(Now(), appId);
      var i := FindRegisteredOverlay(appId);
      if i == SLOTS {
        return -1;
      }
      env := env.(abandoned := env.abandoned + HeldSlot(slots[i]));
      slots := slots[i := ZERO];
      return 0;
    }

    /** Close the planes of the front buffer and mark each with -1. */
    method CloseFrontBuffer(i: nat)
      requires Shaped(Now()) && i < SLOTS
      modifies this
      ensures Now() == DropFront(old(Now()), i)
    {
      ghost var f := slots[i].front;
      var data := slots[i].front.data;
      for j := 0 to slots[i].front.numPlane
        invariant slots == old(slots) && |data| == 3
        invariant env == ClosePlanes(old(env), f.data, j)
        invariant forall k :: 0 <= k < 3 ==> data[k] == if k < j then -1 else f.data[k]
      {
        env := CloseFd(env, data[j]);
        data := data[j := -1];
      }
      assert data == Spend(f).data;
      slots := slots[i := slots[i].(front := slots[i].front.(data := data))];
    }

    method QueueBackBuffer(i: nat, answer: int)
      requires Shaped(Now()) && i < LAYERS
      modifies this
      ensures Now() == QueueLayer(old(Now()), i, answer)
    {
      ghost var s := slots[i];
      slots := slots[i := slots[i].(back := slots[i].back.(id := slots[i].ovId))];
      if slots[i].status == 0 {
        env := QueueEnv(env, i, s);
        var home := StatusHome(i);
        slots := slots[home := slots[home].(status := answer)];
      }
      slots := slots[i := slots[i].(isNewData := false)];
      ghost var next := old(slots)[i := Requeued(s)];
      assert slots == if s.status == 0 then next[StatusHome(i) := next[StatusHome(i)].(status := answer)] else next;
      CloseFrontBuffer(i);
    }

    /** One pass of the first two loops of the commit body. */
    method PrepareLayer(i: nat, a: Answers)
      requires Shaped(Now()) && ValidAnswers(a) && i < LAYERS
      modifies this
      ensures Now() == CommitLayer(old(Now()), i, a)
    {
      if slots[i].appId == 0 {
        return;
      }
      if slots[i].isUpdate {
        if slots[i].status == 0 {
          slots := slots[i := slots[i].(status := a.set_[i].0, cfgId := a.set_[i].1)];
          if slots[i].status != 0 {
            slots := slots[i := slots[i].(appId := 0)];
          }
        }
        slots := slots[i := slots[i].(ovId := slots[i].cfgId, isUpdate := false)];
      }
      assert slots == old(slots)[i := Configure(old(slots[i]), a.set_[i])];
      if slots[i].back.data[0] != -1 && slots[i].isNewData {
        QueueBackBuffer(i, a.queue[i]);
      }
    }

    method SwapBuffers(i: nat)
      requires Shaped(Now()) && i < LAYERS
      modifies this
      ensures Now() == SwapLayer(old(Now()), i)
    {
      if slots[i].appId != 0 {
        var tmp := slots[i].front;
        slots := slots[i := slots[i].(front := slots[i].back, back := tmp)];
        env := env.(idle := env.idle[i := env.idle[i] + 1]);
      }
    }

    /** The configure-and-queue loops over the video and graphics slots. */
    method PrepareLayers(a: Answers)
      requires Shaped(Now()) && ValidAnswers(a)
      modifies this
      ensures Now() == CommitLayers(old(Now()), LAYERS, a)
    {
      ghost var before := Now();
      for i := 0 to MAX_VID_OVERLAY
        invariant Shaped(Now()) && Now() == CommitLayers(before, i, a)
      {
        PrepareLayer(i, a);
      }
      for i := MAX_VID_OVERLAY to LAYERS
        invariant Shaped(Now()) && Now() == CommitLayers(before, i, a)
      {
        PrepareLayer(i, a);
      }
    }

    /** The swap loops. */
    method SwapAll()
      requires Shaped(Now())
      modifies this
      ensures Now() == SwapLayers(old(Now()), LAYERS)
    {
      ghost var before := Now();
      for i := 0 to MAX_VID_OVERLAY
        invariant Shaped(Now()) && Now() == SwapLayers(before, i)
      {
        SwapBuffers(i);
      }
      for i := MAX_VID_OVERLAY to LAYERS
        invariant Shaped(Now()) && Now() == SwapLayers(before, i)
      {
        SwapBuffers(i);
      }
    }

    /** The slot loops of the commit body. */
    method CommitBody(a: Answers)
      requires Inv(Now()) && ValidAnswers(a)
      modifies this
      ensures Inv(Now()) && Now() == CommitStep(old(Now()), a)
    {
      CommitKeeps(Now(), a);
      PrepareLayers(a);
      SwapAll();
    }
  }
}
