/** The shell page's side of the frame, updated in place. */
module FrameShell {
  import opened Basics
  import opened FrameQueue

  class Shell {
    var iframe: Option<nat>
    var frameGeneration: nat
    var frameLoaded: bool
    var reloadSupported: bool
    var reloadTimeout: bool
    var pendingEvents: seq<Pending>
    // What the windows of the frames were handed.
    var sent: seq<Sent>

    ghost function View(): State
      reads this
    {
      State(iframe, frameGeneration, frameLoaded, reloadSupported, reloadTimeout, pendingEvents, sent)
    }

    constructor ()
      ensures View() == INITIAL
    {
      iframe, frameGeneration, frameLoaded, reloadSupported := None, 0, false, false;
      reloadTimeout, pendingEvents, sent := false, [], [];
    }

    method SendToFrame(event: Event, generation: nat)
      modifies this`sent
      ensures View() == Send(old(View()), event, generation)
    {
      if iframe.None? || generation != frameGeneration {
        return;
      }
      sent := sent + [Sent(iframe.value, event)];
    }

    method PostToFrame(event: Event)
      modifies this`sent, this`pendingEvents
      ensures View() == PostEvent(old(View()), event)
    {
      var generation := frameGeneration;
      if iframe.None? || !frameLoaded {
        pendingEvents := pendingEvents + [Pending(generation, event)];
        ghost var queue := pendingEvents;
        while |pendingEvents| > MAX_PENDING
          invariant sent == old(sent)
          invariant |pendingEvents| <= |queue| && pendingEvents == queue[|queue| - |pendingEvents|..]
          invariant |pendingEvents| < |queue| ==> |pendingEvents| >= MAX_PENDING
        {
          pendingEvents := pendingEvents[1..];
        }
        assert pendingEvents == Youngest(queue, MAX_PENDING);
        return;
      }
      SendToFrame(event, generation);
    }

    method FlushPendingEvents()
      modifies this`sent, this`pendingEvents
      ensures View() == Flush(old(View()))
    {
      var pending := pendingEvents;
      pendingEvents := [];
      var i := 0;
      while i < |pending|
        invariant 0 <= i <= |pending| && pendingEvents == []
        invariant FlushAll(View(), pending[i..]) == Flush(old(View()))
      {
        assert pending[i..][0] == pending[i] && pending[i..][1..] == pending[i + 1..];
        if pending[i].generation == frameGeneration {
          SendToFrame(pending[i].event, pending[i].generation);
        }
        i := i + 1;
      }
    }

    method CreateIframe()
      modifies this
      ensures View() == Create(old(View()))
    {
      if reloadTimeout {
        reloadTimeout := false;
      }
      frameGeneration := frameGeneration + 1;
      var generation := frameGeneration;
      pendingEvents := [];
      frameLoaded := false;
      reloadSupported := false;
      iframe := Some(generation);
    }

    // The listener of the frame that was created for this generation.
    method OnLoad(generation: nat)
      modifies this
      ensures View() == FrameLoaded(old(View()), generation)
    {
      if iframe != Some(generation) || generation != frameGeneration {
        return;
      }
      frameLoaded := true;
      FlushPendingEvents();
    }

    method OnMessage(source: nat, message: Message)
      modifies this
      ensures View() == Hear(old(View()), source, message)
    {
      if iframe != Some(source) {
        return;
      }
      match message
      case Ready(supported) =>
        reloadSupported := supported;
      case WillReload =>
        if reloadTimeout {
          reloadTimeout := false;
        }
        frameLoaded := false;
    }

    method ReloadFrame()
      modifies this
      ensures View() == FrameQueue.ReloadFrame(old(View()))
    {
      if iframe.None? {
        return;
      }
      if reloadSupported && frameLoaded {
        SendToFrame(RELOAD_IFRAME, frameGeneration);
        reloadTimeout := true;
        return;
      }
      CreateIframe();
    }

    method OnTimeout()
      requires reloadTimeout
      modifies this
      ensures View() == Next(old(View()), TimeOut)
    {
      reloadTimeout := false;
      CreateIframe();
    }
  }
}
