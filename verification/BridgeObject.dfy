/** The bridge's own fields and its socket handlers, refining the steps of `Leader`. */
module BridgeObject {
  import opened Wrappers
  import opened Leader

  class GatewayBridge {
    var isLeader: bool
    var leaderKnown: bool
    var pendingDispatches: seq<Msg>
    // What was passed on to the agents, and, for the proof, what was heard.
    var dispatched: seq<Msg>
    ghost var received: seq<Msg>
    // The socket opened last, if it has not closed; sockets are numbered as they are opened.
    var gatewaySocket: Option<nat>
    var socketCount: nat

    ghost predicate Valid()
      reads this
    {
      BridgeInv(View()) && (gatewaySocket.Some? ==> gatewaySocket.value < socketCount)
    }

    ghost function View(): Bridge
      reads this
    {
      Bridge(isLeader, leaderKnown, pendingDispatches, received, dispatched)
    }

    constructor ()
      ensures View() == NewBridge && Valid() && gatewaySocket == None
    {
      gatewaySocket, socketCount := None, 0;
      isLeader, leaderKnown, pendingDispatches, dispatched, received := false, false, [], [], [];
    }

    method ChannelMessage(m: Msg, human: bool)
      requires Valid()
      modifies this
      ensures View() == OnMessage(old(View()), m, human) && Valid()
      ensures gatewaySocket == old(gatewaySocket) && socketCount == old(socketCount)
    {
      BridgeStepKeeps(View(), Message(m, human));
      if !human { return; }
      received := received + [m];
      if !leaderKnown {
        if |pendingDispatches| < MAX_BUFFERED {
          pendingDispatches := pendingDispatches + [m];
        }
        return;
      }
      if !isLeader { return; }
      dispatched := dispatched + [m];
    }

    method Dispatch(messages: seq<Msg>)
      modifies this`dispatched
      ensures dispatched == old(dispatched) + messages
    {
      for k := 0 to |messages|
        invariant dispatched == old(dispatched) + messages[..k]
      {
        assert messages[..k + 1] == messages[..k] + [messages[k]];
        dispatched := dispatched + [messages[k]];
      }
      assert messages[..|messages|] == messages;
    }

    method LeaderStatusFrame(leads: bool)
      requires Valid()
      modifies this
      ensures View() == OnStatus(old(View()), leads) && Valid()
      ensures gatewaySocket == old(gatewaySocket) && socketCount == old(socketCount)
    {
      BridgeStepKeeps(View(), LeaderStatus(leads));
      var wasKnown := leaderKnown;
      leaderKnown, isLeader := true, leads;
      if !wasKnown && isLeader && |pendingDispatches| > 0 {
        var pending := pendingDispatches;
        pendingDispatches := [];
        Dispatch(pending);
      } else if !isLeader {
        pendingDispatches := [];
      }
    }

    method OpenGateway() returns (ws: nat)
      requires Valid()
      modifies this`gatewaySocket, this`socketCount
      ensures Valid() && View() == old(View())
      ensures ws == old(socketCount) && socketCount == ws + 1 && gatewaySocket == Some(ws)
    {
      ws := socketCount;
      socketCount, gatewaySocket := socketCount + 1, Some(ws);
    }

    /** The gateway socket, if any, is closed, and replaced before its close is heard. */
    method RefreshGateway() returns (closed: Option<nat>, ws: nat)
      requires Valid()
      modifies this`gatewaySocket, this`socketCount
      ensures Valid() && View() == old(View())
      ensures closed == old(gatewaySocket) && gatewaySocket == Some(ws) && closed != Some(ws)
      ensures ws == old(socketCount) && socketCount == ws + 1
    {
      closed := gatewaySocket;
      ws := OpenGateway();
    }

    /** A socket has closed.  Only if it is the one opened last is the role forgotten. */
    method GatewayClosed(ws: nat)
      requires Valid()
      modifies this
      ensures Valid() && socketCount == old(socketCount)
      ensures View() == if old(gatewaySocket) == Some(ws) then OnClose(old(View())) else old(View())
      ensures gatewaySocket == if old(gatewaySocket) == Some(ws) then None else old(gatewaySocket)
    {
      BridgeStepKeeps(View(), GatewayCloses);
      if gatewaySocket != Some(ws) { return; }
      gatewaySocket := None;
      leaderKnown, isLeader, pendingDispatches := false, false, [];
    }
  }
}
