/**
 * The live-update effect of the voting page. One object is one run of the effect keyed on the
 * SMS number: its `socket`, `reconnectTimeout` and `pingInterval` variables, the component
 * state the callbacks write (isConnected, participantsData), and one method per browser event
 * that reaches a callback.
 */
module VoteSocket {
  import opened Common
  import opened VoteTally

  /** WebSocket.readyState. */
  datatype ReadyState = Connecting | Open | Closing | Closed

  class SocketEffect {
    /** The SMS short code the effect was run for (`dst` of the socket address). */
    const smsNumber: Option<string>
    /** The `socket` variable: null, or the readyState of the WebSocket it holds. */
    var socket: Option<ReadyState>
    /** The isConnected state. */
    var isConnected: bool
    /** `pingInterval` holds a handle; nothing ever resets it to null. */
    var pingInterval: bool
    /** The interval in `pingInterval` has not been cleared. */
    var pingRunning: bool
    /** `reconnectTimeout` holds a handle; nothing ever resets it to null. */
    var reconnectTimeout: bool
    /** The timeout in `reconnectTimeout` has neither fired nor been cleared. */
    var reconnectPending: bool
    /** The participantsData state. */
    var items: seq<Item>
    /** Calls of connectWebSocket, whether or not `new WebSocket` threw. */
    var connectAttempts: nat
    /** Pings handed to `socket.send`. */
    var pingsSent: nat
    /** The effect's cleanup has run. */
    var tornDown: bool
    /** The reconnect timeout has fired. */
    ghost var reconnectFired: bool
    /** Reconnect timeouts ever created by this run of the effect. */
    ghost var reconnectTimersCreated: nat

    ghost predicate Valid()
      reads this
    {
      && (reconnectPending ==> reconnectTimeout && socket == Some(Closed) && !pingRunning)
      && (reconnectFired ==> reconnectTimeout && !reconnectPending)
      && reconnectTimersCreated == (if reconnectTimeout then 1 else 0)
      && connectAttempts == (if Truthy(smsNumber) then 1 else 0) + (if reconnectFired then 1 else 0)
      && (pingRunning ==> pingInterval && (socket == Some(Open) || socket == Some(Closing)))
      && (socket.Some? ==> connectAttempts >= 1)
    }

    /**
     * The effect body: connect only when the SMS number is truthy. `constructorThrows` says
     * whether `new WebSocket` throws; the catch only logs, so `socket` stays null.
     */
    constructor Run(smsNumber: Option<string>, items: seq<Item>, constructorThrows: bool)
      ensures Valid()
      ensures this.smsNumber == smsNumber && this.items == items
      ensures socket == if Truthy(smsNumber) && !constructorThrows then Some(Connecting) else None
      ensures connectAttempts == if Truthy(smsNumber) then 1 else 0
      ensures !isConnected && !pingInterval && !pingRunning
      ensures !reconnectTimeout && !reconnectPending && !reconnectFired && reconnectTimersCreated == 0
      ensures pingsSent == 0 && !tornDown
    {
      this.smsNumber := smsNumber;
      this.items := items;
      isConnected := false;
      pingInterval, pingRunning := false, false;
      reconnectTimeout, reconnectPending := false, false;
      pingsSent := 0;
      tornDown := false;
      reconnectFired := false;
      reconnectTimersCreated := 0;
      socket := None;
      connectAttempts := 0;
      if Truthy(smsNumber) {
        connectAttempts := 1;
        if !constructorThrows {
          socket := Some(Connecting);
        }
      }
    }

    /** onopen: mark connected and start the 25-second ping interval. */
    method OnOpen()
      requires Valid() && socket == Some(Connecting)
      modifies this
      ensures Valid()
      ensures socket == Some(Open) && isConnected && pingInterval && pingRunning
      ensures reconnectTimeout == old(reconnectTimeout) && reconnectPending == old(reconnectPending)
      ensures reconnectFired == old(reconnectFired) && reconnectTimersCreated == old(reconnectTimersCreated)
      ensures items == old(items) && connectAttempts == old(connectAttempts)
      ensures pingsSent == old(pingsSent) && tornDown == old(tornDown)
    {
      socket := Some(Open);
      isConnected := true;
      pingInterval, pingRunning := true, true;
    }

    /** The interval fires: a ping is sent only while the socket is OPEN. */
    method OnPingTick()
      requires Valid() && pingRunning
      modifies this
      ensures Valid()
      ensures pingsSent == old(pingsSent) + (if socket == Some(Open) then 1 else 0)
      ensures socket == old(socket) && isConnected == old(isConnected)
      ensures pingInterval == old(pingInterval) && pingRunning == old(pingRunning)
      ensures reconnectTimeout == old(reconnectTimeout) && reconnectPending == old(reconnectPending)
      ensures reconnectFired == old(reconnectFired) && reconnectTimersCreated == old(reconnectTimersCreated)
      ensures items == old(items) && connectAttempts == old(connectAttempts) && tornDown == old(tornDown)
    {
      if socket == Some(Open) {
        pingsSent := pingsSent + 1;
      }
    }

    /**
     * onmessage: `payload` is the voting_item_id of a message that parsed, or None when
     * JSON.parse threw; a malformed message changes nothing. A parsed object without a
     * voting_item_id is `Some(k)` for a `k` no item has, so it only re-sorts.
     */
    method OnMessage(payload: Option<int>)
      requires Valid() && socket == Some(Open)
      modifies this
      ensures Valid()
      ensures items == if payload.Some? then HandleMessage(old(items), payload.value) else old(items)
      ensures socket == old(socket) && isConnected == old(isConnected)
      ensures pingInterval == old(pingInterval) && pingRunning == old(pingRunning)
      ensures reconnectTimeout == old(reconnectTimeout) && reconnectPending == old(reconnectPending)
      ensures reconnectFired == old(reconnectFired) && reconnectTimersCreated == old(reconnectTimersCreated)
      ensures connectAttempts == old(connectAttempts) && pingsSent == old(pingsSent)
      ensures tornDown == old(tornDown)
    {
      if payload.Some? {
        items := HandleMessage(items, payload.value);
      }
    }

    /** The closing handshake starts before the close event: readyState becomes CLOSING. */
    method OnClosing()
      requires Valid() && socket == Some(Open)
      modifies this
      ensures Valid()
      ensures socket == Some(Closing)
      ensures isConnected == old(isConnected)
      ensures pingInterval == old(pingInterval) && pingRunning == old(pingRunning)
      ensures reconnectTimeout == old(reconnectTimeout) && reconnectPending == old(reconnectPending)
      ensures reconnectFired == old(reconnectFired) && reconnectTimersCreated == old(reconnectTimersCreated)
      ensures items == old(items) && connectAttempts == old(connectAttempts)
      ensures pingsSent == old(pingsSent) && tornDown == old(tornDown)
    {
      socket := Some(Closing);
    }

    /**
     * onclose: mark disconnected, stop the ping, and schedule a reconnect only if
     * `reconnectTimeout` was never set. The handler stays attached after the cleanup.
     */
    method OnClose()
      requires Valid() && socket.Some? && socket != Some(Closed)
      modifies this
      ensures Valid()
      ensures socket == Some(Closed) && !isConnected && !pingRunning
      ensures reconnectTimeout
      ensures reconnectPending == !old(reconnectTimeout)
      ensures reconnectTimersCreated == old(reconnectTimersCreated) + (if old(reconnectTimeout) then 0 else 1)
      ensures pingInterval == old(pingInterval) && reconnectFired == old(reconnectFired)
      ensures items == old(items) && connectAttempts == old(connectAttempts)
      ensures pingsSent == old(pingsSent) && tornDown == old(tornDown)
    {
      socket := Some(Closed);
      isConnected := false;
      if pingInterval {
        pingRunning := false;
      }
      if !reconnectTimeout {
        reconnectTimeout, reconnectPending := true, true;
        reconnectTimersCreated := reconnectTimersCreated + 1;
      }
    }

    /** The reconnect timeout fires and calls connectWebSocket again. */
    method OnReconnectTimer(constructorThrows: bool)
      requires Valid() && reconnectPending
      modifies this
      ensures Valid()
      ensures !reconnectPending && reconnectFired && reconnectTimeout
      ensures connectAttempts == old(connectAttempts) + 1
      ensures socket == if constructorThrows then old(socket) else Some(Connecting)
      ensures isConnected == old(isConnected)
      ensures pingInterval == old(pingInterval) && pingRunning == old(pingRunning)
      ensures reconnectTimersCreated == old(reconnectTimersCreated) && items == old(items)
      ensures pingsSent == old(pingsSent) && tornDown == old(tornDown)
    {
      reconnectPending := false;
      reconnectFired := true;
      connectAttempts := connectAttempts + 1;
      if !constructorThrows {
        socket := Some(Connecting);
      }
    }

    /**
     * The cleanup: `socket.close()` (a connecting or open socket starts closing; its close
     * event comes later), then clear the reconnect timeout and the ping interval.
     */
    method Teardown()
      requires Valid() && !tornDown
      modifies this
      ensures Valid()
      ensures tornDown
      ensures socket == if old(socket) == Some(Connecting) || old(socket) == Some(Open)
                        then Some(Closing) else old(socket)
      ensures !reconnectPending && !pingRunning
      ensures isConnected == old(isConnected) && pingInterval == old(pingInterval)
      ensures reconnectTimeout == old(reconnectTimeout) && reconnectFired == old(reconnectFired)
      ensures reconnectTimersCreated == old(reconnectTimersCreated) && items == old(items)
      ensures connectAttempts == old(connectAttempts) && pingsSent == old(pingsSent)
    {
      if socket == Some(Connecting) || socket == Some(Open) {
        socket := Some(Closing);
      }
      if reconnectTimeout {
        reconnectPending := false;
      }
      if pingInterval {
        pingRunning := false;
      }
      tornDown := true;
    }

    /** A run of the effect creates at most one reconnect timeout and so at most two sockets. */
    lemma AtMostOneReconnect()
      requires Valid()
      ensures reconnectTimersCreated <= 1
      ensures connectAttempts <= 2
      ensures connectAttempts == 0 ==> socket == None
    {
    }
  }

  /**
   * The cleanup runs while the socket is still open; its close event arrives afterwards and,
   * since no reconnect was ever scheduled, schedules one: a new socket opens after the cleanup,
   * and its ping interval outlives the cleanup, running until that socket closes. That close
   * clears the interval and schedules nothing more.
   */
  method CloseAfterTeardownReconnects()
  {
    var e := new SocketEffect.Run(Some("0177"), [], false);
    e.OnOpen();
    e.Teardown();
    assert e.socket == Some(Closing) && !e.pingRunning;
    e.OnClose();
    assert e.reconnectPending && e.tornDown;
    e.OnReconnectTimer(false);
    assert e.socket == Some(Connecting) && e.connectAttempts == 2;
    e.OnOpen();
    assert e.pingRunning && e.tornDown;
    e.OnClose();
    assert !e.pingRunning && !e.reconnectPending && e.reconnectTimersCreated == 1;
  }

  /** Without an SMS number nothing connects, and no browser event can reach a callback. */
  method NoNumberNoSocket()
  {
    var e := new SocketEffect.Run(None, [], false);
    assert e.socket == None && e.connectAttempts == 0;
    var f := new SocketEffect.Run(Some(""), [], false);
    assert f.socket == None && f.connectAttempts == 0;
  }
}
