/**
 * The connection guard of the dashboard component: the refs its WebSocket
 * callbacks consult (mounted, simulating, the socket, the pending reconnect
 * timer) and how each callback changes them. Callbacks run one at a time, so the
 * guard is a state machine driven by discrete events; a timer firing is an event,
 * whatever its delay. Whether the `WebSocket` constructor succeeds is chosen by
 * the environment and carried by the events that may open a connection.
 */
module ReconnectGuard {
  import opened Wrappers

  datatype Status =
    | Initializing
    | WasmReady
    | WasmUnavailable
    | Connecting
    | Connected
    | Disconnected
    | Error
    | SimulationMode

  /**
   * `socket` is the socket whose handlers are attached (`wsRef`), `timer` the
   * reconnect timer that is scheduled and neither cleared nor fired
   * (`reconnectTimeoutRef`); `nextId` names the next socket or timer created.
   */
  datatype Guard = Guard(
    mounted: bool,
    simulating: bool,
    wasmReady: bool,
    socket: Option<nat>,
    timer: Option<nat>,
    nextId: nat,
    status: Status)

  /**
   * `WasmLoaded` carries the outcome of both connection attempts a successful load
   * makes: the one in the initialisation effect, and the one of the mode-switch
   * effect that re-runs once the chart becomes ready.
   */
  datatype Event =
    | WasmLoaded(first: bool, second: bool)
    | WasmFailed
    | SocketOpened(socket: nat)
    | SocketMessage(socket: nat)
    | SocketClosed(socket: nat)
    | SimulationTick
    | TimerFired(timer: nat, created: bool)
    | ToggleSimulation(created: bool)
    | Unmount

  /** The component as first mounted: live mode, no socket, no timer. */
  function Initial(): Guard
  {
    Guard(true, false, false, None, None, 0, Initializing)
  }

  /** `cleanupWebSocket`: clears the pending timer, detaches and closes the socket. */
  function Cleanup(g: Guard): (r: Guard)
    ensures r.socket.None? && r.timer.None?
    ensures r.mounted == g.mounted && r.simulating == g.simulating && r.wasmReady == g.wasmReady
    ensures r.status == g.status && r.nextId == g.nextId
  {
    g.(socket := None, timer := None)
  }

  /** Whether callbacks may act: mounted and not simulating. */
  predicate Active(g: Guard)
  {
    g.mounted && !g.simulating
  }

  /**
   * `connectWebSocket`: refused when unmounted, simulating or without the decoder;
   * otherwise tears down the old connection and opens a new socket, or, when the
   * constructor throws, schedules a retry.
   */
  function Connect(g: Guard, created: bool): (r: Guard)
    ensures !Active(g) || !g.wasmReady ==> r == g
    ensures Active(g) && g.wasmReady && created ==> r.socket == Some(g.nextId) && r.timer.None? && r.status == Connecting
    ensures Active(g) && g.wasmReady && !created ==> r.socket.None? && r.timer == Some(g.nextId) && r.status == Error
    ensures r.mounted == g.mounted && r.simulating == g.simulating && r.wasmReady == g.wasmReady
    ensures Fresh(g, r)
  {
    if !Active(g) || !g.wasmReady then g
    else
      var c := Cleanup(g);
      if created then c.(socket := Some(c.nextId), nextId := c.nextId + 1, status := Connecting)
      else c.(timer := Some(c.nextId), nextId := c.nextId + 1, status := Error)
  }

  /**
   * Ids only grow, and a socket or timer that was not attached before the step is
   * one created by it: a detached socket or a cleared timer is never brought back.
   */
  predicate Fresh(g: Guard, r: Guard)
  {
    && g.nextId <= r.nextId
    && (r.socket.Some? && r.socket != g.socket ==> g.nextId <= r.socket.value < r.nextId)
    && (r.timer.Some? && r.timer != g.timer ==> g.nextId <= r.timer.value < r.nextId)
  }

  /** One callback of the component. */
  function Step(g: Guard, e: Event): (r: Guard)
    ensures Fresh(g, r)
    ensures r.mounted ==> g.mounted
    ensures r.simulating != g.simulating ==> e.ToggleSimulation?
    ensures !Active(g) && !e.ToggleSimulation? ==> r.socket.None? || r.socket == g.socket
    ensures e.SocketMessage? || e.SimulationTick? ==> r == g
  {
    match e
    case WasmLoaded(first, second) =>
      if !g.mounted then g
      else
        var ready := g.(wasmReady := true, status := WasmReady);
        if !ready.simulating then Connect(Connect(ready, first), second) else ready
    case WasmFailed =>
      g.(status := WasmUnavailable)
    case SocketOpened(id) =>
      if g.socket == Some(id) && Active(g) then g.(status := Connected) else g
    case SocketMessage(_) =>
      g
    case SimulationTick =>
      g
    case SocketClosed(id) =>
      if g.socket != Some(id) || !Active(g) then g
      else g.(status := Disconnected, timer := Some(g.nextId), nextId := g.nextId + 1)
    case TimerFired(id, created) =>
      if g.timer != Some(id) then g
      else
        var fired := g.(timer := None);
        if Active(fired) then Connect(fired, created) else fired
    case ToggleSimulation(created) =>
      if !g.mounted then g
      else if !g.simulating then Cleanup(g).(simulating := true, status := SimulationMode)
      else
        var live := g.(simulating := false);
        if live.wasmReady then Connect(live, created) else live
    case Unmount =>
      Cleanup(g).(mounted := false)
  }

  /** The guard after a sequence of callbacks. */
  function Run(g: Guard, events: seq<Event>): Guard
    decreases |events|
  {
    if |events| == 0 then g else Run(Step(g, events[0]), events[1..])
  }

  /**
   * Whether a callback hands a market update to the dashboard: a message of the
   * attached socket while mounted and live, or a tick of the simulation interval,
   * which runs only while mounted and simulating.
   */
  predicate Delivers(g: Guard, e: Event)
  {
    match e
    case SocketMessage(id) => g.socket == Some(id) && Active(g)
    case SimulationTick => g.mounted && g.simulating
    case _ => false
  }

  /** The callbacks of a sequence that hand an update to the dashboard, in order. */
  function Delivered(g: Guard, events: seq<Event>): (r: seq<Event>)
    ensures |r| <= |events|
    ensures forall i :: 0 <= i < |r| ==> r[i].SocketMessage? || r[i].SimulationTick?
    decreases |events|
  {
    if |events| == 0 then []
    else (if Delivers(g, events[0]) then [events[0]] else []) + Delivered(Step(g, events[0]), events[1..])
  }

  /** While unmounted or simulating there is neither a socket nor a pending reconnect timer. */
  predicate Quiet(g: Guard)
  {
    !Active(g) ==> g.socket.None? && g.timer.None?
  }

  lemma InitialQuiet()
    ensures Quiet(Initial()) && Active(Initial())
    ensures Initial().socket.None? && Initial().timer.None?
  {
  }

  /** Every callback keeps the guard quiet whenever it is inactive. */
  lemma StepQuiet(g: Guard, e: Event)
    requires Quiet(g)
    ensures Quiet(Step(g, e))
  {
  }

  /** A close event schedules nothing and changes nothing when unmounted or simulating. */
  lemma CloseWhileInactive(g: Guard, id: nat)
    requires !Active(g)
    ensures Step(g, SocketClosed(id)) == g
  {
  }

  /** A close of the current socket while active leaves exactly one pending timer, a fresh one. */
  lemma CloseWhileActive(g: Guard, id: nat)
    requires Active(g) && g.socket == Some(id)
    ensures Step(g, SocketClosed(id)).timer == Some(g.nextId)
    ensures Step(g, SocketClosed(id)).status == Disconnected
  {
  }

  /** A timer reconnects only if it is the pending one and the component is mounted and not simulating. */
  lemma TimerReconnectsOnlyWhenActive(g: Guard, id: nat, created: bool)
    ensures Step(g, TimerFired(id, created)).socket.Some? && Step(g, TimerFired(id, created)).socket != g.socket ==>
      g.timer == Some(id) && Active(g) && g.wasmReady && created
  {
  }

  /**
   * Once simulating, no sequence of callbacks without a toggle back to live opens a
   * socket, schedules a reconnect, or lets a socket message reach the dashboard.
   */
  lemma {:induction false} NoReconnectWhileSimulating(g: Guard, events: seq<Event>)
    requires g.simulating && Quiet(g)
    requires forall i :: 0 <= i < |events| ==> !events[i].ToggleSimulation?
    ensures Run(g, events).simulating
    ensures Run(g, events).socket.None? && Run(g, events).timer.None?
    ensures forall i :: 0 <= i < |Delivered(g, events)| ==> Delivered(g, events)[i].SimulationTick?
    decreases |events|
  {
    if |events| > 0 {
      StepQuiet(g, events[0]);
      NoReconnectWhileSimulating(Step(g, events[0]), events[1..]);
    }
  }

  /** After unmounting, no sequence of callbacks opens a socket, schedules a reconnect or delivers an update. */
  lemma {:induction false} NoReconnectAfterUnmount(g: Guard, events: seq<Event>)
    requires !g.mounted && Quiet(g)
    ensures !Run(g, events).mounted
    ensures Run(g, events).socket.None? && Run(g, events).timer.None?
    ensures Delivered(g, events) == []
    decreases |events|
  {
    if |events| > 0 {
      StepQuiet(g, events[0]);
      NoReconnectAfterUnmount(Step(g, events[0]), events[1..]);
    }
  }

  /**
   * A load opens two sockets in turn and keeps only the second; the first one's
   * callbacks are ignored. The kept connection goes Connecting, Connected,
   * Disconnected, and its one reconnect timer opens exactly one new socket.
   */
  lemma ReconnectScenario()
    ensures
      var loaded := Step(Initial(), WasmLoaded(true, true));
      var connected := Step(loaded, SocketOpened(1));
      var closed := Step(connected, SocketClosed(1));
      var retried := Step(closed, TimerFired(2, true));
      && loaded.status == Connecting && loaded.socket == Some(1)
      && Step(loaded, SocketOpened(0)) == loaded && Step(loaded, SocketClosed(0)) == loaded
      && connected.status == Connected
      && Delivers(connected, SocketMessage(1)) && !Delivers(connected, SocketMessage(0))
      && closed.status == Disconnected && closed.timer == Some(2)
      && retried.status == Connecting && retried.socket == Some(3) && retried.timer.None?
      && Step(retried, TimerFired(2, true)) == retried
  {
  }

  /** Switching to simulation during the retry wait cancels the reconnect. */
  lemma SwitchDuringRetryScenario()
    ensures
      var closed := Run(Initial(), [WasmLoaded(true, true), SocketOpened(1), SocketClosed(1)]);
      var switched := Step(closed, ToggleSimulation(true));
      && closed.timer == Some(2)
      && switched.timer.None? && switched.socket.None?
      && Step(switched, TimerFired(2, true)) == switched
      && Delivers(switched, SimulationTick) && !Delivers(switched, SocketMessage(1))
  {
    var evs := [WasmLoaded(true, true), SocketOpened(1), SocketClosed(1)];
    assert evs[1..] == [SocketOpened(1), SocketClosed(1)];
    assert evs[1..][1..] == [SocketClosed(1)];
    assert evs[1..][1..][1..] == [];
  }
}
