/** The host session of usb_host.cpp: installing the host library and registering a client,
    routing client events to an override callback or to open/close, and one pass of the
    polling task's loop body with its NO_CLIENTS / ALL_FREE teardown of the client handle.
    Every ESP-IDF and FreeRTOS call is a recorded HostCall; the values the library returns or
    writes into out-parameters are supplied by the caller. */
module UsbHost {
  import opened UsbTypes

  /** A handle the host library hands out (usb_host_client_handle_t, usb_device_handle_t). */
  datatype Handle = Handle(id: nat)

  /** usb_host_client_event_msg_t: a new device at an address, or a device gone. */
  datatype ClientEvent = NewDev(address: byte) | DevGone

  /** esp_err_t as far as the session tells results apart: ESP_OK, ESP_ERR_NOT_FINISHED, or any
      other error. */
  datatype Status = Ok | NotFinished | Failed

  /** The host-library and operating-system calls the session makes, with the arguments it passes. */
  datatype HostCall =
    | Install
    | ClientRegister
    | TaskCreate
    | DeviceOpen(client: Option<Handle>, address: byte)
    | GetDeviceDescriptor(device: Option<Handle>)
    | GetActiveConfigDescriptor(device: Option<Handle>)
    | DeviceClose(client: Option<Handle>, device: Option<Handle>)
    | Override(event: ClientEvent)
    | ClientHandleEvents(drained: Handle)
    | LibHandleEvents
    | DeviceFreeAll
    | Uninstall
    | ClientDeregister(client: Option<Handle>)
    | Delay

  /** The fields of USBhost the session reads and writes: client_hdl, dev_hdl and whether an
      override _client_event_cb is set. NULL is None. */
  datatype Session = Session(client: Option<Handle>, device: Option<Handle>, hasOverride: bool)

  /** The session after an operation and the calls it made, in order. */
  datatype Effect = Effect(session: Session, calls: seq<HostCall>)

  /** How often c was called. */
  function Count(calls: seq<HostCall>, c: HostCall): nat
  {
    if |calls| == 0 then 0 else (if calls[0] == c then 1 else 0) + Count(calls[1..], c)
  }

  lemma {:induction false} CountAppend(a: seq<HostCall>, b: seq<HostCall>, c: HostCall)
    ensures Count(a + b, c) == Count(a, c) + Count(b, c)
  {
    if |a| == 0 {
      assert a + b == b;
    } else {
      assert (a + b)[1..] == a[1..] + b;
      CountAppend(a[1..], b, c);
    }
  }

  /** A call that was never made has count zero; one every call equals is counted for each. */
  lemma {:induction false} CountUniform(calls: seq<HostCall>, x: HostCall, c: HostCall)
    requires forall j :: 0 <= j < |calls| ==> calls[j] == x
    ensures Count(calls, c) == if c == x then |calls| else 0
  {
    if |calls| > 0 {
      CountUniform(calls[1..], x, c);
    }
  }

  lemma {:induction false} CountAbsent(calls: seq<HostCall>, c: HostCall)
    requires c !in calls
    ensures Count(calls, c) == 0
  {
    if |calls| > 0 {
      assert c !in calls[1..];
      CountAbsent(calls[1..], c);
    }
  }

  /** A call made once between two stretches that never make it is counted once. */
  lemma CountOnce(before: seq<HostCall>, c: HostCall, after: seq<HostCall>)
    requires c !in before && c !in after
    ensures Count(before + [c] + after, c) == 1
  {
    CountAbsent(before, c);
    CountAbsent(after, c);
    CountAppend(before, [c], c);
    CountAppend(before + [c], after, c);
  }

  /** Event handling before usb_host_lib_handle_events and teardown or the delay after it never
      create a task, and the delay is made exactly when it is among the calls after. */
  lemma PolledAround(drained: seq<HostCall>, after: seq<HostCall>)
    requires forall c :: c in drained ==> IsEventCall(c)
    requires forall c :: c in after ==> IsTeardownCall(c) || c == Delay
    ensures var calls := drained + [LibHandleEvents] + after;
      && TaskCreate !in calls && LibHandleEvents in calls
      && (Delay in calls <==> Delay in after)
  {
    assert !IsEventCall(TaskCreate) && !IsEventCall(Delay);
  }

  /** Library events are handled once when the calls around that are event handling before it
      and teardown or the delay after it. */
  lemma PolledOnce(drained: seq<HostCall>, after: seq<HostCall>)
    requires forall c :: c in drained ==> IsEventCall(c)
    requires forall c :: c in after ==> IsTeardownCall(c) || c == Delay
    ensures Count(drained + [LibHandleEvents] + after, LibHandleEvents) == 1
  {
    assert !IsEventCall(LibHandleEvents) && !IsTeardownCall(LibHandleEvents);
    CountOnce(drained, LibHandleEvents, after);
  }

  /** The calls that client-event handling can make: draining the client's events and what the
      router does for each. */
  predicate IsEventCall(c: HostCall)
  {
    c.ClientHandleEvents? || c.Override? || c.DeviceOpen? || c.GetDeviceDescriptor?
    || c.GetActiveConfigDescriptor? || c.DeviceClose?
  }

  // ---------------------------------------------------------------------------------------
  // init, open, close

  /** init installs the host library and registers a client, whose handle (as the library leaves
      it in client_hdl) is registered; the polling task is created only when createTasks is set.
      Errors are only logged: the result is always true. */
  function Init(s: Session, createTasks: bool, registered: Option<Handle>): (r: (Effect, bool))
    ensures r.1
    ensures createTasks ==> r.0.calls == [Install, ClientRegister, TaskCreate]
    ensures !createTasks ==> r.0.calls == [Install, ClientRegister]
    ensures r.0.session.client == registered
    ensures r.0.session.device == s.device && r.0.session.hasOverride == s.hasOverride
  {
    var calls := [Install, ClientRegister] + (if createTasks then [TaskCreate] else []);
    (Effect(s.(client := registered), calls), true)
  }

  /** open opens the device at the event's address with the current client handle, leaving
      newDevice in dev_hdl, then fetches the device and active configuration descriptors of that
      device (parseConfig, whose results are discarded). Always true. */
  function Open(s: Session, address: byte, newDevice: Option<Handle>): (r: (Effect, bool))
    ensures r.1
    ensures r.0.calls ==
      [DeviceOpen(s.client, address), GetDeviceDescriptor(newDevice), GetActiveConfigDescriptor(newDevice)]
    ensures r.0.session.device == newDevice
    ensures r.0.session.client == s.client && r.0.session.hasOverride == s.hasOverride
  {
    var calls := [DeviceOpen(s.client, address), GetDeviceDescriptor(newDevice), GetActiveConfigDescriptor(newDevice)];
    (Effect(s.(device := newDevice), calls), true)
  }

  /** close closes dev_hdl for client_hdl and changes nothing in the session. */
  function Close(s: Session): (r: Effect)
    ensures r.session == s
    ensures r.calls == [DeviceClose(s.client, s.device)]
  {
    Effect(s, [DeviceClose(s.client, s.device)])
  }

  // ---------------------------------------------------------------------------------------
  // _client_event_callback

  /** Routes one client event. newDevice is the handle the library would give a device opened
      for it. */
  function Route(s: Session, ev: ClientEvent, newDevice: Option<Handle>): (r: Effect)
    ensures r.session.client == s.client && r.session.hasOverride == s.hasOverride
    ensures forall c :: c in r.calls ==> IsEventCall(c)
    ensures ev.NewDev? ==>
      && (Override(ev) in r.calls <==> s.hasOverride)
      && (DeviceOpen(s.client, ev.address) in r.calls <==> !s.hasOverride)
    ensures ev.NewDev? && !s.hasOverride ==> r.session.device == newDevice
    ensures ev.NewDev? && s.hasOverride ==> r.calls == [Override(ev)] && r.session == s
    ensures ev.DevGone? && s.hasOverride ==> r.calls == [Override(ev), DeviceClose(s.client, s.device)]
    ensures ev.DevGone? && !s.hasOverride ==> r.calls == []
    ensures ev.DevGone? ==> r.session == s
  {
    match ev
    case NewDev(address) =>
      if s.hasOverride then Effect(s, [Override(ev)]) else Open(s, address, newDevice).0
    case DevGone =>
      if s.hasOverride then Effect(s, [Override(ev)] + Close(s).calls) else Effect(s, [])
  }

  /** Without an override a new device is opened exactly as open would, and a gone device is
      not closed. */
  lemma RouteWithoutOverride(s: Session, address: byte, newDevice: Option<Handle>)
    requires !s.hasOverride
    ensures Route(s, NewDev(address), newDevice) == Open(s, address, newDevice).0
    ensures DeviceClose(s.client, s.device) !in Route(s, DevGone, newDevice).calls
  {
  }

  /** With an override, a gone device is handed to it and then closed as close would. */
  lemma RouteDevGoneWithOverride(s: Session, newDevice: Option<Handle>)
    requires s.hasOverride
    ensures Route(s, DevGone, newDevice).calls == [Override(DevGone)] + Close(s).calls
  {
  }

  /** One event delivered while the client's events are drained, with the handle a device
      opened for it would get. */
  datatype Delivered = Delivered(event: ClientEvent, newDevice: Option<Handle>)

  /** The callback run for each delivered event in turn. */
  function RouteAll(s: Session, evs: seq<Delivered>): (r: Effect)
    ensures r.session.client == s.client && r.session.hasOverride == s.hasOverride
    ensures forall c :: c in r.calls ==> IsEventCall(c)
    decreases |evs|
  {
    if |evs| == 0 then Effect(s, [])
    else
      var first := Route(s, evs[0].event, evs[0].newDevice);
      var rest := RouteAll(first.session, evs[1..]);
      Effect(rest.session, first.calls + rest.calls)
  }

  /** usb_host_client_handle_events is called only for a non-NULL client_hdl; the events it
      delivers are routed. */
  function Drain(s: Session, evs: seq<Delivered>): (r: Effect)
    ensures r.session.client == s.client && r.session.hasOverride == s.hasOverride
    ensures forall c :: c in r.calls ==> IsEventCall(c)
    ensures s.client.None? ==> r.calls == [] && r.session == s
    ensures s.client.Some? ==> |r.calls| >= 1 && r.calls[0] == ClientHandleEvents(s.client.value)
  {
    match s.client
    case None => Effect(s, [])
    case Some(h) =>
      var routed := RouteAll(s, evs);
      Effect(routed.session, [ClientHandleEvents(h)] + routed.calls)
  }

  // ---------------------------------------------------------------------------------------
  // client_async_seq_task: one iteration of the loop body

  /** Some call of usb_host_device_free_all reports something other than NOT_FINISHED, so the
      retry loop ends. */
  predicate FreeAllEnds(outcomes: seq<Status>)
  {
    exists i :: 0 <= i < |outcomes| && outcomes[i] != NotFinished
  }

  /** The retry loop: usb_host_device_free_all is called again for as long as it reports
      NOT_FINISHED. outcomes are its successive results. */
  function FreeAll(outcomes: seq<Status>): (calls: seq<HostCall>)
    requires FreeAllEnds(outcomes)
    ensures 1 <= |calls| <= |outcomes|
    ensures forall j :: 0 <= j < |calls| ==> calls[j] == DeviceFreeAll
    ensures outcomes[|calls| - 1] != NotFinished
    ensures forall j :: 0 <= j < |calls| - 1 ==> outcomes[j] == NotFinished
  {
    if outcomes[0] != NotFinished then [DeviceFreeAll]
    else
      assert FreeAllEnds(outcomes[1..]) by {
        var i :| 0 <= i < |outcomes| && outcomes[i] != NotFinished;
        assert outcomes[1..][i - 1] == outcomes[i];
      }
      [DeviceFreeAll] + FreeAll(outcomes[1..])
  }

  /** The loop makes one call more than the number of NOT_FINISHED results before the first
      other result. */
  lemma {:induction false} FreeAllStopsAtFirstFinished(outcomes: seq<Status>, k: nat)
    requires k < |outcomes| && outcomes[k] != NotFinished
    requires forall j :: 0 <= j < k ==> outcomes[j] == NotFinished
    ensures FreeAllEnds(outcomes)
    ensures |FreeAll(outcomes)| == k + 1
  {
    assert outcomes[k] != NotFinished;
    if k > 0 {
      var rest := outcomes[1..];
      assert rest[k - 1] == outcomes[k];
      FreeAllStopsAtFirstFinished(rest, k - 1);
    }
  }

  /** What usb_host_lib_handle_events reports. */
  datatype LibEvents = LibEvents(status: Status, noClients: bool, allFree: bool)

  /** Everything one iteration receives from the host library: the events the client drain
      delivers, the result and flags of the library's event handling, the successive results
      of usb_host_device_free_all, and the handle the re-registered client gets. */
  datatype Env = Env(delivered: seq<Delivered>, lib: LibEvents, freeAll: seq<Status>, reregistered: Option<Handle>)

  /** NO_CLIENTS: free every device, uninstall, and init(false) again. */
  function Reinstall(s: Session, freeAll: seq<Status>, reregistered: Option<Handle>): (r: Effect)
    requires FreeAllEnds(freeAll)
    ensures var k := |FreeAll(freeAll)|;
      && |r.calls| == k + 3
      && (forall j :: 0 <= j < k ==> r.calls[j] == DeviceFreeAll)
      && r.calls[k..] == [Uninstall, Install, ClientRegister]
    ensures r.session.client == reregistered
    ensures r.session.device == s.device && r.session.hasOverride == s.hasOverride
  {
    var frees := FreeAll(freeAll);
    var init := Init(s, false, reregistered).0;
    Effect(init.session, frees + [Uninstall] + init.calls)
  }

  /** The calls a teardown can make. */
  predicate IsTeardownCall(c: HostCall)
  {
    c.DeviceFreeAll? || c.Uninstall? || c.Install? || c.ClientRegister? || c.ClientDeregister?
  }

  /** The teardown after a successful usb_host_lib_handle_events: NO_CLIENTS reinstalls; then
      ALL_FREE deregisters the handle captured at the top of the iteration and sets client_hdl
      to NULL. */
  function Teardown(s: Session, captured: Option<Handle>, lib: LibEvents, freeAll: seq<Status>,
                    reregistered: Option<Handle>): (r: Effect)
    requires lib.noClients ==> FreeAllEnds(freeAll)
    ensures r.session.device == s.device && r.session.hasOverride == s.hasOverride
    ensures lib.allFree ==> r.session.client == None
    ensures !lib.allFree && lib.noClients ==> r.session.client == reregistered
    ensures !lib.allFree && !lib.noClients ==> r.session.client == s.client
    ensures lib.allFree ==> |r.calls| >= 1 && r.calls[|r.calls| - 1] == ClientDeregister(captured)
    ensures !lib.noClients ==> Uninstall !in r.calls && DeviceFreeAll !in r.calls
    ensures forall c :: c in r.calls ==> IsTeardownCall(c)
  {
    var reinstalled := if lib.noClients then Reinstall(s, freeAll, reregistered) else Effect(s, []);
    if lib.allFree then
      Effect(reinstalled.session.(client := None), reinstalled.calls + [ClientDeregister(captured)])
    else reinstalled
  }

  /** One pass of the polling task's loop body: drain the client's events if client_hdl is set,
      let the library handle its events, then either tear down according to the flags or, when
      that did not succeed, only delay. No iteration creates a task. */
  function Iteration(s: Session, env: Env): (r: Effect)
    requires env.lib.status == Ok && env.lib.noClients ==> FreeAllEnds(env.freeAll)
    ensures |r.calls| >= 1
    ensures TaskCreate !in r.calls && LibHandleEvents in r.calls
    ensures Count(r.calls, LibHandleEvents) == 1
    ensures Delay in r.calls <==> env.lib.status != Ok
    ensures r.session.hasOverride == s.hasOverride
  {
    var captured := s.client;
    var drained := Drain(s, env.delivered);
    if env.lib.status == Ok then
      var t := Teardown(drained.session, captured, env.lib, env.freeAll, env.reregistered);
      PolledAround(drained.calls, t.calls);
      PolledOnce(drained.calls, t.calls);
      Effect(t.session, drained.calls + [LibHandleEvents] + t.calls)
    else
      PolledAround(drained.calls, [Delay]);
      PolledOnce(drained.calls, [Delay]);
      assert drained.calls + [LibHandleEvents] + [Delay] == drained.calls + [LibHandleEvents, Delay];
      Effect(drained.session, drained.calls + [LibHandleEvents, Delay])
  }

  /** The client's events are drained first, and only when client_hdl is set; otherwise the
      iteration starts with the library's event handling. */
  lemma DrainsOnlyWithClient(s: Session, env: Env)
    requires env.lib.status == Ok && env.lib.noClients ==> FreeAllEnds(env.freeAll)
    ensures var r := Iteration(s, env);
      && (s.client.Some? ==> r.calls[0] == ClientHandleEvents(s.client.value))
      && (s.client.None? ==> r.calls[0] == LibHandleEvents)
      && (s.client.None? ==> forall c :: c in r.calls ==> !c.ClientHandleEvents?)
  {
  }

  /** When usb_host_lib_handle_events does not succeed the iteration only delays: no teardown
      call is made and client_hdl keeps its value. */
  lemma FailedPollOnlyDelays(s: Session, env: Env)
    requires env.lib.status != Ok
    ensures var r := Iteration(s, env);
      && r.calls[|r.calls| - 1] == Delay
      && r.session.client == s.client
      && Uninstall !in r.calls && DeviceFreeAll !in r.calls
      && Install !in r.calls && ClientRegister !in r.calls
      && (forall c :: c in r.calls ==> !c.ClientDeregister?)
  {
    var r := Iteration(s, env);
    var drained := Drain(s, env.delivered);
    assert r.calls == drained.calls + [LibHandleEvents] + [Delay];
    forall c | c in r.calls
      ensures !c.ClientDeregister?
    {
      assert c in drained.calls || c == LibHandleEvents || c == Delay;
    }
    assert !IsEventCall(Uninstall) && !IsEventCall(DeviceFreeAll) && !IsEventCall(Install);
    assert !IsEventCall(ClientRegister);
  }

  /** After a successful poll: NO_CLIENTS frees every device until the library stops
      reporting NOT_FINISHED, then uninstalls and installs and registers once each; ALL_FREE
      deregisters the handle captured before the poll exactly once. */
  lemma PolledTeardownCalls(s: Session, env: Env)
    requires env.lib.status == Ok && env.lib.noClients ==> FreeAllEnds(env.freeAll)
    requires env.lib.status == Ok
    ensures var r := Iteration(s, env); var nc := env.lib.noClients;
      && Count(r.calls, Uninstall) == (if nc then 1 else 0)
      && Count(r.calls, Install) == (if nc then 1 else 0)
      && Count(r.calls, ClientRegister) == (if nc then 1 else 0)
      && Count(r.calls, DeviceFreeAll) == (if nc then |FreeAll(env.freeAll)| else 0)
      && Count(r.calls, ClientDeregister(s.client)) == (if env.lib.allFree then 1 else 0)
  {
    PolledCount(s, env, Uninstall);
    PolledCount(s, env, Install);
    PolledCount(s, env, ClientRegister);
    PolledCount(s, env, DeviceFreeAll);
    PolledCount(s, env, ClientDeregister(s.client));
  }

  /** How often a successful poll makes a teardown call c: the count in the reinstall plus the
      final deregistration. */
  lemma PolledCount(s: Session, env: Env, c: HostCall)
    requires env.lib.status == Ok && env.lib.noClients ==> FreeAllEnds(env.freeAll)
    requires env.lib.status == Ok && IsTeardownCall(c)
    ensures var r := Iteration(s, env);
      Count(r.calls, c) ==
        (if env.lib.noClients then ReinstallCount(env.freeAll, c) else 0)
        + (if env.lib.allFree && c == ClientDeregister(s.client) then 1 else 0)
  {
    var r := Iteration(s, env);
    var drained := Drain(s, env.delivered);
    var t := Teardown(drained.session, s.client, env.lib, env.freeAll, env.reregistered);
    assert r.calls == drained.calls + [LibHandleEvents] + t.calls;
    assert !IsEventCall(c);
    CountAbsent(drained.calls, c);
    CountAppend(drained.calls, [LibHandleEvents], c);
    CountAppend(drained.calls + [LibHandleEvents], t.calls, c);
    TeardownCount(drained.session, s.client, env.lib, env.freeAll, env.reregistered, c);
  }

  /** How often the NO_CLIENTS reinstall makes call c. */
  function ReinstallCount(freeAll: seq<Status>, c: HostCall): nat
    requires FreeAllEnds(freeAll)
  {
    if c == DeviceFreeAll then |FreeAll(freeAll)|
    else if c == Uninstall || c == Install || c == ClientRegister then 1
    else 0
  }

  lemma TeardownCount(s: Session, captured: Option<Handle>, lib: LibEvents, freeAll: seq<Status>,
                      reregistered: Option<Handle>, c: HostCall)
    requires lib.noClients ==> FreeAllEnds(freeAll)
    ensures Count(Teardown(s, captured, lib, freeAll, reregistered).calls, c) ==
      (if lib.noClients then ReinstallCount(freeAll, c) else 0)
      + (if lib.allFree && c == ClientDeregister(captured) then 1 else 0)
  {
    var re := if lib.noClients then Reinstall(s, freeAll, reregistered) else Effect(s, []);
    if lib.noClients {
      ReinstallCalls(s, freeAll, reregistered, c);
    }
    if lib.allFree {
      CountAppend(re.calls, [ClientDeregister(captured)], c);
    }
  }

  lemma ReinstallCalls(s: Session, freeAll: seq<Status>, reregistered: Option<Handle>, c: HostCall)
    requires FreeAllEnds(freeAll)
    ensures Count(Reinstall(s, freeAll, reregistered).calls, c) == ReinstallCount(freeAll, c)
  {
    var calls := Reinstall(s, freeAll, reregistered).calls;
    var k := |FreeAll(freeAll)|;
    assert calls == calls[..k] + [Uninstall] + [Install] + [ClientRegister];
    CountUniform(calls[..k], DeviceFreeAll, c);
    CountAppend(calls[..k], [Uninstall], c);
    CountAppend(calls[..k] + [Uninstall], [Install], c);
    CountAppend(calls[..k] + [Uninstall] + [Install], [ClientRegister], c);
  }

  /** client_hdl after an iteration: NULL after ALL_FREE, else the re-registered handle after
      NO_CLIENTS, else unchanged. */
  lemma ClientAfterIteration(s: Session, env: Env)
    requires env.lib.status == Ok && env.lib.noClients ==> FreeAllEnds(env.freeAll)
    ensures var r := Iteration(s, env); var ok := env.lib.status == Ok;
      r.session.client ==
        if ok && env.lib.allFree then None
        else if ok && env.lib.noClients then env.reregistered
        else s.client
  {
  }

  /** NO_CLIENTS and ALL_FREE in the same poll: the old handle is deregistered after the client
      was registered again, and the freshly registered handle is then lost. */
  lemma BothFlagsLoseFreshHandle(s: Session, env: Env)
    requires env.lib == LibEvents(Ok, true, true) && FreeAllEnds(env.freeAll)
    ensures var r := Iteration(s, env);
      && r.session.client == None
      && r.calls[|r.calls| - 1] == ClientDeregister(s.client)
      && ClientRegister in r.calls
  {
    PolledTeardownCalls(s, env);
  }

  /** A NO_CLIENTS poll on a session with client 1 whose device-free calls report NOT_FINISHED,
      NOT_FINISHED, OK: three free calls, one uninstall, one install and registration, and the
      session ends with the new client 2. */
  lemma ReinstallScenario()
    ensures FreeAllEnds([NotFinished, NotFinished, Ok])
    ensures
      var s := Session(Some(Handle(1)), None, false);
      var env := Env([], LibEvents(Ok, true, false), [NotFinished, NotFinished, Ok], Some(Handle(2)));
      var r := Iteration(s, env);
      && r.calls == [ClientHandleEvents(Handle(1)), LibHandleEvents, DeviceFreeAll, DeviceFreeAll,
                     DeviceFreeAll, Uninstall, Install, ClientRegister]
      && r.session.client == Some(Handle(2))
  {
    var outcomes: seq<Status> := [NotFinished, NotFinished, Ok];
    assert outcomes[2] != NotFinished;
    FreeAllStopsAtFirstFinished(outcomes, 2);
    assert FreeAll(outcomes) == [DeviceFreeAll, DeviceFreeAll, DeviceFreeAll];
  }
}
