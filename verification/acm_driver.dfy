/** The CDC-ACM device driver: its construction from a configuration, transfer allocation, the
    control requests it issues, the guarded bulk submissions, the completion callbacks with
    their classifier, and the dispatcher that forwards completions to the registered sink and
    maintains the connected flag. Host-library calls are recorded as HostCall values; what the
    library returns for them is logged and otherwise ignored by the driver, so it does not
    appear in the model. */
module AcmDriver {
  import opened UsbTypes
  import opened AcmScan
  import opened CdcRequests

  /** Capacity of each bulk transfer buffer, and the length of every read request. */
  const BULK_BUFFER_SIZE: nat := 64

  /** The event kinds handed to the sink. */
  datatype Event = DataIn | DataOut | CtrlSetLineCoding | CtrlGetLineCoding | CtrlSetControlLineState
  {
    predicate IsData() { DataIn? || DataOut? }
  }

  /** One call of the registered sink: event, buffer pointer (None for NULL), byte count, and
      the connected flag isConnected() reports while the sink runs. */
  datatype Emission = Emission(event: Event, buffer: Option<seq<byte>>, count: nat, connected: bool)

  /** A completed transfer as a completion callback sees it: its data buffer and
      actual_num_bytes. */
  datatype Transfer = Transfer(buffer: seq<byte>, actual: nat)

  /** A transfer the driver owns: the endpoint it is bound to, its data buffer (whose length is
      the capacity it was allocated with) and num_bytes. Which completion callback it carries is
      fixed by its role in Slots. */
  datatype Slot = Slot(endpoint: byte, buffer: seq<byte>, numBytes: nat)

  /** xfer_write (bound to usb_write_cb), xfer_read (usb_read_cb), xfer_ctrl (usb_ctrl_cb). */
  datatype Slots = Slots(write: Slot, read: Slot, ctrl: Slot)

  /** The driver object: the scan results, the transfers once init has allocated them, the
      connected flag and whether an event sink is registered. */
  datatype Acm = Acm(scan: Scan, slots: Option<Slots>, connected: bool, hasSink: bool)

  /** The host-library calls the driver makes. */
  datatype HostCall =
    | InterfaceClaim(intf: nat)
    | InterfaceRelease(intf: nat)
    | TransferAlloc(size: nat)
    | SubmitControl
    | Submit(endpoint: byte)

  /** The driver after an operation, with the host-library calls it made, in order. */
  datatype Effect = Effect(acm: Acm, calls: seq<HostCall>)

  /** The driver after a completion, with the sink call it made, if any. */
  datatype Delivery = Delivery(acm: Acm, emitted: Option<Emission>)

  function Zeros(n: nat): (b: seq<byte>)
    ensures |b| == n
  {
    seq(n, _ => 0)
  }

  /** b has a's scan results, connected flag and sink registration. */
  predicate SameFlags(a: Acm, b: Acm)
  {
    b.scan == a.scan && b.connected == a.connected && b.hasSink == a.hasSink
  }

  /** b differs from a at most in the contents and num_bytes of the control transfer. */
  predicate OnlyControlChanged(a: Acm, b: Acm)
  {
    && SameFlags(a, b)
    && a.slots.Some? && b.slots.Some?
    && b.slots.value.write == a.slots.value.write
    && b.slots.value.read == a.slots.value.read
    && b.slots.value.ctrl.endpoint == a.slots.value.ctrl.endpoint
    && |b.slots.value.ctrl.buffer| == |a.slots.value.ctrl.buffer|
  }

  // ---------------------------------------------------------------------------------------
  // Construction, allocation and release

  function ClaimCalls(claimed: seq<nat>): (calls: seq<HostCall>)
    ensures |calls| == |claimed|
    ensures forall k :: 0 <= k < |calls| ==> calls[k] == InterfaceClaim(claimed[k])
  {
    seq(|claimed|, k requires 0 <= k < |claimed| => InterfaceClaim(claimed[k]))
  }

  /** The constructor: scans the interfaces and claims each communication or data interface it
      reaches with the right endpoint count, in increasing interface order. A new driver is not
      connected and has no sink. */
  function New(intfs: seq<Interface>): (r: Effect)
    ensures r.acm == Acm(ScanConfig(intfs), None, false, false)
    ensures forall n: nat :: InterfaceClaim(n) in r.calls <==>
      0 <= n < |intfs| && Relevant(intfs[n]) && ReachedUpTo(intfs, n + 1)
    ensures forall k :: 0 <= k < |r.calls| ==> r.calls[k].InterfaceClaim?
    ensures forall j, k :: 0 <= j < k < |r.calls| ==> r.calls[j].intf < r.calls[k].intf
  {
    var scan := ScanConfig(intfs);
    ClaimedExactly(intfs);
    var calls := ClaimCalls(scan.claimed);
    assert forall n: nat :: InterfaceClaim(n) in calls <==> n in scan.claimed by {
      forall n: nat ensures InterfaceClaim(n) in calls <==> n in scan.claimed {
        if n in scan.claimed {
          var k :| 0 <= k < |scan.claimed| && scan.claimed[k] == n;
          assert calls[k] == InterfaceClaim(n);
        }
      }
    }
    Effect(Acm(scan, None, false, false), calls)
  }

  /** init: allocates the write and read transfers with 64-byte buffers and the control
      transfer with a buffer of the device's bMaxPacketSize0, binds them to the OUT endpoint, the
      IN endpoint and endpoint 0, and reports success whatever the allocations returned. The
      source dereferences both data endpoints, so they must have been found. */
  function Init(a: Acm, maxPacketSize0: nat): (r: (Effect, bool))
    requires a.scan.epIn.Some? && a.scan.epOut.Some?
    ensures r.1
    ensures r.0.calls == [TransferAlloc(BULK_BUFFER_SIZE), TransferAlloc(BULK_BUFFER_SIZE),
                          TransferAlloc(maxPacketSize0)]
    ensures r.0.acm.slots.Some?
    ensures var s := r.0.acm.slots.value;
      && s.write.endpoint == a.scan.epOut.value && |s.write.buffer| == BULK_BUFFER_SIZE
      && s.read.endpoint == a.scan.epIn.value && |s.read.buffer| == BULK_BUFFER_SIZE
      && s.ctrl.endpoint == 0 && |s.ctrl.buffer| == maxPacketSize0
    ensures SameFlags(a, r.0.acm)
  {
    var write := Slot(a.scan.epOut.value, Zeros(BULK_BUFFER_SIZE), 0);
    var read := Slot(a.scan.epIn.value, Zeros(BULK_BUFFER_SIZE), 0);
    var ctrl := Slot(0, Zeros(maxPacketSize0), 0);
    var calls := [TransferAlloc(BULK_BUFFER_SIZE), TransferAlloc(BULK_BUFFER_SIZE),
                  TransferAlloc(maxPacketSize0)];
    (Effect(a.(slots := Some(Slots(write, read, ctrl))), calls), true)
  }

  /** release: asks the host library to release every interface index below the bNumInterfaces
      of the configuration descriptor it fetches when it runs, whether or not the constructor
      claimed it. */
  function Release(numInterfaces: nat): (calls: seq<HostCall>)
    ensures |calls| == numInterfaces
    ensures forall n :: 0 <= n < |calls| ==> calls[n] == InterfaceRelease(n)
    ensures forall n: nat :: InterfaceRelease(n) in calls <==> 0 <= n < numInterfaces
  {
    var calls := seq(numInterfaces, n requires 0 <= n < numInterfaces => InterfaceRelease(n));
    assert forall n :: 0 <= n < numInterfaces ==> calls[n] == InterfaceRelease(n);
    calls
  }

  /** Every interface the constructor claimed is among those release gives back. */
  /** release bounds its loop by the bNumInterfaces of the configuration it fetches when it
      runs, activeInterfaces here. A claimed interface is released exactly when its index is
      below that bound, so when the active configuration is the one the constructor scanned
      (or has at least as many interfaces) every claim is released. */
  lemma ReleaseCoversClaims(intfs: seq<Interface>, activeInterfaces: nat)
    ensures forall n: nat :: InterfaceClaim(n) in New(intfs).calls ==>
      (InterfaceRelease(n) in Release(activeInterfaces) <==> n < activeInterfaces)
    ensures |intfs| <= activeInterfaces ==>
      forall n: nat :: InterfaceClaim(n) in New(intfs).calls ==> InterfaceRelease(n) in Release(activeInterfaces)
  {
  }

  /** After construction and init, the write transfer is bound to an OUT endpoint and the read
      transfer to an IN endpoint. */
  lemma InitBindsDirections(intfs: seq<Interface>, maxPacketSize0: nat)
    ensures var a := New(intfs).acm;
      a.scan.epIn.Some? && a.scan.epOut.Some? ==>
        var s := Init(a, maxPacketSize0).0.acm.slots.value;
        !IsInAddress(s.write.endpoint) && IsInAddress(s.read.endpoint)
  {
  }

  // ---------------------------------------------------------------------------------------
  // Control requests on the control transfer

  /** Lays setup and payload at the start of the control buffer, sets num_bytes and submits. */
  function WriteControl(a: Acm, setup: Setup, payload: seq<byte>, numBytes: nat): (r: Effect)
    requires a.slots.Some? && SETUP_SIZE + |payload| <= |a.slots.value.ctrl.buffer|
    ensures r.calls == [SubmitControl]
    ensures OnlyControlChanged(a, r.acm)
    ensures var c := a.slots.value.ctrl; var c' := r.acm.slots.value.ctrl;
      && c'.endpoint == c.endpoint && c'.numBytes == numBytes
      && |c'.buffer| == |c.buffer|
      && c'.buffer[..SETUP_SIZE] == EncodeSetup(setup)
      && c'.buffer[SETUP_SIZE..SETUP_SIZE + |payload|] == payload
      && c'.buffer[SETUP_SIZE + |payload|..] == c.buffer[SETUP_SIZE + |payload|..]
  {
    var c := a.slots.value.ctrl;
    var setupBytes := EncodeSetup(setup);
    var buf := setupBytes + payload + c.buffer[SETUP_SIZE + |payload|..];
    assert buf[..SETUP_SIZE] == setupBytes;
    Effect(a.(slots := Some(a.slots.value.(ctrl := c.(buffer := buf, numBytes := numBytes)))),
           [SubmitControl])
  }

  /** A driver whose control buffer can hold a request with an n-byte data stage. */
  predicate ControlFits(a: Acm, n: nat)
  {
    a.slots.Some? && SETUP_SIZE + n <= |a.slots.value.ctrl.buffer|
  }

  /** setLineCoding: a SET_LINE_CODING packet followed by the 7-byte line coding, num_bytes set
      to 8 + 7; the bytes after the setup packet decode to the arguments. */
  function SetLineCoding(a: Acm, rate: u32, charFormat: byte, parity: byte, dataBits: byte): (r: Effect)
    requires ControlFits(a, LINE_CODING_SIZE)
    ensures r.calls == [SubmitControl]
    ensures OnlyControlChanged(a, r.acm)
    ensures var c' := r.acm.slots.value.ctrl;
      && c'.numBytes == SETUP_SIZE + LINE_CODING_SIZE
      && c'.buffer[..SETUP_SIZE] == EncodeSetup(SetLineCodingRequest(0))
      && DecodeLineCoding(c'.buffer[SETUP_SIZE..SETUP_SIZE + LINE_CODING_SIZE])
         == LineCoding(rate, charFormat, parity, dataBits)
  {
    var lc := LineCoding(rate, charFormat, parity, dataBits);
    LineCodingRoundTrip(lc);
    WriteControl(a, SetLineCodingRequest(0), EncodeLineCoding(lc), SETUP_SIZE + LINE_CODING_SIZE)
  }

  /** The requests whose num_bytes is the setup size plus the packet's own wLength. */
  function WriteRequest(a: Acm, setup: Setup): (r: Effect)
    requires ControlFits(a, 0)
    ensures r.calls == [SubmitControl]
    ensures OnlyControlChanged(a, r.acm)
    ensures var c' := r.acm.slots.value.ctrl;
      && c'.buffer[..SETUP_SIZE] == EncodeSetup(setup)
      && c'.numBytes == SETUP_SIZE + setup.wLength as nat
  {
    WriteControl(a, setup, [], SETUP_SIZE + setup.wLength as nat)
  }

  /** setControlLine: SET_CONTROL_LINE_STATE with DTR and RTS packed into wValue, no data stage. */
  function SetControlLine(a: Acm, dtr: bool, rts: bool): (r: Effect)
    requires ControlFits(a, 0)
    ensures r.calls == [SubmitControl]
    ensures OnlyControlChanged(a, r.acm)
    ensures var c' := r.acm.slots.value.ctrl;
      && c'.buffer[..SETUP_SIZE] == EncodeSetup(SetControlLineStateRequest(0, dtr, rts))
      && c'.numBytes == SETUP_SIZE
  {
    WriteRequest(a, SetControlLineStateRequest(0, dtr, rts))
  }

  /** getLineCoding: GET_LINE_CODING, num_bytes covering the 7-byte reply. */
  function GetLineCoding(a: Acm): (r: Effect)
    requires ControlFits(a, 0)
    ensures r.calls == [SubmitControl]
    ensures OnlyControlChanged(a, r.acm)
    ensures var c' := r.acm.slots.value.ctrl;
      && c'.buffer[..SETUP_SIZE] == EncodeSetup(GetLineCodingRequest(0))
      && c'.numBytes == SETUP_SIZE + LINE_CODING_SIZE
  {
    WriteRequest(a, GetLineCodingRequest(0))
  }

  /** clearCommFeature: CLEAR_COMM_FEATURE for ABSTRACT_STATE, no data stage. */
  function ClearCommFeature(a: Acm): (r: Effect)
    requires ControlFits(a, 0)
    ensures r.calls == [SubmitControl]
    ensures OnlyControlChanged(a, r.acm)
    ensures var c' := r.acm.slots.value.ctrl;
      && c'.buffer[..SETUP_SIZE] == EncodeSetup(ClearCommFeatureRequest(0, ABSTRACT_STATE))
      && c'.numBytes == SETUP_SIZE
  {
    WriteRequest(a, ClearCommFeatureRequest(0, ABSTRACT_STATE))
  }

  // ---------------------------------------------------------------------------------------
  // Bulk data

  /** INDATA: while disconnected nothing happens; otherwise the read transfer is armed for 64
      bytes and submitted. */
  function InData(a: Acm): (r: Effect)
    requires a.connected ==> a.slots.Some?
    ensures !a.connected ==> r == Effect(a, [])
    ensures a.connected ==>
      && r.calls == [Submit(a.slots.value.read.endpoint)]
      && r.acm == a.(slots := Some(a.slots.value.(read := a.slots.value.read.(numBytes := BULK_BUFFER_SIZE))))
  {
    if !a.connected then Effect(a, [])
    else
      var s := a.slots.value;
      Effect(a.(slots := Some(s.(read := s.read.(numBytes := BULK_BUFFER_SIZE)))), [Submit(s.read.endpoint)])
  }

  /** OUTDATA: while disconnected, or for len == 0, nothing happens; otherwise the first len
      bytes of data are copied to the start of the write buffer, num_bytes becomes len, and the
      transfer is submitted. Nothing clamps len, so it must fit the 64-byte buffer. */
  function OutData(a: Acm, data: seq<byte>, len: nat): (r: Effect)
    requires a.connected && len > 0 ==>
      a.slots.Some? && len <= |data| && len <= |a.slots.value.write.buffer|
    ensures !a.connected || len == 0 ==> r == Effect(a, [])
    ensures a.connected && len > 0 ==>
      var w := a.slots.value.write;
      && r.calls == [Submit(w.endpoint)]
      && r.acm.slots.Some?
      && var w' := r.acm.slots.value.write;
      && w'.endpoint == w.endpoint && w'.numBytes == len
      && |w'.buffer| == |w.buffer|
      && w'.buffer[..len] == data[..len]
      && w'.buffer[len..] == w.buffer[len..]
      && SameFlags(a, r.acm) && r.acm.slots.value.read == a.slots.value.read
      && r.acm.slots.value.ctrl == a.slots.value.ctrl
  {
    if !a.connected then Effect(a, [])
    else if len == 0 then Effect(a, [])
    else
      var s := a.slots.value;
      var buf := data[..len] + s.write.buffer[len..];
      assert buf[..len] == data[..len] && buf[len..] == s.write.buffer[len..];
      Effect(a.(slots := Some(s.(write := s.write.(buffer := buf, numBytes := len)))),
             [Submit(s.write.endpoint)])
  }

  // ---------------------------------------------------------------------------------------
  // Sink registration and completion dispatch

  /** onEvent: registers (sink) or clears (!sink) the event sink; clearing also marks the
      driver disconnected, registering leaves the flag alone. */
  function OnEvent(a: Acm, sink: bool): (r: Acm)
    ensures r.hasSink == sink
    ensures r.connected == (sink && a.connected)
    ensures r.scan == a.scan && r.slots == a.slots
  {
    if !sink then a.(connected := false, hasSink := false) else a.(hasSink := true)
  }

  /** isConnected reports the connected flag. */
  function IsConnected(a: Acm): (r: bool)
    ensures r == a.connected
  {
    a.connected
  }

  /** _callback: hands (event, buffer, actual_num_bytes) to the sink if one is registered, the
      buffer only for data events and NULL for every control event; a SET_LINE_CODING event
      marks the driver connected whether or not a sink is registered. */
  function Dispatch(a: Acm, event: Event, t: Transfer): (r: Delivery)
    ensures r.acm.connected <==> a.connected || event == CtrlSetLineCoding
    ensures r.acm == a.(connected := r.acm.connected)
    ensures r.emitted.Some? <==> a.hasSink
    ensures r.emitted.Some? ==>
      r.emitted.value == Emission(event, if event.IsData() then Some(t.buffer) else None, t.actual, a.connected)
  {
    var emitted := (b: Option<seq<byte>>) =>
      if a.hasSink then Some(Emission(event, b, t.actual, a.connected)) else None;
    match event
    case DataIn => Delivery(a, emitted(Some(t.buffer)))
    case DataOut => Delivery(a, emitted(Some(t.buffer)))
    case CtrlSetLineCoding => Delivery(a.(connected := true), emitted(None))
    case CtrlSetControlLineState => Delivery(a, emitted(None))
    case _ => Delivery(a, emitted(None))
  }

  /** The classifier of usb_ctrl_cb: the first two bytes of the control buffer (bmRequestType,
      bRequest) select one of the three control events; every other pair selects none. */
  function ClassifyControl(b0: byte, b1: byte): (r: Option<Event>)
    ensures r == Some(CtrlSetLineCoding) <==> b0 == SET_VALUE && b1 == SET_LINE_CODING
    ensures r == Some(CtrlGetLineCoding) <==> b0 == GET_VALUE && b1 == GET_LINE_CODING
    ensures r == Some(CtrlSetControlLineState) <==> b0 == SET_VALUE && b1 == SET_CONTROL_LINE_STATE
    ensures r.Some? ==> !r.value.IsData()
  {
    if b0 == SET_VALUE && b1 == SET_LINE_CODING then Some(CtrlSetLineCoding)
    else if b0 == GET_VALUE && b1 == GET_LINE_CODING then Some(CtrlGetLineCoding)
    else if b0 == SET_VALUE && b1 == SET_CONTROL_LINE_STATE then Some(CtrlSetControlLineState)
    else None
  }

  /** Each request the driver issues is recognised as its own event when it completes, and
      clearCommFeature's is recognised as none. */
  lemma RequestsClassifiedAsIssued(dtr: bool, rts: bool)
    ensures var b := EncodeSetup(SetLineCodingRequest(0)); ClassifyControl(b[0], b[1]) == Some(CtrlSetLineCoding)
    ensures var b := EncodeSetup(GetLineCodingRequest(0)); ClassifyControl(b[0], b[1]) == Some(CtrlGetLineCoding)
    ensures var b := EncodeSetup(SetControlLineStateRequest(0, dtr, rts));
      ClassifyControl(b[0], b[1]) == Some(CtrlSetControlLineState)
    ensures var b := EncodeSetup(ClearCommFeatureRequest(0, ABSTRACT_STATE)); ClassifyControl(b[0], b[1]) == None
  {
  }

  /** usb_ctrl_cb: the device's data stage, if any, lands right after the setup packet; the
      completion is then dispatched as the event the setup bytes select, or not at all. */
  function ControlComplete(a: Acm, reply: seq<byte>, actual: nat): (r: Delivery)
    requires ControlFits(a, |reply|)
    ensures var c := a.slots.value.ctrl;
      && r.acm.connected == (a.connected || (c.buffer[0] == SET_VALUE && c.buffer[1] == SET_LINE_CODING))
      && r.acm.slots.Some?
      && |r.acm.slots.value.ctrl.buffer| == |c.buffer|
      && r.acm.slots.value.ctrl.buffer[..SETUP_SIZE] == c.buffer[..SETUP_SIZE]
      && r.acm.slots.value.ctrl.buffer[SETUP_SIZE..SETUP_SIZE + |reply|] == reply
      && r.acm.slots.value.ctrl.buffer[SETUP_SIZE + |reply|..] == c.buffer[SETUP_SIZE + |reply|..]
      && r.acm.slots.value.ctrl.endpoint == c.endpoint && r.acm.slots.value.ctrl.numBytes == c.numBytes
    ensures r.acm.scan == a.scan
    ensures r.acm.slots.value.write == a.slots.value.write && r.acm.slots.value.read == a.slots.value.read
    ensures var c := a.slots.value.ctrl;
      r.emitted.Some? <==> a.hasSink && ClassifyControl(c.buffer[0], c.buffer[1]).Some?
    ensures r.emitted.Some? ==>
      && r.emitted.value.buffer == None && r.emitted.value.count == actual
      && r.emitted.value.connected == a.connected
      && Some(r.emitted.value.event) == ClassifyControl(a.slots.value.ctrl.buffer[0], a.slots.value.ctrl.buffer[1])
    ensures r.acm.hasSink == a.hasSink
  {
    var c := a.slots.value.ctrl;
    var buf := c.buffer[..SETUP_SIZE] + reply + c.buffer[SETUP_SIZE + |reply|..];
    assert buf[..SETUP_SIZE] == c.buffer[..SETUP_SIZE];
    assert buf[SETUP_SIZE..SETUP_SIZE + |reply|] == reply;
    assert buf[SETUP_SIZE + |reply|..] == c.buffer[SETUP_SIZE + |reply|..];
    var a' := a.(slots := Some(a.slots.value.(ctrl := c.(buffer := buf))));
    match ClassifyControl(buf[0], buf[1])
    case None => Delivery(a', None)
    case Some(ev) => Dispatch(a', ev, Transfer(buf, actual))
  }

  /** usb_read_cb: the received bytes land at the start of the read buffer and are handed to
      the sink as DATA_IN with their count. */
  function ReadComplete(a: Acm, received: seq<byte>): (r: Delivery)
    requires a.slots.Some? && |received| <= |a.slots.value.read.buffer|
    ensures SameFlags(a, r.acm)
    ensures r.acm.slots.Some?
    ensures var rd := a.slots.value.read; var rd' := r.acm.slots.value.read;
      && r.acm.slots.value.write == a.slots.value.write && r.acm.slots.value.ctrl == a.slots.value.ctrl
      && rd'.endpoint == rd.endpoint && rd'.numBytes == rd.numBytes
      && |rd'.buffer| == |rd.buffer|
      && rd'.buffer[..|received|] == received
      && rd'.buffer[|received|..] == rd.buffer[|received|..]
    ensures r.emitted.Some? <==> a.hasSink
    ensures r.emitted.Some? ==>
      && r.emitted.value.event == DataIn && r.emitted.value.count == |received|
      && r.emitted.value.buffer == Some(r.acm.slots.value.read.buffer)
      && r.emitted.value.connected == a.connected
      && r.emitted.value.buffer.Some?
      && |received| <= |r.emitted.value.buffer.value|
      && r.emitted.value.buffer.value[..|received|] == received
  {
    var rd := a.slots.value.read;
    var buf := received + rd.buffer[|received|..];
    assert buf[..|received|] == received && buf[|received|..] == rd.buffer[|received|..];
    var a' := a.(slots := Some(a.slots.value.(read := rd.(buffer := buf))));
    Dispatch(a', DataIn, Transfer(buf, |received|))
  }

  /** usb_write_cb: the completion is handed to the sink as DATA_OUT with the write buffer and
      the number of bytes the host reports sent. */
  function WriteComplete(a: Acm, actual: nat): (r: Delivery)
    requires a.slots.Some?
    ensures r.acm == a
    ensures r.emitted.Some? <==> a.hasSink
    ensures r.emitted.Some? ==>
      r.emitted.value == Emission(DataOut, Some(a.slots.value.write.buffer), actual, a.connected)
  {
    Dispatch(a, DataOut, Transfer(a.slots.value.write.buffer, actual))
  }

  // ---------------------------------------------------------------------------------------
  // A transfer followed by its completion

  /** Sending and then completing the write hands the sink the write buffer, which starts with
      the len bytes that were sent, and the byte count the host reports. */
  lemma SendThenWriteComplete(a: Acm, data: seq<byte>, len: nat, actual: nat)
    requires a.connected && a.slots.Some?
    requires 0 < len <= |data| && len <= |a.slots.value.write.buffer|
    ensures var o := OutData(a, data, len);
      && o.acm.slots.Some?
      && var d := WriteComplete(o.acm, actual);
      && (d.emitted.Some? <==> a.hasSink)
      && (d.emitted.Some? ==>
        && d.emitted.value.event == DataOut && d.emitted.value.count == actual
        && d.emitted.value.buffer.Some?
        && len <= |d.emitted.value.buffer.value|
        && d.emitted.value.buffer.value[..len] == data[..len])
  {
  }

  /** Receiving and then completing the read hands the sink the read buffer, which starts with
      the bytes received, and their count; the read endpoint that was submitted is the one the
      buffer belongs to. */
  lemma ReceiveThenReadComplete(a: Acm, received: seq<byte>)
    requires a.connected && a.slots.Some?
    requires |received| <= |a.slots.value.read.buffer|
    ensures var i := InData(a);
      && i.calls == [Submit(a.slots.value.read.endpoint)]
      && i.acm.slots.Some?
      && var d := ReadComplete(i.acm, received);
      && d.acm.slots.value.read.endpoint == a.slots.value.read.endpoint
      && (d.emitted.Some? <==> a.hasSink)
      && (d.emitted.Some? ==>
        && d.emitted.value.event == DataIn && d.emitted.value.count == |received|
        && d.emitted.value.buffer.Some?
        && d.emitted.value.buffer.value[..|received|] == received)
  {
  }
}
