/** The CDC-ACM driver driven by a sequence of application calls and transfer completions,
    and what that says about the connected flag and about data submissions. */
module AcmTrace {
  import opened UsbTypes
  import opened AcmScan
  import opened CdcRequests
  import opened AcmDriver

  /** A driver after init on a device whose control buffer holds a full line-coding request
      (bMaxPacketSize0 of 15 or more). */
  predicate Ready(a: Acm)
  {
    && a.slots.Some?
    && |a.slots.value.write.buffer| == BULK_BUFFER_SIZE
    && |a.slots.value.read.buffer| == BULK_BUFFER_SIZE
    && ControlFits(a, LINE_CODING_SIZE)
  }

  /** One thing that can happen to an initialised driver: an application call, or the
      completion of one of its three transfers. */
  datatype Input =
    | SetSink(present: bool)
    | RequestSetLineCoding(lc: LineCoding)
    | RequestGetLineCoding
    | RequestSetControlLine(dtr: bool, rts: bool)
    | RequestClearCommFeature
    | Receive
    | Send(data: seq<byte>, len: nat)
    | ControlDone(reply: seq<byte>, actual: nat)
    | ReadDone(received: seq<byte>)
    | WriteDone(actual: nat)

  /** The inputs the driver's operations accept in state a: a send that OUTDATA goes on to copy
      (connected, len > 0) fits the caller's data and the write buffer; a control reply is at most
      the 7 bytes GET_LINE_CODING's wLength allows, the only data stage these requests read;
      received data fits the read buffer. A send while disconnected, or of no bytes, is
      accepted whatever its length. */
  predicate Admissible(a: Acm, inp: Input)
  {
    match inp
    case Send(data, len) => a.connected && len > 0 ==> len <= |data| && len <= BULK_BUFFER_SIZE
    case ControlDone(reply, _) => |reply| <= LINE_CODING_SIZE
    case ReadDone(received) => |received| <= BULK_BUFFER_SIZE
    case _ => true
  }

  predicate IsDataRequest(inp: Input)
  {
    inp.Receive? || inp.Send?
  }

  /** The driver after one input, the host-library calls made, the event _callback was invoked
      with (if any) and the sink call made (if any). */
  datatype Outcome = Outcome(acm: Acm, calls: seq<HostCall>, dispatched: Option<Event>, emitted: Option<Emission>)

  function Requested(e: Effect): Outcome
  {
    Outcome(e.acm, e.calls, None, None)
  }

  /** A request that rewrote only the control transfer, keeping its capacity, and submitted it. */
  predicate ControlRequestOutcome(a: Acm, r: Outcome)
    requires Ready(a)
  {
    && Ready(r.acm)
    && r.acm.connected == a.connected && r.acm.hasSink == a.hasSink
    && r.dispatched == None && r.emitted == None
    && r.calls == [SubmitControl]
  }

  function SetLineCodingStep(a: Acm, lc: LineCoding): (r: Outcome)
    requires Ready(a)
    ensures ControlRequestOutcome(a, r)
  {
    Requested(SetLineCoding(a, lc.dwDTERate, lc.bCharFormat, lc.bParityType, lc.bDataBits))
  }

  function GetLineCodingStep(a: Acm): (r: Outcome)
    requires Ready(a)
    ensures ControlRequestOutcome(a, r)
  {
    Requested(GetLineCoding(a))
  }

  function SetControlLineStep(a: Acm, dtr: bool, rts: bool): (r: Outcome)
    requires Ready(a)
    ensures ControlRequestOutcome(a, r)
  {
    Requested(SetControlLine(a, dtr, rts))
  }

  function ClearCommFeatureStep(a: Acm): (r: Outcome)
    requires Ready(a)
    ensures ControlRequestOutcome(a, r)
  {
    Requested(ClearCommFeature(a))
  }

  /** One of the four control requests: the control transfer is rewritten and submitted. */
  function RequestStep(a: Acm, inp: Input): (r: Outcome)
    requires Ready(a)
    requires inp.RequestSetLineCoding? || inp.RequestGetLineCoding? || inp.RequestSetControlLine?
      || inp.RequestClearCommFeature?
    ensures ControlRequestOutcome(a, r)
  {
    if inp.RequestSetLineCoding? then SetLineCodingStep(a, inp.lc)
    else if inp.RequestGetLineCoding? then GetLineCodingStep(a)
    else if inp.RequestSetControlLine? then SetControlLineStep(a, inp.dtr, inp.rts)
    else ClearCommFeatureStep(a)
  }

  /** receive or send: nothing is submitted while disconnected. */
  function DataStep(a: Acm, inp: Input): (r: Outcome)
    requires Ready(a) && Admissible(a, inp) && IsDataRequest(inp)
    ensures Ready(r.acm)
    ensures r.acm.connected == a.connected && r.acm.hasSink == a.hasSink
    ensures r.dispatched == None && r.emitted == None
    ensures !a.connected ==> r.calls == []
  {
    if inp.Receive? then Requested(InData(a)) else Requested(OutData(a, inp.data, inp.len))
  }

  /** A completion of one of the three transfers, dispatched through _callback. */
  function CompletionStep(a: Acm, inp: Input): (r: Outcome)
    requires Ready(a) && Admissible(a, inp)
    requires inp.ControlDone? || inp.ReadDone? || inp.WriteDone?
    ensures Ready(r.acm)
    ensures r.acm.connected <==> r.dispatched == Some(CtrlSetLineCoding) || a.connected
    ensures r.acm.hasSink == a.hasSink
    ensures r.emitted.Some? <==> r.dispatched.Some? && a.hasSink
    ensures r.emitted.Some? ==> r.emitted.value.event == r.dispatched.value
    ensures r.calls == []
  {
    match inp
    case ControlDone(reply, actual) =>
      var c := a.slots.value.ctrl;
      var d := ControlComplete(a, reply, actual);
      Outcome(d.acm, [], ClassifyControl(c.buffer[0], c.buffer[1]), d.emitted)
    case ReadDone(received) =>
      var d := ReadComplete(a, received);
      Outcome(d.acm, [], Some(DataIn), d.emitted)
    case WriteDone(actual) =>
      var d := WriteComplete(a, actual);
      Outcome(d.acm, [], Some(DataOut), d.emitted)
  }

  function Step(a: Acm, inp: Input): (r: Outcome)
    requires Ready(a) && Admissible(a, inp)
    ensures Ready(r.acm)
    ensures r.acm.connected <==>
      r.dispatched == Some(CtrlSetLineCoding) || (a.connected && inp != SetSink(false))
    ensures r.emitted.Some? ==> r.dispatched.Some? && r.emitted.value.event == r.dispatched.value
    ensures IsDataRequest(inp) && !a.connected ==> r.calls == []
  {
    if inp.SetSink? then Outcome(OnEvent(a, inp.present), [], None, None)
    else if IsDataRequest(inp) then DataStep(a, inp)
    else if inp.ControlDone? || inp.ReadDone? || inp.WriteDone? then CompletionStep(a, inp)
    else RequestStep(a, inp)
  }

  /** A run of inputs: the driver after all of them and, for each input, whether _callback
      dispatched it as SET_LINE_CODING. */
  datatype Replayed = Replayed(acm: Acm, setLineCoding: seq<bool>)

  /** The driver after every input of ins, in order. */
  function Run(a: Acm, ins: seq<Input>): (r: Replayed)
    requires Ready(a) && Accepted(a, ins)
    ensures Ready(r.acm)
    ensures |r.setLineCoding| == |ins|
    decreases |ins|, 1
  {
    if |ins| == 0 then Replayed(a, [])
    else
      var n := |ins| - 1;
      var before := Run(a, ins[..n]);
      var o := Step(before.acm, ins[n]);
      Replayed(o.acm, before.setLineCoding + [o.dispatched == Some(CtrlSetLineCoding)])
  }

  /** Every input of ins is admissible in the state the inputs before it leave the driver in. */
  predicate Accepted(a: Acm, ins: seq<Input>)
    requires Ready(a)
    decreases |ins|, 0
  {
    || |ins| == 0
    || (var n := |ins| - 1; Accepted(a, ins[..n]) && Admissible(Run(a, ins[..n]).acm, ins[n]))
  }

  /** No input from index k on clears the sink. */
  predicate NoClearFrom(ins: seq<Input>, k: nat)
  {
    forall j :: k <= j < |ins| ==> ins[j] != SetSink(false)
  }

  /** One more input: the log grows by that input's flag, and the driver is connected after it
      when it was dispatched as SET_LINE_CODING, or the driver was connected and it did not clear
      the sink. */
  lemma RunLast(a: Acm, ins: seq<Input>)
    requires Ready(a) && Accepted(a, ins) && |ins| > 0
    ensures Accepted(a, ins[..|ins| - 1])
    ensures var r := Run(a, ins); var before := Run(a, ins[..|ins| - 1]);
      && r.setLineCoding == before.setLineCoding + [r.setLineCoding[|ins| - 1]]
      && (r.acm.connected <==>
            r.setLineCoding[|ins| - 1] || (before.acm.connected && ins[|ins| - 1] != SetSink(false)))
  {
    var n := |ins| - 1;
    RunUnfold(a, ins);
    var before := Run(a, ins[..n]);
    var o := Step(before.acm, ins[n]);
    assert Run(a, ins).setLineCoding[n] == (o.dispatched == Some(CtrlSetLineCoding));
  }

  /** The last step of a run: the inputs before it were accepted, the last one is admissible
      where they leave the driver, and the run is that step applied after them. */
  lemma RunUnfold(a: Acm, ins: seq<Input>)
    requires Ready(a) && Accepted(a, ins) && |ins| > 0
    ensures Accepted(a, ins[..|ins| - 1])
    ensures var before := Run(a, ins[..|ins| - 1]);
      && Admissible(before.acm, ins[|ins| - 1])
      && var o := Step(before.acm, ins[|ins| - 1]);
      && Run(a, ins) == Replayed(o.acm, before.setLineCoding + [o.dispatched == Some(CtrlSetLineCoding)])
  {
  }

  lemma NoClearFromPrefix(ins: seq<Input>, k: nat)
    requires 0 < |ins| && k < |ins|
    ensures NoClearFrom(ins, k) <==>
      NoClearFrom(ins[..|ins| - 1], k) && ins[|ins| - 1] != SetSink(false)
  {
    var n := |ins| - 1;
    assert forall j :: k <= j < n ==> ins[..n][j] == ins[j];
  }

  /** The driver is connected after a run exactly when some completion in it was dispatched as
      SET_LINE_CODING and the sink was not cleared afterwards, or it was connected to begin with
      and the sink was never cleared. */
  lemma {:induction false} ConnectedIff(a: Acm, ins: seq<Input>)
    requires Ready(a) && Accepted(a, ins)
    ensures var r := Run(a, ins);
      IsConnected(r.acm) <==>
        || (exists i :: 0 <= i < |ins| && r.setLineCoding[i] && NoClearFrom(ins, i + 1))
        || (a.connected && NoClearFrom(ins, 0))
  {
    if |ins| > 0 {
      var n := |ins| - 1;
      var pre := ins[..n];
      RunLast(a, ins);
      ConnectedIff(a, pre);
      var before := Run(a, pre);
      var r := Run(a, ins);
      NoClearFromPrefix(ins, 0);
      if r.acm.connected && !r.setLineCoding[n] {
        if !(a.connected && NoClearFrom(pre, 0)) {
          var i :| 0 <= i < n && before.setLineCoding[i] && NoClearFrom(pre, i + 1);
          NoClearFromPrefix(ins, i + 1);
          assert r.setLineCoding[i];
        }
      }
      if !r.acm.connected {
        forall i | 0 <= i < |ins| && r.setLineCoding[i]
          ensures !NoClearFrom(ins, i + 1)
        {
          if i < n {
            NoClearFromPrefix(ins, i + 1);
            assert before.setLineCoding[i];
          }
        }
      }
    }
  }

  /** A driver that starts disconnected stays disconnected unless some completion is dispatched
      as SET_LINE_CODING. */
  lemma NoConnectionWithoutSetLineCoding(a: Acm, ins: seq<Input>)
    requires Ready(a) && Accepted(a, ins) && !a.connected
    requires forall i :: 0 <= i < |ins| ==> !Run(a, ins).setLineCoding[i]
    ensures !Run(a, ins).acm.connected
  {
    ConnectedIff(a, ins);
  }

  /** Clearing the sink leaves the driver disconnected. */
  lemma ClearingSinkDisconnects(a: Acm, ins: seq<Input>)
    requires Ready(a) && Accepted(a, ins)
    ensures Accepted(a, ins + [SetSink(false)])
    ensures !Run(a, ins + [SetSink(false)]).acm.connected
  {
    assert (ins + [SetSink(false)])[..|ins|] == ins;
  }

  /** A send while disconnected is accepted whatever its length, and does nothing. */
  lemma DisconnectedSendIsNoOp(a: Acm, data: seq<byte>, len: nat)
    requires Ready(a) && !a.connected
    ensures Admissible(a, Send(data, len))
    ensures var o := Step(a, Send(data, len)); o.acm == a && o.calls == [] && o.emitted == None
  {
  }

  /** Issuing setLineCoding and then completing the control transfer connects the driver, and
      with a sink registered the sink sees SET_LINE_CODING with a NULL buffer. */
  lemma SetLineCodingCompletionConnects(a: Acm, lc: LineCoding, actual: nat)
    requires Ready(a)
    ensures
      var e := SetLineCoding(a, lc.dwDTERate, lc.bCharFormat, lc.bParityType, lc.bDataBits);
      var d := ControlComplete(e.acm, [], actual);
      && d.acm.connected
      && (d.emitted.Some? <==> a.hasSink)
      && (a.hasSink ==> d.emitted == Some(Emission(CtrlSetLineCoding, None, actual, a.connected)))
  {
    var e := SetLineCoding(a, lc.dwDTERate, lc.bCharFormat, lc.bParityType, lc.bDataBits);
    var b := e.acm.slots.value.ctrl.buffer;
    assert b[0] == b[..SETUP_SIZE][0] && b[1] == b[..SETUP_SIZE][1];
  }

  /** _callback calls the sink before it sets connected: while handling the SET_LINE_CODING
      that connects a disconnected driver, the sink sees it disconnected, and INDATA or OUTDATA
      issued from there (on the driver as the sink sees it) submit nothing. */
  lemma SinkSeesDisconnectedWhileConnecting(a: Acm, lc: LineCoding, actual: nat, data: seq<byte>, len: nat)
    requires Ready(a) && a.hasSink && !a.connected
    ensures
      var e := SetLineCoding(a, lc.dwDTERate, lc.bCharFormat, lc.bParityType, lc.bDataBits);
      var d := ControlComplete(e.acm, [], actual);
      && d.acm.connected
      && d.emitted.Some? && d.emitted.value.event == CtrlSetLineCoding && !d.emitted.value.connected
      && var seen := d.acm.(connected := d.emitted.value.connected);
      && InData(seen).calls == [] && OutData(seen, data, len).calls == []
  {
    SetLineCodingCompletionConnects(a, lc, actual);
  }

  // ---------------------------------------------------------------------------------------
  // An attach-to-transfer scenario on a device with one communication interface (endpoint
  // 0x83) and one data interface (endpoints 0x81 IN, 0x01 OUT)

  function SampleDevice(): seq<Interface>
  {
    [Interface(CLASS_COMM, [Some(0x83)]), Interface(CLASS_DATA, [Some(0x81), Some(0x01)])]
  }

  /** The device after construction, init with a 64-byte control endpoint, and registration of
      a sink. */
  function SampleDriver(): (a: Acm)
    ensures Ready(a) && a.hasSink && !a.connected
    ensures a.slots.value.write.endpoint == 0x01 && a.slots.value.read.endpoint == 0x81
  {
    IsInAddressIffHigh(0x81);
    IsInAddressIffHigh(0x01);
    ClassifiesCommAndData(0x83, 0x81, 0x01, true, true);
    var a0 := New(SampleDevice()).acm;
    OnEvent(Init(a0, 64).0.acm, true)
  }

  /** setLineCoding(115200, 0, 0, 8) puts 00 C2 01 00 00 00 08 after the setup packet, and its
      completion connects the driver and raises SET_LINE_CODING. */
  lemma SampleConnects()
    ensures
      var e := SetLineCoding(SampleDriver(), 115200, 0, 0, 8);
      var d := ControlComplete(e.acm, [], 15);
      && e.acm.slots.value.ctrl.buffer[SETUP_SIZE..SETUP_SIZE + LINE_CODING_SIZE]
         == [0x00, 0xC2, 0x01, 0x00, 0x00, 0x00, 0x08]
      && IsConnected(d.acm)
      && d.emitted == Some(Emission(CtrlSetLineCoding, None, 15, false))
  {
    var a := SampleDriver();
    var lc := LineCoding(115200, 0, 0, 8);
    var e := SetLineCoding(a, 115200, 0, 0, 8);
    var bytes := e.acm.slots.value.ctrl.buffer[SETUP_SIZE..SETUP_SIZE + LINE_CODING_SIZE];
    LineCodingBytesRoundTrip(bytes);
    LineCoding115200();
    SetLineCodingCompletionConnects(a, lc, 15);
  }

  /** The sample driver once setLineCoding(115200, 0, 0, 8) has completed: connected, with the
      sink still registered and the bulk endpoints init bound. */
  function SampleConnected(): (a: Acm)
    ensures Ready(a) && a.hasSink && a.connected
    ensures a.slots.value.write.endpoint == 0x01 && a.slots.value.read.endpoint == 0x81
  {
    SampleConnects();
    var e := SetLineCoding(SampleDriver(), 115200, 0, 0, 8);
    ControlComplete(e.acm, [], 15).acm
  }

  /** After the sample connection, sending 41 42 submits a 2-byte write to endpoint 0x01 holding
      those bytes, and its completion raises DATA_OUT with count 2 and that buffer. */
  lemma SampleSend()
    ensures
      var a := SampleConnected();
      var e := OutData(a, [0x41, 0x42], 2);
      var w := e.acm.slots.value.write;
      var d := WriteComplete(e.acm, 2);
      && e.calls == [Submit(0x01)]
      && w.numBytes == 2 && w.buffer[..2] == [0x41, 0x42]
      && d.emitted.Some? && d.emitted.value.event == DataOut && d.emitted.value.count == 2
      && d.emitted.value.buffer.value[..2] == [0x41, 0x42]
  {
  }

  /** After the sample connection, receive arms a 64-byte read on endpoint 0x81; a completion
      carrying 01 02 03 04 05 raises DATA_IN with those five bytes. */
  lemma SampleReceive()
    ensures
      var a := SampleConnected();
      var e := InData(a);
      var d := ReadComplete(e.acm, [1, 2, 3, 4, 5]);
      && e.calls == [Submit(0x81)]
      && e.acm.slots.value.read.numBytes == 64
      && d.emitted.Some? && d.emitted.value.event == DataIn && d.emitted.value.count == 5
      && d.emitted.value.buffer.value[..5] == [1, 2, 3, 4, 5]
  {
  }
}
