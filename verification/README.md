# CDC-ACM host driver and USB host session, modelled in Dafny

This project models two parts of the EspTinyUSB host stack for the ESP32 USB host library:

* the **CDC-ACM device driver** (`src/host/acm/usb_acm.cpp`), which covers:
  - the constructor's walk over the configuration's interfaces, which finds the notification, IN and OUT endpoints and claims the communication and data interfaces;
  - `init`, which allocates the three transfers;
  - `release`;
  - the four CDC class requests built in the control transfer;
  - the guarded bulk submissions `INDATA`/`OUTDATA`;
  - sink registration with `onEvent`;
  - the three completion callbacks, the control-completion classifier, and the `_callback` dispatcher that keeps the `connected` flag;
* the **host session** (`src/host/common/usb_host.cpp`), which covers:
  - `init`, `open` and `close`;
  - the client-event router `_client_event_callback`;
  - one iteration of the polling task `client_async_seq_task`, including the NO_CLIENTS / ALL_FREE teardown of the client handle.

Every operation is a pure function from the old state to the new state. Every ESP-IDF and FreeRTOS call is a recorded value:
- `AcmDriver.HostCall`: interface claim/release, transfer allocation, submissions;
- `UsbHost.HostCall`: install, register, open, close, descriptor fetches, event handling, free-all, uninstall, deregister, task creation, delay.

Whatever the library returns or writes back is a parameter supplied by the caller. This covers status codes, the handles it hands out, event flags, the data a device sends, and the successive results of `usb_host_device_free_all`. The driver only logs the status codes it gets back, so they do not appear in the driver model.

Modules:

| file | module | models |
|---|---|---|
| `usb_types.dfy` | `UsbTypes` | bytes, 16/32-bit words, `Option`, the endpoint direction bit (section 9.6.6 of USB 2.0) |
| `acm_scan.dfy` | `AcmScan` | the constructor's interface scan, with reference definitions of its results |
| `cdc_requests.dfy` | `CdcRequests` | the 8-byte setup packet (section 9.3 of USB 2.0), the 7-byte line coding (section 6.2.13 of USB CDC 1.1), the CDC class requests |
| `acm_driver.dfy` | `AcmDriver` | construction, `init`, `release`, the control requests, `INDATA`/`OUTDATA`, `onEvent`, `isConnected`, the completion callbacks and `_callback` |
| `acm_trace.dfy` | `AcmTrace` | the driver under any sequence of calls and completions: when it is connected; an attach-to-transfer scenario |
| `usb_host.dfy` | `UsbHost` | `init`, `open`, `close`, event routing, one polling-loop iteration |

The header `usb_acm.hpp` is not part of this model. The model therefore makes these assumptions:
- Request codes and `bmRequestType` values are taken from USB CDC 1.1:
  - `SET_VALUE` = 0x21 and `GET_VALUE` = 0xA1;
  - `CLEAR_COMM_FEATURE` = 0x04, `SET_LINE_CODING` = 0x20, `GET_LINE_CODING` = 0x21, `SET_CONTROL_LINE_STATE` = 0x22.
- The request macros fill in the setup packet as CDC 1.1 prescribes. Interface 0 goes in wIndex. wLength is 7 for the two line-coding requests and 0 for the others. DTR is bit 0 of wValue and RTS is bit 1.
- `clearCommFeature` passes interface 0 and then two arguments that are both 1 (`usb_acm.cpp:203`). The model takes the first of them as the feature selector, ABSTRACT_STATE (1), written to wValue. CLEAR_COMM_FEATURE has no data stage, so the other one does not reach the setup packet. Since both are 1, the packet is the same whichever argument is the selector.
- `line_coding_t` is packed to 7 bytes on a little-endian target.
- `connected` starts false, and a new driver has no sink.
- The trace lemmas in `AcmTrace` (`Step`, `ConnectedIff` and the rest) start from a driver whose control buffer holds 15 bytes, that is bMaxPacketSize0 of 15 or more. A device with bMaxPacketSize0 = 8 is covered by the single-call members of `AcmDriver` (`SetControlLine` and `ClearCommFeature` need only 8 bytes, and `ControlComplete` 8 plus the reply), not by the trace lemmas.
- `ep_int`, `ep_in` and `ep_out` start NULL, which is `AcmScan.Unscanned`. An interface that aborts the scan therefore leaves the endpoints it did not reach unset; `AcmScan.ThreeEndpointDataInterfaceAborts` depends on this.
- `AcmDriver.Init` fills the three transfer buffers with zeros. The host library leaves their contents unspecified. So in the model, a control completion that arrives before any request has been written starts with 00 00 and is classified as no event.

Behaviour of the code worth noting:
- A control completion whose first two bytes match none of the three known requests (for instance the completion of `clearCommFeature`) dispatches no event at all (`usb_acm.cpp:11-22`).
- `connected` becomes true on every SET_LINE_CODING completion without looking at the transfer status (`usb_acm.cpp:265-268`). The model's completions therefore carry no status.
- When NO_CLIENTS and ALL_FREE are reported in the same poll, the loop re-registers a client, then deregisters the handle captured before the poll and sets `client_hdl` to NULL. So `client_hdl` ends NULL and the re-registered handle is lost (`usb_host.cpp:37-64`, `UsbHost.BothFlagsLoseFreshHandle`). `client_hdl` holds the re-registered handle only when NO_CLIENTS comes without ALL_FREE (`UsbHost.ReinstallScenario`, `UsbHost.ClientAfterIteration`).
- `_callback` calls the sink before it sets `connected` (`usb_acm.cpp:266-268`). While the sink handles the SET_LINE_CODING that connects a disconnected driver, `isConnected()` still reports false, and `INDATA`/`OUTDATA` called from the sink do nothing (`AcmTrace.SinkSeesDisconnectedWhileConnecting`). Each emission records the flag the sink sees.
- Sending while disconnected does nothing, whatever the length (`usb_acm.cpp:223-226`). Only a send on a connected driver must fit the 64-byte write buffer.

## Model

| member | source | states |
|---|---|---|
| AcmScan.ScanConfig | src/host/acm/usb_acm.cpp:37-117 | after the scan, epIn is an IN address and epOut an OUT address; claimed indices are in range, name communication/data/vendor interfaces, and increase; the scan aborts only if some interface has the wrong endpoint count |
| AcmScan.AbortedIff | src/host/acm/usb_acm.cpp:48-74 | the constructor returns early exactly when some interface is a class-0x02 interface without exactly one endpoint, or a class-0x0A/0xFF interface without exactly two |
| AcmScan.AbortedPrefixIsFinal | src/host/acm/usb_acm.cpp:50-74 | once the early return is taken, no later interface changes any result |
| AcmScan.StopsAtFirstMisshapen | src/host/acm/usb_acm.cpp:48-74 | at the first interface with a wrong endpoint count, the result equals the scan of the interfaces before it with the abort set: earlier claims and endpoints are kept, later interfaces are neither examined nor claimed |
| AcmScan.OtherClassSkipped | src/host/acm/usb_acm.cpp:48-69 | appending an interface of any other class changes nothing: it is neither claimed nor assigned |
| AcmScan.ClaimedExactly | src/host/acm/usb_acm.cpp:48-106 | index i is claimed if and only if interface i is of class 0x02, 0x0A or 0xFF and the scan reaches it with every interface up to and including i well-shaped |
| AcmScan.EndpointsAreLastSeen | src/host/acm/usb_acm.cpp:76-90 | for a fully scanned configuration, epIn/epOut equal the last IN/OUT address among all data interfaces' parsed endpoints (last one wins, a failed parse changes nothing) and epInt the endpoint of the last communication interface, each against an independent reference definition |
| AcmScan.EndpointsOfReachedPrefix | src/host/acm/usb_acm.cpp:69-90 | for an aborted scan the endpoints are those of the interfaces before the first misshapen one |
| AcmScan.ClassifiesCommAndData | src/host/acm/usb_acm.cpp:48-90 | a one-endpoint communication interface and a data interface with one IN and one OUT endpoint yield those three endpoints and claims [0, 1], in either interface order and either endpoint order |
| AcmScan.ThreeEndpointDataInterfaceAborts | src/host/acm/usb_acm.cpp:69-74 | a data interface declaring three endpoints aborts with both data endpoints unset, keeping the earlier communication interface's endpoint and claim |
| CdcRequests.EncodeSetup | src/host/acm/usb_acm.cpp:170-171 | a setup packet occupies 8 bytes with bmRequestType and bRequest first |
| CdcRequests.SetupRoundTrip | src/host/acm/usb_acm.cpp:171 | reading the packet back from the buffer (as the num_bytes computation reads wLength) gives the fields written |
| CdcRequests.SetupBytesRoundTrip | src/host/acm/usb_acm.cpp:171 | every 8 bytes are the encoding of the packet they decode to |
| CdcRequests.EncodeLineCoding | src/host/acm/usb_acm.cpp:179-185 | the line coding occupies 7 bytes with bCharFormat, bParityType and bDataBits at offsets 4, 5, 6 |
| CdcRequests.LineCodingRoundTrip | src/host/acm/usb_acm.cpp:179-185 | decoding the 7 bytes written gives back rate, stop bits, parity and data bits |
| CdcRequests.LineCodingBytesRoundTrip | src/host/acm/usb_acm.cpp:185 | every 7 bytes are the encoding of the line coding they decode to |
| CdcRequests.LineCoding115200 | src/host/acm/usb_acm.cpp:177-185 | 115200 baud, 1 stop bit, no parity, 8 bits is written as 00 C2 01 00 00 00 08 |
| CdcRequests.ControlLineStateBits | src/host/acm/usb_acm.cpp:170 | DTR and RTS can be read back from bits 0 and 1 of wValue, which is below 4 |
| AcmDriver.New | src/host/acm/usb_acm.cpp:37-117 | the constructor claims interface n if and only if the scan reaches it as a communication or data interface, makes only claims, in increasing order, and yields a disconnected driver without sink or transfers |
| AcmDriver.Init | src/host/acm/usb_acm.cpp:123-151 | init allocates 64, 64 and bMaxPacketSize0 bytes in that order, binds write to ep_out, read to ep_in, control to endpoint 0, leaves the flags alone, and returns true |
| AcmDriver.Release | src/host/acm/usb_acm.cpp:154-166 | release asks to release the indices 0 .. bNumInterfaces-1 of the configuration it fetches, in increasing order, one call each, whether claimed or not |
| AcmDriver.ReleaseCoversClaims | src/host/acm/usb_acm.cpp:154-165 | a claimed interface is released exactly when its index is below the active configuration's bNumInterfaces, so every claim is released when that configuration has at least as many interfaces as the one the constructor scanned |
| AcmDriver.InitBindsDirections | src/host/acm/usb_acm.cpp:133-141 | after construction and init the write transfer is on an OUT endpoint and the read transfer on an IN endpoint |
| AcmDriver.WriteControl | src/host/acm/usb_acm.cpp:184-187 | a control request writes its setup packet, then its data stage, keeps the rest of the buffer and every other transfer, sets num_bytes and submits once |
| AcmDriver.SetLineCoding | src/host/acm/usb_acm.cpp:177-190 | setLineCoding writes the SET_LINE_CODING packet, sets num_bytes to 8 + 7, and the 7 bytes after the packet decode to its arguments |
| AcmDriver.WriteRequest | src/host/acm/usb_acm.cpp:168-175 | a request without written data stage sets num_bytes to 8 plus the wLength of the packet it wrote |
| AcmDriver.SetControlLine | src/host/acm/usb_acm.cpp:168-175 | setControlLine writes SET_CONTROL_LINE_STATE with DTR/RTS in wValue, num_bytes 8, and submits once |
| AcmDriver.GetLineCoding | src/host/acm/usb_acm.cpp:192-199 | getLineCoding writes GET_LINE_CODING with num_bytes 8 + 7 for the reply, and submits once |
| AcmDriver.ClearCommFeature | src/host/acm/usb_acm.cpp:201-208 | clearCommFeature writes CLEAR_COMM_FEATURE(ABSTRACT_STATE), num_bytes 8, and submits once |
| AcmDriver.InData | src/host/acm/usb_acm.cpp:210-221 | while disconnected nothing changes and nothing is submitted; otherwise only the read transfer's num_bytes becomes 64 and it is submitted to the IN endpoint |
| AcmDriver.OutData | src/host/acm/usb_acm.cpp:223-238 | while disconnected or for len 0 nothing happens; otherwise the write buffer starts with data[..len], keeps its other bytes, num_bytes is len, nothing else changes, and one submission goes to the OUT endpoint |
| AcmDriver.IsConnected | src/host/acm/usb_acm.cpp:240-243 | isConnected reports the connected flag |
| AcmDriver.OnEvent | src/host/acm/usb_acm.cpp:245-251 | clearing the sink forces connected false; registering one leaves connected as it was |
| AcmDriver.Dispatch | src/host/acm/usb_acm.cpp:253-283 | connected becomes true exactly for SET_LINE_CODING, sink or not; the sink is called if and only if registered, with the buffer for data events and NULL for every control event, the byte count, and the connected flag as it was before the call, since connected is set after the sink returns |
| AcmDriver.ClassifyControl | src/host/acm/usb_acm.cpp:7-23 | each of the three control events is selected if and only if the first two bytes are its (bmRequestType, bRequest) pair; any other pair selects none |
| AcmDriver.RequestsClassifiedAsIssued | src/host/acm/usb_acm.cpp:11-22 | the completions of setLineCoding, getLineCoding and setControlLine are classified as their own events, clearCommFeature's as none |
| AcmDriver.ControlComplete | src/host/acm/usb_acm.cpp:7-23 | a control completion keeps the setup bytes, places the reply after them and keeps the bytes after the reply, the control endpoint, num_bytes, the scan results and the read and write transfers; it connects exactly when the setup was SET_LINE_CODING, and calls the sink, with NULL, the byte count and the connected flag from before the completion, exactly when a sink is set and the setup is recognised |
| AcmDriver.ReadComplete | src/host/acm/usb_acm.cpp:25-29 | a read completion places the received bytes at the start of the read buffer and keeps its other bytes, its endpoint and num_bytes, the control and write transfers and the flags; it hands DATA_IN with the read transfer's own buffer and the received count to a registered sink |
| AcmDriver.WriteComplete | src/host/acm/usb_acm.cpp:31-35 | a write completion hands DATA_OUT with the write buffer and the sent count to a registered sink and changes nothing |
| AcmDriver.SendThenWriteComplete | src/host/acm/usb_acm.cpp:31-35 | OUTDATA followed by its completion hands a registered sink DATA_OUT, the reported count, and a buffer starting with the len bytes sent |
| AcmDriver.ReceiveThenReadComplete | src/host/acm/usb_acm.cpp:25-29 | INDATA submits the read endpoint, and the completion of that read hands a registered sink DATA_IN with a buffer starting with the bytes received and their count |
| AcmTrace.SetLineCodingStep | src/host/acm/usb_acm.cpp:177-190 | as a step, setLineCoding keeps the driver ready and its flags, dispatches nothing and makes one control submission |
| AcmTrace.DataStep | src/host/acm/usb_acm.cpp:210-238 | as a step, a receive or send leaves the flags alone and submits nothing while disconnected; a send need only fit the write buffer when the driver is connected and len is positive |
| AcmTrace.DisconnectedSendIsNoOp | src/host/acm/usb_acm.cpp:223-226 | a send of any data and any length is admissible on a disconnected driver and changes nothing, submits nothing and emits nothing |
| AcmTrace.CompletionStep | src/host/acm/usb_acm.cpp:7-35 | as a step, a completion connects exactly when it is dispatched as SET_LINE_CODING and emits only the event it dispatched |
| AcmTrace.Step | src/host/acm/usb_acm.cpp:210-283 | after any single call or completion admissible in the current state (a disconnected send of any length included) the driver is connected exactly when it was dispatched SET_LINE_CODING, or it was connected and the input did not clear the sink |
| AcmTrace.ConnectedIff | src/host/acm/usb_acm.cpp:240-283 | after any sequence of calls and completions in which each input is admissible in the state it meets (so disconnected sends may have any length), isConnected holds exactly when some completion was dispatched as SET_LINE_CODING with no sink clearing after it, or the driver was connected already and the sink was never cleared |
| AcmTrace.NoConnectionWithoutSetLineCoding | src/host/acm/usb_acm.cpp:265-268 | a disconnected driver stays disconnected through any admissible sequence without a SET_LINE_CODING dispatch |
| AcmTrace.ClearingSinkDisconnects | src/host/acm/usb_acm.cpp:247-249 | whatever admissible sequence came before, clearing the sink is itself admissible and leaves the driver disconnected |
| AcmTrace.SetLineCodingCompletionConnects | src/host/acm/usb_acm.cpp:265-268 | setLineCoding followed by its completion connects the driver and, with a sink, emits SET_LINE_CODING with NULL and the byte count |
| AcmTrace.SinkSeesDisconnectedWhileConnecting | src/host/acm/usb_acm.cpp:265-268 | on a disconnected driver with a sink, the SET_LINE_CODING completion connects it, but the sink is called while the flag is still false, and INDATA or OUTDATA on the driver as the sink sees it submit nothing |
| AcmTrace.SampleDriver | src/host/acm/usb_acm.cpp:37-151 | a device with one communication interface (0x83) and a data interface (0x81, 0x01), after construction, init and sink registration, is ready, not connected, with write on 0x01 and read on 0x81 |
| AcmTrace.SampleConnects | src/host/acm/usb_acm.cpp:177-190 | on that device setLineCoding(115200, 0, 0, 8) writes 00 C2 01 00 00 00 08 after the setup packet and its completion connects and emits SET_LINE_CODING |
| AcmTrace.SampleConnected | src/host/acm/usb_acm.cpp:265-268 | the sample driver after that completion is ready, connected, with its sink, and still writes to 0x01 and reads from 0x81 |
| AcmTrace.SampleSend | src/host/acm/usb_acm.cpp:223-238 | on the sample driver once connected, sending 41 42 submits two bytes to 0x01 and its completion emits DATA_OUT with count 2 and a buffer starting 41 42 |
| AcmTrace.SampleReceive | src/host/acm/usb_acm.cpp:210-221 | on the sample driver once connected, receiving arms 64 bytes on 0x81 and a 5-byte completion emits DATA_IN with those bytes |
| UsbHost.Init | src/host/common/usb_host.cpp:84-120 | init installs, then registers (storing the library's handle in client_hdl), creates the task only when asked, leaves dev_hdl alone, and returns true |
| UsbHost.Open | src/host/common/usb_host.cpp:122-130 | open opens the address with the current client, fetches both descriptors of the opened device, stores its handle, and returns true |
| UsbHost.Close | src/host/common/usb_host.cpp:132-140 | close closes dev_hdl for client_hdl once and changes no field |
| UsbHost.Route | src/host/common/usb_host.cpp:9-29 | a new device goes to the override if and only if one is set and is opened if and only if none is; a gone device goes to the override and is then closed, or with no override causes no call; routing never changes client_hdl |
| UsbHost.RouteWithoutOverride | src/host/common/usb_host.cpp:15-27 | without override, a new device is handled exactly as open, and a gone device is never closed |
| UsbHost.RouteDevGoneWithOverride | src/host/common/usb_host.cpp:21-28 | with an override, a gone device is handed to it and then closed exactly as close does |
| UsbHost.RouteAll | src/host/common/usb_host.cpp:9-29 | routing any number of delivered events keeps client_hdl and makes only event-handling calls |
| UsbHost.Drain | src/host/common/usb_host.cpp:37-39 | client events are handled first and only with a non-NULL client_hdl; with NULL nothing happens |
| UsbHost.FreeAll | src/host/common/usb_host.cpp:46-48 | free-all is called until the first result other than NOT_FINISHED: every result before the last call's was NOT_FINISHED, and the last call's was not |
| UsbHost.FreeAllStopsAtFirstFinished | src/host/common/usb_host.cpp:46-48 | with k NOT_FINISHED results before the first other one, free-all is called exactly k + 1 times |
| UsbHost.Reinstall | src/host/common/usb_host.cpp:43-56 | NO_CLIENTS frees all devices, then uninstalls, installs and registers once each, ending with the re-registered handle |
| UsbHost.Teardown | src/host/common/usb_host.cpp:41-65 | ALL_FREE ends with deregistering the captured handle and sets client_hdl to NULL; otherwise NO_CLIENTS leaves the re-registered handle; without NO_CLIENTS nothing is freed or uninstalled |
| UsbHost.Iteration | src/host/common/usb_host.cpp:35-68 | an iteration never creates a task, calls usb_host_lib_handle_events exactly once, and delays if and only if library event handling failed |
| UsbHost.DrainsOnlyWithClient | src/host/common/usb_host.cpp:37-41 | the iteration starts with draining client events when client_hdl is set, and with library event handling (no drain at all) when it is NULL |
| UsbHost.FailedPollOnlyDelays | src/host/common/usb_host.cpp:41-68 | when library event handling fails the iteration ends with a delay, makes no free, uninstall, install or register call and no deregister call of any handle, and keeps client_hdl |
| UsbHost.PolledTeardownCalls | src/host/common/usb_host.cpp:43-64 | after a successful poll, uninstall, install and register each happen once under NO_CLIENTS and never otherwise; free-all happens as often as the retry loop needs; the captured handle is deregistered once under ALL_FREE and never otherwise |
| UsbHost.TeardownCount | src/host/common/usb_host.cpp:43-64 | how often the teardown makes each call, by flag |
| UsbHost.ClientAfterIteration | src/host/common/usb_host.cpp:37-64 | client_hdl after an iteration is NULL after a successful poll with ALL_FREE, otherwise the re-registered handle after NO_CLIENTS, otherwise unchanged |
| UsbHost.BothFlagsLoseFreshHandle | src/host/common/usb_host.cpp:37-64 | with NO_CLIENTS and ALL_FREE together, the client is re-registered, the old handle is then deregistered, and client_hdl ends NULL |
| UsbHost.ReinstallScenario | src/host/common/usb_host.cpp:43-56 | NO_CLIENTS with free-all results NOT_FINISHED, NOT_FINISHED, OK: three free-alls, one uninstall, one install and registration, ending with the new client handle |

## Left out

- Logging (`log_i`, `log_w`), `IRAM_ATTR` and interrupt-context delivery: they have no observable effect on the modelled state.
- The host library and FreeRTOS themselves. Claims, releases, allocations, submissions, install and register, open and close, descriptor fetches, and task creation and delay are recorded calls. Their results are parameters, because the code only logs error codes.
- The infinite `while (1)` of `client_async_seq_task` and the unreachable `vTaskDelete` after it: one iteration is modelled.
- UsbHost.FreeAll: requires that some free-all result is not NOT_FINISHED. The source spins forever otherwise, and a terminating function cannot model that.
- Override callbacks (`_client_event_cb`) and the event sink are recorded as calls. Their own effects are user code outside this model.
- Pointer identity and lifetime: transfer `context` pointers, descriptor pointers, and the `USBhost` back-reference.
- The byte layout of `usb_setup_packet_t` beyond its 8 bytes in USB order. The request macros are assumed as described above.
- `usb_parse_interface_descriptor` returning NULL. The source dereferences its result unchecked, so every interface is assumed present. Endpoint parses may fail and are `None`.
- AcmDriver.Init: requires both data endpoints to have been found, because the source dereferences `ep_in` and `ep_out` unchecked. Allocation failures are not modelled: the source uses the transfer regardless.
- AcmDriver.SetLineCoding: requires the control buffer (bMaxPacketSize0 bytes) to hold 15 bytes, because the source writes 15 bytes unchecked. The other control requests require 8 bytes.
- AcmDriver.OutData: requires `len` to fit the caller's data and the 64-byte write buffer, because the source copies `len` bytes without a bound.
- AcmDriver.ControlComplete and AcmDriver.ReadComplete: require the device's reply to fit its buffer, as the host library guarantees.
- That only one transfer per slot is outstanding at a time. It is the integrator's responsibility and is not checked by the driver.
- The members `itf_num` and `bNumInterfaces`, which the constructor writes (`usb_acm.cpp:67`, `usb_acm.cpp:40`) and nothing reads.
- AcmDriver.ReleaseCoversClaims: `release` bounds its loop by the `bNumInterfaces` of the active configuration, fetched again when it runs (`usb_acm.cpp:158-161`). The model takes that count as a parameter. The lemma promises every claim is released only when that count is at least the constructor's interface count, as it is when the configuration has not changed.
- `parseConfig`'s descriptor pointers (discarded by the source), `getDeviceInfo`, `getDeviceDescriptor`, `getConfigurationDescriptor`, `getConfiguration`, `clientHandle` and `deviceHandle`: pass-throughs to the library.
- The commented-out endpoint halt/clear code in the constructor.
- `configASSERT(xHandle)` in `init` (`usb_host.cpp:114`): when task creation fails it halts the program. Task creation is a recorded call whose outcome is not modelled, so the model always continues.
- AcmDriver.Dispatch: calls the sink makes back into the driver are not interleaved with `_callback`. The emission records the connected flag they would see, and `AcmTrace.SinkSeesDisconnectedWhileConnecting` applies INDATA and OUTDATA to the driver in that state.
- UsbHost.Route: the device handle the DEV_GONE message carries is not modelled, because the router ignores it and closes `dev_hdl`.
