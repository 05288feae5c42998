/** The descriptor scan performed by the CDC-ACM device constructor: walk the interfaces of the
    active configuration in order, record the notification endpoint of a communication interface
    and the IN/OUT endpoints of a data interface, claim each such interface, and give up at the
    first one whose endpoint count is wrong. */
module AcmScan {
  import opened UsbTypes

  /** bInterfaceClass of a CDC communication interface. */
  const CLASS_COMM: byte := 0x02
  /** bInterfaceClass of a CDC data interface. */
  const CLASS_DATA: byte := 0x0A
  /** bInterfaceClass of a vendor-specific interface, accepted as a data interface. */
  const CLASS_VENDOR: byte := 0xFF

  /** One interface descriptor (alternate setting 0) as the scanner sees it: its class and, for
      each of its bNumEndpoints endpoints, the address the by-index parser found, or None where
      the parser returned no descriptor. */
  datatype Interface = Interface(cls: byte, eps: seq<Option<byte>>)

  /** What the constructor leaves behind: the three endpoint pointers (None while unset), the
      interface indices it asked the host library to claim, in the order asked, and whether it
      returned early. */
  datatype Scan = Scan(epInt: Option<byte>, epIn: Option<byte>, epOut: Option<byte>,
                       claimed: seq<nat>, aborted: bool)

  const Unscanned: Scan := Scan(None, None, None, [], false)

  predicate IsComm(intf: Interface)
  {
    intf.cls == CLASS_COMM
  }

  predicate IsData(intf: Interface)
  {
    intf.cls == CLASS_DATA || intf.cls == CLASS_VENDOR
  }

  /** The classes the scanner acts on; every other class is passed over. */
  predicate Relevant(intf: Interface)
  {
    IsComm(intf) || IsData(intf)
  }

  /** An interface whose endpoint count makes the constructor return. */
  predicate Misshapen(intf: Interface)
  {
    || (IsComm(intf) && |intf.eps| != 1)
    || (IsData(intf) && |intf.eps| != 2)
  }

  /** No interface before index k is misshapen, so the scan reaches index k. */
  predicate ReachedUpTo(intfs: seq<Interface>, k: nat)
    requires k <= |intfs|
  {
    forall j :: 0 <= j < k ==> !Misshapen(intfs[j])
  }

  predicate Increasing(xs: seq<nat>)
  {
    forall i, j :: 0 <= i < j < |xs| ==> xs[i] < xs[j]
  }

  /** One endpoint of a data interface: IN addresses go to epIn, OUT addresses to epOut, and a
      failed parse touches neither. */
  function SortEndpoint(s: Scan, ep: Option<byte>): Scan
  {
    match ep
    case None => s
    case Some(a) => if IsInAddress(a) then s.(epIn := ep) else s.(epOut := ep)
  }

  /** The loop body for interface number n. */
  function ScanInterface(s: Scan, intf: Interface, n: nat): (r: Scan)
    requires !s.aborted
    ensures (s.epIn.Some? ==> IsInAddress(s.epIn.value)) ==> (r.epIn.Some? ==> IsInAddress(r.epIn.value))
    ensures (s.epOut.Some? ==> !IsInAddress(s.epOut.value)) ==> (r.epOut.Some? ==> !IsInAddress(r.epOut.value))
    ensures r.claimed == s.claimed || (Relevant(intf) && r.claimed == s.claimed + [n])
    ensures r.aborted ==> Misshapen(intf)
  {
    if IsComm(intf) then
      if |intf.eps| != 1 then s.(aborted := true)
      else s.(epInt := intf.eps[0], claimed := s.claimed + [n])
    else if IsData(intf) then
      if |intf.eps| != 2 then s.(aborted := true)
      else SortEndpoint(SortEndpoint(s, intf.eps[0]), intf.eps[1]).(claimed := s.claimed + [n])
    else s
  }

  /** The constructor's scan over interfaces 0 .. bNumInterfaces-1, written as a fold that
      processes the last interface after all earlier ones. */
  function ScanConfig(intfs: seq<Interface>): (r: Scan)
    ensures r.epIn.Some? ==> IsInAddress(r.epIn.value)
    ensures r.epOut.Some? ==> !IsInAddress(r.epOut.value)
    ensures forall k :: 0 <= k < |r.claimed| ==> r.claimed[k] < |intfs| && Relevant(intfs[r.claimed[k]])
    ensures Increasing(r.claimed)
    ensures r.aborted ==> exists k :: 0 <= k < |intfs| && Misshapen(intfs[k])
  {
    if |intfs| == 0 then Unscanned
    else
      var s := ScanConfig(intfs[..|intfs| - 1]);
      if s.aborted then s else ScanInterface(s, intfs[|intfs| - 1], |intfs| - 1)
  }

  // ---------------------------------------------------------------------------------------
  // Reference definitions of the scan's results

  /** The endpoint entries of every data interface, in descriptor order. */
  function DataEndpoints(intfs: seq<Interface>): seq<Option<byte>>
  {
    if |intfs| == 0 then []
    else
      var last := intfs[|intfs| - 1];
      DataEndpoints(intfs[..|intfs| - 1]) + (if IsData(last) then last.eps else [])
  }

  /** The last parsed address in eps whose direction bit says IN (dirIn) or OUT (!dirIn). */
  function LastOf(eps: seq<Option<byte>>, dirIn: bool): Option<byte>
  {
    if |eps| == 0 then None
    else
      var e := eps[|eps| - 1];
      if e.Some? && IsInAddress(e.value) == dirIn then e
      else LastOf(eps[..|eps| - 1], dirIn)
  }

  /** The first endpoint entry of the last communication interface, None if there is none. */
  function LastCommEndpoint(intfs: seq<Interface>): Option<byte>
  {
    if |intfs| == 0 then None
    else
      var last := intfs[|intfs| - 1];
      if IsComm(last) && |last.eps| > 0 then last.eps[0]
      else LastCommEndpoint(intfs[..|intfs| - 1])
  }

  // ---------------------------------------------------------------------------------------
  // Properties of the scan

  /** The constructor returns early exactly when some interface has the wrong endpoint count. */
  lemma {:induction false} AbortedIff(intfs: seq<Interface>)
    ensures ScanConfig(intfs).aborted <==> exists k :: 0 <= k < |intfs| && Misshapen(intfs[k])
  {
    if |intfs| > 0 {
      var init := intfs[..|intfs| - 1];
      AbortedIff(init);
      if exists k :: 0 <= k < |intfs| && Misshapen(intfs[k]) {
        var k :| 0 <= k < |intfs| && Misshapen(intfs[k]);
        if k < |init| {
          assert init[k] == intfs[k];
        }
      }
    }
  }

  /** Once the scan of a prefix has returned early, no later interface changes anything. */
  lemma {:induction false} AbortedPrefixIsFinal(intfs: seq<Interface>, m: nat)
    requires m <= |intfs|
    requires ScanConfig(intfs[..m]).aborted
    ensures ScanConfig(intfs) == ScanConfig(intfs[..m])
    decreases |intfs|
  {
    if m < |intfs| {
      var init := intfs[..|intfs| - 1];
      assert init[..m] == intfs[..m];
      AbortedPrefixIsFinal(init, m);
    } else {
      assert intfs[..m] == intfs;
    }
  }

  /** The scan stops at the first misshapen interface: it keeps every claim and endpoint the
      earlier interfaces produced, and neither examines nor claims any later interface. */
  lemma StopsAtFirstMisshapen(intfs: seq<Interface>, k: nat)
    requires k < |intfs| && Misshapen(intfs[k]) && ReachedUpTo(intfs, k)
    ensures ScanConfig(intfs) == ScanConfig(intfs[..k]).(aborted := true)
  {
    ReachedNotAborted(intfs, k);
    MisshapenAborts(intfs, k);
    AbortedPrefixIsFinal(intfs, k + 1);
  }

  /** The scan of the interfaces before a reached index has not returned early. */
  lemma ReachedNotAborted(intfs: seq<Interface>, k: nat)
    requires k <= |intfs| && ReachedUpTo(intfs, k)
    ensures !ScanConfig(intfs[..k]).aborted
  {
    var pre := intfs[..k];
    AbortedIff(pre);
    forall j | 0 <= j < |pre| ensures !Misshapen(pre[j]) {
      assert pre[j] == intfs[j];
    }
  }

  /** A misshapen interface reached by the scan sets the abort flag and changes nothing else. */
  lemma MisshapenAborts(intfs: seq<Interface>, k: nat)
    requires k < |intfs| && !ScanConfig(intfs[..k]).aborted && Misshapen(intfs[k])
    ensures ScanConfig(intfs[..k + 1]) == ScanConfig(intfs[..k]).(aborted := true)
  {
    var upto := intfs[..k + 1];
    assert upto[..k] == intfs[..k] && upto[k] == intfs[k];
  }

  /** An interface of any other class is neither claimed nor assigned. */
  lemma OtherClassSkipped(intfs: seq<Interface>, intf: Interface)
    requires !Relevant(intf)
    ensures ScanConfig(intfs + [intf]) == ScanConfig(intfs)
  {
    assert (intfs + [intf])[..|intfs|] == intfs;
  }

  /** Reaching index k only depends on the interfaces before k. */
  lemma ReachedInPrefix(intfs: seq<Interface>, m: nat, k: nat)
    requires k <= m <= |intfs|
    ensures ReachedUpTo(intfs[..m], k) <==> ReachedUpTo(intfs, k)
  {
    assert forall j :: 0 <= j < k ==> intfs[..m][j] == intfs[j];
  }

  /** The claimed indices are exactly the communication and data interfaces the scan reaches
      with a correct endpoint count (and they are in increasing order, by ScanConfig's
      contract). */
  lemma {:induction false} ClaimedExactly(intfs: seq<Interface>)
    ensures forall i :: i in ScanConfig(intfs).claimed <==>
      0 <= i < |intfs| && Relevant(intfs[i]) && ReachedUpTo(intfs, i + 1)
  {
    if |intfs| > 0 {
      var n := |intfs| - 1;
      var init := intfs[..n];
      var s := ScanConfig(init);
      ClaimedExactly(init);
      AbortedIff(init);
      ReachedInPrefix(intfs, n, n);
      assert s.aborted <==> !ReachedUpTo(init, n);
      forall i
        ensures i in ScanConfig(intfs).claimed <==>
          0 <= i < |intfs| && Relevant(intfs[i]) && ReachedUpTo(intfs, i + 1)
      {
        if 0 <= i < n {
          ReachedInPrefix(intfs, n, i + 1);
          assert init[i] == intfs[i];
        }
      }
    }
  }

  lemma LastOfAppend(xs: seq<Option<byte>>, e: Option<byte>, dirIn: bool)
    ensures LastOf(xs + [e], dirIn) ==
      (if e.Some? && IsInAddress(e.value) == dirIn then e else LastOf(xs, dirIn))
  {
    assert (xs + [e])[..|xs|] == xs;
  }

  /** When the scan reaches every interface, epIn and epOut are the last IN and the last OUT
      address among the data interfaces' parsed endpoints (a later data interface overwrites an
      earlier one), and epInt is the endpoint of the last communication interface. */
  lemma {:induction false} EndpointsAreLastSeen(intfs: seq<Interface>)
    requires ReachedUpTo(intfs, |intfs|)
    ensures ScanConfig(intfs).epIn == LastOf(DataEndpoints(intfs), true)
    ensures ScanConfig(intfs).epOut == LastOf(DataEndpoints(intfs), false)
    ensures ScanConfig(intfs).epInt == LastCommEndpoint(intfs)
  {
    if |intfs| > 0 {
      var n := |intfs| - 1;
      var init := intfs[..n];
      var last := intfs[n];
      assert ReachedUpTo(init, n) by {
        forall j | 0 <= j < n ensures !Misshapen(init[j]) {
          assert init[j] == intfs[j];
        }
      }
      EndpointsAreLastSeen(init);
      AbortedIff(init);
      assert !Misshapen(last);
      var d := DataEndpoints(init);
      if IsData(last) {
        assert last.eps == [last.eps[0], last.eps[1]];
        assert d + last.eps == (d + [last.eps[0]]) + [last.eps[1]];
        LastOfAppend(d + [last.eps[0]], last.eps[1], true);
        LastOfAppend(d + [last.eps[0]], last.eps[1], false);
        LastOfAppend(d, last.eps[0], true);
        LastOfAppend(d, last.eps[0], false);
      } else {
        assert d + [] == d;
      }
    }
  }

  /** The endpoints of any configuration are those of the prefix the scan reaches. */
  lemma EndpointsOfReachedPrefix(intfs: seq<Interface>, k: nat)
    requires k < |intfs| && Misshapen(intfs[k]) && ReachedUpTo(intfs, k)
    ensures ScanConfig(intfs).epIn == LastOf(DataEndpoints(intfs[..k]), true)
    ensures ScanConfig(intfs).epOut == LastOf(DataEndpoints(intfs[..k]), false)
    ensures ScanConfig(intfs).epInt == LastCommEndpoint(intfs[..k])
  {
    StopsAtFirstMisshapen(intfs, k);
    var pre := intfs[..k];
    assert ReachedUpTo(pre, k) by {
      forall j | 0 <= j < k ensures !Misshapen(pre[j]) {
        assert pre[j] == intfs[j];
      }
    }
    EndpointsAreLastSeen(pre);
  }

  /** A communication interface with one endpoint and a data interface with one IN and one OUT
      endpoint are classified correctly whichever interface comes first and whichever endpoint
      the data interface lists first. */
  lemma ClassifiesCommAndData(e: byte, i: byte, o: byte, commFirst: bool, inFirst: bool)
    requires IsInAddress(i) && !IsInAddress(o)
    ensures
      var comm := Interface(CLASS_COMM, [Some(e)]);
      var data := Interface(CLASS_DATA, if inFirst then [Some(i), Some(o)] else [Some(o), Some(i)]);
      var r := ScanConfig(if commFirst then [comm, data] else [data, comm]);
      && r.epInt == Some(e) && r.epIn == Some(i) && r.epOut == Some(o)
      && r.claimed == [0, 1] && !r.aborted
  {
    var comm := Interface(CLASS_COMM, [Some(e)]);
    var data := Interface(CLASS_DATA, if inFirst then [Some(i), Some(o)] else [Some(o), Some(i)]);
    var intfs := if commFirst then [comm, data] else [data, comm];
    assert [intfs[0]][..0] == [];
    assert ScanConfig([]) == Unscanned;
    var s0 := ScanConfig([intfs[0]]);
    assert s0 == ScanInterface(Unscanned, intfs[0], 0);
    assert intfs[..1] == [intfs[0]];
    assert ScanConfig(intfs) == ScanInterface(s0, intfs[1], 1);
  }

  /** A data interface declaring three endpoints leaves both data endpoints unset and stops the
      scan, even when a well-formed communication interface precedes it. */
  lemma ThreeEndpointDataInterfaceAborts(e: byte, eps: seq<Option<byte>>)
    requires |eps| == 3
    ensures
      var r := ScanConfig([Interface(CLASS_COMM, [Some(e)]), Interface(CLASS_DATA, eps)]);
      && r.aborted && r.epIn == None && r.epOut == None && r.epInt == Some(e) && r.claimed == [0]
  {
    var intfs := [Interface(CLASS_COMM, [Some(e)]), Interface(CLASS_DATA, eps)];
    assert [intfs[0]][..0] == [];
    assert ScanConfig([]) == Unscanned;
    var s0 := ScanConfig([intfs[0]]);
    assert s0 == Unscanned.(epInt := Some(e), claimed := [0]);
    assert intfs[..1] == [intfs[0]];
    assert ScanConfig(intfs) == s0.(aborted := true);
  }
}
