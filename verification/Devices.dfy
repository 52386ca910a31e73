/** Devices, pins, addresses and packets, as every layer of the softswitch sees them.

    Device state, edge data and payloads are byte blobs; the application's handlers are arbitrary
    functions on them, so a handler can change only what it is given. */
module Devices {
  import opened Words
  import opened Outcomes

  type Byte = x: nat | x < 0x100
  type Blob = seq<Byte>

  datatype Address = Address(thread: Word, device: nat, pin: nat)

  datatype Packet = Packet(dest: Address, source: Address, payload: Blob)

  datatype HostMsg = HostMsg(source: Address, kind: Word, payload: Blob)

  /** One edge arriving at an input pin, with the pin it comes from. */
  datatype Binding = Binding(source: Address, properties: Blob)

  /** (device state, edge properties, edge state, payload) to (device state, edge state). */
  type ReceiveHandler = (Blob, Blob, Blob, Blob) -> (Blob, Blob)

  /** device state to (send the message?, device state, payload). */
  type SendHandler = Blob -> (bool, Blob, Blob)

  /** usesEdge: the edge has properties or state, so it has to be looked up. */
  datatype InputPin = InputPin(handler: ReceiveHandler, usesEdge: bool, sources: seq<Binding>)
  {
    function Receive(state: Blob, properties: Blob, edgeState: Blob, payload: Blob): (Blob, Blob) {
      handler(state, properties, edgeState, payload)
    }
  }

  datatype OutputPin = OutputPin(handler: SendHandler, isApp: bool, kind: Word, targets: seq<Address>)
  {
    function Send(state: Blob): (bool, Blob, Blob) {
      handler(state)
    }
  }

  /** The fixed part of a device: its type's handlers, and its own address lists. */
  datatype Device = Device(
    initHandler: Blob -> Blob,
    readyToSendHandler: Blob -> Word,
    outputs: seq<OutputPin>,
    inputs: seq<InputPin>,
    computeHandler: Blob -> Blob,
    onHardwareIdleHandler: Option<Blob -> Blob>,
    isExternal: bool)
  {
    function Initialise(state: Blob): Blob {
      initHandler(state)
    }

    function Ready(state: Blob): Word {
      readyToSendHandler(state)
    }

    function Compute(state: Blob): Blob {
      computeHandler(state)
    }

    function HardwareIdle(state: Blob): Blob {
      match onHardwareIdleHandler
      case None => state
      case Some(handler) => handler(state)
    }
  }

  /** The ready-to-send handler asks only for pins that exist. */
  ghost predicate PinsDeclared(d: Device) {
    && |d.outputs| <= 31
    && forall state: Blob :: SendBits(d.Ready(state)) < Pow2(|d.outputs|)
  }

  ghost predicate SourcesSorted(d: Device) {
    forall k | 0 <= k < |d.inputs| :: Sorted(d.inputs[k].sources)
  }

  lemma SelectedPinExists(d: Device, state: Blob)
    requires PinsDeclared(d) && WantsSend(d.Ready(state))
    ensures d.Ready(state) > 0 && LowestOne(d.Ready(state)) < |d.outputs|
  {
    var flags := d.Ready(state);
    Pow2Values();
    LowestOneOfMasked(flags, 31);
    LowestOneBelow(SendBits(flags), |d.outputs|);
  }

  // ----- finding the edge a packet arrived on -----

  /** The order in which the sources of an input pin are stored. */
  predicate Before(a: Address, b: Address) {
    if a.thread < b.thread then true
    else if a.thread > b.thread then false
    else if a.device < b.device then true
    else if a.device > b.device then false
    else a.pin < b.pin
  }

  /** Thread first, then device, then pin; and that is a strict total order. */
  lemma BeforeIsStrictTotal(a: Address, b: Address, c: Address)
    ensures Before(a, b) <==>
              || a.thread < b.thread
              || (a.thread == b.thread && a.device < b.device)
              || (a.thread == b.thread && a.device == b.device && a.pin < b.pin)
    ensures !Before(a, a)
    ensures Before(a, b) ==> !Before(b, a)
    ensures Before(a, b) && Before(b, c) ==> Before(a, c)
    ensures Before(a, b) || Before(b, a) || a == b
  {
  }

  ghost predicate Sorted(edges: seq<Binding>) {
    forall i, j | 0 <= i < j < |edges| :: Before(edges[i].source, edges[j].source)
  }

  /** The edge bound to a source, by a scan from the front. */
  function FindEdge(edges: seq<Binding>, source: Address): Option<nat> {
    if edges == [] then None
    else if edges[0].source == source then Some(0)
    else match FindEdge(edges[1..], source)
      case None => None
      case Some(k) => Some(k + 1)
  }

  lemma {:induction false} FindEdgeFinds(edges: seq<Binding>, source: Address)
    ensures match FindEdge(edges, source)
            case None => forall k | 0 <= k < |edges| :: edges[k].source != source
            case Some(k) => k < |edges| && edges[k].source == source
  {
    if edges != [] && edges[0].source != source {
      FindEdgeFinds(edges[1..], source);
      forall k | 0 <= k < |edges| && FindEdge(edges, source).None? ensures edges[k].source != source {
        if k > 0 { assert edges[k] == edges[1..][k - 1]; }
      }
    }
  }

  lemma FindEdgeIs(edges: seq<Binding>, source: Address, k: nat)
    requires Sorted(edges) && k < |edges| && edges[k].source == source
    ensures FindEdge(edges, source) == Some(k)
  {
    FindEdgeFinds(edges, source);
    assert FindEdge(edges, source).Some?;
    var found := FindEdge(edges, source).value;
    assert found < k ==> Before(edges[found].source, edges[k].source);
    assert k < found ==> Before(edges[k].source, edges[found].source);
  }

  /** The first edge not before the source, halving the remaining range. */
  method LowerBound(edges: seq<Binding>, source: Address) returns (first: nat)
    requires Sorted(edges)
    ensures first <= |edges|
    ensures forall k | 0 <= k < first :: Before(edges[k].source, source)
    ensures forall k | first <= k < |edges| :: !Before(edges[k].source, source)
  {
    first := 0;
    var len := |edges|;
    while len > 0
      invariant 0 <= len && first + len <= |edges|
      invariant forall k | 0 <= k < first :: Before(edges[k].source, source)
      invariant forall k | first + len <= k < |edges| :: !Before(edges[k].source, source)
    {
      var half := len / 2;
      var middle := first + half;
      if Before(edges[middle].source, source) {
        forall k | 0 <= k < middle ensures Before(edges[k].source, source) {
          BeforeIsStrictTotal(edges[k].source, edges[middle].source, source);
        }
        first := middle + 1;
        len := len - half - 1;
      } else {
        forall k | middle < k < |edges| ensures !Before(edges[k].source, source) {
          BeforeIsStrictTotal(edges[middle].source, edges[k].source, source);
        }
        len := half;
      }
    }
  }

  /** The binary search and the equality test together agree with the scan. */
  method LookUpEdge(edges: seq<Binding>, source: Address) returns (found: Option<nat>)
    requires Sorted(edges)
    ensures found == FindEdge(edges, source)
    ensures found.Some? <==> exists k :: 0 <= k < |edges| && edges[k].source == source
  {
    var edge := LowerBound(edges, source);
    FindEdgeFinds(edges, source);
    if edge == |edges| || edges[edge].source != source {
      forall k | 0 <= k < |edges| ensures edges[k].source != source {
        if k < edge {
          BeforeIsStrictTotal(edges[k].source, source, source);
        } else if k > edge {
          BeforeIsStrictTotal(edges[edge].source, edges[k].source, source);
        }
      }
      found := None;
    } else {
      FindEdgeIs(edges, source, edge);
      found := Some(edge);
    }
  }
}
