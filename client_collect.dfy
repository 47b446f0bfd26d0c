/** The client's own averaging of a series of responses
    (client/src/collect.rs). Its responses carry an `ip` string beside the
    five durations. */
module ClientCollect {
  import opened Measure
  import OrchestratorCollect

  /** The response shape the client's `average` builds: the five durations
      of a `MeasureResponse` and the peer address. */
  datatype ClientResponse = ClientResponse(
    dnsLookup: Option<Duration>,
    tcpConnect: Duration,
    httpGetSend: Duration,
    ttfb: Duration,
    tlsHandshake: Option<Duration>,
    ip: string)

  /** The five durations of a client response. */
  function Durations(c: ClientResponse): MeasureResponse {
    MeasureResponse(c.dnsLookup, c.tcpConnect, c.httpGetSend, c.ttfb, c.tlsHandshake)
  }

  /** The durations of every response of a series, in order. */
  function AllDurations(items: seq<ClientResponse>): seq<MeasureResponse> {
    seq(|items|, i requires 0 <= i < |items| => Durations(items[i]))
  }

  /** The accumulator the fold starts from; the address starts empty. */
  function Starting(): ClientResponse {
    ClientResponse(Some(0), 0, 0, 0, Some(0), "")
  }

  /** The closure given to `fold`: an absent optional duration clears the
      running sum, a present one is added while the sum is present; the
      address is never touched. */
  function Step(init: ClientResponse, val: ClientResponse): ClientResponse {
    init.(
      dnsLookup := match val.dnsLookup
                   case Some(dur) => if init.dnsLookup.Some? then Some(init.dnsLookup.value + dur) else init.dnsLookup
                   case None => None,
      tlsHandshake := match val.tlsHandshake
                      case Some(dur) => if init.tlsHandshake.Some? then Some(init.tlsHandshake.value + dur) else init.tlsHandshake
                      case None => None,
      tcpConnect := init.tcpConnect + val.tcpConnect,
      httpGetSend := init.httpGetSend + val.httpGetSend,
      ttfb := init.ttfb + val.ttfb)
  }

  /** `items.fold(init, Step)`, left to right. */
  function Fold(init: ClientResponse, items: seq<ClientResponse>): ClientResponse
    decreases |items|
  {
    if items == [] then init else Fold(Step(init, items[0]), items[1..])
  }

  /** What the fold leaves: the starting durations plus the sums of the
      series (an optional one only while accumulator and every response
      have it), and the starting address. */
  lemma {:induction false} FoldTotals(init: ClientResponse, items: seq<ClientResponse>)
    ensures Fold(init, items).ip == init.ip
    ensures forall f: Required ::
              Get(Durations(Fold(init, items)), f) == Get(Durations(init), f) + Total(AllDurations(items), f)
    ensures forall f: Optional ::
              GetOpt(Durations(Fold(init, items)), f) ==
              if GetOpt(Durations(init), f).Some? && AllPresent(AllDurations(items), f)
              then Some(GetOpt(Durations(init), f).value + PresentTotal(AllDurations(items), f))
              else None
    decreases |items|
  {
    if items != [] {
      var ms := AllDurations(items);
      assert ms[0] == Durations(items[0]) && ms[1..] == AllDurations(items[1..]);
      FoldTotals(Step(init, items[0]), items[1..]);
      forall f: Optional
        ensures AllPresent(ms, f) <==> GetOpt(ms[0], f).Some? && AllPresent(ms[1..], f)
      {
        if GetOpt(ms[0], f).Some? && AllPresent(ms[1..], f) {
          forall i | 0 <= i < |ms| ensures GetOpt(ms[i], f).Some? {
            if i > 0 { assert ms[i] == ms[1..][i - 1]; }
          }
        }
      }
    }
  }

  /** Once the accumulator has lost an optional duration, no later response
      brings it back. */
  lemma {:induction false} FoldKeepsNone(init: ClientResponse, items: seq<ClientResponse>, f: Optional)
    requires GetOpt(Durations(init), f) == None
    ensures GetOpt(Durations(Fold(init, items)), f) == None
    decreases |items|
  {
    if items != [] {
      FoldKeepsNone(Step(init, items[0]), items[1..], f);
    }
  }

  /** An optional duration divided, left absent when absent. */
  function DivideOpt(o: Option<Duration>, divisor: nat): Option<Duration>
    requires divisor > 0
  {
    match o
    case Some(dur) => Some(dur / divisor)
    case None => None
  }

  /** The divisions after the fold, by `times as u32`; the address is kept. */
  function Divide(summed: ClientResponse, divisor: nat): ClientResponse
    requires divisor > 0
  {
    ClientResponse(
      DivideOpt(summed.dnsLookup, divisor),
      summed.tcpConnect / divisor,
      summed.httpGetSend / divisor,
      summed.ttfb / divisor,
      DivideOpt(summed.tlsHandshake, divisor),
      summed.ip)
  }

  /** `average`: the address is empty, each required duration is its sum
      over the series divided by `times as u32`, and each optional one is
      that quotient when every response has it and absent otherwise. */
  function Average(items: seq<ClientResponse>, times: nat): (r: ClientResponse)
    requires AsU32(times) > 0
    ensures r.ip == ""
    ensures r.tcpConnect == Total(AllDurations(items), TcpConnect) / AsU32(times)
    ensures r.httpGetSend == Total(AllDurations(items), HttpGetSend) / AsU32(times)
    ensures r.ttfb == Total(AllDurations(items), Ttfb) / AsU32(times)
    ensures r.dnsLookup == OptionalMean(AllDurations(items), DnsLookup, AsU32(times))
    ensures r.tlsHandshake == OptionalMean(AllDurations(items), TlsHandshake, AsU32(times))
  {
    FoldTotals(Starting(), items);
    Divide(Fold(Starting(), items), AsU32(times))
  }

  /** A single response without the phase makes the average's field absent. */
  lemma NullPropagates(items: seq<ClientResponse>, times: nat, i: nat, f: Optional)
    requires AsU32(times) > 0
    requires i < |items| && GetOpt(Durations(items[i]), f) == None
    ensures GetOpt(Durations(Average(items, times)), f) == None
  {
    assert AllDurations(items)[i] == Durations(items[i]);
  }

  /** An empty series averages to zero everywhere, with both optional
      durations present and the address empty. */
  lemma EmptyAverage(times: nat)
    requires AsU32(times) > 0
    ensures Average([], times) == ClientResponse(Some(0), 0, 0, 0, Some(0), "")
  {
  }

  /** One response over one attempt keeps its five durations and loses its
      address. */
  lemma SingleAverage(c: ClientResponse)
    ensures Durations(Average([c], 1)) == Durations(c)
    ensures Average([c], 1).ip == ""
  {
    var ms := AllDurations([c]);
    assert ms == [Durations(c)];
    assert ms[1..] == [];
    assert Total(ms, TcpConnect) == c.tcpConnect;
    assert Total(ms, HttpGetSend) == c.httpGetSend;
    assert Total(ms, Ttfb) == c.ttfb;
    assert PresentTotal(ms, DnsLookup) == (match c.dnsLookup case Some(d) => d case None => 0);
    assert PresentTotal(ms, TlsHandshake) == (match c.tlsHandshake case Some(d) => d case None => 0);
  }

  /** The client's and the orchestrator's `average` agree on every duration
      when given the same durations and the same `times`. */
  lemma AgreesWithOrchestrator(items: seq<ClientResponse>, ms: seq<MeasureResponse>, times: nat)
    requires AsU32(times) > 0
    requires |ms| == |items|
    requires forall i :: 0 <= i < |items| ==> Durations(items[i]) == ms[i]
    ensures Durations(Average(items, times)) == OrchestratorCollect.Average(ms, times)
  {
    assert AllDurations(items) == ms;
  }
}
