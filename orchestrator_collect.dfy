/** The averaging of a series of responses and the labelled response wrapper
    of the orchestrator (orchestrator/src/collect.rs). */
module OrchestratorCollect {
  import opened Measure

  /** The accumulator the fold starts from: both optional sums present and zero. */
  function Starting(): MeasureResponse {
    MeasureResponse(Some(0), 0, 0, 0, Some(0))
  }

  /** One optional field of the fold: a missing value clears the sum for good,
      a present one is added only while the sum is still present. */
  function AddPresent(acc: Option<Duration>, val: Option<Duration>): Option<Duration> {
    match val
    case Some(dur) => if acc.Some? then Some(acc.value + dur) else acc
    case None => None
  }

  /** The closure given to `fold`. */
  function Step(init: MeasureResponse, val: MeasureResponse): MeasureResponse {
    MeasureResponse(
      AddPresent(init.dnsLookup, val.dnsLookup),
      init.tcpConnect + val.tcpConnect,
      init.httpGetSend + val.httpGetSend,
      init.ttfb + val.ttfb,
      AddPresent(init.tlsHandshake, val.tlsHandshake))
  }

  /** `items.iter().fold(init, Step)`, left to right. */
  function Fold(init: MeasureResponse, items: seq<MeasureResponse>): MeasureResponse
    decreases |items|
  {
    if items == [] then init else Fold(Step(init, items[0]), items[1..])
  }

  /** What the fold leaves in each field: the starting value plus the sum of
      the series, and for an optional field nothing as soon as either the
      accumulator or one response lacks it. */
  lemma {:induction false} FoldTotals(init: MeasureResponse, items: seq<MeasureResponse>)
    ensures forall f: Required :: Get(Fold(init, items), f) == Get(init, f) + Total(items, f)
    ensures forall f: Optional ::
              GetOpt(Fold(init, items), f) ==
              if GetOpt(init, f).Some? && AllPresent(items, f)
              then Some(GetOpt(init, f).value + PresentTotal(items, f))
              else None
    decreases |items|
  {
    if items != [] {
      var next := Step(init, items[0]);
      FoldTotals(next, items[1..]);
      forall f: Optional
        ensures AllPresent(items, f) <==> GetOpt(items[0], f).Some? && AllPresent(items[1..], f)
      {
        if GetOpt(items[0], f).Some? && AllPresent(items[1..], f) {
          forall i | 0 <= i < |items| ensures GetOpt(items[i], f).Some? {
            if i > 0 { assert items[i] == items[1..][i - 1]; }
          }
        }
      }
    }
  }

  /** Once the accumulator has lost an optional field, no later response
      brings it back. */
  lemma {:induction false} FoldKeepsNone(init: MeasureResponse, items: seq<MeasureResponse>, f: Optional)
    requires GetOpt(init, f) == None
    ensures GetOpt(Fold(init, items), f) == None
    decreases |items|
  {
    if items != [] {
      FoldKeepsNone(Step(init, items[0]), items[1..], f);
    }
  }

  /** The divisions after the fold, by `times as u32` (a division of a
      `Duration` by zero panics, hence the precondition). */
  function Divide(summed: MeasureResponse, divisor: nat): MeasureResponse
    requires divisor > 0
  {
    MeasureResponse(
      match summed.dnsLookup case Some(dur) => Some(dur / divisor) case None => None,
      summed.tcpConnect / divisor,
      summed.httpGetSend / divisor,
      summed.ttfb / divisor,
      match summed.tlsHandshake case Some(dur) => Some(dur / divisor) case None => None)
  }

  /** `average`: each required field is its sum over the series divided by
      `times as u32`; each optional field is the same quotient when every
      response has it and absent as soon as one does not. The divisor is the
      argument, never the length of the series. */
  function Average(items: seq<MeasureResponse>, times: nat): (r: MeasureResponse)
    requires AsU32(times) > 0
    ensures r.tcpConnect == Total(items, TcpConnect) / AsU32(times)
    ensures r.httpGetSend == Total(items, HttpGetSend) / AsU32(times)
    ensures r.ttfb == Total(items, Ttfb) / AsU32(times)
    ensures r.dnsLookup == OptionalMean(items, DnsLookup, AsU32(times))
    ensures r.tlsHandshake == OptionalMean(items, TlsHandshake, AsU32(times))
  {
    FoldTotals(Starting(), items);
    Divide(Fold(Starting(), items), AsU32(times))
  }

  /** A single missing DNS lookup (or TLS handshake) makes the average's
      field absent. */
  lemma NullPropagates(items: seq<MeasureResponse>, times: nat, i: nat, f: Optional)
    requires AsU32(times) > 0
    requires i < |items| && GetOpt(items[i], f) == None
    ensures GetOpt(Average(items, times), f) == None
  {
  }

  /** With every response carrying the phase, the average is present and is
      the truncated mean over `times`. */
  lemma PresentAverages(items: seq<MeasureResponse>, times: nat, f: Optional)
    requires 0 < times < 0x1_0000_0000
    requires AllPresent(items, f)
    ensures GetOpt(Average(items, times), f) == Some(PresentTotal(items, f) / times)
  {
  }

  /** An empty series averages to zero everywhere, with both optional fields
      present. */
  lemma EmptyAverage(times: nat)
    requires AsU32(times) > 0
    ensures Average([], times) == MeasureResponse(Some(0), 0, 0, 0, Some(0))
  {
  }

  /** One response averaged over one attempt is that response. */
  lemma SingleAverage(m: MeasureResponse)
    ensures Average([m], 1) == m
  {
    assert [m][1..] == [];
    assert Total([m], TcpConnect) == m.tcpConnect;
    assert Total([m], HttpGetSend) == m.httpGetSend;
    assert Total([m], Ttfb) == m.ttfb;
    assert PresentTotal([m], DnsLookup) == (match m.dnsLookup case Some(d) => d case None => 0);
    assert PresentTotal([m], TlsHandshake) == (match m.tlsHandshake case Some(d) => d case None => 0);
  }

  /** `Labeled`: a response with the label it was recorded under (`label` is
      a Dafny keyword, so the field is called `tag`). */
  datatype Labeled = Labeled(tag: string, inner: MeasureResponse)

  /** `Labeled::new(inner, label)`. */
  function New(inner: MeasureResponse, tag: string): Labeled {
    Labeled(tag, inner)
  }

  /** `Deref for Labeled`: the wrapped response. */
  function Deref(l: Labeled): MeasureResponse {
    l.inner
  }

  /** `DerefMut for Labeled`, seen as the write it allows: the wrapped
      response replaced, the label kept. */
  function DerefMut(l: Labeled, inner: MeasureResponse): Labeled {
    l.(inner := inner)
  }

  /** The wrapped responses of a series, in order. */
  function Inners(items: seq<Labeled>): seq<MeasureResponse> {
    seq(|items|, i requires 0 <= i < |items| => Deref(items[i]))
  }

  /** `Labeled::average`: the average of the wrapped responses. */
  function LabeledAverage(items: seq<Labeled>, times: nat): MeasureResponse
    requires AsU32(times) > 0
  {
    Average(Inners(items), times)
  }

  /** `new` keeps both arguments and `deref` gives back exactly the inner response. */
  lemma NewDeref(inner: MeasureResponse, tag: string)
    ensures Deref(New(inner, tag)) == inner
    ensures New(inner, tag).tag == tag
  {
  }

  /** A write through `deref_mut` is what the next `deref` reads, and leaves the label. */
  lemma DerefMutDeref(l: Labeled, inner: MeasureResponse)
    ensures Deref(DerefMut(l, inner)) == inner
    ensures DerefMut(l, inner).tag == l.tag
  {
  }

  /** Labels play no part in `Labeled::average`: series with the same
      responses average the same. */
  lemma LabeledAverageIgnoresLabels(a: seq<Labeled>, b: seq<Labeled>, times: nat)
    requires AsU32(times) > 0
    requires |a| == |b|
    requires forall i :: 0 <= i < |a| ==> a[i].inner == b[i].inner
    ensures LabeledAverage(a, times) == LabeledAverage(b, times)
  {
    assert Inners(a) == Inners(b);
  }
}
