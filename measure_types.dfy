/** The timing record a measure agent returns for one probe, and the reference
    definitions of what averaging a series of them means. */
module Measure {

  datatype Option<+T> = None | Some(value: T)

  /** A `std::time::Duration`, counted in whole nanoseconds. */
  type Duration = nat

  /** `MeasureResponse`: the five phases of one HTTP request. DNS lookup and
      TLS handshake are absent when the phase did not happen. */
  datatype MeasureResponse = MeasureResponse(
    dnsLookup: Option<Duration>,
    tcpConnect: Duration,
    httpGetSend: Duration,
    ttfb: Duration,
    tlsHandshake: Option<Duration>)

  /** The always-present durations of a response. */
  datatype Required = TcpConnect | HttpGetSend | Ttfb

  /** The optional durations of a response. */
  datatype Optional = DnsLookup | TlsHandshake

  function Get(m: MeasureResponse, f: Required): Duration {
    match f
    case TcpConnect => m.tcpConnect
    case HttpGetSend => m.httpGetSend
    case Ttfb => m.ttfb
  }

  function GetOpt(m: MeasureResponse, f: Optional): Option<Duration> {
    match f
    case DnsLookup => m.dnsLookup
    case TlsHandshake => m.tlsHandshake
  }

  /** Sum of a required duration over a series. */
  function Total(items: seq<MeasureResponse>, f: Required): nat {
    if items == [] then 0 else Get(items[0], f) + Total(items[1..], f)
  }

  /** Every response of the series measured the optional phase `f`. */
  predicate AllPresent(items: seq<MeasureResponse>, f: Optional) {
    forall i :: 0 <= i < |items| ==> GetOpt(items[i], f).Some?
  }

  /** Sum of the optional duration `f` over the responses that have it. */
  function PresentTotal(items: seq<MeasureResponse>, f: Optional): nat {
    if items == [] then 0
    else (match GetOpt(items[0], f) case Some(d) => d case None => 0) + PresentTotal(items[1..], f)
  }

  /** The reference mean of an optional phase: present exactly when every
      response has it, and then the truncated quotient of its sum. */
  function OptionalMean(items: seq<MeasureResponse>, f: Optional, divisor: nat): Option<Duration>
    requires divisor > 0
  {
    if AllPresent(items, f) then Some(PresentTotal(items, f) / divisor) else None
  }

  /** Rust's `times as u32` on a `usize`: only the low 32 bits are kept. */
  function AsU32(n: nat): (r: nat)
    ensures r < 0x1_0000_0000
    ensures n < 0x1_0000_0000 ==> r == n
    ensures (n - r) % 0x1_0000_0000 == 0
  {
    n % 0x1_0000_0000
  }
}
