/** The client's measurement run (client/src/main.rs): `times` probes of one
    agent, either one after another (fail-fast) or all at once ("flood",
    failures dropped), then optionally their average. The network is
    abstracted away: the result of attempt `i` is the given `outcomes[i]`. */
module ClientMain {
  import opened Measure
  import OrchestratorCollect

  type Labeled = OrchestratorCollect.Labeled

  /** Why a probe failed: a network, join or response-decoding error. */
  datatype ProbeError = ProbeError(message: string)

  /** The result of one probe attempt. */
  datatype Outcome = Success(response: MeasureResponse) | Failure(error: ProbeError)

  /** The command-line settings `run` acts on. */
  datatype Args = Args(average: bool, times: nat, flood: bool)

  /** How `run` ends: normally, with the error of the first failed
      sequential probe, or in the panic of dividing by `times as u32 == 0`. */
  datatype Status = Finished | Aborted(error: ProbeError) | DivideByZeroPanic

  // ---------------------------------------------------------------------
  // `usize::to_string`, the label of a sequential entry

  function DigitChar(d: nat): char
    requires d < 10
  {
    ('0' as int + d) as char
  }

  function DigitValue(c: char): nat {
    if '0' <= c <= '9' then c as int - '0' as int else 0
  }

  /** The decimal notation of `n`, without leading zeros. */
  function NatToString(n: nat): string
    decreases n
  {
    if n < 10 then [DigitChar(n)] else NatToString(n / 10) + [DigitChar(n % 10)]
  }

  /** The number a string of decimal digits denotes. */
  function ParseDecimal(s: string): nat
    decreases |s|
  {
    if s == [] then 0 else ParseDecimal(s[..|s| - 1]) * 10 + DigitValue(s[|s| - 1])
  }

  /** Reading back the decimal notation of `n` gives `n`. */
  lemma {:induction false} ParseNatToString(n: nat)
    ensures ParseDecimal(NatToString(n)) == n
    decreases n
  {
    if n >= 10 {
      ParseNatToString(n / 10);
      var s := NatToString(n);
      assert s[..|s| - 1] == NatToString(n / 10);
    }
  }

  /** The decimal notation is a non-empty string of digits that starts with
      `0` only for zero. */
  lemma {:induction false} NatToStringDigits(n: nat)
    ensures |NatToString(n)| > 0
    ensures forall i :: 0 <= i < |NatToString(n)| ==> '0' <= NatToString(n)[i] <= '9'
    ensures NatToString(n)[0] == '0' <==> n == 0
    decreases n
  {
    if n >= 10 {
      NatToStringDigits(n / 10);
      var s, p := NatToString(n), NatToString(n / 10);
      assert s == p + [DigitChar(n % 10)];
      assert s[0] == p[0];
    }
  }

  /** Distinct attempts get distinct labels, and none of them is "flood" or
      "average". */
  lemma NumberLabelsDistinct(i: nat, j: nat)
    ensures NatToString(i) == NatToString(j) <==> i == j
    ensures NatToString(i) != "flood" && NatToString(i) != "average"
  {
    ParseNatToString(i);
    ParseNatToString(j);
    NatToStringDigits(i);
  }

  // ---------------------------------------------------------------------
  // Reference definitions over the sequence of outcomes

  /** The successful responses, in submission order. */
  function Successes(os: seq<Outcome>): seq<MeasureResponse> {
    if os == [] then []
    else Successes(os[..|os| - 1]) + (match os[|os| - 1] case Success(r) => [r] case Failure(_) => [])
  }

  /** The number of failed attempts. */
  function Failures(os: seq<Outcome>): nat {
    if os == [] then 0
    else Failures(os[..|os| - 1]) + (if os[|os| - 1].Failure? then 1 else 0)
  }

  predicate AllSucceed(os: seq<Outcome>) {
    forall i :: 0 <= i < |os| ==> os[i].Success?
  }

  /** The index of the first failed attempt, if any. */
  function FirstFailure(os: seq<Outcome>): (r: Option<nat>)
    ensures r == None <==> AllSucceed(os)
    ensures r.Some? ==> r.value < |os| && os[r.value].Failure? && AllSucceed(os[..r.value])
  {
    if os == [] then None
    else if os[0].Failure? then Some(0)
    else
      var rest := FirstFailure(os[1..]);
      assert forall i :: 1 <= i < |os| ==> os[i] == os[1..][i - 1];
      match rest
      case None => None
      case Some(k) =>
        assert os[..k + 1][1..] == os[1..][..k];
        Some(k + 1)
  }

  /** How many attempts sequential mode completes before its first failure. */
  function Completed(os: seq<Outcome>): (n: nat)
    ensures n <= |os|
    ensures AllSucceed(os[..n])
    ensures n < |os| ==> os[n].Failure?
  {
    match FirstFailure(os)
    case None => assert os[..|os|] == os; |os|
    case Some(k) => k
  }

  /** Responses labelled with their attempt number (sequential mode). */
  function Numbered(rs: seq<MeasureResponse>): seq<Labeled> {
    seq(|rs|, i requires 0 <= i < |rs| => OrchestratorCollect.New(rs[i], NatToString(i)))
  }

  /** Responses all given the same label (flood mode). */
  function Tagged(rs: seq<MeasureResponse>, tag: string): seq<Labeled> {
    seq(|rs|, i requires 0 <= i < |rs| => OrchestratorCollect.New(rs[i], tag))
  }

  /** The state `run` leaves: the entries of `results`, how it ended and
      how many probes it issued. */
  datatype RunState = RunState(results: seq<Labeled>, status: Status, issued: nat)

  /** Lines 82-122: the probes of either mode appended to `before`. */
  function Dispatch(before: seq<Labeled>, args: Args, os: seq<Outcome>): RunState
    requires |os| == args.times
  {
    if args.flood then
      RunState(before + Tagged(Successes(os), "flood"), Finished, args.times)
    else
      var n := Completed(os);
      if n < |os| then RunState(before + Numbered(Successes(os[..n])), Aborted(os[n].error), n + 1)
      else RunState(before + Numbered(Successes(os)), Finished, args.times)
  }

  /** The whole of `run`: dispatch, then, unless it aborted, the optional
      average of everything in `results`, over `times`, appended last. */
  function RunSpec(before: seq<Labeled>, args: Args, os: seq<Outcome>): RunState
    requires |os| == args.times
  {
    var d := Dispatch(before, args, os);
    if d.status != Finished || !args.average then d
    else if AsU32(args.times) == 0 then d.(status := DivideByZeroPanic)
    else
      var summed := OrchestratorCollect.LabeledAverage(d.results, args.times);
      d.(results := d.results + [OrchestratorCollect.New(summed, "average")])
  }

  // ---------------------------------------------------------------------
  // Lemmas about the reference definitions

  /** Appending one outcome extends the successes and failures accordingly. */
  lemma SuccessesSnoc(os: seq<Outcome>, i: nat)
    requires i < |os|
    ensures Successes(os[..i + 1]) == Successes(os[..i]) + (match os[i] case Success(r) => [r] case Failure(_) => [])
    ensures Failures(os[..i + 1]) == Failures(os[..i]) + (if os[i].Failure? then 1 else 0)
  {
    assert os[..i + 1][..i] == os[..i];
  }

  /** Every attempt is either kept or counted as failed: flood mode keeps
      `times` minus the number of failures. */
  lemma {:induction false} SuccessCount(os: seq<Outcome>)
    ensures |Successes(os)| == |os| - Failures(os)
    ensures Failures(os) <= |os|
  {
    if os != [] {
      SuccessCount(os[..|os| - 1]);
    }
  }

  /** Submission order: a successful attempt `i` sits in the filtered series
      right after the successes of the attempts before it. */
  lemma {:induction false} SuccessesInOrder(os: seq<Outcome>, i: nat)
    requires i < |os| && os[i].Success?
    ensures |Successes(os[..i])| < |Successes(os)|
    ensures Successes(os)[|Successes(os[..i])|] == os[i].response
    decreases |os|
  {
    var n := |os| - 1;
    assert os[..n + 1] == os;
    SuccessesSnoc(os, n);
    if i < n {
      SuccessesInOrder(os[..n], i);
      assert os[..n][..i] == os[..i];
    }
  }

  /** The attempts before a failure `k` all succeeded exactly when `k` is
      where sequential mode stops; with no failure at all it completes every
      attempt. */
  lemma CompletedAt(os: seq<Outcome>, k: nat)
    requires k <= |os| && AllSucceed(os[..k])
    requires k < |os| ==> os[k].Failure?
    ensures Completed(os) == k
  {
  }

  /** With no failure, the successes are all the responses, in order. */
  lemma {:induction false} AllSuccesses(os: seq<Outcome>)
    requires AllSucceed(os)
    ensures |Successes(os)| == |os|
    ensures forall i :: 0 <= i < |os| ==> Successes(os)[i] == os[i].response
  {
    if os != [] {
      var n := |os| - 1;
      AllSuccesses(os[..n]);
      assert Successes(os) == Successes(os[..n]) + [os[n].response];
    }
  }

  /** Sequential mode with every attempt successful: exactly `times` probe
      entries, entry `i` being response `i` labelled `i.to_string()`. */
  lemma SequentialAllSucceed(before: seq<Labeled>, args: Args, os: seq<Outcome>)
    requires |os| == args.times && !args.flood && AllSucceed(os)
    ensures Dispatch(before, args, os).status == Finished
    ensures Dispatch(before, args, os).issued == args.times
    ensures |Dispatch(before, args, os).results| == |before| + args.times
    ensures forall i :: 0 <= i < args.times ==>
              Dispatch(before, args, os).results[|before| + i] == OrchestratorCollect.New(os[i].response, NatToString(i))
  {
    AllSuccesses(os);
  }

  /** Sequential mode stops at the first failure `k`: the run returns that
      error, issues no attempt after `k`, keeps only the `k` earlier entries
      and appends no average. */
  lemma SequentialFailFast(before: seq<Labeled>, args: Args, os: seq<Outcome>, k: nat)
    requires |os| == args.times && !args.flood
    requires k < |os| && os[k].Failure? && AllSucceed(os[..k])
    ensures RunSpec(before, args, os).status == Aborted(os[k].error)
    ensures RunSpec(before, args, os).issued == k + 1
    ensures |RunSpec(before, args, os).results| == |before| + k
    ensures RunSpec(before, args, os).results[..|before|] == before
    ensures forall j :: 0 <= j < k ==>
              RunSpec(before, args, os).results[|before| + j] == OrchestratorCollect.New(os[j].response, NatToString(j))
  {
    CompletedAt(os, k);
    AllSuccesses(os[..k]);
  }

  /** Flood mode never fails on a probe: the entries are the successes in
      submission order, all labelled "flood", `times` minus the failures
      of them. */
  lemma FloodKeepsSuccesses(before: seq<Labeled>, args: Args, os: seq<Outcome>)
    requires |os| == args.times && args.flood
    ensures Dispatch(before, args, os).status == Finished
    ensures Dispatch(before, args, os).issued == args.times
    ensures |Dispatch(before, args, os).results| == |before| + args.times - Failures(os)
    ensures forall i :: 0 <= i < args.times && os[i].Success? ==>
              && |before| + |Successes(os[..i])| < |Dispatch(before, args, os).results|
              && Dispatch(before, args, os).results[|before| + |Successes(os[..i])|]
                 == OrchestratorCollect.New(os[i].response, "flood")
  {
    SuccessCount(os);
    forall i | 0 <= i < args.times && os[i].Success?
      ensures |Successes(os[..i])| < |Successes(os)|
      ensures Successes(os)[|Successes(os[..i])|] == os[i].response
    {
      SuccessesInOrder(os, i);
    }
  }

  /** With `average` set and the probes done, exactly one entry is appended,
      last, labelled "average": the average of all earlier entries with
      divisor `times as u32`, however many entries flood mode dropped. */
  lemma AverageAppendedLast(before: seq<Labeled>, args: Args, os: seq<Outcome>)
    requires |os| == args.times && args.average && AsU32(args.times) > 0
    requires Dispatch(before, args, os).status == Finished
    ensures var d := Dispatch(before, args, os).results;
            var r := RunSpec(before, args, os).results;
            && |r| == |d| + 1 && r[..|d|] == d
            && r[|d|].tag == "average"
            && r[|d|].inner.tcpConnect == Total(OrchestratorCollect.Inners(d), TcpConnect) / AsU32(args.times)
            && r[|d|].inner.httpGetSend == Total(OrchestratorCollect.Inners(d), HttpGetSend) / AsU32(args.times)
            && r[|d|].inner.ttfb == Total(OrchestratorCollect.Inners(d), Ttfb) / AsU32(args.times)
            && r[|d|].inner.dnsLookup == OptionalMean(OrchestratorCollect.Inners(d), DnsLookup, AsU32(args.times))
            && r[|d|].inner.tlsHandshake == OptionalMean(OrchestratorCollect.Inners(d), TlsHandshake, AsU32(args.times))
  {
  }

  /** With `average` unset nothing is appended: every new entry is a probe,
      labelled "flood" or with its attempt number, never "average". */
  lemma NoAverageOnlyProbes(before: seq<Labeled>, args: Args, os: seq<Outcome>)
    requires |os| == args.times && !args.average
    ensures RunSpec(before, args, os) == Dispatch(before, args, os)
    ensures var r := RunSpec(before, args, os).results;
            && |before| <= |r| && r[..|before|] == before
            && forall i :: |before| <= i < |r| ==>
                 r[i].tag != "average" && (args.flood <==> r[i].tag == "flood")
  {
    var d := Dispatch(before, args, os);
    if args.flood {
      var tags := Tagged(Successes(os), "flood");
      assert d.results == before + tags;
      forall i | |before| <= i < |d.results|
        ensures d.results[i].tag == "flood"
      {
        assert d.results[i] == tags[i - |before|];
      }
    } else {
      var n := Completed(os);
      var tags := Numbered(Successes(os[..n]));
      assert n == |os| ==> os[..n] == os;
      assert d.results == before + tags;
      forall i | |before| <= i < |d.results|
        ensures d.results[i].tag != "average" && d.results[i].tag != "flood"
      {
        assert d.results[i] == tags[i - |before|];
        NumberLabelsDistinct(i - |before|, 0);
      }
    }
  }

  // ---------------------------------------------------------------------
  // The run itself

  /** `Runtime`: the client's collected, labelled results. */
  class Runtime {
    var results: seq<Labeled>

    /** `Runtime::new(times)`: no results yet (the capacity hint has no
        visible effect). */
    constructor (times: nat)
      ensures results == []
    {
      results := [];
    }

    /** Lines 83-109: every attempt dispatched, the successes appended in
        submission order under the label "flood", the failures dropped. */
    method Flood(outcomes: seq<Outcome>)
      modifies this
      ensures results == old(results) + Tagged(Successes(outcomes), "flood")
    {
      var i := 0;
      while i < |outcomes|
        invariant i <= |outcomes|
        invariant results == old(results) + Tagged(Successes(outcomes[..i]), "flood")
      {
        SuccessesSnoc(outcomes, i);
        match outcomes[i] {
          case Success(res) =>
            results := results + [OrchestratorCollect.New(res, "flood")];
          case Failure(_) =>
        }
        i := i + 1;
      }
      assert outcomes[..i] == outcomes;
    }

    /** Lines 111-121: attempts in order, each success appended under its
        attempt number, stopping at the first failure; `n` is the number of
        successes appended before it (all of them when none fails). */
    method Sequential(outcomes: seq<Outcome>) returns (n: nat)
      modifies this
      ensures n == Completed(outcomes)
      ensures results == old(results) + Numbered(Successes(outcomes[..n]))
    {
      n := 0;
      while n < |outcomes|
        invariant n <= |outcomes|
        invariant AllSucceed(outcomes[..n])
        invariant results == old(results) + Numbered(Successes(outcomes[..n]))
      {
        SuccessesSnoc(outcomes, n);
        AllSuccesses(outcomes[..n]);
        match outcomes[n] {
          case Failure(_) =>
            CompletedAt(outcomes, n);
            return;
          case Success(res) =>
            results := results + [OrchestratorCollect.New(res, NatToString(n))];
        }
        assert outcomes[..n + 1] == outcomes[..n] + [outcomes[n]];
        n := n + 1;
      }
      CompletedAt(outcomes, n);
    }

    /** `Runtime::run` on the outcomes of the `times` attempts. */
    method Run(args: Args, outcomes: seq<Outcome>) returns (status: Status, issued: nat)
      requires |outcomes| == args.times
      modifies this
      ensures RunState(results, status, issued) == RunSpec(old(results), args, outcomes)
    {
      issued := args.times;
      if args.flood {
        Flood(outcomes);
      } else {
        var n := Sequential(outcomes);
        if n < |outcomes| {
          return Aborted(outcomes[n].error), n + 1;
        }
        assert outcomes[..n] == outcomes;
      }
      if args.average {
        if AsU32(args.times) == 0 {
          return DivideByZeroPanic, issued;
        }
        var summed := OrchestratorCollect.LabeledAverage(results, args.times);
        results := results + [OrchestratorCollect.New(summed, "average")];
      }
      status := Finished;
    }
  }
}
