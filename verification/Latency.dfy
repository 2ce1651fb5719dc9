/** Matching requests to responses in a captured AXI trace (ila_waves_info.py, `calc_latencies`). */
module Latency {
  import opened Lists

  /** One captured clock cycle: the three columns the script looks at. */
  datatype Sample = Sample(valid: string, ready: string, response: string)

  /** The values that mark a handshake, per snoop direction. */
  datatype Signals = Signals(reqValue: string, respValue: string)

  predicate IsRequest(s: Sample, cfg: Signals) {
    s.valid == cfg.reqValue && s.ready == "1"
  }

  predicate IsResponse(s: Sample, cfg: Signals) {
    s.response == cfg.respValue
  }

  function Requests(trace: seq<Sample>, cfg: Signals): (r: seq<nat>)
    ensures forall i | i in r :: i < |trace| && IsRequest(trace[i], cfg)
    ensures forall i: nat | i < |trace| && IsRequest(trace[i], cfg) :: i in r
    ensures Increasing(r)
  {
    Indices(seq(|trace|, i requires 0 <= i < |trace| => IsRequest(trace[i], cfg)))
  }

  function Responses(trace: seq<Sample>, cfg: Signals): (r: seq<nat>)
    ensures forall i | i in r :: i < |trace| && IsResponse(trace[i], cfg)
    ensures forall i: nat | i < |trace| && IsResponse(trace[i], cfg) :: i in r
    ensures Increasing(r)
  {
    Indices(seq(|trace|, i requires 0 <= i < |trace| => IsResponse(trace[i], cfg)))
  }

  /** No response in the cycles (lo, hi]. */
  ghost predicate Quiet(trace: seq<Sample>, cfg: Signals, lo: nat, hi: int) {
    forall j | lo < j <= hi && j < |trace| :: !IsResponse(trace[j], cfg)
  }

  /** `j` is the earliest response strictly after cycle `i`. */
  ghost predicate IsNext(trace: seq<Sample>, cfg: Signals, i: nat, j: nat) {
    && i < j < |trace| && IsResponse(trace[j], cfg)
    && Quiet(trace, cfg, i, j - 1)
  }

  /** What the latency list must be: in order, the distance from each of the first |lat| requests to its
      earliest later response; no response follows any of the remaining requests. */
  ghost predicate IsLatencies(trace: seq<Sample>, cfg: Signals, lat: seq<nat>) {
    var reqs := Requests(trace, cfg);
    && |lat| <= |reqs|
    && (forall k | 0 <= k < |lat| :: IsNext(trace, cfg, reqs[k], reqs[k] + lat[k]))
    && (forall k | |lat| <= k < |reqs| :: Quiet(trace, cfg, reqs[k], |trace|))
  }

  /** `response_indices[response_indices > req]`. */
  function Later(indices: seq<nat>, req: nat): seq<nat> {
    if indices == [] then []
    else Later(indices[..|indices| - 1], req) + (if indices[|indices| - 1] > req then [indices[|indices| - 1]] else [])
  }

  lemma {:induction false} LaterMembers(indices: seq<nat>, req: nat)
    ensures forall j | j in Later(indices, req) :: j in indices && j > req
    ensures forall j | j in indices && j > req :: j in Later(indices, req)
  {
    if indices != [] {
      var n := |indices| - 1;
      LaterMembers(indices[..n], req);
      assert indices == indices[..n] + [indices[n]];
    }
  }

  lemma FirstLater(indices: seq<nat>, req: nat)
    ensures Later(indices, req) != [] ==> Later(indices, req)[0] > req
  {
    LaterMembers(indices, req);
    if Later(indices, req) != [] { assert Later(indices, req)[0] in Later(indices, req); }
  }

  lemma {:induction false} LaterSorted(indices: seq<nat>, req: nat)
    requires Increasing(indices)
    ensures Increasing(Later(indices, req))
  {
    if indices != [] {
      var n := |indices| - 1;
      LaterSorted(indices[..n], req);
      LaterMembers(indices[..n], req);
      AppendLargest(indices, Later(indices[..n], req));
    }
  }

  lemma AppendLargest(indices: seq<nat>, init: seq<nat>)
    requires indices != [] && Increasing(indices) && Increasing(init)
    requires forall j | j in init :: j in indices[..|indices| - 1]
    ensures Increasing(init + [indices[|indices| - 1]]) && init + [] == init
  {
    var n := |indices| - 1;
    forall a | 0 <= a < |init| ensures init[a] < indices[n] {
      assert init[a] in init;
      var i :| 0 <= i < n && indices[..n][i] == init[a];
      assert indices[i] < indices[n];
    }
  }

  lemma FirstLaterIsNext(trace: seq<Sample>, cfg: Signals, req: nat)
    requires Later(Responses(trace, cfg), req) != []
    ensures IsNext(trace, cfg, req, Later(Responses(trace, cfg), req)[0])
  {
    var later := Later(Responses(trace, cfg), req);
    LaterMembers(Responses(trace, cfg), req);
    LaterSorted(Responses(trace, cfg), req);
    assert later[0] in later;
    forall j | req < j < |trace| && IsResponse(trace[j], cfg) ensures later[0] <= j {
      assert j in Responses(trace, cfg) && j in later;
      var k :| 0 <= k < |later| && later[k] == j;
    }
  }

  lemma NoLaterNoResponse(trace: seq<Sample>, cfg: Signals, req: nat)
    requires Later(Responses(trace, cfg), req) == []
    ensures Quiet(trace, cfg, req, |trace|)
  {
    LaterMembers(Responses(trace, cfg), req);
    forall j | req < j < |trace| ensures !IsResponse(trace[j], cfg) {
      assert j !in Later(Responses(trace, cfg), req);
      assert IsResponse(trace[j], cfg) ==> j in Responses(trace, cfg);
    }
  }

  /** Once a request has a later response, so had all the requests before it. */
  lemma NoGap(trace: seq<Sample>, cfg: Signals, reqs: seq<nat>, m: nat, n: nat, j: nat)
    requires m <= n < |reqs| && IsNext(trace, cfg, reqs[n], j)
    requires Increasing(reqs)
    requires forall k | m <= k < n :: Quiet(trace, cfg, reqs[k], |trace|)
    ensures m == n
  {
    assert reqs[m] <= reqs[n] < j;
  }

  /** The list is right for the first `n` requests. */
  ghost predicate MeasuredUpTo(trace: seq<Sample>, cfg: Signals, reqs: seq<nat>, lat: seq<nat>, n: nat)
    requires n <= |reqs|
  {
    && |lat| <= n
    && (forall k | 0 <= k < |lat| :: IsNext(trace, cfg, reqs[k], reqs[k] + lat[k]))
    && (forall k | |lat| <= k < n :: Quiet(trace, cfg, reqs[k], |trace|))
  }

  lemma Measure(trace: seq<Sample>, cfg: Signals, reqs: seq<nat>, lat: seq<nat>, n: nat, j: nat)
    requires n < |reqs| && MeasuredUpTo(trace, cfg, reqs, lat, n) && IsNext(trace, cfg, reqs[n], j)
    requires Increasing(reqs)
    ensures MeasuredUpTo(trace, cfg, reqs, lat + [j - reqs[n]], n + 1)
  {
    NoGap(trace, cfg, reqs, |lat|, n, j);
  }

  lemma MeasureFirst(trace: seq<Sample>, cfg: Signals, reqs: seq<nat>, lat: seq<nat>, n: nat, resps: seq<nat>,
                     after: seq<nat>, next: seq<nat>)
    requires n < |reqs| && MeasuredUpTo(trace, cfg, reqs, lat, n) && Increasing(reqs)
    requires IsResponses(trace, cfg, resps) && after == Later(resps, reqs[n]) && after != [] && after[0] >= reqs[n]
    requires next == lat + [after[0] - reqs[n]]
    ensures MeasuredUpTo(trace, cfg, reqs, next, n + 1)
  {
    FirstLaterIsNext(trace, cfg, reqs[n]);
    Measure(trace, cfg, reqs, lat, n, after[0]);
  }

  lemma MeasureNone(trace: seq<Sample>, cfg: Signals, reqs: seq<nat>, lat: seq<nat>, n: nat, resps: seq<nat>,
                    after: seq<nat>)
    requires n < |reqs| && MeasuredUpTo(trace, cfg, reqs, lat, n)
    requires IsResponses(trace, cfg, resps) && after == Later(resps, reqs[n]) && after == []
    ensures MeasuredUpTo(trace, cfg, reqs, lat, n + 1)
  {
    NoLaterNoResponse(trace, cfg, reqs[n]);
  }

  method CalcLatencies(trace: seq<Sample>, cfg: Signals) returns (lat: seq<nat>)
    ensures IsLatencies(trace, cfg, lat)
  {
    lat := MatchAll(trace, cfg, Requests(trace, cfg), Responses(trace, cfg));
  }

  ghost predicate IsResponses(trace: seq<Sample>, cfg: Signals, resps: seq<nat>) {
    resps == Responses(trace, cfg)
  }

  /** The loop over the requests. */
  method MatchAll(ghost trace: seq<Sample>, ghost cfg: Signals, reqs: seq<nat>, resps: seq<nat>) returns (lat: seq<nat>)
    requires Increasing(reqs) && IsResponses(trace, cfg, resps)
    ensures MeasuredUpTo(trace, cfg, reqs, lat, |reqs|)
  {
    lat := [];
    for n := 0 to |reqs|
      invariant MeasuredUpTo(trace, cfg, reqs, lat, n)
    {
      var req := reqs[n];
      var after := Later(resps, req);
      if |after| > 0 {
        FirstLater(resps, req);
        var next := lat + [after[0] - req];
        MeasureFirst(trace, cfg, reqs, lat, n, resps, after, next);
        lat := next;
      } else {
        MeasureNone(trace, cfg, reqs, lat, n, resps, after);
      }
    }
  }

  // ---- laws

  lemma NextUnique(trace: seq<Sample>, cfg: Signals, i: nat, j: nat, j': nat)
    requires IsNext(trace, cfg, i, j) && IsNext(trace, cfg, i, j')
    ensures j == j'
  {
  }

  /** There is only one such list. */
  lemma LatenciesUnique(trace: seq<Sample>, cfg: Signals, lat: seq<nat>, lat': seq<nat>)
    requires IsLatencies(trace, cfg, lat) && IsLatencies(trace, cfg, lat')
    ensures lat == lat'
  {
    MeasuredUnique(trace, cfg, Requests(trace, cfg), lat, lat');
  }

  lemma MeasuredUnique(trace: seq<Sample>, cfg: Signals, reqs: seq<nat>, lat: seq<nat>, lat': seq<nat>)
    requires MeasuredUpTo(trace, cfg, reqs, lat, |reqs|) && MeasuredUpTo(trace, cfg, reqs, lat', |reqs|)
    ensures lat == lat'
  {
    NotLonger(trace, cfg, reqs, lat, lat');
    NotLonger(trace, cfg, reqs, lat', lat);
    forall k | 0 <= k < |lat| ensures lat[k] == lat'[k] {
      NextUnique(trace, cfg, reqs[k], reqs[k] + lat[k], reqs[k] + lat'[k]);
    }
  }

  lemma NotLonger(trace: seq<Sample>, cfg: Signals, reqs: seq<nat>, lat: seq<nat>, lat': seq<nat>)
    requires MeasuredUpTo(trace, cfg, reqs, lat, |reqs|) && MeasuredUpTo(trace, cfg, reqs, lat', |reqs|)
    ensures |lat'| <= |lat|
  {
    forall k | 0 <= k < |lat'| ensures !Quiet(trace, cfg, reqs[k], |trace|) {
      assert IsNext(trace, cfg, reqs[k], reqs[k] + lat'[k]);
    }
    assert |lat| < |reqs| ==> Quiet(trace, cfg, reqs[|lat|], |trace|);
  }

  /** Exactly the requests before the last response are measured; a latency is at least one cycle; the
      matched responses never go back; and two requests share a response exactly when no response lies
      after the first and up to the second. */
  lemma LatencyLaws(trace: seq<Sample>, cfg: Signals, lat: seq<nat>)
    requires IsLatencies(trace, cfg, lat)
    ensures forall i: nat :: i in Requests(trace, cfg) <==>
              i < |trace| && trace[i].valid == cfg.reqValue && trace[i].ready == "1"
    ensures forall k | 0 <= k < |lat| ::
              var r := Requests(trace, cfg)[k];
              && r + lat[k] < |trace| && trace[r + lat[k]].response == cfg.respValue
              && forall j | r < j < r + lat[k] :: trace[j].response != cfg.respValue
    ensures forall k | 0 <= k < |Requests(trace, cfg)| ::
              k < |lat| <==> !Quiet(trace, cfg, Requests(trace, cfg)[k], |trace|)
    ensures forall k | 0 <= k < |lat| :: lat[k] >= 1
    ensures var reqs := Requests(trace, cfg);
            forall a, b | 0 <= a < b < |lat| ::
              && reqs[a] + lat[a] <= reqs[b] + lat[b]
              && (reqs[a] + lat[a] == reqs[b] + lat[b] <==> Quiet(trace, cfg, reqs[a], reqs[b]))
  {
    MeasuredLaws(trace, cfg, Requests(trace, cfg), lat);
    forall k | 0 <= k < |lat| ensures IsNext(trace, cfg, Requests(trace, cfg)[k], Requests(trace, cfg)[k] + lat[k]) {
    }
  }

  lemma MeasuredLaws(trace: seq<Sample>, cfg: Signals, reqs: seq<nat>, lat: seq<nat>)
    requires Increasing(reqs) && MeasuredUpTo(trace, cfg, reqs, lat, |reqs|)
    ensures forall k | 0 <= k < |reqs| :: k < |lat| <==> !Quiet(trace, cfg, reqs[k], |trace|)
    ensures forall k | 0 <= k < |lat| :: lat[k] >= 1
    ensures forall a, b | 0 <= a < b < |lat| ::
              && reqs[a] + lat[a] <= reqs[b] + lat[b]
              && (reqs[a] + lat[a] == reqs[b] + lat[b] <==> Quiet(trace, cfg, reqs[a], reqs[b]))
  {
    forall k | 0 <= k < |lat| ensures !Quiet(trace, cfg, reqs[k], |trace|) && lat[k] >= 1 {
      assert IsNext(trace, cfg, reqs[k], reqs[k] + lat[k]);
    }
    forall a, b | 0 <= a < b < |lat|
      ensures reqs[a] + lat[a] <= reqs[b] + lat[b]
      ensures reqs[a] + lat[a] == reqs[b] + lat[b] <==> Quiet(trace, cfg, reqs[a], reqs[b])
    {
      SharedResponse(trace, cfg, reqs[a], reqs[b], reqs[a] + lat[a], reqs[b] + lat[b]);
    }
  }

  lemma SharedResponse(trace: seq<Sample>, cfg: Signals, r: nat, r': nat, j: nat, j': nat)
    requires r < r' && IsNext(trace, cfg, r, j) && IsNext(trace, cfg, r', j')
    ensures j <= j'
    ensures j == j' <==> Quiet(trace, cfg, r, r')
  {
    if Quiet(trace, cfg, r, r') {
      assert !(j <= r') && j' <= j;
    }
  }
}
