/**
 * Sequences of calls to the limiter, as the request handler issues them one
 * request at a time, and what the code as written guarantees over them.
 */
module RateLimitTraces {
  import opened Wrappers
  import opened RateLimit

  /** One incoming request: the client's address and the clock reading. */
  datatype Request = Request(ip: Ip, now: int)

  /** The verdicts of a run, in request order, and the final dictionary. */
  datatype Trace = Trace(decisions: seq<Decision>, counts: Counts)

  /** The addresses that occur in `reqs`. */
  function Ips(reqs: seq<Request>): (s: set<Ip>)
    ensures forall i :: 0 <= i < |reqs| ==> reqs[i].ip in s
    ensures forall x :: x in s ==> exists i :: 0 <= i < |reqs| && reqs[i].ip == x
  {
    if reqs == [] then {} else {reqs[0].ip} + Ips(reqs[1..])
  }

  /** Feeds `reqs` to the limiter in order, starting from `counts`. */
  function Run(counts: Counts, config: Config, reqs: seq<Request>): (t: Trace)
    ensures |t.decisions| == |reqs|
    ensures counts.Keys <= t.counts.Keys
    decreases |reqs|
  {
    if reqs == [] then Trace([], counts)
    else
      var o := Step(counts, config, reqs[0].ip, reqs[0].now);
      var rest := Run(o.counts, config, reqs[1..]);
      Trace([o.decision] + rest.decisions, rest.counts)
  }

  /** A run adds exactly the requesting addresses to the keys, and no other key. */
  lemma {:induction false} RunKeys(counts: Counts, config: Config, reqs: seq<Request>)
    ensures Run(counts, config, reqs).counts.Keys == counts.Keys + Ips(reqs)
    decreases |reqs|
  {
    if reqs != [] {
      var o := Step(counts, config, reqs[0].ip, reqs[0].now);
      RunKeys(o.counts, config, reqs[1..]);
    }
  }

  /** Running `a` and then `b` is running `a + b`: verdicts are joined, state is threaded. */
  lemma {:induction false} RunAppend(counts: Counts, config: Config, a: seq<Request>, b: seq<Request>)
    ensures Run(counts, config, a + b).decisions
            == Run(counts, config, a).decisions + Run(Run(counts, config, a).counts, config, b).decisions
    ensures Run(counts, config, a + b).counts == Run(Run(counts, config, a).counts, config, b).counts
    decreases |a|
  {
    if a == [] {
      assert a + b == b;
    } else {
      var ab := a + b;
      assert ab[0] == a[0] && ab[1..] == a[1..] + b;
      var o := Step(counts, config, a[0].ip, a[0].now);
      RunAppend(o.counts, config, a[1..], b);
      var ra := Run(o.counts, config, a[1..]);
      var rb := Run(ra.counts, config, b);
      assert Run(counts, config, a).decisions == [o.decision] + ra.decisions;
      assert Run(counts, config, ab).decisions == [o.decision] + (ra.decisions + rb.decisions);
    }
  }

  /** Over any run every stored count stays 1. */
  lemma {:induction false} RunKeepsCountsOne(counts: Counts, config: Config, reqs: seq<Request>)
    requires AllCountsOne(counts)
    ensures AllCountsOne(Run(counts, config, reqs).counts)
    decreases |reqs|
  {
    if reqs != [] {
      StepKeepsCountsOne(counts, config, reqs[0].ip, reqs[0].now);
      RunKeepsCountsOne(Step(counts, config, reqs[0].ip, reqs[0].now).counts, config, reqs[1..]);
    }
  }

  /** Because nothing increments a count, a limit of 2 or more admits every request. */
  lemma {:induction false} RunAdmitsAllWhenLimitAtLeastTwo(counts: Counts, config: Config, reqs: seq<Request>)
    requires AllCountsOne(counts) && config.limit >= 2
    ensures forall i :: 0 <= i < |reqs| ==> Run(counts, config, reqs).decisions[i] == Admitted
    decreases |reqs|
  {
    if reqs != [] {
      var o := Step(counts, config, reqs[0].ip, reqs[0].now);
      StepKeepsCountsOne(counts, config, reqs[0].ip, reqs[0].now);
      RunAdmitsAllWhenLimitAtLeastTwo(o.counts, config, reqs[1..]);
      var ds := Run(counts, config, reqs).decisions;
      assert ds == [o.decision] + Run(o.counts, config, reqs[1..]).decisions;
      forall i | 0 <= i < |reqs| ensures ds[i] == Admitted {
        if i > 0 { assert ds[i] == Run(o.counts, config, reqs[1..]).decisions[i - 1]; }
      }
    }
  }

  /** From the empty dictionary the service starts with, any rejection means the limit is at most 1. */
  lemma RejectionNeedsLimitAtMostOne(config: Config, reqs: seq<Request>, i: int)
    requires 0 <= i < |reqs| && Run(map[], config, reqs).decisions[i].exceeded
    ensures config.limit <= 1
  {
    if config.limit >= 2 {
      RunAdmitsAllWhenLimitAtLeastTwo(map[], config, reqs);
    }
  }

  /**
   * With a limit of at most 1 the limiter does throttle: a second request from the
   * same address while the first one's window is open is refused with the limit.
   */
  lemma LimitOneRejectsRepeat(config: Config, ip: Ip, t0: int, t1: int)
    requires config.limit <= 1 && t1 - t0 < config.window
    ensures Run(map[], config, [Request(ip, t0), Request(ip, t1)]).decisions
            == [Admitted, Rejected(config.limit)]
  {
    var reqs := [Request(ip, t0), Request(ip, t1)];
    var o := Step(map[], config, ip, t0);
    assert reqs[1..] == [Request(ip, t1)];
    assert Run(o.counts, config, reqs[1..]).decisions == [Rejected(config.limit)];
  }

  /**
   * A limit of 3 and four requests inside one ten-second window: the code admits all
   * four (a counting limiter would refuse the fourth).
   */
  lemma FourRequestsWithLimitThreeAllAdmitted()
    ensures Run(map[], Config(3, 10), [Request("a", 0), Request("a", 1), Request("a", 2), Request("a", 3)]).decisions
            == [Admitted, Admitted, Admitted, Admitted]
  {
    var reqs := [Request("a", 0), Request("a", 1), Request("a", 2), Request("a", 3)];
    RunAdmitsAllWhenLimitAtLeastTwo(map[], Config(3, 10), reqs);
  }

  /** The clock readings of `reqs` never go backwards. */
  ghost predicate ClockNonDecreasing(reqs: seq<Request>)
  {
    forall i, j :: 0 <= i <= j < |reqs| ==> reqs[i].now <= reqs[j].now
  }

  /** No stored timestamp lies after `t`. */
  ghost predicate StampsNotAfter(counts: Counts, t: int)
  {
    forall k :: k in counts ==> counts[k].timestamp <= t
  }

  /**
   * With a clock that never goes backwards (and no stored stamp ahead of it), each
   * address's timestamp is non-decreasing over a run.
   */
  lemma {:induction false} RunTimestampsMonotoneUnderClock(counts: Counts, config: Config, reqs: seq<Request>)
    requires ClockNonDecreasing(reqs)
    requires reqs != [] ==> StampsNotAfter(counts, reqs[0].now)
    ensures forall k :: k in counts ==> counts[k].timestamp <= Run(counts, config, reqs).counts[k].timestamp
    decreases |reqs|
  {
    if reqs != [] {
      var c' := Step(counts, config, reqs[0].ip, reqs[0].now).counts;
      assert StampsNotAfter(c', reqs[0].now);
      if |reqs| > 1 {
        assert reqs[0].now <= reqs[1].now;
      }
      RunTimestampsMonotoneUnderClock(c', config, reqs[1..]);
    }
  }

  /** With a positive window, each address's timestamp is non-decreasing over any run. */
  lemma {:induction false} RunTimestampsMonotone(counts: Counts, config: Config, reqs: seq<Request>)
    requires config.window > 0
    ensures forall k :: k in counts ==> counts[k].timestamp <= Run(counts, config, reqs).counts[k].timestamp
    decreases |reqs|
  {
    if reqs != [] {
      var c' := Step(counts, config, reqs[0].ip, reqs[0].now).counts;
      forall k | k in counts ensures counts[k].timestamp <= c'[k].timestamp {
        StepTimestampForward(counts, config, reqs[0].ip, reqs[0].now, k);
      }
      RunTimestampsMonotone(c', config, reqs[1..]);
    }
  }

  /** The requests of `reqs` that come from `ip`, in order. */
  function Only(reqs: seq<Request>, ip: Ip): (s: seq<Request>)
    ensures forall i :: 0 <= i < |s| ==> s[i].ip == ip
  {
    if reqs == [] then []
    else (if reqs[0].ip == ip then [reqs[0]] else []) + Only(reqs[1..], ip)
  }

  /** The verdicts `ds` of `reqs` that answer requests from `ip`, in order. */
  function DecisionsFor(reqs: seq<Request>, ds: seq<Decision>, ip: Ip): seq<Decision>
    requires |ds| == |reqs|
  {
    if reqs == [] then []
    else (if reqs[0].ip == ip then [ds[0]] else []) + DecisionsFor(reqs[1..], ds[1..], ip)
  }

  /** Two dictionaries hold the same entry (or none) for `ip`. */
  predicate AgreeAt(m1: Counts, m2: Counts, ip: Ip)
  {
    (ip in m1 <==> ip in m2) && (ip in m1 ==> m1[ip] == m2[ip])
  }

  /**
   * Requests from a single address only look at that address's entry: two
   * dictionaries that agree on it give the same verdicts and still agree afterwards.
   */
  lemma {:induction false} RunDependsOnlyOnOwnEntry(m1: Counts, m2: Counts, config: Config, reqs: seq<Request>, ip: Ip)
    requires AgreeAt(m1, m2, ip)
    requires forall i :: 0 <= i < |reqs| ==> reqs[i].ip == ip
    ensures Run(m1, config, reqs).decisions == Run(m2, config, reqs).decisions
    ensures AgreeAt(Run(m1, config, reqs).counts, Run(m2, config, reqs).counts, ip)
    decreases |reqs|
  {
    if reqs != [] {
      var o1 := Step(m1, config, ip, reqs[0].now);
      var o2 := Step(m2, config, ip, reqs[0].now);
      assert o1.decision == o2.decision;
      RunDependsOnlyOnOwnEntry(o1.counts, o2.counts, config, reqs[1..], ip);
    }
  }

  /**
   * Addresses do not affect each other: in any interleaving, the verdicts for `ip`
   * and its final entry are those of running its own requests alone.
   */
  lemma {:induction false} RunIsolatesAddresses(counts: Counts, config: Config, reqs: seq<Request>, ip: Ip)
    ensures DecisionsFor(reqs, Run(counts, config, reqs).decisions, ip)
            == Run(counts, config, Only(reqs, ip)).decisions
    ensures AgreeAt(Run(counts, config, reqs).counts, Run(counts, config, Only(reqs, ip)).counts, ip)
    decreases |reqs|
  {
    if reqs != [] {
      var r := reqs[0];
      var o := Step(counts, config, r.ip, r.now);
      var full := Run(counts, config, reqs);
      var rest := Run(o.counts, config, reqs[1..]);
      assert full.decisions[1..] == rest.decisions;
      RunIsolatesAddresses(o.counts, config, reqs[1..], ip);
      if r.ip == ip {
        var only := Only(reqs, ip);
        assert only == [r] + Only(reqs[1..], ip);
        assert only[0] == r && only[1..] == Only(reqs[1..], ip);
      } else {
        assert Only(reqs, ip) == Only(reqs[1..], ip);
        assert AgreeAt(o.counts, counts, ip);
        RunDependsOnlyOnOwnEntry(o.counts, counts, config, Only(reqs[1..], ip), ip);
      }
    }
  }
}
