/**
 * The per-IP fixed-window rate limiter of the height service: the dictionary
 * `request_counts` that maps each client address to a `(count, timestamp)` pair,
 * and `rate_limit_exceeded`, which consults and updates it once per request.
 *
 * The model follows the code as written: every write stores a count of 1 and no
 * path increments the count, so the limiter can only reject when the configured
 * limit is at most 1 (see RateLimitTraces for the consequences over many calls).
 */
module RateLimit {
  import opened Wrappers

  /** A client identity, as the web framework reports the remote address. */
  type Ip = string

  /** The `(count, timestamp)` pair stored per address. */
  datatype Entry = Entry(count: int, timestamp: int)

  /** The contents of `request_counts`. */
  type Counts = map<Ip, Entry>

  /** `REQUEST_LIMIT` and `REQUEST_WINDOW`, read once at start-up. */
  datatype Config = Config(limit: int, window: int)

  /** The pair `(exceeded, limit)` that `rate_limit_exceeded` returns. */
  datatype Decision = Decision(exceeded: bool, limit: Option<int>)

  /** `(False, None)`: the request may proceed. */
  const Admitted := Decision(false, None)

  /** `(True, REQUEST_LIMIT)`: the request is refused. */
  function Rejected(limit: int): Decision
  {
    Decision(true, Some(limit))
  }

  /** One call's verdict together with the dictionary it leaves behind. */
  datatype Outcome = Outcome(decision: Decision, counts: Counts)

  /** The stored window has not yet run out at time `now` (the test is strict). */
  predicate InWindow(e: Entry, config: Config, now: int)
  {
    now - e.timestamp < config.window
  }

  /** Every stored count is 1, which is all the code ever writes. */
  ghost predicate AllCountsOne(counts: Counts)
  {
    forall k :: k in counts ==> counts[k].count == 1
  }

  /**
   * One call of the limiter for address `ip` at time `now`, on the value level:
   * the branches of the source in the same order, including the fall-through of
   * the in-window, under-limit case to the final `(False, None)`.
   */
  function Step(counts: Counts, config: Config, ip: Ip, now: int): (r: Outcome)
    // The verdict is one of the two pairs the source returns, never a mixture.
    ensures r.decision == Admitted || r.decision == Rejected(config.limit)
    // It rejects exactly for a known address, inside its window, at or over the limit.
    ensures r.decision.exceeded <==>
              ip in counts && InWindow(counts[ip], config, now) && counts[ip].count >= config.limit
    // The only key that can appear is the caller's address.
    ensures r.counts.Keys == counts.Keys + {ip}
    // Every other address keeps its entry.
    ensures forall k :: k in counts && k != ip ==> r.counts[k] == counts[k]
    // Inside the window the entry is left as it was (no increment); otherwise it
    // starts afresh at (1, now), the boundary `now - timestamp == window` included.
    ensures r.counts[ip] ==
              if ip in counts && InWindow(counts[ip], config, now) then counts[ip] else Entry(1, now)
  {
    if ip in counts then
      var e := counts[ip];
      if InWindow(e, config, now) then
        if e.count >= config.limit then Outcome(Rejected(config.limit), counts)
        else Outcome(Admitted, counts)
      else
        Outcome(Admitted, counts[ip := Entry(1, now)])
    else
      Outcome(Admitted, counts[ip := Entry(1, now)])
  }

  /** A single call keeps every stored count at 1. */
  lemma StepKeepsCountsOne(counts: Counts, config: Config, ip: Ip, now: int)
    requires AllCountsOne(counts)
    ensures AllCountsOne(Step(counts, config, ip, now).counts)
  {
  }

  /**
   * With a positive window an entry's timestamp only moves forward, whatever the
   * clock does: a reset happens only once `now` is at least `window` past it.
   */
  lemma StepTimestampForward(counts: Counts, config: Config, ip: Ip, now: int, k: Ip)
    requires config.window > 0 && k in counts
    ensures counts[k].timestamp < Step(counts, config, ip, now).counts[k].timestamp
            || Step(counts, config, ip, now).counts[k] == counts[k]
    ensures Step(counts, config, ip, now).counts[k] != counts[k] ==>
              k == ip && now - counts[k].timestamp >= config.window
  {
  }

  /**
   * The limiter object: the module-level dictionary `request_counts` as a field
   * that `Check` reassigns, and the two configuration constants.
   */
  class Limiter {
    const config: Config
    var requestCounts: Counts

    /** The invariant the code keeps: every stored count is 1. */
    ghost predicate Valid()
      reads this
    {
      AllCountsOne(requestCounts)
    }

    /** The service starts with an empty dictionary. */
    constructor (limit: int, window: int)
      ensures config == Config(limit, window)
      ensures requestCounts == map[]
      ensures Valid()
    {
      config := Config(limit, window);
      requestCounts := map[];
    }

    /** `rate_limit_exceeded(ip_address)` with the clock reading passed as `now`. */
    method Check(ip: Ip, now: int) returns (exceeded: bool, limit: Option<int>)
      requires Valid()
      modifies this
      ensures Valid()
      ensures Outcome(Decision(exceeded, limit), requestCounts) == Step(old(requestCounts), config, ip, now)
      ensures exceeded ==> limit == Some(config.limit)
      ensures !exceeded ==> limit == None
      // Since counts are always 1, a limit of 2 or more never rejects.
      ensures config.limit >= 2 ==> !exceeded
    {
      if ip in requestCounts {
        var e := requestCounts[ip];
        if now - e.timestamp < config.window {
          if e.count >= config.limit {
            return true, Some(config.limit);
          }
        } else {
          requestCounts := requestCounts[ip := Entry(1, now)];
        }
      } else {
        requestCounts := requestCounts[ip := Entry(1, now)];
      }
      return false, None;
    }
  }
}
