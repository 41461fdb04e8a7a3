# Per-IP rate limiter of the geoid-height service

The service answers `GET /get_height?lat=…&lon=…` by scraping a geoid calculator.
Before doing anything else, it asks a per-client fixed-window rate limiter whether to
serve the request. This project models that limiter: the module-level dictionary
`request_counts`, which maps each client IP to a `(count, timestamp)` pair, and the
function `rate_limit_exceeded`, which reads and updates it. The function returns
`(False, None)` to admit a request and `(True, REQUEST_LIMIT)` to refuse it.

- `wrappers.dfy`: `Option`, which stands for Python's `None` / value in the returned pair.
- `rate_limit.dfy` (module `RateLimit`):
  - the entry, configuration and decision datatypes;
  - `Step`, one call of the limiter on values, with its contract;
  - the class `Limiter`. It holds the dictionary as a `map` field. Its method `Check` updates that field in place, as the source does. It is proved equal to `Step`.
- `rate_limit_traces.dfy` (module `RateLimitTraces`): `Run` feeds a sequence of requests through `Step`. Inductive lemmas state what holds over any sequence of calls.

The model follows the code as written. Every write stores a count of 1 (`main.py:34`,
`main.py:36`). The in-window, under-limit path leaves the entry as it is. Nothing ever
increments a count. So the limiter refuses only when `REQUEST_LIMIT <= 1`
(`RejectionNeedsLimitAtMostOne`). With a limit of 2 or more, every request is admitted
(`RunAdmitsAllWhenLimitAtLeastTwo`).

A counting limiter was evidently meant. The dictionary is named `request_counts`, and
the comment at main.py:13 says it stores request counts. The comment at main.py:33
speaks of resetting the count. The 429 message at main.py:102 promises "Only {limit}
request per every 10seconds". But the code never increments a count, and the model
follows the code. `FourRequestsWithLimitThreeAllAdmitted` shows that with a limit of 3,
four requests from one IP inside one window are all admitted.

Flask may run handlers on several threads, and the code takes no lock. The model is
sequential.

## Model

| member | source | states |
|---|---|---|
| `RateLimit.Step` | main.py:24-37 | The result is always exactly `(False, None)` or `(True, REQUEST_LIMIT)`. It rejects iff the IP is known, `now - timestamp < window` (strict) and `count >= limit`. The keys afterwards are the old keys plus the caller's IP. Every other IP's entry is unchanged. The caller's entry is unchanged inside the window (no increment). Otherwise it is reset to `(1, now)`, including at the boundary `now - timestamp == window`. |
| `RateLimit.StepKeepsCountsOne` | main.py:34-36 | One call preserves "every stored count is 1", because both writes store 1. |
| `RateLimit.StepTimestampForward` | main.py:29-34 | With a positive window, one call either leaves an entry as it is or moves its timestamp strictly forward. Only the caller's entry can change, and only when `now - timestamp >= window`. |
| `RateLimit.Limiter.constructor` | main.py:14-18 | The limiter starts with an empty dictionary and the given `REQUEST_LIMIT` / `REQUEST_WINDOW`, and satisfies the all-counts-one invariant. |
| `RateLimit.Limiter.Check` | main.py:24-37 | The in-place update of `request_counts` returns the verdict and leaves the dictionary that `Step` describes. It keeps the all-counts-one invariant. `exceeded` pairs with `Some(limit)` and admission pairs with `None`. With `limit >= 2` it never rejects. |
| `RateLimitTraces.Run` | main.py:97-99 | Handling a sequence of requests gives one verdict per request. No key is ever removed. |
| `RateLimitTraces.RunKeys` | main.py:27-36 | The final keys of a run are exactly the initial keys plus the IPs that made requests. No other key is added. |
| `RateLimitTraces.RunAppend` | main.py:97-99 | Running two request sequences one after the other equals running them joined: the verdicts are concatenated, and the second run starts from the first run's final dictionary. With the timestamp lemmas this gives monotonicity between any two intermediate states. |
| `RateLimitTraces.RunKeepsCountsOne` | main.py:34-36 | Over any sequence of calls, every stored count stays 1. |
| `RateLimitTraces.RunAdmitsAllWhenLimitAtLeastTwo` | main.py:29-37 | If all counts are 1 and `REQUEST_LIMIT >= 2`, every verdict of every call sequence is `(False, None)`. |
| `RateLimitTraces.RejectionNeedsLimitAtMostOne` | main.py:30-31 | From the empty start-up dictionary, a `(True, …)` verdict anywhere in a run implies `REQUEST_LIMIT <= 1`. |
| `RateLimitTraces.LimitOneRejectsRepeat` | main.py:27-31 | With `REQUEST_LIMIT <= 1`, a second request from the same IP with `now - first < window` is refused with `(True, REQUEST_LIMIT)` after the first was admitted. |
| `RateLimitTraces.FourRequestsWithLimitThreeAllAdmitted` | main.py:29-37 | With limit 3 and window 10, four requests from one IP at times 0 to 3 are all admitted. |
| `RateLimitTraces.RunTimestampsMonotoneUnderClock` | main.py:34-36 | With a non-decreasing clock and no stored stamp ahead of it, each IP's stored timestamp is non-decreasing over a run. |
| `RateLimitTraces.RunTimestampsMonotone` | main.py:29-34 | With a positive window, each IP's stored timestamp is non-decreasing over any run, whatever the clock does. |
| `RateLimitTraces.RunDependsOnlyOnOwnEntry` | main.py:27-36 | Calls for one IP read and write only that IP's entry. Two dictionaries that agree on it give the same verdicts and still agree on it afterwards. |
| `RateLimitTraces.RunIsolatesAddresses` | main.py:27-36 | In any interleaving of IPs, the verdicts for one IP and its final entry equal those from running that IP's requests alone. |

## Left out

- `get_elevation` (main.py:40-94) is left out. It is an HTTP request to a third-party page with HTML parsing, regular expressions and float conversion: network I/O and foreign libraries.
- The Flask route `get_height` (main.py:96-116) and its JSON responses are framework glue. The limiter is consulted before the coordinates are parsed (line 99 before line 105), so malformed requests also pass through it. `Run` models that sequence of calls only.
- The 429 message text (main.py:102) says "10seconds" whatever `REQUEST_WINDOW` is. It is a string and is not modelled.
- The `dotenv` / `os.getenv` loading of `REQUEST_LIMIT` and `REQUEST_WINDOW` (main.py:9, 17-18) is left out. They are constructor parameters. Their positivity is not required, since the code does not depend on it; `StepTimestampForward` and `RunTimestampsMonotone` assume a positive window.
- `time.time()` (main.py:26) returns a float in seconds. The model takes the clock reading as an integer argument `now`, so sub-second float arithmetic is not modelled.
- Concurrency is left out. Flask may run handlers on several threads, and the dictionary has no lock. The model is sequential, so lost updates between threads are not captured.
- `request.remote_addr` (main.py:22) can be `None`. The model's `Ip` is a string. The limiter uses the key only for dictionary lookup, so nothing it does depends on this.
- `get_remote_address` and `app.run` (main.py:20-22, 118-119) read the request context and start the server: I/O.
- The dictionary never loses an entry (no eviction). The model has no removal operation because the source has none.
