/**
 Fixed windows of requests: one row per key, changed by one atomic statement
 (apps/auth/src/auth-rate-limit.ts). Times are in milliseconds.
 */
module RateLimit {
  import opened Wrappers

  type Key = string

  datatype Row = Row(count: nat, start: int)

  const WINDOW := 60_000

  const MAX_REQUESTS := 5

  /** The upsert of consumeRateLimitKey(). */
  function Consumed(row: Option<Row>, now: int, window: int): (r: Row) {
    match row
    case None => Row(1, now)
    case Some(Row(count, start)) => if now - start >= window then Row(1, now) else Row(count + 1, start)
  }

  function Ceil(milliseconds: int): (seconds: int)
    ensures forall d: int :: milliseconds <= 1000 * d <==> seconds <= d
  {
    -((-milliseconds) / 1000)
  }

  function Max(a: int, b: int): (r: int) { if a < b then b else a }

  function Min(a: int, b: int): (r: int) { if a < b then a else b }

  datatype Decision = Decision(allowed: bool, retryAfter: int)

  /** The storage's consume(): `seconds` is the rule's window. */
  function Decide(row: Row, now: int, seconds: int, max: int): (r: Decision) {
    if row.count <= max then Decision(true, 0)
    else Decision(false, Min(seconds, Max(1, Ceil(row.start + 1000 * seconds - now))))
  }

  // ----- One key over any run -----

  predicate Nondecreasing(times: seq<int>) {
    forall i, j :: 0 <= i < j < |times| ==> times[i] <= times[j]
  }

  /** The row after times[..n], of a key that had none. */
  function RowAfter(times: seq<int>, n: nat, window: int): (r: Option<Row>)
    requires n <= |times|
  {
    if n == 0 then None else Some(Consumed(RowAfter(times, n - 1, window), times[n - 1], window))
  }

  /** The row that the i-th request got back. */
  function Got(times: seq<int>, i: nat, window: int): (r: Row)
    requires i < |times|
  {
    RowAfter(times, i + 1, window).value
  }

  /** How many of the requests i..j were allowed. */
  function AllowedCount(times: seq<int>, i: nat, j: nat, window: int, max: int): (r: nat)
    requires i <= j <= |times|
    decreases j - i
  {
    if i == j then 0
    else AllowedCount(times, i, j - 1, window, max) + if Got(times, j - 1, window).count <= max then 1 else 0
  }

  /** Every request lies in the window it was counted in, and windows start at least one length apart. */
  lemma {:induction false} WindowsAreApart(times: seq<int>, i: nat, j: nat, window: int)
    requires Nondecreasing(times) && window > 0 && i <= j < |times|
    ensures Got(times, j, window).start <= times[j] < Got(times, j, window).start + window
    ensures Got(times, i, window).start == Got(times, j, window).start
         || Got(times, i, window).start + window <= Got(times, j, window).start
    decreases j
  {
    assert Got(times, j, window) == Consumed(RowAfter(times, j, window), times[j], window);
    if i < j {
      WindowsAreApart(times, i, j - 1, window);
    } else if j > 0 {
      WindowsAreApart(times, j - 1, j - 1, window);
      assert times[j - 1] <= times[j];
    }
  }

  /** In one window the counts go up by one, so at most `max` requests are allowed. */
  lemma {:induction false} OneWindow(times: seq<int>, i: nat, j: nat, window: int, max: nat)
    requires Nondecreasing(times) && window > 0 && i < j <= |times|
    requires Got(times, i, window).start == Got(times, j - 1, window).start
    ensures Got(times, j - 1, window).count == Got(times, i, window).count + (j - 1 - i)
    ensures AllowedCount(times, i, j, window, max) <= Min(max, Got(times, j - 1, window).count)
    decreases j
  {
    WindowsAreApart(times, i, j - 1, window);
    if i < j - 1 {
      WindowsAreApart(times, i, j - 2, window);
      WindowsAreApart(times, j - 2, j - 1, window);
      OneWindow(times, i, j - 1, window, max);
    }
  }

  lemma {:induction false} AllowedSplits(times: seq<int>, i: nat, m: nat, j: nat, window: int, max: int)
    requires i <= m <= j <= |times|
    ensures AllowedCount(times, i, j, window, max)
      == AllowedCount(times, i, m, window, max) + AllowedCount(times, m, j, window, max)
    decreases j
  {
    if m < j {
      AllowedSplits(times, i, m, j - 1, window, max);
    }
  }

  /** The end of the window that request i was counted in, among the first j requests. */
  lemma {:induction false} WindowEnd(times: seq<int>, i: nat, j: nat, window: int) returns (m: nat)
    requires Nondecreasing(times) && window > 0 && i < j <= |times|
    ensures i < m <= j && Got(times, m - 1, window).start == Got(times, i, window).start
    ensures m < j ==> Got(times, m, window) == Row(1, times[m]) && times[m] >= Got(times, i, window).start + window
    decreases j - i
  {
    m := i + 1;
    while m < j && Got(times, m, window).start == Got(times, i, window).start
      invariant i < m <= j && Got(times, m - 1, window).start == Got(times, i, window).start
    {
      m := m + 1;
    }
    if m < j {
      WindowsAreApart(times, i, m, window);
      WindowsAreApart(times, m, m, window);
    }
  }

  lemma OneMoreTimes(n: nat, x: nat)
    ensures (n + 1) * x == n * x + x && n * x >= 0
  {
  }

  /** From the start of a window on, less than n window lengths admit at most n * max requests. */
  lemma {:induction false} FromAStart(times: seq<int>, i: nat, j: nat, window: int, max: nat, n: nat)
    requires Nondecreasing(times) && window > 0 && i < j <= |times|
    requires Got(times, i, window).start == times[i] && times[j - 1] - times[i] < n * window
    ensures AllowedCount(times, i, j, window, max) <= n * max
    decreases n
  {
    var m := WindowEnd(times, i, j, window);
    OneWindow(times, i, m, window, max);
    assert n * window > 0;
    assert n > 0;
    OneMoreTimes(n - 1, window);
    OneMoreTimes(n - 1, max);
    hide AllowedCount;
    if m < j {
      assert times[m] <= times[j - 1];
      FromAStart(times, m, j, window, max, n - 1);
      AllowedSplits(times, i, m, j, window, max);
    }
  }

  /** Any stretch of n window lengths admits at most (n + 1) * max requests: 2 * max for one length. */
  lemma {:induction false} BurstBound(times: seq<int>, i: nat, j: nat, window: int, max: nat, n: nat)
    requires Nondecreasing(times) && window > 0 && i < j <= |times| && times[j - 1] - times[i] <= n * window
    ensures AllowedCount(times, i, j, window, max) <= (n + 1) * max
  {
    var m := WindowEnd(times, i, j, window);
    OneWindow(times, i, m, window, max);
    OneMoreTimes(n, max);
    hide AllowedCount;
    if m < j {
      WindowsAreApart(times, i, i, window);
      assert times[j - 1] - times[m] < n * window;
      hide Got;
      FromAStart(times, m, j, window, max, n);
      AllowedSplits(times, i, m, j, window, max);
    }
  }

  /** The bound for one length is reached, so it cannot be improved. */
  lemma BurstBoundIsTight()
    ensures var times := [0, 0, WINDOW, WINDOW];
            Nondecreasing(times) && times[3] - times[0] <= WINDOW && AllowedCount(times, 0, 4, WINDOW, 2) == 2 * 2
  {
    var times := [0, 0, WINDOW, WINDOW];
    assert RowAfter(times, 0, WINDOW) == None;
    assert RowAfter(times, 1, WINDOW) == Some(Row(1, 0));
    assert RowAfter(times, 2, WINDOW) == Some(Row(2, 0));
    assert RowAfter(times, 3, WINDOW) == Some(Row(1, WINDOW));
    assert RowAfter(times, 4, WINDOW) == Some(Row(2, WINDOW));
    assert AllowedCount(times, 0, 0, WINDOW, 2) == 0 && AllowedCount(times, 0, 1, WINDOW, 2) == 1;
    assert AllowedCount(times, 0, 2, WINDOW, 2) == 2 && AllowedCount(times, 0, 3, WINDOW, 2) == 3;
  }

  /**
   After a rejection, whole seconds of waiting admit the next request of the key
   exactly from the reported retryAfter on, if no other request intervenes.
   */
  lemma RetryAfterIsExact(before: Option<Row>, now: int, seconds: nat, max: nat, wait: nat)
    requires seconds >= 1 && max >= 1 && wait >= 1 && (before.Some? ==> before.value.start <= now)
    requires !Decide(Consumed(before, now, 1000 * seconds), now, seconds, max).allowed
    ensures var row := Consumed(before, now, 1000 * seconds);
            var again := Consumed(Some(row), now + 1000 * wait, 1000 * seconds);
            Decide(again, now + 1000 * wait, seconds, max).allowed
            <==> wait >= Decide(row, now, seconds, max).retryAfter
  {
  }

  // ----- Two keys -----

  type Rows = map<Key, Row>

  function At(rows: Rows, key: Key): (r: Option<Row>) {
    if key in rows then Some(rows[key]) else None
  }

  function Take(rows: Rows, key: Key, now: int): (next: Rows) {
    rows[key := Consumed(At(rows, key), now, WINDOW)]
  }

  function Blocked(row: Row, now: int): (r: Decision) {
    Decision(false, Max(1, Ceil(row.start + WINDOW - now)))
  }

  /** AuthEndpointRateLimiter.consume(): the address first, and the token only if the address is admitted. */
  function ConsumeBoth(rows: Rows, ip: Key, token: Key, now: int): (r: (Rows, Decision)) {
    var first := Take(rows, ip, now);
    if first[ip].count > MAX_REQUESTS then (first, Blocked(first[ip], now))
    else
      var both := Take(first, token, now);
      (both, if both[token].count > MAX_REQUESTS then Blocked(both[token], now) else Decision(true, 0))
  }

  /** A key admits the next request: its window is over, or not full. */
  predicate Admits(row: Option<Row>, now: int) {
    row.Some? ==> now - row.value.start >= WINDOW || row.value.count < MAX_REQUESTS
  }

  lemma AllowedIff(rows: Rows, ip: Key, token: Key, now: int)
    requires ip != token
    ensures ConsumeBoth(rows, ip, token, now).1.allowed <==> Admits(At(rows, ip), now) && Admits(At(rows, token), now)
  {
  }

  /**
   The wait reported for a full token admits the same client afterwards exactly
   when the address has room then: the address has counted the rejected request,
   and its own window may end later.
   */
  lemma TokenRetryIsHonoured(rows: Rows, ip: Key, token: Key, now: int)
    requires ip != token && (forall key :: key in rows ==> rows[key].start <= now)
    requires Admits(At(rows, ip), now) && !Admits(At(rows, token), now)
    ensures var (after, decision) := ConsumeBoth(rows, ip, token, now);
            var later := now + 1000 * decision.retryAfter;
            !decision.allowed
            && (ConsumeBoth(after, ip, token, later).1.allowed <==>
                  after[ip].count < MAX_REQUESTS || later - after[ip].start >= WINDOW)
  {
  }

  /**
   The wait reported for a full address admits the client afterwards exactly when
   the token, not counted meanwhile, has room.
   */
  lemma IpRetryIsHonoured(rows: Rows, ip: Key, token: Key, now: int)
    requires ip != token && (forall key :: key in rows ==> rows[key].start <= now)
    requires !Admits(At(rows, ip), now)
    ensures var (after, decision) := ConsumeBoth(rows, ip, token, now);
            var later := now + 1000 * decision.retryAfter;
            !decision.allowed && (ConsumeBoth(after, ip, token, later).1.allowed <==> Admits(At(rows, token), later))
  {
  }

  /** A client that waits as told is rejected again: its fifth request from a younger address met a full token. */
  lemma TokenRetryCanFail(ip: Key, token: Key)
    requires ip != token
    ensures var rows: Rows := map[token := Row(5, 0), ip := Row(4, 30_000)];
            var (after, decision) := ConsumeBoth(rows, ip, token, 31_000);
            decision == Decision(false, 29)
            && !ConsumeBoth(after, ip, token, 31_000 + 29_000).1.allowed
  {
  }

  const MAX_SAFE := 9_007_199_254_740_991

  predicate SafeInteger(n: int) {
    -MAX_SAFE <= n <= MAX_SAFE
  }

  predicate ValidRule(now: int, seconds: int, max: int) {
    SafeInteger(now) && 1 <= max <= MAX_SAFE && 1 <= seconds && 1000 * seconds <= MAX_SAFE
  }

  predicate ValidRow(row: Row) {
    SafeInteger(row.start) && 1 <= row.count <= MAX_SAFE
  }

  datatype RateLimitError = RuleInvalid | RecordInvalid

  class RateLimits {
    var rows: Rows

    constructor ()
      ensures rows == map[]
    {
      rows := map[];
    }

    /** consumeRateLimitKey(): one statement on one row. */
    method ConsumeKey(key: Key, now: int, window: int) returns (row: Row)
      modifies this
      ensures row == Consumed(At(old(rows), key), now, window) && rows == old(rows)[key := row]
    {
      if key !in rows {
        rows := rows[key := Row(1, now)];
      } else if now - rows[key].start >= window {
        rows := rows[key := Row(1, now)];
      } else {
        rows := rows[key := rows[key].(count := rows[key].count + 1)];
      }
      row := rows[key];
    }

    /** The storage's consume(): a rule that is refused counts nothing; a row that is refused has been counted. */
    method Consume(key: Key, now: int, seconds: int, max: int) returns (r: Result<Decision, RateLimitError>)
      modifies this
      ensures r == Failure(RuleInvalid) <==> !ValidRule(now, seconds, max)
      ensures !ValidRule(now, seconds, max) ==> rows == old(rows)
      ensures ValidRule(now, seconds, max) ==>
        rows == old(rows)[key := Consumed(At(old(rows), key), now, 1000 * seconds)]
        && r == if ValidRow(rows[key]) then Success(Decide(rows[key], now, seconds, max)) else Failure(RecordInvalid)
    {
      if !SafeInteger(now) || !SafeInteger(max) || max < 1
         || !SafeInteger(seconds) || seconds < 1 || !SafeInteger(1000 * seconds) {
        return Failure(RuleInvalid);
      }
      var row := ConsumeKey(key, now, 1000 * seconds);
      r := if ValidRow(row) then Success(Decide(row, now, seconds, max)) else Failure(RecordInvalid);
    }

    method ConsumeIpAndToken(ip: Key, token: Key, now: int) returns (decision: Decision)
      modifies this
      ensures (rows, decision) == ConsumeBoth(old(rows), ip, token, now)
    {
      var ipRow := ConsumeKey(ip, now, WINDOW);
      if ipRow.count > MAX_REQUESTS {
        return Blocked(ipRow, now);
      }
      var tokenRow := ConsumeKey(token, now, WINDOW);
      decision := if tokenRow.count > MAX_REQUESTS then Blocked(tokenRow, now) else Decision(true, 0);
    }
  }
}
