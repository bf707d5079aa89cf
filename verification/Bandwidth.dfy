/**
 The token bucket of crates/chirps-file-transfer/src/bandwidth.rs.  Times are in
 nanoseconds and rates in bytes per second.
 */
module Bandwidth {
  import opened Prelude

  const SECOND: nat := 1_000_000_000

  /** `tokens_for_elapsed`, with its 128-bit product and 64-bit result. */
  function TokensFor(limit: nat, elapsed: nat): nat {
    if limit == 0 then 0 else Min(Min(elapsed * limit, U128_MAX) / SECOND, U64_MAX)
  }

  /** `missing_wait`. */
  function WaitFor(limit: nat, missing: nat): (w: nat)
    requires limit > 0
  {
    Min(Max(Min(missing * SECOND, U128_MAX) / limit, 1), U64_MAX)
  }

  datatype Bucket = Bucket(tokens: nat, lastRefill: nat)

  /** The refill at the start of a turn under the lock. */
  function Refill(limit: nat, b: Bucket, now: nat): Bucket {
    var add := TokensFor(limit, SatSub(now, b.lastRefill));
    if add > 0 then Bucket(Min(SatAdd(b.tokens, add), limit), now) else b
  }

  /** How much of `remaining` one turn grants. */
  function Grant(limit: nat, b: Bucket, now: nat, remaining: nat): nat {
    Min(Refill(limit, b, now).tokens, remaining)
  }

  /** One turn under the lock: refill, then take what there is, up to `remaining`. */
  function Turn(limit: nat, b: Bucket, now: nat, remaining: nat): Bucket {
    var r := Refill(limit, b, now);
    r.(tokens := r.tokens - Min(r.tokens, remaining))
  }

  // ------------------------------------------------------------------ concurrent callers

  datatype Action =
    | Call(id: nat, bytes: nat)              // a new `acquire`
    | Try(id: nat, now: nat)                 // one turn of a pending call

  /** The bucket, what each call asked for and has been granted, and the latest turn. */
  datatype State = State(bucket: Bucket, asked: map<nat, nat>, granted: map<nat, nat>, now: nat)

  function Act(limit: nat, s: State, a: Action): State {
    match a
    case Call(id, bytes) =>
      if id in s.asked then s else s.(asked := s.asked[id := bytes], granted := s.granted[id := 0])
    case Try(id, now) =>
      if id !in s.asked || id !in s.granted || s.asked[id] <= s.granted[id] || now < s.now then s
      else
        var remaining := s.asked[id] - s.granted[id];
        State(Turn(limit, s.bucket, now, remaining), s.asked,
              s.granted[id := s.granted[id] + Grant(limit, s.bucket, now, remaining)], now)
  }

  /** Any interleaving of turns at non-decreasing times, from a full bucket at `start`. */
  function Run(limit: nat, start: nat, actions: seq<Action>): State {
    if actions == [] then State(Bucket(limit, start), map[], map[], start)
    else Act(limit, Run(limit, start, actions[..|actions| - 1]), actions[|actions| - 1])
  }

  /** The sum over all calls. */
  ghost function Sum(m: map<nat, nat>): nat
    decreases |m|
  {
    if m == map[] then 0
    else
      var k :| k in m;
      m[k] + Sum(m - {k})
  }

  lemma {:induction false} SumTakes(m: map<nat, nat>, k: nat)
    requires k in m
    ensures Sum(m) == m[k] + Sum(m - {k})
    decreases |m|
  {
    var j :| j in m && Sum(m) == m[j] + Sum(m - {j});
    if j != k {
      SumTakes(m - {j}, k);
      SumTakes(m - {k}, j);
      assert m - {j} - {k} == m - {k} - {j};
    }
  }

  lemma SumAdds(m: map<nat, nat>, k: nat, more: nat)
    ensures Sum(m[k := (if k in m then m[k] else 0) + more]) == Sum(m) + more
  {
    var m' := m[k := (if k in m then m[k] else 0) + more];
    SumTakes(m', k);
    assert m' - {k} == m - {k};
    if k in m {
      SumTakes(m, k);
    } else {
      assert m - {k} == m;
    }
  }

  /** Tokens handed out or at hand never exceed the first bucketful and what has flowed in. */
  ghost predicate Bounded(limit: nat, start: nat, b: Bucket, granted: nat) {
    && start <= b.lastRefill
    && b.tokens <= limit
    && (granted + b.tokens) * SECOND <= limit * SECOND + limit * (b.lastRefill - start)
  }

  lemma TokensAreNoMore(limit: nat, elapsed: nat)
    ensures TokensFor(limit, elapsed) * SECOND <= limit * elapsed
  {
    var product := Min(elapsed * limit, U128_MAX);
    assert product / SECOND * SECOND <= product;
  }

  lemma RefillKeepsBound(limit: nat, start: nat, b: Bucket, granted: nat, now: nat)
    requires Bounded(limit, start, b, granted) && b.lastRefill <= now
    ensures Bounded(limit, start, Refill(limit, b, now), granted)
    ensures Refill(limit, b, now).lastRefill <= now
  {
    var elapsed := now - b.lastRefill;
    TokensAreNoMore(limit, elapsed);
    FlowAdds(limit, b.lastRefill - start, elapsed);
  }

  lemma FlowAdds(limit: nat, a: nat, b: nat)
    ensures limit * (a + b) == limit * a + limit * b
  {
  }

  lemma {:induction false} RunKeepsBound(limit: nat, start: nat, actions: seq<Action>)
    ensures var s := Run(limit, start, actions);
            && Bounded(limit, start, s.bucket, Sum(s.granted))
            && s.bucket.lastRefill <= s.now
            && s.granted.Keys == s.asked.Keys
  {
    if actions != [] {
      RunKeepsBound(limit, start, actions[..|actions| - 1]);
      ActKeepsBound(limit, start, 0, Run(limit, start, actions[..|actions| - 1]), actions[|actions| - 1]);
    }
  }

  /** A turn only moves tokens from the bucket to the caller. */
  lemma TurnKeepsBound(limit: nat, start: nat, b: Bucket, granted: nat, now: nat, remaining: nat)
    requires Bounded(limit, start, b, granted) && b.lastRefill <= now
    ensures Bounded(limit, start, Turn(limit, b, now, remaining), granted + Grant(limit, b, now, remaining))
    ensures Turn(limit, b, now, remaining).lastRefill <= now
  {
    RefillKeepsBound(limit, start, b, granted, now);
  }

  /** The same for what was granted beyond the first `base` bytes. */
  lemma ActKeepsBound(limit: nat, start: nat, base: nat, s: State, a: Action)
    requires base <= Sum(s.granted) && Bounded(limit, start, s.bucket, Sum(s.granted) - base)
    requires s.bucket.lastRefill <= s.now && s.granted.Keys == s.asked.Keys
    ensures var s' := Act(limit, s, a);
            && base <= Sum(s'.granted) && Bounded(limit, start, s'.bucket, Sum(s'.granted) - base)
            && s'.bucket.lastRefill <= s'.now
            && s'.granted.Keys == s'.asked.Keys
  {
    match a {
      case Call(id, bytes) =>
        if id !in s.asked {
          SumAdds(s.granted, id, 0);
        }
      case Try(id, now) =>
        if id in s.asked && s.asked[id] > s.granted[id] && now >= s.now {
          var remaining := s.asked[id] - s.granted[id];
          TurnKeepsBound(limit, start, s.bucket, Sum(s.granted) - base, now, remaining);
          SumAdds(s.granted, id, Grant(limit, s.bucket, now, remaining));
        }
    }
  }

  /** For every interleaving of `acquire` calls, the bytes granted up to time `t` are at most
      one bucketful and the rate times the elapsed time (both sides times 10^9). */
  lemma GrantsAreBounded(limit: nat, start: nat, actions: seq<Action>, t: nat)
    requires limit > 0                      // zero means unlimited: no turn is taken
    requires Run(limit, start, actions).now <= t
    ensures start <= t
    ensures Sum(Run(limit, start, actions).granted) * SECOND <= limit * SECOND + limit * (t - start)
  {
    var s := Run(limit, start, actions);
    RunKeepsBound(limit, start, actions);
    BoundGrows(limit, start, s.bucket, Sum(s.granted), t);
  }

  lemma BoundGrows(limit: nat, start: nat, b: Bucket, granted: nat, t: nat)
    requires Bounded(limit, start, b, granted) && b.lastRefill <= t
    ensures granted * SECOND <= limit * SECOND + limit * (t - start)
  {
    var flowed, later := b.lastRefill - start, t - b.lastRefill;
    FlowAdds(limit, flowed, later);
    assert t - start == flowed + later && limit * later >= 0;
    assert granted * SECOND <= (granted + b.tokens) * SECOND;
  }

  /** After a turn less than one token is outstanding. */
  ghost predicate Fresh(limit: nat, s: State) {
    s.bucket.lastRefill <= s.now && limit * (s.now - s.bucket.lastRefill) < SECOND
  }

  lemma {:induction false} TurnsRefill(limit: nat, start: nat, actions: seq<Action>)
    requires limit > 0
    ensures Fresh(limit, Run(limit, start, actions))
  {
    if actions != [] {
      TurnsRefill(limit, start, actions[..|actions| - 1]);
      ActRefills(limit, Run(limit, start, actions[..|actions| - 1]), actions[|actions| - 1]);
    }
  }

  lemma ActRefills(limit: nat, s: State, a: Action)
    requires limit > 0 && Fresh(limit, s)
    ensures Fresh(limit, Act(limit, s, a))
  {
    if a.Try? && a.now >= s.now && TokensFor(limit, a.now - s.bucket.lastRefill) == 0 {
      NothingDue(limit, a.now - s.bucket.lastRefill);
    }
  }

  lemma NothingDue(limit: nat, elapsed: nat)
    requires limit > 0 && TokensFor(limit, elapsed) == 0
    ensures limit * elapsed < SECOND
  {
    assert elapsed * limit == limit * elapsed;
  }

  lemma BoundStarts(limit: nat, b: Bucket)
    requires b.tokens <= limit
    ensures Bounded(limit, b.lastRefill, b, 0)
  {
  }

  lemma {:induction false} WindowKeepsBound(limit: nat, start: nat, before: seq<Action>, during: seq<Action>)
    ensures var s, s' := Run(limit, start, before), Run(limit, start, before + during);
            && Sum(s.granted) <= Sum(s'.granted)
            && Bounded(limit, s.bucket.lastRefill, s'.bucket, Sum(s'.granted) - Sum(s.granted))
            && s'.bucket.lastRefill <= s'.now
            && s'.granted.Keys == s'.asked.Keys
            && s.now <= s'.now
  {
    var s := Run(limit, start, before);
    if during == [] {
      RunKeepsBound(limit, start, before);
      assert before + during == before;
      BoundStarts(limit, s.bucket);
    } else {
      var init, last := during[..|during| - 1], during[|during| - 1];
      WindowKeepsBound(limit, start, before, init);
      assert (before + during)[..|before + during| - 1] == before + init;
      ActKeepsBound(limit, s.bucket.lastRefill, Sum(s.granted), Run(limit, start, before + init), last);
    }
  }

  /** The same over every window of every interleaving, from any turn on: at most one
      bucketful, the rate times the length of the window, and less than one byte more for
      what was due and not yet put in when the window began. */
  lemma WindowsAreBounded(limit: nat, start: nat, before: seq<Action>, during: seq<Action>, t: nat)
    requires limit > 0
    requires Run(limit, start, before + during).now <= t
    ensures var s, s' := Run(limit, start, before), Run(limit, start, before + during);
            && s.bucket.lastRefill <= s.now <= t
            && Sum(s.granted) <= Sum(s'.granted)
            && (Sum(s'.granted) - Sum(s.granted)) * SECOND <= limit * SECOND + limit * (t - s.bucket.lastRefill)
            && (Sum(s'.granted) - Sum(s.granted)) * SECOND < limit * SECOND + limit * (t - s.now) + SECOND
  {
    var s, s' := Run(limit, start, before), Run(limit, start, before + during);
    WindowKeepsBound(limit, start, before, during);
    TurnsRefill(limit, start, before);
    BoundGrows(limit, s.bucket.lastRefill, s'.bucket, Sum(s'.granted) - Sum(s.granted), t);
    FlowAdds(limit, s.now - s.bucket.lastRefill, t - s.now);
    assert t - s.bucket.lastRefill == (s.now - s.bucket.lastRefill) + (t - s.now);
  }

  /** No call is granted more than it asked for. */
  lemma {:induction false} CallsGetAtMostTheirShare(limit: nat, start: nat, actions: seq<Action>, id: nat)
    requires id in Run(limit, start, actions).asked
    ensures var s := Run(limit, start, actions); id in s.granted && s.granted[id] <= s.asked[id]
  {
    if actions != [] {
      var init := actions[..|actions| - 1];
      if id in Run(limit, start, init).asked {
        CallsGetAtMostTheirShare(limit, start, init, id);
      }
    }
  }

  // ------------------------------------------------------------------ a lone call

  /** Two waits are long enough for at least one token, although one may not be. */
  lemma TwoWaitsAreEnough(limit: nat, missing: nat, elapsed: nat)
    requires limit > 0 && missing > 0 && elapsed >= 2 * WaitFor(limit, missing)
    ensures TokensFor(limit, elapsed) >= 1
  {
    var w := WaitFor(limit, missing);
    TwoWaitsFlow(limit, missing);
    assert elapsed * limit >= (2 * w) * limit;
    assert Min(elapsed * limit, U128_MAX) >= SECOND;
  }

  lemma TwoWaitsFlow(limit: nat, missing: nat)
    requires limit > 0 && missing > 0
    ensures (2 * WaitFor(limit, missing)) * limit >= SECOND
  {
    var product := Min(missing * SECOND, U128_MAX);
    assert product >= SECOND;
    var q := product / limit;
    QuotientBounds(product, limit);
    var w := WaitFor(limit, missing);
    if q == 0 {
      assert w == 1;
    } else if q <= U64_MAX {
      assert w == q;
      assert (2 * q) * limit == q * limit + q * limit;
      assert q * limit >= limit;
    } else {
      assert w == U64_MAX;
      assert (2 * w) * limit >= 2 * w;
    }
  }

  lemma QuotientBounds(a: nat, b: nat)
    requires b > 0
    ensures a / b * b <= a < a / b * b + b
  {
  }

  lemma TokenIsDue(limit: nat, elapsed: nat)
    requires limit > 0
    ensures TokensFor(limit, elapsed) >= 1 <==> elapsed * limit >= SECOND
  {
    WholeSeconds(Min(elapsed * limit, U128_MAX));
  }

  lemma WholeSeconds(n: nat)
    ensures n / SECOND >= 1 <==> n >= SECOND
  {
  }

  /** A quotient too large for 64 bits: the wait is capped, and the divisor was small. */
  lemma CappedWait(limit: nat, missing: nat)
    requires 0 < limit && 0 < missing <= U64_MAX && missing * SECOND / limit > U64_MAX
    ensures U64_MAX * limit >= SECOND && missing * SECOND % limit <= (missing - 1) * SECOND
  {
    QuotientBounds(missing * SECOND, limit);
    var q := missing * SECOND / limit;
    assert q * limit >= SECOND * limit;
    assert SECOND * limit <= missing * SECOND;
    assert missing * SECOND % limit < limit <= missing;
  }

  /** One wait brings a token exactly when the wait was not rounded down, or rounding it down
      costs no more than the missing bytes beyond the first. */
  lemma OneWaitIsEnoughIff(limit: nat, missing: nat)
    requires 0 < limit <= U64_MAX && 0 < missing <= U64_MAX
    ensures TokensFor(limit, WaitFor(limit, missing)) >= 1
       <==> limit > missing * SECOND || missing * SECOND % limit <= (missing - 1) * SECOND
  {
    var w := WaitFor(limit, missing);
    TokenIsDue(limit, w);
    OneWaitParts(limit, missing, missing * SECOND, missing * SECOND / limit, missing * SECOND % limit);
  }

  lemma OneWaitParts(limit: nat, missing: nat, product: nat, q: nat, r: nat)
    requires 0 < limit && 0 < missing <= U64_MAX
    requires product == missing * SECOND && q == product / limit && r == product % limit
    ensures WaitFor(limit, missing) * limit >= SECOND <==> limit > product || r <= (missing - 1) * SECOND
  {
    Division(product, limit, q, r);
    assert product <= U128_MAX;
    if q > U64_MAX {
      CappedWait(limit, missing);
    }
    OneWaitFlow(limit, product, q, r, Min(Max(q, 1), U64_MAX));
  }

  lemma Division(a: nat, b: nat, q: nat, r: nat)
    requires b > 0 && q == a / b && r == a % b
    ensures q * b + r == a && r < b
  {
  }

  lemma OneWaitFlow(limit: nat, product: nat, q: nat, r: nat, w: nat)
    requires product >= SECOND && q * limit + r == product && r < limit && w == Min(Max(q, 1), U64_MAX)
    requires q > U64_MAX ==> U64_MAX * limit >= SECOND && r <= product - SECOND
    ensures w * limit >= SECOND <==> limit > product || r <= product - SECOND
  {
    if 0 < q <= U64_MAX {
      assert w * limit == product - r;
      assert q * limit >= limit;
    }
  }

  /** One wait can be too short: at 3 bytes per second, for one byte. */
  lemma OneWaitMayNotBeEnough()
    ensures TokensFor(3, WaitFor(3, 1)) == 0
  {
    assert WaitFor(3, 1) == 333_333_333;
  }

  /** `BandwidthThrottle`, called by one caller at a time. */
  class BandwidthThrottle {
    const limit: nat
    var tokens: nat
    var lastRefill: nat

    ghost function View(): Bucket
      reads this
    {
      Bucket(tokens, lastRefill)
    }

    constructor (limitBytesPerSec: nat, now: nat)
      ensures limit == limitBytesPerSec && View() == Bucket(limitBytesPerSec, now)
    {
      limit := limitBytesPerSec;
      tokens := limitBytesPerSec;
      lastRefill := now;
    }

    /** The block under the lock. */
    method TakeTurn(now: nat, remaining: nat) returns (granted: nat)
      modifies this
      ensures View() == Turn(limit, old(View()), now, remaining)
      ensures granted == Grant(limit, old(View()), now, remaining)
    {
      var add := TokensFor(limit, SatSub(now, lastRefill));
      if add > 0 {
        tokens := Min(SatAdd(tokens, add), limit);
        lastRefill := now;
      }
      if tokens >= remaining {
        tokens := tokens - remaining;
        return remaining;
      }
      granted := tokens;
      tokens := 0;
    }

    /** `acquire`.  `late(k)` is by how much the k-th sleep overruns.  The loop ends because
        two sleeps in a row always bring a token; so there are at most two for each byte. */
    method Acquire(bytes: nat, start: nat, late: nat -> nat) returns (now: nat, sleeps: nat, granted: nat)
      requires lastRefill <= start
      modifies this
      ensures granted == if limit == 0 then 0 else bytes
      ensures lastRefill <= now && start <= now
      ensures sleeps <= 2 * bytes
    {
      now, sleeps, granted := start, 0, 0;
      if bytes == 0 || limit == 0 {
        return;
      }
      var remaining: nat := bytes;
      ghost var dry: nat := 0;                   // sleeps since the last byte was granted
      while remaining > 0
        invariant remaining + granted == bytes && lastRefill <= now && start <= now
        invariant dry <= 2 && sleeps <= 2 * granted + dry && (remaining == 0 ==> dry == 0)
        invariant dry > 0 ==> tokens == 0 && now - lastRefill >= dry * WaitFor(limit, remaining)
        decreases remaining, 2 - dry
      {
        if dry == 2 {
          TwoWaitsAreEnough(limit, remaining, now - lastRefill);
        }
        ghost var unrefilled := TokensFor(limit, now - lastRefill) == 0;
        var taken := TakeTurn(now, remaining);
        granted := granted + taken;
        remaining := remaining - taken;
        if remaining == 0 {
          dry := 0;
          return;
        }
        var wait := WaitFor(limit, remaining);
        var next := now + wait + late(sleeps);
        if taken > 0 {
          dry := 1;
        } else {
          assert unrefilled && dry < 2;
          dry := dry + 1;
        }
        sleeps := sleeps + 1;
        now := next;
      }
    }
  }
}
