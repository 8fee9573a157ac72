/** app/rate_limit.py: a fixed-window limiter over a Redis-like store.

    The store maps a key to a counter and an optional expiry time (`INCR` on a missing or
    expired key creates a counter with no expiry; `EXPIRE` is a separate command). A request
    may lose the store, or the whole process may die, immediately before any of the
    commands it would issue. */
module RateLimiter {
  import opened Prelude

  type Positive = n: int | n >= 1 witness 1

  datatype Cell = Cell(count: Positive, expiry: Option<int>)
  type Cells = map<string, Cell>

  /** One call site's parameters; `ipWindow == 0` stands for an unset `ip_window`. */
  datatype Policy = Policy(scope: string, limit: nat, window: int, ipLimit: Option<nat>, ipWindow: int)

  datatype Bucket = IdBucket | IpBucket
  datatype Command = Incr(b: Bucket) | Expire(b: Bucket) | Ttl(b: Bucket)
  datatype Fault = StoreDown(at: Command) | Crash(at: Command)
  datatype Request = Request(policy: Policy, now: int, ip: string, identifier: string, fault: Option<Fault>)

  /** `FailedOpen`: admitted because the store failed. `Died`: the process never answered. */
  datatype Outcome = Admitted | FailedOpen | Rejected(retryAfter: int) | Died

  datatype Progress = Going(cells: Cells, retry: Option<int>) | Halted(cells: Cells)

  /** A request once its two counter keys are built. */
  datatype Attempt = Attempt(policy: Policy, now: int, idKey: string, ipKey: string, fault: Option<Fault>)

  function IdText(r: Request): string {
    r.ip + ":" + Clean(r.identifier)
  }

  function Rendered(scope: string, namespace: string, text: string): string {
    "rl:" + (scope + ":" + (namespace + ":" + text))
  }

  function Keyed(r: Request): Attempt {
    Attempt(r.policy, r.now, Rendered(r.policy.scope, "id", IdText(r)), Rendered(r.policy.scope, "ip", r.ip), r.fault)
  }

  function Key(r: Attempt, b: Bucket): string {
    if b == IdBucket then r.idKey else r.ipKey
  }

  function Limit(p: Policy, b: Bucket): nat {
    match b
    case IdBucket => p.limit
    case IpBucket => if p.ipLimit.Some? then p.ipLimit.value else 0
  }

  function Window(p: Policy, b: Bucket): int {
    if b == IpBucket && p.ipWindow != 0 then p.ipWindow else p.window
  }

  predicate Fails(r: Attempt, c: Command) {
    r.fault.Some? && r.fault.value.at == c
  }

  predicate OpenAt(c: Option<Cell>, now: int) {
    c.Some? && (c.value.expiry.None? || now < c.value.expiry.value)
  }

  function Look(cells: Cells, key: string): Option<Cell> {
    if key in cells then Some(cells[key]) else None
  }

  function Bumped(cells: Cells, key: string, now: int): Cells {
    if OpenAt(Look(cells, key), now)
    then cells[key := Cell(cells[key].count + 1, cells[key].expiry)]
    else cells[key := Cell(1, None)]
  }

  /** Redis `TTL`: -1 for a key without expiry, -2 for a key that is gone. */
  function TimeToLive(c: Option<Cell>, now: int): int {
    if !OpenAt(c, now) then -2 else if c.value.expiry.None? then -1 else c.value.expiry.value - now
  }

  function RetryAfter(c: Option<Cell>, now: int, window: int): int {
    var ttl := TimeToLive(c, now);
    if ttl > 0 then ttl else window
  }

  /** Counting one attempt against one bucket. */
  function Charge(cells: Cells, r: Attempt, b: Bucket, retry: Option<int>): Progress {
    var key := Key(r, b);
    if Fails(r, Incr(b)) then Halted(cells)
    else
      var c1 := Bumped(cells, key, r.now);
      var count := c1[key].count;
      if count == 1 && Fails(r, Expire(b)) then Halted(c1)
      else
        var c2 := if count == 1 then c1[key := Cell(1, Some(r.now + Window(r.policy, b)))] else c1;
        if count > Limit(r.policy, b) && retry.None? then
          if Fails(r, Ttl(b)) then Halted(c2)
          else Going(c2, Some(RetryAfter(Look(c2, key), r.now, Window(r.policy, b))))
        else Going(c2, retry)
  }

  function Verdict(p: Progress, r: Attempt): (Outcome, Cells) {
    match p
    case Going(cells, retry) => (if retry.Some? then Rejected(retry.value) else Admitted, cells)
    case Halted(cells) => (if r.fault.Some? && r.fault.value.Crash? then Died else FailedOpen, cells)
  }

  /** The specification of `enforce_rate_limit` while limiting is enabled. */
  function Enforce(cells: Cells, r: Attempt): (Outcome, Cells) {
    var id := Charge(cells, r, IdBucket, None);
    if id.Halted? || r.policy.ipLimit.None? then Verdict(id, r)
    else Verdict(Charge(id.cells, r, IpBucket, id.retry), r)
  }

  // ---------------------------------------------------------------- the limiter itself

  class Limiter {
    var cells: Cells
    const enabled: bool

    constructor (enabled: bool)
      ensures this.enabled == enabled && cells == map[]
    {
      this.enabled := enabled;
      cells := map[];
    }

    /** `_bump`, and the two failure points inside it: `None` when a command failed. */
    method Bump(r: Attempt, b: Bucket) returns (count: Option<nat>)
      modifies this
      ensures count.None? <==>
              Fails(r, Incr(b)) || (Fails(r, Expire(b)) && Bumped(old(cells), Key(r, b), r.now)[Key(r, b)].count == 1)
      ensures Fails(r, Incr(b)) ==> cells == old(cells)
      ensures !Fails(r, Incr(b)) && count.None? ==> cells == Bumped(old(cells), Key(r, b), r.now)
      ensures count.Some? ==>
                var bumped := Bumped(old(cells), Key(r, b), r.now);
                count.value == bumped[Key(r, b)].count &&
                cells == if count.value == 1
                         then bumped[Key(r, b) := Cell(1, Some(r.now + Window(r.policy, b)))]
                         else bumped
    {
      var key := Key(r, b);
      if Fails(r, Incr(b)) { return None; }
      if OpenAt(Look(cells, key), r.now) {
        cells := cells[key := Cell(cells[key].count + 1, cells[key].expiry)];
      } else {
        cells := cells[key := Cell(1, None)];
      }
      count := Some(cells[key].count);
      if count.value == 1 {
        if Fails(r, Expire(b)) { return None; }
        cells := cells[key := Cell(1, Some(r.now + Window(r.policy, b)))];
      }
    }

    /** `enforce_rate_limit`: decide first, raise last, so a dying store fails open. */
    method EnforceRateLimit(request: Request) returns (outcome: Outcome)
      modifies this
      ensures enabled ==> (outcome, cells) == Enforce(old(cells), Keyed(request))
      ensures !enabled ==> outcome == Admitted && cells == old(cells)
    {
      if !enabled { return Admitted; }
      outcome := CountAttempt(Keyed(request));
    }

    method CountAttempt(r: Attempt) returns (outcome: Outcome)
      modifies this
      ensures (outcome, cells) == Enforce(old(cells), r)
    {
      var retry: Option<int> := None;
      var failed := if r.fault.Some? && r.fault.value.Crash? then Died else FailedOpen;
      var n := Bump(r, IdBucket);
      if n.None? { return failed; }
      if n.value > r.policy.limit {
        if Fails(r, Ttl(IdBucket)) { return failed; }
        retry := Some(RetryAfter(Look(cells, Key(r, IdBucket)), r.now, Window(r.policy, IdBucket)));
      }
      if r.policy.ipLimit.Some? {
        // Charged even when the tight counter has already rejected.
        n := Bump(r, IpBucket);
        if n.None? { return failed; }
        if n.value > r.policy.ipLimit.value && retry.None? {
          if Fails(r, Ttl(IpBucket)) { return failed; }
          retry := Some(RetryAfter(Look(cells, Key(r, IpBucket)), r.now, Window(r.policy, IpBucket)));
        }
      }
      outcome := if retry.Some? then Rejected(retry.value) else Admitted;
    }
  }

  // ---------------------------------------------------------------- one counter, abstractly

  /** What one request may do to one counter with this limit and window: leave it alone and
      not be let through on its account, or count, and be let through only within the limit. */
  ghost predicate Ticks(before: Option<Cell>, after: Option<Cell>, now: int, limit: nat, window: int, through: bool) {
    || (after == before && !through)
    || (&& after.Some?
        && (if OpenAt(before, now)
            then after.value == Cell(before.value.count + 1, before.value.expiry)
            else after.value.count == 1 && after.value.expiry in {None, Some(now + window)})
        && (through ==> after.value.count <= limit))
  }

  /** While time is before `hi`: a generation that dies before `hi` began before `hi - window`,
      so everything let through so far was let through by it alone. */
  ghost predicate WithinGenerations(c: Option<Cell>, through: nat, limit: nat, hi: int) {
    match c
    case None => through == 0
    case Some(cell) =>
      through <= Min(limit, cell.count) + (if cell.expiry.Some? && cell.expiry.value < hi then 0 else limit)
  }

  lemma MeterStep(before: Option<Cell>, after: Option<Cell>, now: int, limit: nat, window: int, through: bool,
                  soFar: nat, lo: int)
    requires Ticks(before, after, now, limit, window, through)
    requires soFar <= 2 * limit && (now < lo ==> soFar == 0)
    requires now < lo + window ==> WithinGenerations(before, soFar, limit, lo + window)
    ensures var total := soFar + (if through && lo <= now < lo + window then 1 else 0);
            && total <= 2 * limit
            && (now < lo + window ==> WithinGenerations(after, total, limit, lo + window))
  {
  }

  // ---------------------------------------------------------------- traces

  function After(start: Cells, reqs: seq<Attempt>): Cells {
    if reqs == [] then start
    else Enforce(After(start, reqs[..|reqs| - 1]), reqs[|reqs| - 1]).1
  }

  function OutcomeAt(start: Cells, reqs: seq<Attempt>, i: nat): Outcome
    requires i < |reqs|
  {
    Enforce(After(start, reqs[..i]), reqs[i]).0
  }

  predicate LetThrough(o: Outcome) {
    o.Admitted? || o.FailedOpen?
  }

  ghost predicate Ordered(reqs: seq<Attempt>) {
    forall i, j :: 0 <= i < j < |reqs| ==> reqs[i].now <= reqs[j].now
  }

  /** `r` touches no counter of `q` but the one in the same role, and then under one policy. */
  ghost predicate Apart(r: Attempt, q: Attempt) {
    && r.idKey != q.ipKey && r.ipKey != q.idKey && r.idKey != r.ipKey
    && (r.idKey == q.idKey || r.ipKey == q.ipKey ==> r.policy == q.policy)
  }

  ghost predicate CrashesOnly(r: Attempt) {
    r.fault.Some? ==> r.fault.value.Crash?
  }

  ghost predicate Separated(reqs: seq<Attempt>, q: Attempt) {
    q.idKey != q.ipKey && forall i :: 0 <= i < |reqs| ==> Apart(reqs[i], q) && CrashesOnly(reqs[i])
  }

  /** How many requests charged to `key` were let through in `[lo, hi)`. */
  function Through(start: Cells, reqs: seq<Attempt>, b: Bucket, key: string, lo: int, hi: int): nat {
    if reqs == [] then 0
    else
      var n := |reqs| - 1;
      var last := reqs[n];
      Through(start, reqs[..n], b, key, lo, hi) +
      (if Key(last, b) == key && lo <= last.now < hi &&
          LetThrough(Enforce(After(start, reqs[..n]), last).0) then 1 else 0)
  }

  lemma ChargeFrame(cells: Cells, r: Attempt, b: Bucket, retry: Option<int>, key: string)
    requires key != Key(r, b)
    ensures Look(Charge(cells, r, b, retry).cells, key) == Look(cells, key)
  {
  }

  lemma ChargeTicks(cells: Cells, r: Attempt, b: Bucket, retry: Option<int>)
    ensures var p := Charge(cells, r, b, retry);
            Ticks(Look(cells, Key(r, b)), Look(p.cells, Key(r, b)), r.now, Limit(r.policy, b), Window(r.policy, b),
                  p.Going? && p.retry.None?)
    ensures var p := Charge(cells, r, b, retry); p.Going? && p.retry.None? ==> retry.None?
  {
  }

  /** Every request, of whatever scope, moves the counter of bucket `b` as `Ticks` allows. */
  lemma EnforceTicks(cells: Cells, r: Attempt, b: Bucket, q: Attempt)
    requires Apart(r, q) && CrashesOnly(r)
    requires b == IpBucket ==> q.policy.ipLimit.Some?
    ensures Ticks(Look(cells, Key(q, b)), Look(Enforce(cells, r).1, Key(q, b)), r.now,
                  Limit(q.policy, b), Window(q.policy, b), Key(r, b) == Key(q, b) && LetThrough(Enforce(cells, r).0))
  {
    var id := Charge(cells, r, IdBucket, None);
    ChargeTicks(cells, r, IdBucket, None);
    if Key(r, IdBucket) != Key(q, b) { ChargeFrame(cells, r, IdBucket, None, Key(q, b)); }
    if !id.Halted? && r.policy.ipLimit.Some? {
      ChargeTicks(id.cells, r, IpBucket, id.retry);
      if Key(r, IpBucket) != Key(q, b) { ChargeFrame(id.cells, r, IpBucket, id.retry, Key(q, b)); }
    }
  }

  /** The bound for one counter, crashes included. */
  lemma {:induction false} CounterBound(start: Cells, reqs: seq<Attempt>, b: Bucket, q: Attempt, lo: int)
    requires Ordered(reqs) && Separated(reqs, q)
    requires b == IpBucket ==> q.policy.ipLimit.Some?
    ensures var hi := lo + Window(q.policy, b);
            var through := Through(start, reqs, b, Key(q, b), lo, hi);
            && through <= 2 * Limit(q.policy, b)
            && (reqs == [] || reqs[|reqs| - 1].now < hi ==>
                  WithinGenerations(Look(After(start, reqs), Key(q, b)), through, Limit(q.policy, b), hi))
            && (reqs == [] || reqs[|reqs| - 1].now < lo ==> through == 0)
    decreases |reqs|
  {
    if reqs != [] {
      var n := |reqs| - 1;
      CounterBound(start, reqs[..n], b, q, lo);
      assert n > 0 ==> reqs[..n][n - 1] == reqs[n - 1] && reqs[n - 1].now <= reqs[n].now;
      var before, r := After(start, reqs[..n]), reqs[n];
      assert Apart(r, q) && CrashesOnly(r);
      EnforceTicks(before, r, b, q);
      MeterStep(Look(before, Key(q, b)), Look(Enforce(before, r).1, Key(q, b)), r.now, Limit(q.policy, b),
                Window(q.policy, b), Key(r, b) == Key(q, b) && LetThrough(Enforce(before, r).0),
                Through(start, reqs[..n], b, Key(q, b), lo, lo + Window(q.policy, b)), lo);
    }
  }

  /** In the window-long interval from `lo`, both counters of `q` let at most twice their limit through. */
  ghost predicate AtMostTwiceTheLimit(start: Cells, reqs: seq<Attempt>, q: Attempt, lo: int) {
    && Through(start, reqs, IdBucket, q.idKey, lo, lo + q.policy.window) <= 2 * q.policy.limit
    && (q.policy.ipLimit.Some? ==>
          Through(start, reqs, IpBucket, q.ipKey, lo, lo + Window(q.policy, IpBucket)) <= 2 * q.policy.ipLimit.value)
  }

  lemma CountersBound(start: Cells, reqs: seq<Attempt>, q: Attempt, lo: int)
    requires Ordered(reqs) && Separated(reqs, q)
    ensures AtMostTwiceTheLimit(start, reqs, q, lo)
  {
    CounterBound(start, reqs, IdBucket, q, lo);
    if q.policy.ipLimit.Some? { CounterBound(start, reqs, IpBucket, q, lo); }
  }

  // ---------------------------------------------------------------- the coarse counter counts everything

  function Attempts(reqs: seq<Attempt>, key: string, from: int): nat {
    if reqs == [] then 0
    else
      var n := |reqs| - 1;
      Attempts(reqs[..n], key, from) + (if Key(reqs[n], IpBucket) == key && from <= reqs[n].now then 1 else 0)
  }

  ghost predicate Faultless(reqs: seq<Attempt>) {
    forall i :: 0 <= i < |reqs| ==> reqs[i].fault.None?
  }

  lemma {:induction false} NoAttemptsFrom(reqs: seq<Attempt>, key: string, from: int)
    requires forall i :: 0 <= i < |reqs| && Key(reqs[i], IpBucket) == key ==> reqs[i].now < from
    ensures Attempts(reqs, key, from) == 0
    decreases |reqs|
  {
    if reqs != [] {
      NoAttemptsFrom(reqs[..|reqs| - 1], key, from);
    }
  }

  /** An undisturbed attempt always advances its address's counter, whatever the tight counter said. */
  lemma EnforceChargesIp(cells: Cells, r: Attempt, q: Attempt)
    requires Apart(r, q) && r.fault.None? && q.policy.ipLimit.Some?
    ensures var before, after := Look(cells, q.ipKey), Look(Enforce(cells, r).1, q.ipKey);
            if r.ipKey != q.ipKey then after == before
            else if OpenAt(before, r.now) && before.value.expiry.Some? then
              after == Some(Cell(before.value.count + 1, before.value.expiry))
            else OpenAt(before, r.now) || after == Some(Cell(1, Some(r.now + Window(q.policy, IpBucket))))
  {
    ChargeFrame(cells, r, IdBucket, None, q.ipKey);
    var id := Charge(cells, r, IdBucket, None);
    assert id.Going?;
    if r.ipKey != q.ipKey { ChargeFrame(id.cells, r, IpBucket, id.retry, q.ipKey); }
  }

  ghost predicate CountsAttempts(c: Option<Cell>, reqs: seq<Attempt>, key: string, window: int) {
    match c
    case None => forall i :: 0 <= i < |reqs| ==> reqs[i].ipKey != key
    case Some(cell) =>
      && cell.expiry.Some?
      && cell.count == Attempts(reqs, key, cell.expiry.value - window)
      && reqs != [] && cell.expiry.value - window <= reqs[|reqs| - 1].now
      && forall i :: 0 <= i < |reqs| && reqs[i].ipKey == key ==> reqs[i].now < cell.expiry.value
  }

  /** The ip counter holds exactly the attempts its address made since the window opened,
      those the tight counter rejected included. */
  lemma {:induction false} IpCounterCountsEveryAttempt(reqs: seq<Attempt>, q: Attempt)
    requires Ordered(reqs) && Separated(reqs, q) && Faultless(reqs)
    requires q.policy.ipLimit.Some? && Window(q.policy, IpBucket) > 0
    ensures CountsAttempts(Look(After(map[], reqs), q.ipKey), reqs, q.ipKey, Window(q.policy, IpBucket))
    decreases |reqs|
  {
    if reqs != [] {
      var n := |reqs| - 1;
      var r, before := reqs[n], After(map[], reqs[..n]);
      IpCounterCountsEveryAttempt(reqs[..n], q);
      assert Apart(r, q);
      EnforceChargesIp(before, r, q);
      CountsStep(Look(before, q.ipKey), Look(Enforce(before, r).1, q.ipKey), reqs, q);
    }
  }

  lemma CountsStep(before: Option<Cell>, after: Option<Cell>, reqs: seq<Attempt>, q: Attempt)
    requires reqs != [] && Ordered(reqs) && Window(q.policy, IpBucket) > 0
    requires CountsAttempts(before, reqs[..|reqs| - 1], q.ipKey, Window(q.policy, IpBucket))
    requires var r := reqs[|reqs| - 1];
             if r.ipKey != q.ipKey then after == before
             else if OpenAt(before, r.now) then after == Some(Cell(before.value.count + 1, before.value.expiry))
             else after == Some(Cell(1, Some(r.now + Window(q.policy, IpBucket))))
    ensures CountsAttempts(after, reqs, q.ipKey, Window(q.policy, IpBucket))
  {
    var n := |reqs| - 1;
    var r := reqs[n];
    assert forall i :: 0 <= i < n ==> reqs[..n][i] == reqs[i] && reqs[i].now <= r.now;
    if r.ipKey == q.ipKey && !OpenAt(before, r.now) {
      NoAttemptsFrom(reqs[..n], q.ipKey, r.now);
    }
  }

  function AllAttempts(reqs: seq<Attempt>, key: string): nat {
    if reqs == [] then 0
    else AllAttempts(reqs[..|reqs| - 1], key) + (if Key(reqs[|reqs| - 1], IpBucket) == key then 1 else 0)
  }

  /** The counter is at most the attempts since its window opened, or since ever without expiry. */
  ghost predicate NeverOvercounts(c: Option<Cell>, reqs: seq<Attempt>, key: string, window: int) {
    match c
    case None => true
    case Some(cell) =>
      if cell.expiry.None? then cell.count <= AllAttempts(reqs, key)
      else
        && cell.count <= Attempts(reqs, key, cell.expiry.value - window)
        && reqs != [] && cell.expiry.value - window <= reqs[|reqs| - 1].now
  }

  lemma OvercountStep(before: Option<Cell>, after: Option<Cell>, reqs: seq<Attempt>, q: Attempt, through: bool)
    requires reqs != [] && Ordered(reqs)
    requires NeverOvercounts(before, reqs[..|reqs| - 1], q.ipKey, Window(q.policy, IpBucket))
    requires var r := reqs[|reqs| - 1];
             if r.ipKey != q.ipKey then after == before
             else Ticks(before, after, r.now, Limit(q.policy, IpBucket), Window(q.policy, IpBucket), through)
    ensures NeverOvercounts(after, reqs, q.ipKey, Window(q.policy, IpBucket))
  {
  }

  /** Whatever crashes, the ip counter never exceeds the attempts its address really made: an
      address is never rejected on another's account. */
  lemma {:induction false} IpCounterNeverOvercounts(reqs: seq<Attempt>, q: Attempt)
    requires Ordered(reqs) && Separated(reqs, q) && q.policy.ipLimit.Some?
    ensures NeverOvercounts(Look(After(map[], reqs), q.ipKey), reqs, q.ipKey, Window(q.policy, IpBucket))
    decreases |reqs|
  {
    if reqs != [] {
      var n := |reqs| - 1;
      var r, before := reqs[n], After(map[], reqs[..n]);
      IpCounterNeverOvercounts(reqs[..n], q);
      assert Apart(r, q);
      EnforceTicks(before, r, IpBucket, q);
      if r.ipKey != q.ipKey { EnforceFrame(before, r, q.ipKey); }
      OvercountStep(Look(before, q.ipKey), Look(Enforce(before, r).1, q.ipKey), reqs, q,
                    Key(r, IpBucket) == q.ipKey && LetThrough(Enforce(before, r).0));
    }
  }

  lemma EnforceFrame(cells: Cells, r: Attempt, key: string)
    requires key != r.idKey && key != r.ipKey
    ensures Look(Enforce(cells, r).1, key) == Look(cells, key)
  {
    var id := Charge(cells, r, IdBucket, None);
    ChargeFrame(cells, r, IdBucket, None, key);
    if id.Going? { ChargeFrame(id.cells, r, IpBucket, id.retry, key); }
  }

  /** An undisturbed attempt is let through exactly when both counters, this attempt included,
      are within their limits; otherwise it is a 429. */
  lemma AdmittedExactlyWithinLimits(cells: Cells, r: Attempt)
    requires r.fault.None? && r.idKey != r.ipKey
    ensures var (o, after) := Enforce(cells, r);
            && r.idKey in after && (r.policy.ipLimit.Some? ==> r.ipKey in after)
            && (o.Admitted? || o.Rejected?)
            && (o.Admitted? <==>
                  && after[r.idKey].count <= r.policy.limit
                  && (r.policy.ipLimit.Some? ==> after[r.ipKey].count <= r.policy.ipLimit.value))
  {
    var id := Charge(cells, r, IdBucket, None);
    if r.policy.ipLimit.Some? { ChargeFrame(id.cells, r, IpBucket, id.retry, r.idKey); }
  }

  // ---------------------------------------------------------------- Retry-After

  /** The bucket whose counter produced the 429. */
  function RejectingBucket(cells: Cells, r: Attempt): Bucket {
    if Bumped(cells, Key(r, IdBucket), r.now)[Key(r, IdBucket)].count > r.policy.limit then IdBucket else IpBucket
  }

  /** `Retry-After` is positive, and for a counter with an expiry it is the least wait that finds the
      counter gone: it is still there at every moment before and at none after. A crash between `INCR`
      and `EXPIRE` leaves a counter without, which is there at every moment, and then the fallback to
      the full window is an under-estimate, contrary to the comment beside it. */
  lemma RetryAfterHonest(cells: Cells, r: Attempt)
    requires Enforce(cells, r).0.Rejected?
    requires Window(r.policy, IdBucket) > 0 && Window(r.policy, IpBucket) > 0 && r.idKey != r.ipKey
    ensures var (o, after) := Enforce(cells, r);
            var c := Look(after, Key(r, RejectingBucket(cells, r)));
            && o.retryAfter > 0
            && c.Some?
            && (c.value.expiry.Some? ==> forall t :: r.now <= t ==> (OpenAt(c, t) <==> t < r.now + o.retryAfter))
            && (c.value.expiry.None? ==> o.retryAfter == Window(r.policy, RejectingBucket(cells, r)) && forall t :: OpenAt(c, t))
  {
    var id := Charge(cells, r, IdBucket, None);
    if r.policy.ipLimit.Some? { ChargeFrame(id.cells, r, IpBucket, id.retry, Key(r, IdBucket)); }
    ChargeFrame(cells, r, IdBucket, None, Key(r, IpBucket));
  }

  /** Without faults every counter has an expiry, so every `Retry-After` of such a trace is honest. */
  lemma {:induction false} FaultlessCountersExpire(reqs: seq<Attempt>)
    requires Faultless(reqs)
    ensures AllExpire(After(map[], reqs))
    decreases |reqs|
  {
    if reqs != [] {
      var n := |reqs| - 1;
      FaultlessCountersExpire(reqs[..n]);
      var before, r := After(map[], reqs[..n]), reqs[n];
      ChargeExpires(before, r, IdBucket, None);
      var id := Charge(before, r, IdBucket, None);
      ChargeExpires(id.cells, r, IpBucket, if id.Going? then id.retry else None);
    }
  }

  predicate AllExpire(cells: Cells) {
    forall k :: k in cells ==> cells[k].expiry.Some?
  }

  lemma ChargeExpires(cells: Cells, r: Attempt, b: Bucket, retry: Option<int>)
    requires AllExpire(cells) && r.fault.None?
    ensures AllExpire(Charge(cells, r, b, retry).cells)
  {
  }

  ghost predicate Stuck(cells: Cells, key: string, limit: nat) {
    key in cells && cells[key].expiry.None? && cells[key].count >= limit
  }

  lemma ChargeStuck(cells: Cells, r: Attempt, b: Bucket, retry: Option<int>, key: string, limit: nat)
    requires Stuck(cells, key, limit)
    ensures Stuck(Charge(cells, r, b, retry).cells, key, limit)
  {
    if key != Key(r, b) { ChargeFrame(cells, r, b, retry, key); }
  }

  /** A full counter without expiry locks its pair out for ever: in every later trace every
      undisturbed attempt on it is a 429. */
  lemma {:induction false} StuckKeyRejectsForever(start: Cells, reqs: seq<Attempt>, q: Attempt)
    requires Stuck(start, Key(q, IdBucket), q.policy.limit)
    requires Separated(reqs, q)
    ensures Stuck(After(start, reqs), Key(q, IdBucket), q.policy.limit)
    ensures forall i :: 0 <= i < |reqs| && reqs[i].fault.None? && Key(reqs[i], IdBucket) == Key(q, IdBucket) ==>
              OutcomeAt(start, reqs, i).Rejected?
    decreases |reqs|
  {
    if reqs != [] {
      var n := |reqs| - 1;
      StuckKeyRejectsForever(start, reqs[..n], q);
      var before, r := After(start, reqs[..n]), reqs[n];
      var id := Charge(before, r, IdBucket, None);
      ChargeStuck(before, r, IdBucket, None, Key(q, IdBucket), q.policy.limit);
      if id.Going? { ChargeStuck(id.cells, r, IpBucket, id.retry, Key(q, IdBucket), q.policy.limit); }
      assert Apart(r, q);
      forall i | 0 <= i < |reqs| && reqs[i].fault.None? && Key(reqs[i], IdBucket) == Key(q, IdBucket)
        ensures OutcomeAt(start, reqs, i).Rejected?
      {
        if i < n {
          assert reqs[..n][..i] == reqs[..i];
          assert OutcomeAt(start, reqs[..n], i).Rejected?;
        }
      }
    }
  }

  /** How many attempts of a trace reach the `INCR` of this tight counter. */
  function Increments(reqs: seq<Attempt>, key: string): nat {
    if reqs == [] then 0
    else
      var r := reqs[|reqs| - 1];
      Increments(reqs[..|reqs| - 1], key) + (if r.idKey == key && !Fails(r, Incr(IdBucket)) then 1 else 0)
  }

  lemma ChargeCountsOn(cells: Cells, r: Attempt, b: Bucket, retry: Option<int>, key: string)
    requires key in cells && cells[key].expiry.None?
    ensures Look(Charge(cells, r, b, retry).cells, key) ==
            Some(Cell(cells[key].count + (if key == Key(r, b) && !Fails(r, Incr(b)) then 1 else 0), None))
  {
    if key != Key(r, b) { ChargeFrame(cells, r, b, retry, key); }
  }

  /** A counter without expiry never resets: it goes on counting every attempt of its pair. */
  lemma {:induction false} OpenCounterCountsOn(start: Cells, reqs: seq<Attempt>, q: Attempt)
    requires q.idKey in start && start[q.idKey].expiry.None? && Separated(reqs, q)
    ensures Look(After(start, reqs), q.idKey) == Some(Cell(start[q.idKey].count + Increments(reqs, q.idKey), None))
    decreases |reqs|
  {
    if reqs != [] {
      var n := |reqs| - 1;
      OpenCounterCountsOn(start, reqs[..n], q);
      var before, r := After(start, reqs[..n]), reqs[n];
      assert Apart(r, q);
      var id := Charge(before, r, IdBucket, None);
      ChargeCountsOn(before, r, IdBucket, None, q.idKey);
      if id.Going? { ChargeCountsOn(id.cells, r, IpBucket, id.retry, q.idKey); }
    }
  }

  /** One crash between `INCR` and `EXPIRE` leaves a counter of one without expiry. */
  lemma CrashLeavesNoExpiry(start: Cells, r: Attempt)
    requires r.fault == Some(Crash(Expire(IdBucket))) && !OpenAt(Look(start, r.idKey), r.now)
    ensures Enforce(start, r).0 == Died
    ensures Look(Enforce(start, r).1, r.idKey) == Some(Cell(1, None))
  {
  }

  /** Main theorem, for every limit: a pair whose window opens with a crash between `INCR` and
      `EXPIRE` is stuck exactly when, together with that attempt, `limit` of its attempts have been
      counted, at whatever times; and from then on every undisturbed attempt it makes in any later
      trace is a 429. */
  lemma OneCrashLocksThePairOut(start: Cells, r: Attempt, reqs: seq<Attempt>, later: seq<Attempt>)
    requires r.fault == Some(Crash(Expire(IdBucket))) && !OpenAt(Look(start, r.idKey), r.now)
    requires Separated(reqs, r) && Separated(later, r)
    ensures var now := After(Enforce(start, r).1, reqs);
            && (Stuck(now, r.idKey, r.policy.limit) <==> 1 + Increments(reqs, r.idKey) >= r.policy.limit)
            && (1 + Increments(reqs, r.idKey) >= r.policy.limit ==>
                  forall i :: 0 <= i < |later| && later[i].fault.None? && later[i].idKey == r.idKey ==>
                    OutcomeAt(now, later, i).Rejected?)
  {
    CrashLeavesNoExpiry(start, r);
    OpenCounterCountsOn(Enforce(start, r).1, reqs, r);
    var now := After(Enforce(start, r).1, reqs);
    if Stuck(now, r.idKey, r.policy.limit) { StuckKeyRejectsForever(now, later, r); }
  }

  // ---------------------------------------------------------------- keys

  predicate ColonFree(s: string) {
    ':' !in s
  }

  lemma SplitAtColon(a: string, x: string, b: string, y: string)
    requires ColonFree(a) && ColonFree(b)
    requires a + ":" + x == b + ":" + y
    ensures a == b && x == y
  {
    var s := a + ":" + x;
    assert s[|a|] == ':' && s[|b|] == ':';
    assert |a| == |b|;
    assert a == s[..|a|] == b;
    assert x == s[|a| + 1..] == y;
  }

  lemma RenderedInjective(scope: string, ns: string, text: string, scope': string, ns': string, text': string)
    requires ColonFree(scope) && ColonFree(scope') && ColonFree(ns) && ColonFree(ns')
    requires Rendered(scope, ns, text) == Rendered(scope', ns', text')
    ensures scope == scope' && ns == ns' && text == text'
  {
    var x, x' := ns + ":" + text, ns' + ":" + text';
    var y, y' := scope + ":" + x, scope' + ":" + x';
    assert ns + ":" + text == ns + (":" + text) && scope + (":" + x) == y;
    assert ("rl:" + y)[3..] == y && ("rl:" + y')[3..] == y';
    SplitAtColon(scope, x, scope', x');
    SplitAtColon(ns, text, ns', text');
  }

  /** Two requests share a counter only inside one scope and one namespace: `id:` and `ip:`
      keys never meet, an `ip:` key determines the address, an `id:` key determines the
      text `ip:identifier`. */
  lemma KeySeparation(r: Request, q: Request)
    requires ColonFree(r.policy.scope) && ColonFree(q.policy.scope)
    ensures Keyed(r).idKey != Keyed(q).ipKey
    ensures Keyed(r).idKey == Keyed(q).idKey <==> r.policy.scope == q.policy.scope && IdText(r) == IdText(q)
    ensures Keyed(r).ipKey == Keyed(q).ipKey <==> r.policy.scope == q.policy.scope && r.ip == q.ip
  {
    var s, t := r.policy.scope, q.policy.scope;
    if Rendered(s, "id", IdText(r)) == Rendered(t, "ip", q.ip) { RenderedInjective(s, "id", IdText(r), t, "ip", q.ip); }
    if Rendered(s, "id", IdText(r)) == Rendered(t, "id", IdText(q)) { RenderedInjective(s, "id", IdText(r), t, "id", IdText(q)); }
    if Rendered(s, "ip", r.ip) == Rendered(t, "ip", q.ip) { RenderedInjective(s, "ip", r.ip, t, "ip", q.ip); }
  }

  /** With colon-free addresses the tight counter belongs to exactly one (ip, identifier) pair. */
  lemma TightKeyIdentity(r: Request, q: Request)
    requires r.policy == q.policy && ColonFree(r.policy.scope) && ColonFree(r.ip) && ColonFree(q.ip)
    ensures Keyed(r).idKey == Keyed(q).idKey <==> r.ip == q.ip && Clean(r.identifier) == Clean(q.identifier)
  {
    KeySeparation(r, q);
    if IdText(r) == IdText(q) { SplitAtColon(r.ip, Clean(r.identifier), q.ip, Clean(q.identifier)); }
  }

  /** `b` is `a` and ":" and a text which, with another ":", starts `x` before `y`. */
  ghost predicate Shifted(a: string, x: string, b: string, y: string) {
    exists moved :: ShiftedBy(a, x, b, y, moved)
  }

  predicate ShiftedBy(a: string, x: string, b: string, y: string, moved: string) {
    b == a + ":" + moved && x == moved + ":" + y
  }

  lemma Regrouped(a: string, x: string, b: string, y: string, moved: string)
    requires ShiftedBy(a, x, b, y, moved)
    ensures a + ":" + x == b + ":" + y
  {
    assert (a + ":" + moved) + ":" + y == a + ":" + (moved + ":" + y);
  }

  lemma LongerAddress(a: string, x: string, b: string, y: string)
    requires a + ":" + x == b + ":" + y && |a| < |b|
    ensures Shifted(a, x, b, y)
  {
    var s, t := a + ":" + x, b + ":" + y;
    var moved := b[|a| + 1..];
    assert b == t[..|b|] && s[..|a|] == a && s[|a|] == ':';
    assert b == a + ":" + moved;
    assert x == s[|a| + 1..];
    assert moved + ":" + y == t[|a| + 1..];
    assert ShiftedBy(a, x, b, y, moved);
  }

  /** Two texts `address:identifier` agree exactly when they are the same pair or one address
      goes on into the other identifier. */
  lemma SharedTextExactly(a: string, x: string, b: string, y: string)
    ensures a + ":" + x == b + ":" + y <==> (a == b && x == y) || Shifted(a, x, b, y) || Shifted(b, y, a, x)
  {
    if a + ":" + x == b + ":" + y {
      if |a| < |b| { LongerAddress(a, x, b, y); }
      else if |b| < |a| { LongerAddress(b, y, a, x); }
      else {
        assert (a + ":" + x)[..|a|] == a && (b + ":" + y)[..|a|] == b;
        assert (a + ":" + x)[|a| + 1..] == x && (b + ":" + y)[|a| + 1..] == y;
      }
    }
    if m :| ShiftedBy(a, x, b, y, m) { Regrouped(a, x, b, y, m); }
    if m :| ShiftedBy(b, y, a, x, m) { Regrouped(b, y, a, x, m); }
  }

  /** Two different (address, identifier) pairs of one scope share the tight counter exactly when
      one address is the other, ":" and a text that, followed by ":", starts the other identifier.
      IPv6 addresses make that possible. */
  lemma TightKeySharedExactly(r: Request, q: Request)
    requires r.policy.scope == q.policy.scope && ColonFree(r.policy.scope)
    requires r.ip != q.ip || Clean(r.identifier) != Clean(q.identifier)
    ensures Keyed(r).idKey == Keyed(q).idKey <==>
              || Shifted(r.ip, Clean(r.identifier), q.ip, Clean(q.identifier))
              || Shifted(q.ip, Clean(q.identifier), r.ip, Clean(r.identifier))
  {
    KeySeparation(r, q);
    SharedTextExactly(r.ip, Clean(r.identifier), q.ip, Clean(q.identifier));
  }

  /** Crashes are allowed; an unreachable store is not. Scopes are colon-free literals, and the
      call sites of one scope agree on its parameters. */
  ghost predicate Deployment(reqs: seq<Request>, p: Policy) {
    ColonFree(p.scope) &&
    forall i :: 0 <= i < |reqs| ==>
      && ColonFree(reqs[i].policy.scope)
      && (reqs[i].policy.scope == p.scope ==> reqs[i].policy == p)
      && (reqs[i].fault.Some? ==> reqs[i].fault.value.Crash?)
  }

  function AllKeyed(reqs: seq<Request>): seq<Attempt> {
    seq(|reqs|, i requires 0 <= i < |reqs| => Keyed(reqs[i]))
  }

  /** The building of keys delivers what the counting needs. */
  lemma DeploymentSeparates(reqs: seq<Request>, q: Request)
    requires Deployment(reqs, q.policy)
    requires forall i, j :: 0 <= i < j < |reqs| ==> reqs[i].now <= reqs[j].now
    ensures Separated(AllKeyed(reqs), Keyed(q)) && Ordered(AllKeyed(reqs))
  {
    KeySeparation(q, q);
    forall i | 0 <= i < |reqs|
      ensures Apart(AllKeyed(reqs)[i], Keyed(q)) && CrashesOnly(AllKeyed(reqs)[i])
    {
      KeySeparation(reqs[i], q);
      KeySeparation(q, reqs[i]);
      KeySeparation(reqs[i], reqs[i]);
    }
  }

  /** Main theorem. Whatever the store held before, whatever other endpoints counted, and
      however many processes crashed between `INCR` and `EXPIRE`: any half-open interval as
      long as the window lets through at most twice the limit, per (ip, identifier) and -
      however identifiers rotate - per ip. */
  lemma WindowBound(start: Cells, reqs: seq<Request>, q: Request, lo: int)
    requires Deployment(reqs, q.policy) && forall i, j :: 0 <= i < j < |reqs| ==> reqs[i].now <= reqs[j].now
    ensures AtMostTwiceTheLimit(start, AllKeyed(reqs), Keyed(q), lo)
  {
    DeploymentSeparates(reqs, q);
    CountersBound(start, AllKeyed(reqs), Keyed(q), lo);
  }
}
