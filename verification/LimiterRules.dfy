/** What one attempt does to its two counters, and when a fault lets it through. */
module LimiterRules {
  import opened Prelude
  import opened RateLimiter

  /** The counter stands: it is there and has not expired. */
  predicate Stands(cells: Cells, key: string, now: int) {
    key in cells && (cells[key].expiry.Some? ==> now < cells[key].expiry.value)
  }

  /** What the counter says with this attempt. */
  function CountNow(cells: Cells, key: string, now: int): nat {
    if Stands(cells, key, now) then cells[key].count + 1 else 1
  }

  /** The address has a window of its own, or shares the pair's. */
  function AddressWindow(p: Policy): int {
    if p.ipWindow == 0 then p.window else p.ipWindow
  }

  /** A standing counter goes up and keeps its expiry; otherwise one of one starts for the window. */
  function Counted(cells: Cells, key: string, now: int, window: int): Cell {
    if Stands(cells, key, now) then Cell(cells[key].count + 1, cells[key].expiry) else Cell(1, Some(now + window))
  }

  /** The attempt would send the command: always the first increment, the other one where addresses are
      limited; the expiry of a counter that does not stand; and the time to live of the first one over
      its limit. */
  predicate Sends(cells: Cells, r: Attempt, c: Command) {
    match c
    case Incr(IdBucket) => true
    case Expire(IdBucket) => !Stands(cells, r.idKey, r.now)
    case Ttl(IdBucket) => CountNow(cells, r.idKey, r.now) > r.policy.limit
    case Incr(IpBucket) => r.policy.ipLimit.Some?
    case Expire(IpBucket) => r.policy.ipLimit.Some? && !Stands(cells, r.ipKey, r.now)
    case Ttl(IpBucket) =>
      && r.policy.ipLimit.Some? && CountNow(cells, r.ipKey, r.now) > r.policy.ipLimit.value
      && CountNow(cells, r.idKey, r.now) <= r.policy.limit
  }

  predicate Hit(cells: Cells, r: Attempt) {
    r.fault.Some? && Sends(cells, r, r.fault.value.at)
  }

  /** Charging one bucket, without a fault that hits it. */
  lemma ChargeCounts(cells: Cells, r: Attempt, b: Bucket, retry: Option<int>)
    requires !Fails(r, Incr(b)) && (Fails(r, Expire(b)) ==> Stands(cells, Key(r, b), r.now))
    requires Fails(r, Ttl(b)) ==> CountNow(cells, Key(r, b), r.now) <= Limit(r.policy, b) || retry.Some?
    ensures var p := Charge(cells, r, b, retry);
            && p.Going? && p.cells == cells[Key(r, b) := Counted(cells, Key(r, b), r.now, Window(r.policy, b))]
            && (p.retry.Some? <==> retry.Some? || CountNow(cells, Key(r, b), r.now) > Limit(r.policy, b))
  {
  }

  lemma ChargeHalts(cells: Cells, r: Attempt, b: Bucket, retry: Option<int>)
    ensures Charge(cells, r, b, retry).Halted? <==>
              || Fails(r, Incr(b)) || (Fails(r, Expire(b)) && !Stands(cells, Key(r, b), r.now))
              || (Fails(r, Ttl(b)) && CountNow(cells, Key(r, b), r.now) > Limit(r.policy, b) && retry.None?)
  {
  }

  /** Main theorem: a fault decides exactly when it hits a command the attempt sends; the attempt then
      passes unanswered by the limiter, or dies with the process. Otherwise it leaves exactly its two
      counters changed, and is rejected exactly when one is over its limit. */
  lemma FaultsFailOpenExactly(cells: Cells, r: Attempt)
    requires r.idKey != r.ipKey
    ensures var (o, after) := Enforce(cells, r);
            && (o == FailedOpen <==> Hit(cells, r) && r.fault.value.StoreDown?)
            && (o == Died <==> Hit(cells, r) && r.fault.value.Crash?)
            && (!Hit(cells, r) ==>
                  && r.idKey in after && after[r.idKey] == Counted(cells, r.idKey, r.now, r.policy.window)
                  && (r.policy.ipLimit.Some? ==>
                        r.ipKey in after && after[r.ipKey] == Counted(cells, r.ipKey, r.now, AddressWindow(r.policy)))
                  && (forall k :: k != r.idKey && (r.policy.ipLimit.Some? ==> k != r.ipKey) ==>
                        (k in after <==> k in cells) && (k in cells ==> after[k] == cells[k]))
                  && (o.Rejected? <==> Sends(cells, r, Ttl(IdBucket)) || Sends(cells, r, Ttl(IpBucket))))
  {
    hide Charge, CountNow, Counted, Stands;
    ChargeHalts(cells, r, IdBucket, None);
    var id := Charge(cells, r, IdBucket, None);
    if id.Going? {
      ChargeCounts(cells, r, IdBucket, None);
      if r.policy.ipLimit.Some? {
        SameElsewhere(cells, Counted(cells, r.idKey, r.now, r.policy.window), r);
        ChargeHalts(id.cells, r, IpBucket, id.retry);
        if Charge(id.cells, r, IpBucket, id.retry).Going? { ChargeCounts(id.cells, r, IpBucket, id.retry); }
      }
    }
  }

  /** Charging the pair leaves the address's counter alone. */
  lemma SameElsewhere(cells: Cells, c: Cell, r: Attempt)
    requires r.idKey != r.ipKey
    ensures Stands(cells[r.idKey := c], r.ipKey, r.now) == Stands(cells, r.ipKey, r.now)
    ensures CountNow(cells[r.idKey := c], r.ipKey, r.now) == CountNow(cells, r.ipKey, r.now)
    ensures forall w :: Counted(cells[r.idKey := c], r.ipKey, r.now, w) == Counted(cells, r.ipKey, r.now, w)
  {
  }
}
