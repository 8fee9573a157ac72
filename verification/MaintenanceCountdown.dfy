/** The countdown of the maintenance command (maintenance.py `run_countdown`), in milliseconds. */
module MaintenanceCountdown {
  import opened Prelude

  const COUNTDOWN_SECONDS: nat := 10

  /** Whole seconds left of `total` milliseconds, rounded up. */
  function Remaining(total: nat, elapsed: nat): nat {
    if elapsed >= total then 0 else (total - elapsed + 999) / 1000
  }

  /** The first `k` numbers counting down from `n`. */
  function Down(n: nat, k: nat): (s: seq<nat>)
    requires k <= n
    ensures |s| == k
    ensures forall i :: 0 <= i < k ==> s[i] == n - i
  {
    seq(k, i requires 0 <= i < k => n - i)
  }

  lemma RemainingFalls(total: nat, e: nat, f: nat)
    requires e <= f
    ensures Remaining(total, f) <= Remaining(total, e)
    ensures Remaining(total, e) == 0 <==> e >= total
    ensures f <= e + 1000 ==> Remaining(total, e) <= Remaining(total, f) + 1
  {
  }

  lemma RemainingAtStart(seconds: nat)
    ensures Remaining(1000 * seconds, 0) == seconds
  {
  }

  function Shown(shown: seq<nat>, remaining: nat): seq<nat> {
    if shown != [] && shown[|shown| - 1] == remaining then shown else shown + [remaining]
  }

  /** What exact 100 ms sleeps have shown when `elapsed` has passed. */
  ghost predicate OnBeat(seconds: nat, elapsed: nat, shown: seq<nat>) {
    && elapsed <= 1000 * seconds && elapsed % 100 == 0
    && if elapsed == 0 then shown == []
       else
         var left := Remaining(1000 * seconds, elapsed - 100);
         1 <= left <= seconds && shown == Down(seconds, seconds + 1 - left)
  }

  lemma BeatStep(seconds: nat, elapsed: nat, shown: seq<nat>)
    requires OnBeat(seconds, elapsed, shown) && elapsed < 1000 * seconds
    ensures OnBeat(seconds, elapsed + 100, Shown(shown, Remaining(1000 * seconds, elapsed)))
  {
    var total := 1000 * seconds;
    var now := Remaining(total, elapsed);
    RemainingFalls(total, elapsed, elapsed);
    RemainingFalls(total, 0, elapsed);
    RemainingAtStart(seconds);
    if elapsed > 0 {
      var left := Remaining(total, elapsed - 100);
      RemainingFalls(total, elapsed - 100, elapsed);
      assert shown[|shown| - 1] == left;
      assert Shown(shown, now) == Down(seconds, seconds + 1 - now);
    } else {
      assert Shown(shown, now) == Down(seconds, 1);
    }
  }

  predicate Falling(shown: seq<nat>, high: nat) {
    && (forall i :: 0 <= i < |shown| ==> 1 <= shown[i] <= high)
    && (forall i, j :: 0 <= i < j < |shown| ==> shown[i] > shown[j])
  }

  lemma FallingStep(shown: seq<nat>, high: nat, remaining: nat)
    requires Falling(shown, high) && 1 <= remaining <= high
    requires shown != [] ==> remaining <= shown[|shown| - 1]
    ensures Falling(Shown(shown, remaining), high)
  {
  }

  /** Every sleep is exact. */
  ghost predicate Exact(delays: nat -> nat) {
    forall i :: delays(i) == 0
  }

  lemma ExactMeans(delays: nat -> nat, p: nat)
    requires Exact(delays)
    ensures delays(p) == 0
  {
  }

  /** Facts about one pass that shows `remaining` and sleeps for `nap` and a `delay`. */
  lemma PassStep(seconds: nat, elapsed: nat, shown: seq<nat>, nap: nat, delay: nat, exact: bool)
    requires elapsed < 1000 * seconds && nap == if 1000 * seconds - elapsed < 100 then 1000 * seconds - elapsed else 100
    requires Falling(shown, seconds) && (shown != [] ==> Remaining(1000 * seconds, elapsed) <= shown[|shown| - 1])
    requires exact ==> OnBeat(seconds, elapsed, shown) && delay == 0
    ensures var (remaining, after) := (Remaining(1000 * seconds, elapsed), elapsed + nap + delay);
            && Falling(Shown(shown, remaining), seconds)
            && Remaining(1000 * seconds, after) <= remaining == Shown(shown, remaining)[|Shown(shown, remaining)| - 1]
            && (exact ==> OnBeat(seconds, after, Shown(shown, remaining)))
  {
    var total := 1000 * seconds;
    RemainingFalls(total, 0, elapsed);
    RemainingFalls(total, elapsed, elapsed + nap + delay);
    RemainingAtStart(seconds);
    FallingStep(shown, seconds, Remaining(total, elapsed));
    if exact { BeatStep(seconds, elapsed, shown); }
  }

  /** Print the number unless it is the one printed last. */
  method Show(shown: seq<nat>, lastShown: Option<nat>, remaining: nat) returns (after: seq<nat>, last: Option<nat>)
    requires lastShown == if shown == [] then None else Some(shown[|shown| - 1])
    ensures after == Shown(shown, remaining) && last == Some(remaining)
  {
    after, last := shown, lastShown;
    if Some(remaining) != lastShown {
      after := shown + [remaining];
      last := Some(remaining);
    }
  }

  // ---- when Ctrl+C is heard

  /** The time gone when pass `p` begins, if it begins. */
  function Clock(seconds: nat, delays: nat -> nat, p: nat): nat {
    if p == 0 then 0
    else
      var (before, total) := (Clock(seconds, delays, p - 1), 1000 * seconds);
      if before >= total then before else before + Min(100, total - before) + delays(p - 1)
  }

  /** Pass `p` begins: the passes before it have not found the time used up. The pass that does find
      it used up is the last to begin, and Ctrl+C is still caught in it. */
  predicate Begins(seconds: nat, delays: nat -> nat, p: nat) {
    p == 0 || Clock(seconds, delays, p - 1) < 1000 * seconds
  }

  predicate Heard(seconds: nat, delays: nat -> nat, interruptAt: Option<nat>) {
    interruptAt.Some? && Begins(seconds, delays, interruptAt.value)
  }

  lemma {:induction false} ClockStops(seconds: nat, delays: nat -> nat, p: nat, q: nat)
    requires p <= q && Clock(seconds, delays, p) >= 1000 * seconds
    ensures Clock(seconds, delays, q) == Clock(seconds, delays, p)
    decreases q
  {
    if p < q { ClockStops(seconds, delays, p, q - 1); }
  }

  /** With exact sleeps the clock goes in tenths of a second, so Ctrl+C is heard in exactly the passes
      0 to ten per second, and until then a number has been shown for every ten passes begun. */
  lemma {:induction false} ExactClock(seconds: nat, delays: nat -> nat, p: nat)
    requires Exact(delays)
    ensures Clock(seconds, delays, p) == Min(100 * p, 1000 * seconds)
    ensures Begins(seconds, delays, p) <==> p <= 10 * seconds
    decreases p
  {
    if p > 0 { ExactClock(seconds, delays, p - 1); }
  }

  /** A pass before `p` finds `n` whole seconds left and shows them. */
  ghost predicate ShownBefore(seconds: nat, delays: nat -> nat, p: nat, n: nat) {
    exists q: nat :: q < p && ShowsAt(seconds, delays, q, n)
  }

  predicate ShowsAt(seconds: nat, delays: nat -> nat, q: nat, n: nat) {
    Clock(seconds, delays, q) < 1000 * seconds && n == Remaining(1000 * seconds, Clock(seconds, delays, q))
  }

  lemma ShownOneMore(seconds: nat, delays: nat -> nat, p: nat, shown: seq<nat>)
    requires Clock(seconds, delays, p) < 1000 * seconds
    requires forall n: nat :: n in shown <==> ShownBefore(seconds, delays, p, n)
    ensures forall n: nat :: n in Shown(shown, Remaining(1000 * seconds, Clock(seconds, delays, p))) <==>
                             ShownBefore(seconds, delays, p + 1, n)
  {
    var now := Remaining(1000 * seconds, Clock(seconds, delays, p));
    forall n: nat ensures n in Shown(shown, now) <==> n in shown || n == now {}
    assert ShowsAt(seconds, delays, p, now);
    forall n: nat | ShownBefore(seconds, delays, p, n) ensures ShownBefore(seconds, delays, p + 1, n) {
      var q: nat :| q < p && ShowsAt(seconds, delays, q, n);
      assert q < p + 1;
    }
    assert ShownBefore(seconds, delays, p + 1, now);
  }

  /** Where the countdown stands when pass `p` begins. */
  ghost predicate Counted(seconds: nat, delays: nat -> nat, p: nat, shown: seq<nat>) {
    var now := Clock(seconds, delays, p);
    && Begins(seconds, delays, p) && Falling(shown, seconds)
    && (shown != [] ==> Remaining(1000 * seconds, now) <= shown[|shown| - 1])
    && (Exact(delays) ==> OnBeat(seconds, now, shown))
    && forall n: nat :: n in shown <==> ShownBefore(seconds, delays, p, n)
  }

  lemma CountedStep(seconds: nat, delays: nat -> nat, p: nat, shown: seq<nat>)
    requires Counted(seconds, delays, p, shown) && Clock(seconds, delays, p) < 1000 * seconds
    ensures Counted(seconds, delays, p + 1, Shown(shown, Remaining(1000 * seconds, Clock(seconds, delays, p))))
  {
    hide Falling, OnBeat, Remaining, Shown, ShownBefore, Exact;
    var (total, now) := (1000 * seconds, Clock(seconds, delays, p));
    if Exact(delays) { ExactMeans(delays, p); }
    PassStep(seconds, now, shown, Min(100, total - now), delays(p), Exact(delays));
    ShownOneMore(seconds, delays, p, shown);
  }

  /** What has been shown when pass `p` begins, or when it has found the time used up. */
  lemma CountedMeans(seconds: nat, delays: nat -> nat, p: nat, shown: seq<nat>)
    requires Counted(seconds, delays, p, shown)
    ensures Begins(seconds, delays, p) && Falling(shown, seconds)
    ensures forall n: nat :: n in shown <==> ShownBefore(seconds, delays, p, n)
    ensures Exact(delays) ==> p <= 10 * seconds && shown == Down(seconds, (p + 9) / 10)
    ensures Clock(seconds, delays, p) >= 1000 * seconds ==>
              && (forall q: nat :: q > p ==> !Begins(seconds, delays, q))
              && (forall n: nat :: n in shown <==> exists q: nat :: ShowsAt(seconds, delays, q, n))
              && (seconds > 0 && Exact(delays) ==> shown == Down(seconds, seconds))
  {
    if Exact(delays) { ShownOnBeat(seconds, delays, p, shown); }
    if Clock(seconds, delays, p) >= 1000 * seconds {
      NothingLater(seconds, delays, p);
      if Exact(delays) { ExactClock(seconds, delays, p); }
    }
  }

  /** `run_countdown` in milliseconds: `delays` is how much longer than asked each sleep takes,
      `interruptAt` the pass in which Ctrl+C arrives. It ends interrupted exactly if that pass begins.
      The numbers shown only go down, none is shown twice, and they are those of the passes begun
      before; with exact sleeps all of `seconds..1`, or one for every ten passes begun. */
  method RunCountdown(seconds: nat, delays: nat -> nat, interruptAt: Option<nat>)
    returns (interrupted: bool, shown: seq<nat>, elapsed: nat)
    ensures interrupted <==> Heard(seconds, delays, interruptAt)
    ensures !interrupted ==> elapsed >= 1000 * seconds
    ensures interrupted ==> elapsed == Clock(seconds, delays, interruptAt.value)
    ensures Falling(shown, seconds)
    ensures interrupted ==> forall n: nat :: n in shown <==> ShownBefore(seconds, delays, interruptAt.value, n)
    ensures !interrupted ==> forall n: nat :: n in shown <==> exists q: nat :: ShowsAt(seconds, delays, q, n)
    ensures !interrupted && seconds > 0 && Exact(delays) ==> shown == Down(seconds, seconds)
    ensures interrupted && Exact(delays) ==>
              interruptAt.value <= 10 * seconds && shown == Down(seconds, (interruptAt.value + 9) / 10)
  {
    hide Counted, Remaining, Falling, OnBeat, Exact, ShownBefore, ShowsAt;
    var total := 1000 * seconds;
    elapsed, shown, interrupted := 0, [], false;
    var lastShown: Option<nat> := None;
    var pass := 0;
    CountedFirst(seconds, delays);
    while true
      invariant lastShown == if shown == [] then None else Some(shown[|shown| - 1])
      invariant elapsed == Clock(seconds, delays, pass) && Counted(seconds, delays, pass, shown)
      invariant interruptAt.Some? ==> interruptAt.value >= pass
      decreases total - elapsed
    {
      CountedMeans(seconds, delays, pass, shown);
      if interruptAt == Some(pass) { return true, shown, elapsed; }
      var remaining := Remaining(total, elapsed);
      RemainingFalls(total, elapsed, elapsed);
      if remaining == 0 { break; }
      CountedStep(seconds, delays, pass, shown);
      var nap := if total - elapsed < 100 then total - elapsed else 100;
      shown, lastShown := Show(shown, lastShown, remaining);
      elapsed := elapsed + nap + delays(pass);
      pass := pass + 1;
    }
  }

  lemma CountedFirst(seconds: nat, delays: nat -> nat)
    ensures Counted(seconds, delays, 0, [])
  {
  }

  lemma ShownOnBeat(seconds: nat, delays: nat -> nat, p: nat, shown: seq<nat>)
    requires Exact(delays) && Begins(seconds, delays, p) && OnBeat(seconds, Clock(seconds, delays, p), shown)
    ensures p <= 10 * seconds && shown == Down(seconds, (p + 9) / 10)
  {
    ExactClock(seconds, delays, p);
    assert Clock(seconds, delays, p) == 100 * p;
  }

  /** Once a pass finds the time used up, no later pass begins and nothing more is shown. */
  lemma NothingLater(seconds: nat, delays: nat -> nat, p: nat)
    requires Clock(seconds, delays, p) >= 1000 * seconds
    ensures forall q: nat :: q > p ==> !Begins(seconds, delays, q)
    ensures forall n: nat :: ShownBefore(seconds, delays, p, n) <==> exists q: nat :: ShowsAt(seconds, delays, q, n)
  {
    forall q: nat | q >= p ensures Clock(seconds, delays, q) >= 1000 * seconds { ClockStops(seconds, delays, p, q); }
    forall n: nat, q: nat | ShowsAt(seconds, delays, q, n) ensures ShownBefore(seconds, delays, p, n) { assert q < p; }
  }
}
