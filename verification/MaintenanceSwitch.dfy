/** The maintenance commands (maintenance.py). Containers are the outside world: every command run
    in one consumes the next outcome of an arbitrary oracle, so all failures, delays and
    interruptions are covered. */
module MaintenanceSwitch {
  import opened Prelude
  import opened CaddyConfig

  datatype Mode = AppMode | MaintenanceMode

  /** Target of `active.conf`. */
  datatype Link = To(mode: Mode) | Unknown

  /** What `state.json` says. */
  datatype Recorded = Active | Closing | Malformed

  /** One container command. A command that reports failure or is interrupted may still have taken
      effect (`applied`). A reload takes effect when a later outcome is `settled`. `late` ends a
      polling loop; `garbled` output does not parse; `interrupted` is Ctrl+C. */
  datatype Outcome = Outcome(ok: bool, applied: bool, settled: bool, late: bool, garbled: bool, interrupted: bool)

  /** How a step ends: normally, with a `MaintenanceError` (for a test: false), or with Ctrl+C. */
  datatype End = Fine | Failed | Broken

  function EndOf(o: Outcome): End {
    if o.interrupted then Broken else if o.ok then Fine else Failed
  }

  predicate Effective(o: Outcome) {
    o.applied || (o.ok && !o.interrupted)
  }

  /** 5 seconds of polling every quarter second. */
  const POLLS: nat := 21

  /** `Unread`: the old link could not be read. `Unpointed`: the first relink raised. `Restored`:
      refused, and the relink back went through. `Stranded`: the relink back raised. */
  datatype SwitchResult = Switched | Unread | Unpointed | Restored | Stranded | Interrupted

  // ---------------------------------------------------------------- what counts as a reason to fail

  /** The outcomes of one container's commands, by number. */
  type Script = nat -> Outcome

  /** A polling loop that starts at `from` ends unsuccessfully before `to`. */
  ghost predicate TimedOut(script: Script, from: nat, to: nat) {
    && from < to <= from + POLLS && (to == from + POLLS || script(to - 1).late)
    && forall k: nat :: from <= k < to - 1 ==> !script(k).late
  }

  /** The wait from `from` fails for a reason: its last poll got no answer, or the reload did not
      settle during any of its polls. */
  ghost predicate BadWait(script: Script, from: nat, to: nat) {
    TimedOut(script, from, to) && (!script(to - 1).ok || forall k: nat :: from <= k < to ==> !script(k).settled)
  }

  /** The wait for the edge from `from` fails for a reason: its last read got no answer, or the reload
      did not settle during any of its reads. */
  ghost predicate BadRead(script: Script, from: nat, to: nat) {
    TimedOut(script, from, to) && (!Answered(script(to - 1)) || forall k: nat :: from <= k < to ==> !script(k).settled)
  }

  /** After a wait from `from` that ran out of time and the two commands of the way back, the wait for
      the old route ran out of time too. */
  ghost predicate WaitedBack(script: Script, from: nat, now: nat) {
    exists end: nat :: end <= now && TimedOut(script, from, end) && TimedOut(script, end + 2, now)
  }

  ghost predicate BadWaitBy(script: Script, from: nat, now: nat) {
    exists to: nat :: to <= now && BadWait(script, from, to)
  }

  ghost predicate Refused(script: Script, from: nat, to: nat) {
    exists k: nat :: from <= k < to && !script(k).ok
  }

  /** What follows the relink fails for a reason before `now`: validation or reload is refused, or
      the wait is bad. */
  ghost predicate BadActivation(script: Script, from: nat, now: nat) {
    Refused(script, from, Min(from + 2, now)) || BadWaitBy(script, from + 2, now)
  }

  /** A switch from `from` fails for a reason before `now`: one of readlink, relink, validation and
      reload is refused, or the wait is bad. */
  ghost predicate BadSwitch(script: Script, from: nat, now: nat) {
    Refused(script, from, Min(from + 4, now)) || BadWaitBy(script, from + 4, now)
  }

  /** Ctrl+C arrives at none of these commands. */
  ghost predicate Calm(script: Script, from: nat, to: nat) {
    forall k: nat :: from <= k < to ==> !script(k).interrupted
  }

  /** A command that answered legibly. */
  predicate Answered(o: Outcome) {
    o.ok && !o.garbled && !o.interrupted
  }

  ghost predicate Fault(script: Script, from: nat, to: nat) {
    exists k: nat :: from <= k < to && !Answered(script(k))
  }

  // ---------------------------------------------------------------- the link, from the script alone

  /** A relink that is command `at` has gone through when command `now` has ended. */
  predicate GoneThrough(script: Script, at: nat, now: nat) {
    at < now || (at == now && Effective(script(at)))
  }

  /** Command `at` is the relink back of an activation whose validation is command `from`: the one
      after a refused validation or reload, or the one after the wait has run out of time. */
  ghost predicate RelinkBackAt(script: Script, from: nat, at: nat) {
    if !script(from).ok then at == from + 1
    else if !script(from + 1).ok then at == from + 2
    else TimedOut(script, from + 2, at)
  }

  ghost predicate NoRelinkBackBy(script: Script, from: nat, now: nat) {
    forall at: nat :: at <= now ==> !RelinkBackAt(script, from, at)
  }

  ghost predicate Undone(script: Script, from: nat, now: nat) {
    if !script(from).ok then GoneThrough(script, from + 1, now)
    else if !script(from + 1).ok then GoneThrough(script, from + 2, now)
    else UndoneAfterWait(script, from + 2, now)
  }

  /** The wait from `from` ran out of time and the relink back after it has gone through. */
  ghost predicate UndoneAfterWait(script: Script, from: nat, now: nat) {
    exists at: nat :: TimedOut(script, from, at) && GoneThrough(script, at, now)
  }

  /** A switch that reads the link with command `from` and ends with command `now` has made its
      relink and not undone it. */
  ghost predicate Relinked(script: Script, from: nat, now: nat) {
    now > from && GoneThrough(script, from + 1, now) && (now >= from + 2 ==> !Undone(script, from + 2, now))
  }

  /** Main theorem on Ctrl+C in a switch: it leaves the new mode linked exactly if it arrives at the
      relink once that has taken effect, at a later command with no relink back due before or at it,
      or at the relink back before that has taken effect. Every `Switch` ends with the link that
      `Relinked` says, and nothing catches Ctrl+C there. */
  lemma InterruptLeavesMaintenanceExactly(script: Script, from: nat, now: nat)
    requires script(now).interrupted
    ensures Relinked(script, from, now) <==>
              || (now == from + 1 && script(now).applied)
              || (now >= from + 2 && NoRelinkBackBy(script, from + 2, now))
              || (now >= from + 2 && RelinkBackAt(script, from + 2, now) && !script(now).applied)
  {
    var f := from + 2;
    if now >= f {
      forall at: nat, other: nat | RelinkBackAt(script, f, at) && RelinkBackAt(script, f, other) ensures at == other {
        RelinkBackOnce(script, f, at, other);
      }
      forall at: nat | at <= now ensures RelinkBackAt(script, f, at) && GoneThrough(script, at, now) ==> Undone(script, f, now) {}
      if Undone(script, f, now) { var at := UndoneAt(script, f, now); }
    }
  }

  lemma TimedOutOnce(script: Script, from: nat, at: nat, other: nat)
    requires TimedOut(script, from, at) && TimedOut(script, from, other)
    ensures at == other
  {
  }

  lemma RelinkBackOnce(script: Script, from: nat, at: nat, other: nat)
    requires RelinkBackAt(script, from, at) && RelinkBackAt(script, from, other)
    ensures at == other
  {
    if script(from).ok && script(from + 1).ok { TimedOutOnce(script, from + 2, at, other); }
  }

  lemma UndoneAt(script: Script, from: nat, now: nat) returns (at: nat)
    requires Undone(script, from, now)
    ensures RelinkBackAt(script, from, at) && GoneThrough(script, at, now)
  {
    if !script(from).ok { at := from + 1; }
    else if !script(from + 1).ok { at := from + 2; }
    else { at :| TimedOut(script, from + 2, at) && GoneThrough(script, at, now); }
  }

  // ---------------------------------------------------------------- what Nginx serves, from the script alone

  datatype Front = Front(served: Mode, loading: Option<Mode>)

  function Tick(o: Outcome, f: Front): Front {
    if o.settled && f.loading.Some? then Front(f.loading.value, None) else f
  }

  function Aged(script: Script, from: nat, to: nat, f: Front): Front {
    if to <= from then f else Tick(script(to - 1), Aged(script, from, to - 1, f))
  }

  lemma AgedNext(script: Script, from: nat, to: nat, f: Front)
    requires from <= to
    ensures Aged(script, from, to + 1, f) == Tick(script(to), Aged(script, from, to, f))
  {
  }

  lemma AgedTwice(script: Script, from: nat, f: Front)
    ensures Aged(script, from, from + 2, f) == Tick(script(from + 1), Tick(script(from), f))
  {
    assert Aged(script, from, from + 1, f) == Tick(script(from), f);
  }

  lemma {:induction false} AgedJoin(script: Script, a: nat, b: nat, c: nat, f: Front)
    requires a <= b <= c
    ensures Aged(script, b, c, Aged(script, a, b, f)) == Aged(script, a, c, f)
    decreases c
  {
    if b < c { AgedJoin(script, a, b, c - 1, f); }
  }

  lemma {:induction false} AgedServes(script: Script, from: nat, end: nat, f: Front, mode: Mode)
    requires Serves(f, mode)
    ensures Serves(Aged(script, from, end, f), mode)
    decreases end
  {
    if from < end { AgedServes(script, from, end - 1, f, mode); }
  }

  /** Poll `k` of a wait from `from` gets its answer. */
  predicate Hears(script: Script, from: nat, k: nat, f: Front, mode: Mode) {
    script(k).ok && Aged(script, from, k + 1, f).served == mode
  }

  ghost predicate Unheard(script: Script, from: nat, to: nat, f: Front, mode: Mode) {
    forall k: nat :: from <= k < to ==> !Hears(script, from, k, f, mode)
  }

  /** The polling has not run out of time before its command `to - 1`. */
  ghost predicate InTime(script: Script, from: nat, to: nat) {
    from < to <= from + POLLS && forall k: nat :: from <= k < to - 1 ==> !script(k).late
  }

  /** A wait from command `from` on succeeds with poll `k`. */
  ghost predicate AnsweredAt(script: Script, from: nat, k: nat, f: Front, mode: Mode) {
    && k >= from && !script(k).interrupted
    && InTime(script, from, k + 1) && Unheard(script, from, k, f, mode) && Hears(script, from, k, f, mode)
  }

  /** An activation whose validation is command `from` succeeds with poll `k`. */
  ghost predicate ActivatedAt(script: Script, from: nat, k: nat, f: Front, mode: Mode) {
    && script(from).ok && script(from + 1).ok
    && AnsweredAt(script, from + 2, k, Front(Aged(script, from, from + 2, f).served, Some(mode)), mode)
  }

  /** A switch from command `from` on succeeds with poll `k`. */
  ghost predicate SwitchedAt(script: Script, from: nat, k: nat, f: Front, mode: Mode) {
    script(from).ok && script(from + 1).ok && ActivatedAt(script, from + 2, k, Aged(script, from, from + 2, f), mode)
  }

  lemma TooEarly(script: Script, from: nat, f: Front, mode: Mode)
    ensures forall k: nat :: k < from + 4 ==> !SwitchedAt(script, from, k, f, mode)
  {
  }

  /** The link that a guarded region leaves which begins with command `from` and ends with command
      `now`: the app, if the switch has made its relink and not undone it, or had succeeded earlier. */
  ghost predicate LeavesApp(script: Script, from: nat, now: nat, f: Front) {
    Relinked(script, from, now) || exists k: nat :: k < now && SwitchedAt(script, from, k, f, AppMode)
  }

  ghost function LinkLeft(script: Script, from: nat, now: nat, f: Front): Link {
    To(if LeavesApp(script, from, now, f) then AppMode else MaintenanceMode)
  }

  /** A moment of the gateway, and one of the edge. */
  datatype Gate = Gate(t: nat, calm: bool, front: Front, link: Link, recorded: Recorded)
  datatype Route = Route(t: nat, calm: bool, live: Json, incoming: Option<Json>)

  predicate Serves(f: Front, mode: Mode) {
    f.served == mode && (f.loading.None? || f.loading == Some(mode))
  }

  class Gateway {
    const oracle: Script
    var t: nat
    ghost var calm: bool   // no command so far was interrupted
    var link: Link
    var served: Mode
    var loading: Option<Mode>
    var recorded: Recorded

    constructor (oracle: Script, link: Link, served: Mode, recorded: Recorded)
      ensures this.link == link && this.served == served && this.recorded == recorded && this.oracle == oracle
      ensures t == 0 && calm && loading == None
    {
      this.oracle, this.link, this.served, this.recorded := oracle, link, served, recorded;
      t, calm, loading := 0, true, None;
    }

    function State(): Front
      reads this
    {
      Front(served, loading)
    }

    ghost function Now(): Gate
      reads this
    {
      Gate(t, calm, State(), link, recorded)
    }

    /** Nginx serves the mode and is not about to serve another. */
    predicate Serving(mode: Mode)
      reads this
    {
      Serves(State(), mode)
    }

    /** Nginx will serve the mode once what it is loading has settled. */
    predicate Heading(mode: Mode)
      reads this
    {
      loading == Some(mode) || (loading.None? && served == mode)
    }

    /** The maintenance probe also parses the recorded state. */
    predicate Readable(mode: Mode)
      reads this
    {
      mode == MaintenanceMode ==> recorded != Malformed
    }

    method Execute() returns (o: Outcome)
      modifies `t, `calm, `served, `loading
      ensures o == oracle(old(t)) && t == old(t) + 1 && State() == Tick(o, old(State()))
      ensures calm <==> old(calm) && !o.interrupted
    {
      o := oracle(t);
      t, calm := t + 1, calm && !o.interrupted;
      if o.settled && loading.Some? {
        served, loading := loading.value, None;
      }
    }

    /** `readlink`. */
    method SelectedMode() returns (e: End, mode: Mode)
      modifies `t, `calm, `served, `loading
      ensures calm <==> old(calm) && e != Broken
      ensures t == old(t) + 1 && State() == Tick(oracle(old(t)), old(State()))
      ensures e == Broken <==> oracle(old(t)).interrupted
      ensures e == Fine ==> link == To(mode) && oracle(old(t)).ok
      ensures e == Failed ==> !oracle(old(t)).ok || link == Unknown
      ensures forall m :: old(Serving(m)) ==> Serving(m)
    {
      var o := Execute();
      mode := if link.To? then link.mode else AppMode;
      e := if o.interrupted then Broken else if o.ok && link.To? then Fine else Failed;
    }

    method WriteState(value: Recorded) returns (e: End)
      modifies `t, `calm, `served, `loading, `recorded
      ensures calm <==> old(calm) && e != Broken
      ensures t == old(t) + 1 && e == EndOf(oracle(old(t))) && State() == Tick(oracle(old(t)), old(State()))
      ensures recorded == if Effective(oracle(old(t))) then value else old(recorded)
      ensures forall m :: old(Serving(m)) ==> Serving(m)
    {
      var o := Execute();
      if Effective(o) { recorded := value; }
      return EndOf(o);
    }

    method PointTo(mode: Mode) returns (e: End)
      modifies `t, `calm, `served, `loading, `link
      ensures calm <==> old(calm) && e != Broken
      ensures t == old(t) + 1 && e == EndOf(oracle(old(t))) && State() == Tick(oracle(old(t)), old(State()))
      ensures link == if Effective(oracle(old(t))) then To(mode) else old(link)
    {
      var o := Execute();
      if Effective(o) { link := To(mode); }
      return EndOf(o);
    }

    /** `nginx -t`, a service probe, or `nginx -v`: nothing but the exit status. */
    method Probe() returns (e: End)
      modifies `t, `calm, `served, `loading
      ensures calm <==> old(calm) && e != Broken
      ensures t == old(t) + 1 && e == EndOf(oracle(old(t))) && State() == Tick(oracle(old(t)), old(State()))
      ensures forall m :: old(Serving(m)) ==> Serving(m)
    {
      var o := Execute();
      return EndOf(o);
    }

    method Reload() returns (e: End)
      modifies `t, `calm, `served, `loading
      ensures calm <==> old(calm) && e != Broken
      ensures t == old(t) + 1 && e == EndOf(oracle(old(t)))
      ensures e == Fine && link.To? ==> State() == Front(Tick(oracle(old(t)), old(State())).served, Some(link.mode))
    {
      var o := Execute();
      if Effective(o) && link.To? { loading := Some(link.mode); }
      return EndOf(o);
    }

    /** One poll: only a server in that mode can answer it. */
    method RouteMatches(mode: Mode) returns (e: End)
      modifies `t, `calm, `served, `loading
      ensures calm <==> old(calm) && e != Broken
      ensures t == old(t) + 1 && State() == Tick(oracle(old(t)), old(State()))
      ensures e == Broken <==> oracle(old(t)).interrupted
      ensures e == Fine <==> !oracle(old(t)).interrupted && oracle(old(t)).ok && served == mode && Readable(mode)
      ensures old(Heading(mode)) ==> Heading(mode)
      ensures old(Heading(mode)) && oracle(old(t)).settled ==> served == mode && loading.None?
      ensures old(served == mode && loading.None?) ==> served == mode && loading.None?
      ensures forall m :: old(Serving(m)) ==> Serving(m)
    {
      var o := Execute();
      return if o.interrupted then Broken else if o.ok && served == mode && Readable(mode) then Fine else Failed;
    }

    /** `wait_for_route`: poll until the route answers or time is up. Coming up late is no failure:
        it fails only if the last poll got no answer or no poll saw the reload settle. */
    method WaitForRoute(mode: Mode) returns (e: End)
      modifies `t, `calm, `served, `loading
      ensures calm <==> old(calm) && e != Broken
      ensures t > old(t) && Calm(oracle, old(t), t - 1) && (e == Broken <==> oracle(t - 1).interrupted)
      ensures State() == Aged(oracle, old(t), t, old(State())) && InTime(oracle, old(t), t)
      ensures e == Fine ==> Readable(mode) && served == mode
      ensures Readable(mode) ==> Unheard(oracle, old(t), t - 1, old(State()), mode)
      ensures Readable(mode) && e != Broken ==> (e == Fine <==> Hears(oracle, old(t), t - 1, old(State()), mode))
      ensures e == Failed ==> TimedOut(oracle, old(t), t)
      ensures old(Heading(mode)) ==> Heading(mode)
      ensures old(Heading(mode)) && Readable(mode) && e == Failed ==> BadWait(oracle, old(t), t)
      ensures forall m :: old(Serving(m)) ==> Serving(m)
    {
      var polls := 0;
      while true
        invariant polls < POLLS && t == old(t) + polls && Calm(oracle, old(t), t) && calm == old(calm)
        invariant State() == Aged(oracle, old(t), t, old(State()))
        invariant Readable(mode) ==> Unheard(oracle, old(t), t, old(State()), mode)
        invariant forall k: nat :: old(t) <= k < t ==> !oracle(k).late
        invariant old(Heading(mode)) ==> Heading(mode)
        invariant old(Heading(mode)) && (exists k: nat :: old(t) <= k < t && oracle(k).settled) ==> served == mode && loading.None?
        invariant forall m :: old(Serving(m)) ==> Serving(m)
        decreases POLLS - polls
      {
        e := RouteMatches(mode);
        polls := polls + 1;
        if e != Failed { return; }
        if oracle(t - 1).late || polls == POLLS { return; }
      }
    }

    /** `switch`: either the mode is linked and served, or the old link is back unless a relink
        itself failed or Ctrl+C arrived; it fails only for a reason within its own commands; and
        however it ends, its outcomes so far say which link it leaves. */
    method Switch(mode: Mode) returns (r: SwitchResult)
      modifies `t, `calm, `served, `loading, `link
      ensures calm <==> old(calm) && r != Interrupted
      ensures t > old(t) && Calm(oracle, old(t), t - 1) && (r == Interrupted <==> oracle(t - 1).interrupted)
      ensures r == Switched ==> link == To(mode) && Serving(mode) && !Refused(oracle, old(t), old(t) + 4)
      ensures r == Unread || r == Restored ==> link == old(link)
      ensures r == Unpointed || r == Stranded ==> !oracle(t - 1).ok   // the relink itself was the last command
      ensures link == if Relinked(oracle, old(t), t - 1) then To(mode) else old(link)
      ensures r == Switched ==> SwitchedAt(oracle, old(t), t - 1, old(State()), mode)
      ensures Readable(mode) && r != Switched ==> forall k: nat :: k < t ==> !SwitchedAt(oracle, old(t), k, old(State()), mode)
      ensures old(link).To? && Readable(mode) && r != Switched && r != Interrupted ==> BadSwitch(oracle, old(t), t)
      ensures old(link).To? && oracle(old(t)).ok && oracle(old(t) + 1).ok && Calm(oracle, old(t), old(t) + 2) ==> t >= old(t) + 3
    {
      hide ActivatedAt, Undone, Aged, BadWait;
      TooEarly(oracle, t, State(), mode);
      ghost var start, front := t, State();
      var read, previous := SelectedMode();
      if read == Broken { return Interrupted; }
      if read == Failed { return Unread; }
      var pointed := PointTo(mode);
      if pointed == Broken { return Interrupted; }
      if pointed == Failed { return Unpointed; }
      AgedTwice(oracle, start, front);
      r := Activate(previous, mode);
    }

    /** The rest of a switch once the relink is made: validate, reload, wait, and roll back on
        failure. */
    method Activate(previous: Mode, mode: Mode) returns (r: SwitchResult)
      requires link == To(mode)
      modifies `t, `calm, `served, `loading, `link
      ensures calm <==> old(calm) && r != Interrupted
      ensures t > old(t) && Calm(oracle, old(t), t - 1) && (r == Interrupted <==> oracle(t - 1).interrupted)
      ensures r == Switched || r == Restored || r == Stranded || r == Interrupted
      ensures r == Switched ==> link == To(mode) && Serving(mode) && oracle(old(t)).ok && oracle(old(t) + 1).ok
      ensures r == Restored ==> link == To(previous)
      ensures r == Stranded ==> !oracle(t - 1).ok
      ensures link == To(if Undone(oracle, old(t), t - 1) then previous else mode)
      ensures r == Switched ==> ActivatedAt(oracle, old(t), t - 1, old(State()), mode)
      ensures Readable(mode) && r != Switched ==> forall k: nat :: k < t ==> !ActivatedAt(oracle, old(t), k, old(State()), mode)
      ensures Readable(mode) && (r == Restored || r == Stranded) ==> BadActivation(oracle, old(t), t)
    {
      ghost var start, front := t, State();
      var valid := Probe();
      if valid == Broken { return Interrupted; }
      if valid == Failed {
        assert !oracle(start).ok;
        var back := PointTo(previous);
        return if back == Broken then Interrupted else if back == Failed then Stranded else Restored;
      }
      var reloaded := Reload();
      if reloaded == Broken { return Interrupted; }
      if reloaded == Failed {
        assert !oracle(start + 1).ok;
        r := RollBack(previous, mode, false);
        return;
      }
      AgedTwice(oracle, start, front);
      r := Confirm(previous, mode);
    }

    /** The wait for the route, and the rollback if it fails. */
    method Confirm(previous: Mode, mode: Mode) returns (r: SwitchResult)
      requires link == To(mode) && loading == Some(mode)
      modifies `t, `calm, `served, `loading, `link
      ensures calm <==> old(calm) && r != Interrupted
      ensures t > old(t) && Calm(oracle, old(t), t - 1) && (r == Interrupted <==> oracle(t - 1).interrupted)
      ensures r == Switched || r == Restored || r == Stranded || r == Interrupted
      ensures r == Switched ==> Serving(mode)
      ensures r == Restored ==> link == To(previous)
      ensures r == Stranded ==> !oracle(t - 1).ok
      ensures link == To(if UndoneAfterWait(oracle, old(t), t - 1) then previous else mode)
      ensures r == Switched ==> link == To(mode) && AnsweredAt(oracle, old(t), t - 1, old(State()), mode)
      ensures Readable(mode) && r != Switched ==> forall k: nat :: k < t ==> !AnsweredAt(oracle, old(t), k, old(State()), mode)
      ensures Readable(mode) && (r == Restored || r == Stranded) ==> BadWaitBy(oracle, old(t), t)
      ensures r == Restored ==> served == previous || WaitedBack(oracle, old(t), t)
    {
      var found := WaitForRoute(mode);
      ghost var end := t;
      if found == Broken { return Interrupted; }
      if found == Failed {
        r := RollBack(previous, mode, true);
        UndoneWith(oracle, old(t), end, t - 1);
        return;
      }
      return Switched;
    }

    /** The relink back, a reload and, after a failed wait, another wait; the results of the last two
        are not looked at. */
    method RollBack(previous: Mode, mode: Mode, wait: bool) returns (r: SwitchResult)
      requires link == To(mode)
      modifies `t, `calm, `served, `loading, `link
      ensures calm <==> old(calm) && r != Interrupted
      ensures t > old(t) && Calm(oracle, old(t), t - 1) && (r == Interrupted <==> oracle(t - 1).interrupted)
      ensures r == Restored || r == Stranded || r == Interrupted
      ensures r == Restored ==> link == To(previous)
      ensures r == Stranded ==> !oracle(t - 1).ok
      ensures link == To(if GoneThrough(oracle, old(t), t - 1) then previous else mode)
      ensures r == Restored && !wait ==> t == old(t) + 2
      ensures r == Restored && wait ==> served == previous || TimedOut(oracle, old(t) + 2, t)
    {
      var back := PointTo(previous);
      if back == Broken { return Interrupted; }
      if back == Failed { return Stranded; }
      var again := Reload();
      if again == Broken { return Interrupted; }
      if wait {
        var found := WaitForRoute(previous);
        if found == Broken { return Interrupted; }
      }
      return Restored;
    }

    /** `readiness`: both services answer. */
    method Ready() returns (e: End)
      modifies `t, `calm, `served, `loading
      ensures calm <==> old(calm) && e != Broken
      ensures old(t) < t <= old(t) + 2 && Calm(oracle, old(t), t - 1) && (e == Broken <==> oracle(t - 1).interrupted)
      ensures State() == Aged(oracle, old(t), t, old(State()))
      ensures e == Fine ==> t == old(t) + 2 && oracle(old(t)).ok && oracle(old(t) + 1).ok
      ensures e == Failed ==> t == old(t) + 2 && Refused(oracle, old(t), old(t) + 2)
      ensures forall m :: old(Serving(m)) ==> Serving(m)
    {
      ghost var start := t;
      ghost var front := State();
      var frontend := Probe();
      assert State() == Aged(oracle, start, start + 1, front);
      if frontend == Broken { return Broken; }
      var api := Probe();
      if api == Broken { return Broken; }
      assert frontend == Failed ==> !oracle(start).ok;
      assert api == Failed ==> !oracle(start + 1).ok;
      return if frontend == Fine && api == Fine then Fine else Failed;
    }
  }

  /** The wait that ran out of time before `at` fixes the relink back. */
  lemma UndoneWith(script: Script, from: nat, at: nat, now: nat)
    requires TimedOut(script, from, at)
    ensures UndoneAfterWait(script, from, now) <==> GoneThrough(script, at, now)
  {
    forall other: nat | TimedOut(script, from, other) ensures other == at { TimedOutOnce(script, from, at, other); }
  }

  // ---------------------------------------------------------------- the edge

  datatype RouteResult = AlreadyCorrect | Repaired | NotSafe | ReloadFailed | NotActivated | RouteInterrupted

  predicate HealthyRoute(config: Json) {
    Dials(config) == {EXPECTED_EDGE_UPSTREAM}
  }

  class CaddyEdge {
    const oracle: Script
    var t: nat
    ghost var calm: bool   // no command so far was interrupted
    var live: Json
    var incoming: Option<Json>
    const mounted: Json
    var reloads: nat

    constructor (oracle: Script, live: Json, mounted: Json)
      ensures this.oracle == oracle && this.live == live && this.mounted == mounted
      ensures t == 0 && calm && incoming == None && reloads == 0
    {
      this.oracle, this.live, this.mounted := oracle, live, mounted;
      t, calm, incoming, reloads := 0, true, None, 0;
    }

    /** The live configuration is the old one or, once reloaded, a mounted one that was safe. */
    twostate predicate OnlySafelyChanged()
      reads this
    {
      && (reloads == old(reloads) ==> live == old(live) || old(incoming) == Some(live))
      && (live == old(live) || old(incoming) == Some(live) || (live == mounted && HealthyRoute(mounted)))
      && (incoming == old(incoming) || incoming == None || (incoming == Some(mounted) && HealthyRoute(mounted)))
    }

    /** The gateway is the live route and nothing is about to replace it. */
    predicate Good()
      reads this
    {
      HealthyRoute(live) && incoming.None?
    }

    ghost function Now(): Route
      reads this
    {
      Route(t, calm, live, incoming)
    }

    /** The live route is the gateway, and so is whatever is about to replace it. */
    predicate Safe()
      reads this
    {
      HealthyRoute(live) && (incoming.Some? ==> HealthyRoute(incoming.value))
    }

    /** Nothing changed, or the pending reload took effect. */
    twostate predicate Settled()
      reads this
    {
      || (live == old(live) && incoming == old(incoming))
      || (old(incoming) == Some(live) && incoming == None)
    }

    method Execute() returns (o: Outcome)
      modifies `t, `calm, `live, `incoming
      ensures o == oracle(old(t)) && t == old(t) + 1 && (calm <==> old(calm) && !o.interrupted)
      ensures if o.settled && old(incoming).Some? then live == old(incoming).value && incoming == None
              else live == old(live) && incoming == old(incoming)
    {
      o := oracle(t);
      t, calm := t + 1, calm && !o.interrupted;
      if o.settled && incoming.Some? {
        live, incoming := incoming.value, None;
      }
    }

    /** `active_upstreams`. */
    method ActiveUpstreams() returns (e: End, dials: set<string>)
      modifies `t, `calm, `live, `incoming
      ensures calm <==> old(calm) && e != Broken
      ensures t == old(t) + 1 && (e == Broken <==> oracle(old(t)).interrupted)
      ensures e == Fine ==> dials == Dials(live) && Answered(oracle(old(t)))
      ensures e == Failed ==> !Answered(oracle(old(t))) || Dials(live) == {}
      ensures oracle(old(t)).settled && old(incoming).Some? ==> live == old(incoming).value && incoming == None
      ensures !oracle(old(t)).settled ==> live == old(live) && incoming == old(incoming)
      ensures Settled()
    {
      var o := Execute();
      if o.interrupted { return Broken, {}; }
      if !o.ok || o.garbled { return Failed, {}; }
      dials := ExtractDials(live);
      e := if dials == {} then Failed else Fine;
    }

    /** `mounted_upstreams`: adapt the mounted configuration. */
    method MountedUpstreams() returns (e: End, dials: set<string>)
      modifies `t, `calm, `live, `incoming
      ensures calm <==> old(calm) && e != Broken
      ensures t == old(t) + 1 && (e == Broken <==> oracle(old(t)).interrupted)
      ensures e == Fine ==> dials == Dials(mounted) && Answered(oracle(old(t)))
      ensures e == Failed ==> !Answered(oracle(old(t))) || Dials(mounted) == {}
      ensures Settled()
    {
      var o := Execute();
      if o.interrupted { return Broken, {}; }
      if !o.ok || o.garbled { return Failed, {}; }
      dials := ExtractDials(mounted);
      e := if dials == {} then Failed else Fine;
    }

    method Reload() returns (e: End)
      modifies `t, `calm, `live, `incoming, `reloads
      ensures calm <==> old(calm) && e != Broken
      ensures t == old(t) + 1 && reloads == old(reloads) + 1 && e == EndOf(oracle(old(t)))
      ensures live == old(live) || old(incoming) == Some(live)
      ensures Effective(oracle(old(t))) ==> incoming == Some(mounted)
      ensures incoming == Some(mounted) || incoming == old(incoming) || incoming == None
    {
      var o := Execute();
      reloads := reloads + 1;
      if Effective(o) { incoming := Some(mounted); }
      return EndOf(o);
    }

    method WaitForGatewayRoute() returns (e: End)
      modifies `t, `calm, `live, `incoming
      ensures calm <==> old(calm) && e != Broken
      ensures t > old(t) && Calm(oracle, old(t), t - 1) && (e == Broken <==> oracle(t - 1).interrupted)
      ensures e == Fine ==> HealthyRoute(live)
      ensures e == Failed ==> TimedOut(oracle, old(t), t) && (!Answered(oracle(t - 1)) || !HealthyRoute(live))
      ensures e == Failed && old(incoming).Some? && HealthyRoute(old(incoming).value) ==> BadRead(oracle, old(t), t)
      ensures Settled()
    {
      var polls := 0;
      while true
        invariant polls < POLLS && t == old(t) + polls && Settled() && Calm(oracle, old(t), t) && calm == old(calm)
        invariant forall k: nat :: old(t) <= k < t ==> !oracle(k).late
        invariant (exists k: nat :: old(t) <= k < t && oracle(k).settled) && old(incoming).Some? ==>
                    live == old(incoming).value && incoming == None
        decreases POLLS - polls
      {
        var read, active := ActiveUpstreams();
        polls := polls + 1;
        if read == Broken { return Broken; }
        if read == Fine && active == {EXPECTED_EDGE_UPSTREAM} { return Fine; }
        if oracle(t - 1).late || polls == POLLS { return Failed; }
      }
    }

    /** `assert_gateway_route`. */
    method AssertGatewayRoute() returns (e: End)
      modifies `t, `calm, `live, `incoming
      ensures calm <==> old(calm) && e != Broken
      ensures t == old(t) + 1 && (e == Broken <==> oracle(old(t)).interrupted)
      ensures e == Fine ==> HealthyRoute(live)
      ensures old(Good()) ==> Good() && (e == Fine || !Answered(oracle(old(t))))
      ensures old(Safe()) ==> Safe()
    {
      var read, active := ActiveUpstreams();
      return if read == Broken then Broken else if read == Fine && active == {EXPECTED_EDGE_UPSTREAM} then Fine else Failed;
    }

    /** `ensure_gateway_route`: it returns only with the live route exactly the gateway, reloads
        only after Caddy answered, its live route was read, the mounted configuration was adapted
        and shown to be that, and the validation passed, and before a reload leaves the live
        configuration alone. A good route is left as it is and reported as such, unless a command
        failed. */
    method EnsureGatewayRoute() returns (r: RouteResult)
      modifies `t, `calm, `live, `incoming, `reloads
      ensures calm <==> old(calm) && r != RouteInterrupted
      ensures r == AlreadyCorrect || r == Repaired ==> HealthyRoute(live)
      ensures r == AlreadyCorrect || r == NotSafe ==> reloads == old(reloads)
      ensures reloads != old(reloads) ==>
                && reloads == old(reloads) + 1 && HealthyRoute(mounted)
                && oracle(old(t)).ok                    // Caddy is available
                && Answered(oracle(old(t) + 1))         // the live configuration was read
                && Answered(oracle(old(t) + 2))         // the mounted one was adapted
                && oracle(old(t) + 3).ok                // and validated
                && !oracle(old(t)).interrupted && !oracle(old(t) + 3).interrupted
      ensures OnlySafelyChanged()
      ensures t > old(t) && Calm(oracle, old(t), t - 1) && (r == RouteInterrupted <==> oracle(t - 1).interrupted)
      ensures old(Good()) ==> Good() && (r == AlreadyCorrect || Fault(oracle, old(t), t))
      ensures (r == AlreadyCorrect || r == Repaired) && (old(incoming).Some? ==> HealthyRoute(old(incoming).value)) ==> Safe()
      ensures r == NotSafe ==>
                || !oracle(old(t)).ok || !Answered(oracle(old(t) + 1)) || Dials(live) == {}
                || !Answered(oracle(old(t) + 2)) || !HealthyRoute(mounted) || !oracle(old(t) + 3).ok
      ensures r == ReloadFailed ==> t == old(t) + 5 && !oracle(old(t) + 4).ok
      ensures r == NotActivated ==> BadRead(oracle, old(t) + 5, t - 1)
      ensures r == Repaired ==> oracle(old(t) + 4).ok
    {
      hide BadRead, TimedOut, Dials;
      ghost var start := t;
      var version := Execute();
      if version.interrupted { assert !Answered(oracle(start)); return RouteInterrupted; }
      if !version.ok { assert !Answered(oracle(start)); return NotSafe; }
      var read, active := ActiveUpstreams();
      if read == Broken { assert !Answered(oracle(start + 1)); return RouteInterrupted; }
      if read == Failed { return NotSafe; }
      if active == {EXPECTED_EDGE_UPSTREAM} { return AlreadyCorrect; }
      r := Repair();
    }

    /** Adapt and check the mounted configuration, validate it, reload and wait. */
    method Repair() returns (r: RouteResult)
      modifies `t, `calm, `live, `incoming, `reloads
      ensures calm <==> old(calm) && r != RouteInterrupted
      ensures r == Repaired ==> HealthyRoute(live)
      ensures r != AlreadyCorrect && (r == NotSafe ==> reloads == old(reloads))
      ensures reloads != old(reloads) ==>
                && reloads == old(reloads) + 1 && HealthyRoute(mounted)
                && Answered(oracle(old(t))) && oracle(old(t) + 1).ok && !oracle(old(t) + 1).interrupted
      ensures OnlySafelyChanged()
      ensures t > old(t) && Calm(oracle, old(t), t - 1) && (r == RouteInterrupted <==> oracle(t - 1).interrupted)
      ensures r == Repaired && (old(incoming).Some? ==> HealthyRoute(old(incoming).value)) ==> Safe()
      ensures r == NotSafe ==> !Answered(oracle(old(t))) || !HealthyRoute(mounted) || !oracle(old(t) + 1).ok
      ensures r == ReloadFailed ==> t == old(t) + 3 && !oracle(old(t) + 2).ok
      ensures r == NotActivated ==> BadRead(oracle, old(t) + 3, t - 1)
      ensures r == Repaired ==> oracle(old(t) + 2).ok
    {
      hide BadRead, TimedOut, Dials;
      var adapted, safe := MountedUpstreams();
      if adapted == Broken { return RouteInterrupted; }
      if adapted == Failed || safe != {EXPECTED_EDGE_UPSTREAM} { return NotSafe; }
      var validation := Execute();
      if validation.interrupted { return RouteInterrupted; }
      if !validation.ok { return NotSafe; }
      var reloaded := Reload();
      if reloaded == Broken { return RouteInterrupted; }
      if reloaded == Failed { return ReloadFailed; }
      var found := WaitForGatewayRoute();
      if found == Broken { return RouteInterrupted; }
      if found == Fine { return Repaired; }
      var read, _ := ActiveUpstreams();   // for the message
      return if read == Broken then RouteInterrupted else NotActivated;
    }
  }
}
