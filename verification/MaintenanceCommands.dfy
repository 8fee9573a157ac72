/** The maintenance commands `on` and `off` (maintenance.py) over the gateway and the edge. */
module MaintenanceCommands {
  import opened Prelude
  import opened CaddyConfig
  import opened MaintenanceCountdown
  import opened MaintenanceSwitch

  datatype OnResult = Entered | NotEntered | OnInterrupted

  /** `command_on`: when it returns, visitors get the maintenance page through the gateway; and with
      a good edge and a known link it does return unless Ctrl+C arrives, a command is refused or the
      wait for the route is bad. */
  method CommandOn(gateway: Gateway, edge: CaddyEdge) returns (r: OnResult)
    modifies gateway, edge
    ensures r == Entered ==>
              && gateway.link == To(MaintenanceMode) && gateway.Serving(MaintenanceMode)
              && gateway.recorded == Active && HealthyRoute(edge.live)
    ensures EndOf(gateway.oracle(old(gateway.t))) != Fine ==>
              r != Entered && edge.Now() == old(edge.Now()) && gateway.recorded == old(gateway.recorded) && gateway.link == old(gateway.link)
    ensures old(edge.incoming).None? && gateway.t > old(gateway.t) + 1 ==> HealthyRoute(edge.live)
    ensures gateway.link == old(gateway.link) || gateway.link == To(MaintenanceMode)
    ensures gateway.calm && edge.calm <==> old(gateway.calm && edge.calm) && r != OnInterrupted
    ensures old(edge.Good()) && old(gateway.link).To? && r == NotEntered ==>
              || Refused(gateway.oracle, old(gateway.t), Min(old(gateway.t) + 2, gateway.t))
              || BadSwitch(gateway.oracle, old(gateway.t) + 2, gateway.t) || Fault(edge.oracle, old(edge.t), edge.t)
  {
    hide BadSwitch, HealthyRoute;
    ghost var start := gateway.t;
    var prepared := PrepareOn(gateway, edge);
    if prepared != Fine { return if prepared == Broken then OnInterrupted else NotEntered; }
    var switched := gateway.Switch(MaintenanceMode);
    if switched == Interrupted { return OnInterrupted; }
    if switched != Switched { return NotEntered; }
    ghost var again := edge.t;
    var routed := edge.AssertGatewayRoute();
    assert !Answered(edge.oracle(again)) ==> Fault(edge.oracle, old(edge.t), edge.t);
    return if routed == Fine then Entered else if routed == Broken then OnInterrupted else NotEntered;
  }

  /** Its part before the switch: the gateway answers, the edge leads to it, the state is recorded. */
  method PrepareOn(gateway: Gateway, edge: CaddyEdge) returns (e: End)
    modifies gateway`t, gateway`calm, gateway`served, gateway`loading, gateway`recorded, edge
    ensures old(gateway.t) < gateway.t <= old(gateway.t) + 2 && edge.t >= old(edge.t)
    ensures gateway.calm && edge.calm <==> old(gateway.calm && edge.calm) && e != Broken
    ensures e == Fine ==> gateway.t == old(gateway.t) + 2 && gateway.recorded == Active
    ensures EndOf(gateway.oracle(old(gateway.t))) != Fine ==>
              e != Fine && edge.Now() == old(edge.Now()) && gateway.recorded == old(gateway.recorded)
    ensures old(edge.incoming).None? && (e == Fine || gateway.t > old(gateway.t) + 1) ==> edge.Safe()
    ensures old(edge.Good()) ==> edge.Good()
    ensures old(edge.Good()) && e == Failed ==>
              Refused(gateway.oracle, old(gateway.t), gateway.t) || Fault(edge.oracle, old(edge.t), edge.t)
  {
    hide HealthyRoute;
    ghost var start := gateway.t;
    var up := gateway.Probe();
    if up != Fine { assert up == Failed ==> !gateway.oracle(start).ok; return up; }
    var route := edge.EnsureGatewayRoute();
    if route == RouteInterrupted { return Broken; }
    if route != AlreadyCorrect && route != Repaired { return Failed; }
    e := gateway.WriteState(Active);
    assert e == Failed ==> !gateway.oracle(start + 1).ok;
  }

  /** Where Ctrl+C ends `command_off` outside the countdown. */
  datatype Phase = Preparing | Announcing | Cancelling | GoingLive | Recovering | RecordingBack | RecordingLive

  /** How `command_off` ends. `AlreadyLive` and `Live` are exit status 0, `Cancelled` is 130, the
      others raise. */
  datatype OffResult =
    | NotStarted        // refused before anything was recorded
    | AlreadyLive
    | NotAnnounced      // recording the countdown raised
    | Cancelled
    | CancelUnrecorded  // Ctrl+C in the countdown, but recording it raised
    | BackInMaintenance // the switch failed and was undone
    | NotBack           // the switch failed and undoing it raised
    | LiveUnrecorded    // the app is live, but recording it raised
    | Live
    | Abandoned(phase: Phase)

  /** What a `command_off` leaves that Ctrl+C ends with command `now`; `from` is the first command of
      its guarded region, `failedAt` that of its recovery. */
  ghost predicate LeftAbandoned(phase: Phase, link: Link, recorded: Recorded, oldLink: Link, oldRecorded: Recorded,
                                script: Script, from: nat, failedAt: nat, now: nat, f: Front)
  {
    var applied := script(now).applied;
    match phase
    case Preparing => link == oldLink && recorded == oldRecorded
    case Announcing => link == To(MaintenanceMode) && recorded == if applied then Closing else oldRecorded
    case Cancelling => link == To(MaintenanceMode) && recorded == if applied then Active else Closing
    case GoingLive => link == LinkLeft(script, from, now, f) && recorded == Closing
    case Recovering =>
      && failedAt > 0 && link == (if Relinked(script, failedAt, now) then To(MaintenanceMode) else LinkLeft(script, from, failedAt - 1, f))
      && recorded == Closing
    case RecordingBack => link == To(MaintenanceMode) && recorded == if applied then Active else Closing
    case RecordingLive => link == To(AppMode) && recorded == if applied then Active else Closing
  }

  /** The guarded region failed and its handler ran. */
  predicate Recovered(r: OffResult) {
    r == BackInMaintenance || r == NotBack || r == Abandoned(Recovering) || r == Abandoned(RecordingBack)
  }

  /** Why the guarded region failed that began with command `from` and ended before `failedAt`: its
      switch is bad, or it succeeded before `waitAt` and the wait from there on is bad. */
  ghost predicate WentWrong(script: Script, from: nat, waitAt: nat, failedAt: nat, f: Front) {
    || BadSwitch(script, from, failedAt)
    || (waitAt > 0 && SwitchedAt(script, from, waitAt - 1, f, AppMode) && BadWait(script, waitAt, failedAt))
  }

  /** The endings that Ctrl+C in the countdown leads to. */
  predicate Stopped(r: OffResult) {
    r == Cancelled || r == CancelUnrecorded || r == Abandoned(Cancelling)
  }

  /** The endings before the countdown. */
  predicate Uncounted(r: OffResult) {
    r == NotStarted || r == AlreadyLive || r == NotAnnounced || r == Abandoned(Preparing) || r == Abandoned(Announcing)
  }

  predicate GoodRoute(e: Route) {
    HealthyRoute(e.live) && e.incoming.None?
  }

  /** What `command_off` promises from its start `g0`, `e0` to its end `g`, `e`. Status 0 means both
      services answered, the edge led exactly to the gateway and the app is linked; from maintenance
      it is also served and the state is active. Ctrl+C at a command, and nothing else, leaves things
      as `LeftAbandoned` says. Once the countdown has begun, Ctrl+C in a pass of it that begins, and
      nothing else, leads to one of the cancelled endings, with maintenance linked. After a failed
      switch the gateway is back in maintenance with state active, unless the recovery is abandoned,
      its switch is bad or its last write is refused. With a good edge, a known link and no Ctrl+C the
      status is 0 unless a command is refused or a wait is bad. All reasons lie within the commands
      that ran. */
  ghost predicate OffPromise(gs: Script, es: Script, g0: Gate, g: Gate, e0: Route, e: Route,
                             r: OffResult, failedAt: nat, waitAt: nat, heard: bool)
  {
    var front := Aged(gs, g0.t, g0.t + 5, g0.front);
    && g.t > g0.t && e.t >= e0.t
    && (r == AlreadyLive || r == Live ==> g.link == To(AppMode) && HealthyRoute(e.live) && gs(g0.t + 2).ok && gs(g0.t + 3).ok)
    && (r == Live ==> Serves(g.front, AppMode) && g.recorded == Active)
    && (r == LiveUnrecorded ==> g.link == To(AppMode) && Serves(g.front, AppMode) && !gs(g.t - 1).ok)
    && (r == NotStarted || r == AlreadyLive ==> g.link == g0.link && g.recorded == g0.recorded)
    && (r == NotAnnounced || r == Cancelled || r == CancelUnrecorded ==> g.link == g0.link == To(MaintenanceMode))
    && (r == Cancelled ==> g.recorded == Active)
    && (r == BackInMaintenance ==> g.link == To(MaintenanceMode) && Serves(g.front, MaintenanceMode) && g.recorded == Active)
    && (Recovered(r) ==> g0.t + 5 < waitAt <= failedAt < g.t)
    && (r == NotBack ==> BadSwitch(gs, failedAt, g.t) || !gs(g.t - 1).ok)
    && (r == NotStarted || r == NotAnnounced || r == Cancelled || r == CancelUnrecorded ==>
          (Serves(g0.front, MaintenanceMode) ==> Serves(g.front, MaintenanceMode)))
    && (r.Abandoned? ==> LeftAbandoned(r.phase, g.link, g.recorded, g0.link, g0.recorded, gs, g0.t + 5, failedAt, g.t - 1, front))
    && (GoodRoute(e0) && Recovered(r) ==> WentWrong(gs, g0.t + 5, waitAt, failedAt, front) || Fault(es, e0.t, e.t))
    && (GoodRoute(e0) && g0.link.To? && (r == NotStarted || r == NotAnnounced) ==>
          Refused(gs, g0.t, Min(g0.t + 5, g.t)) || Fault(es, e0.t, e.t))
    && (!Uncounted(r) ==> (Stopped(r) <==> heard))
    && (Stopped(r) ==> g.link == To(MaintenanceMode))
    && (g.calm && e.calm <==> g0.calm && e0.calm && !r.Abandoned?)
  }

  /** The same for its part from the announcement on, which starts in maintenance. */
  ghost predicate ReopenPromise(gs: Script, es: Script, g0: Gate, g: Gate, e0: Route, e: Route,
                                r: OffResult, failedAt: nat, waitAt: nat, heard: bool)
  {
    var front := Tick(gs(g0.t), g0.front);
    && g.t > g0.t && e.t >= e0.t && r != NotStarted && r != AlreadyLive && r != Abandoned(Preparing)
    && (r == Live || r == LiveUnrecorded ==> g.link == To(AppMode) && Serves(g.front, AppMode))
    && (r == Live ==> g.recorded == Active && HealthyRoute(e.live))
    && (r == LiveUnrecorded ==> !gs(g.t - 1).ok)
    && (r == NotAnnounced ==> !gs(g0.t).ok)
    && (r == NotAnnounced || r == Cancelled || r == CancelUnrecorded ==>
          g.link == g0.link && (Serves(g0.front, MaintenanceMode) ==> Serves(g.front, MaintenanceMode)))
    && (r == Cancelled ==> g.recorded == Active)
    && (r == BackInMaintenance ==> g.link == To(MaintenanceMode) && Serves(g.front, MaintenanceMode) && g.recorded == Active)
    && (Recovered(r) ==> g0.t + 1 < waitAt <= failedAt < g.t)
    && (r == NotBack ==> BadSwitch(gs, failedAt, g.t) || !gs(g.t - 1).ok)
    && (GoodRoute(e0) && Recovered(r) ==> WentWrong(gs, g0.t + 1, waitAt, failedAt, front) || Fault(es, e0.t, e.t))
    && (r.Abandoned? ==> LeftAbandoned(r.phase, g.link, g.recorded, g0.link, g0.recorded, gs, g0.t + 1, failedAt, g.t - 1, front))
    && (!Uncounted(r) ==> (Stopped(r) <==> heard))
    && (Stopped(r) ==> g.link == To(MaintenanceMode))
    && (EndOf(gs(g0.t)) == Fine ==> !Uncounted(r))
    && (g.calm && e.calm <==> g0.calm && e0.calm && !r.Abandoned?)
  }

  /** And for its preparation. */
  ghost predicate Prepared(gs: Script, es: Script, g0: Gate, g: Gate, e0: Route, e: Route, end: End, mode: Mode) {
    && g.link == g0.link && g.recorded == g0.recorded && g0.t < g.t <= g0.t + 4 && e.t >= e0.t
    && g.front == Aged(gs, g0.t, g.t, g0.front)
    && (g.calm && e.calm <==> g0.calm && e0.calm && end != Broken)
    && (end == Fine ==> g.link == To(mode) && g.t == g0.t + 4 && gs(g0.t + 2).ok && gs(g0.t + 3).ok)
    && (GoodRoute(e0) ==> GoodRoute(e) && (g0.link.To? && end == Failed ==> Refused(gs, g0.t, g.t) || Fault(es, e0.t, e.t)))
  }

  lemma FaultWithin(script: Script, a: nat, b: nat, c: nat, d: nat)
    requires a <= b && c <= d && Fault(script, b, c)
    ensures Fault(script, a, d)
  {
    var k: nat :| b <= k < c && !Answered(script(k));
  }

  /** The three ways through `command_off`. */
  lemma OffUnprepared(gs: Script, es: Script, g0: Gate, g: Gate, e0: Route, e: Route, end: End, mode: Mode, heard: bool)
    requires Prepared(gs, es, g0, g, e0, e, end, mode) && end != Fine
    ensures OffPromise(gs, es, g0, g, e0, e, if end == Broken then Abandoned(Preparing) else NotStarted, 0, 0, heard)
  {
    if Serves(g0.front, MaintenanceMode) { AgedServes(gs, g0.t, g.t, g0.front, MaintenanceMode); }
  }

  lemma OffStaysLive(gs: Script, es: Script, g0: Gate, g: Gate, e0: Route, e1: Route, e: Route, r: OffResult, heard: bool)
    requires Prepared(gs, es, g0, g, e0, e1, Fine, AppMode) && e.t == e1.t + 1
    requires r == AlreadyLive || r == NotStarted || r == Abandoned(Preparing)
    requires (r == AlreadyLive ==> HealthyRoute(e.live)) && (e.calm <==> e1.calm && !r.Abandoned?)
    requires GoodRoute(e1) && r == NotStarted ==> Fault(es, e1.t, e.t)
    ensures OffPromise(gs, es, g0, g, e0, e, r, 0, 0, heard)
  {
    if Serves(g0.front, MaintenanceMode) { AgedServes(gs, g0.t, g.t, g0.front, MaintenanceMode); }
    if Fault(es, e1.t, e.t) { FaultWithin(es, e0.t, e1.t, e.t, e.t); }
  }

  lemma OffReopens(gs: Script, es: Script, g0: Gate, g1: Gate, g: Gate, e0: Route, e1: Route, e: Route, r: OffResult,
                   failedAt: nat, waitAt: nat, heard: bool)
    requires Prepared(gs, es, g0, g1, e0, e1, Fine, MaintenanceMode)
    requires ReopenPromise(gs, es, g1, g, e1, e, r, failedAt, waitAt, heard)
    ensures OffPromise(gs, es, g0, g, e0, e, r, failedAt, waitAt, heard)
  {
    hide BadSwitch, WentWrong, LinkLeft, Relinked, Tick;
    AgedNext(gs, g0.t, g0.t + 4, g0.front);
    if Serves(g0.front, MaintenanceMode) { AgedServes(gs, g0.t, g1.t, g0.front, MaintenanceMode); }
    if Fault(es, e1.t, e.t) { FaultWithin(es, e0.t, e1.t, e.t, e.t); }
    assert r == NotAnnounced ==> !gs(g0.t + 4).ok;
  }

  /** `command_off`. */
  method CommandOff(gateway: Gateway, edge: CaddyEdge, delays: nat -> nat, interruptAt: Option<nat>)
    returns (r: OffResult, ghost failedAt: nat, ghost waitAt: nat)
    modifies gateway, edge
    ensures OffPromise(gateway.oracle, edge.oracle, old(gateway.Now()), gateway.Now(), old(edge.Now()), edge.Now(),
                       r, failedAt, waitAt, Heard(COUNTDOWN_SECONDS, delays, interruptAt))
  {
    hide OffPromise, ReopenPromise, Heard, Prepared, HealthyRoute;
    failedAt, waitAt := 0, 0;
    ghost var heard := Heard(COUNTDOWN_SECONDS, delays, interruptAt);
    ghost var (g0, e0) := (gateway.Now(), edge.Now());
    var prepared, mode := PrepareOff(gateway, edge);
    ghost var (g1, e1) := (gateway.Now(), edge.Now());
    if prepared != Fine {
      r := if prepared == Broken then Abandoned(Preparing) else NotStarted;
      OffUnprepared(gateway.oracle, edge.oracle, g0, g1, e0, e1, prepared, mode, heard);
    } else if mode.AppMode? {
      r := StayLive(edge);
      OffStaysLive(gateway.oracle, edge.oracle, g0, g1, e0, e1, edge.Now(), r, heard);
    } else {
      PreparedLinks(gateway.oracle, edge.oracle, g0, g1, e0, e1, mode);
      r, failedAt, waitAt := Reopen(gateway, edge, delays, interruptAt);
      OffReopens(gateway.oracle, edge.oracle, g0, g1, gateway.Now(), e0, e1, edge.Now(), r, failedAt, waitAt, heard);
    }
  }

  /** Main theorem on Ctrl+C in the countdown: `off` from maintenance over a good edge, with its first
      five commands accepted and no Ctrl+C at any command, is cancelled exactly if Ctrl+C arrives in a
      pass of the countdown that begins; maintenance then stays linked, and the app is never served. */
  lemma CountdownIsCancelledExactly(gs: Script, es: Script, g0: Gate, g: Gate, e0: Route, e: Route, r: OffResult,
                                    failedAt: nat, waitAt: nat, heard: bool)
    requires OffPromise(gs, es, g0, g, e0, e, r, failedAt, waitAt, heard)
    requires g0.link == To(MaintenanceMode) && Serves(g0.front, MaintenanceMode) && GoodRoute(e0)
    requires !Refused(gs, g0.t, g0.t + 5) && !Fault(es, e0.t, e.t) && g0.calm && e0.calm && g.calm && e.calm
    ensures r == Cancelled || r == CancelUnrecorded <==> heard
    ensures heard ==> g.link == To(MaintenanceMode) && Serves(g.front, MaintenanceMode)
    ensures heard && r == Cancelled ==> g.recorded == Active
    ensures !heard ==> r == Live || r == LiveUnrecorded || Recovered(r)
  {
    hide Aged, LeftAbandoned, WentWrong, BadSwitch;
  }

  lemma PreparedLinks(gs: Script, es: Script, g0: Gate, g: Gate, e0: Route, e: Route, mode: Mode)
    requires Prepared(gs, es, g0, g, e0, e, Fine, mode)
    ensures g.link == To(mode)
  {
  }

  /** `command_off` when the app is selected already. */
  method StayLive(edge: CaddyEdge) returns (r: OffResult)
    modifies edge`t, edge`calm, edge`live, edge`incoming
    ensures r == AlreadyLive || r == NotStarted || r == Abandoned(Preparing)
    ensures r == AlreadyLive ==> HealthyRoute(edge.live)
    ensures old(edge.Good()) && r == NotStarted ==> Fault(edge.oracle, old(edge.t), edge.t)
    ensures edge.t == old(edge.t) + 1 && (edge.calm <==> old(edge.calm) && !r.Abandoned?)
  {
    ghost var asked := edge.t;
    var routed := edge.AssertGatewayRoute();
    assert !Answered(edge.oracle(asked)) ==> Fault(edge.oracle, asked, edge.t);
    r := if routed == Fine then AlreadyLive else if routed == Broken then Abandoned(Preparing) else NotStarted;
  }

  /** The announcement and the countdown; `r` is `None` when the countdown has run out. */
  ghost predicate Announced(gs: Script, g0: Gate, g: Gate, r: Option<OffResult>, heard: bool) {
    && g.t > g0.t && g.link == g0.link
    && (Serves(g0.front, MaintenanceMode) ==> Serves(g.front, MaintenanceMode))
    && (EndOf(gs(g0.t)) == Fine ==> if heard then r.Some? && Stopped(r.value) else r.None?)
    && (EndOf(gs(g0.t)) != Fine ==> r == Some(NotAnnounced) || r == Some(Abandoned(Announcing)))
    && (r.None? ==> g.t == g0.t + 1 && g.recorded == Closing && g.front == Tick(gs(g0.t), g0.front))
    && (r == Some(NotAnnounced) ==> !gs(g0.t).ok)
    && (r == Some(Cancelled) ==> g.recorded == Active)
    && (r == Some(Abandoned(Announcing)) ==> g.recorded == if gs(g.t - 1).applied then Closing else g0.recorded)
    && (r == Some(Abandoned(Cancelling)) ==> g.recorded == if gs(g.t - 1).applied then Active else Closing)
    && (g.calm <==> g0.calm && !(r.Some? && r.value.Abandoned?))
  }

  /** From the end of the countdown on, in maintenance and `closing`. */
  ghost predicate Returned(gs: Script, es: Script, g0: Gate, g: Gate, e0: Route, e: Route,
                           r: OffResult, failedAt: nat, waitAt: nat, oldLink: Link, oldRecorded: Recorded)
  {
    && g.t > g0.t && e.t >= e0.t
    && (r == Live || r == LiveUnrecorded || Recovered(r) || r == Abandoned(GoingLive) || r == Abandoned(RecordingLive))
    && (r == Live || r == LiveUnrecorded ==> g.link == To(AppMode) && Serves(g.front, AppMode))
    && (r == Live ==> g.recorded == Active && HealthyRoute(e.live))
    && (r == LiveUnrecorded ==> !gs(g.t - 1).ok)
    && (r == BackInMaintenance ==> g.link == To(MaintenanceMode) && Serves(g.front, MaintenanceMode) && g.recorded == Active)
    && (Recovered(r) ==> g0.t < waitAt <= failedAt < g.t)
    && (r == NotBack ==> BadSwitch(gs, failedAt, g.t) || !gs(g.t - 1).ok)
    && (GoodRoute(e0) && Recovered(r) ==> WentWrong(gs, g0.t, waitAt, failedAt, g0.front) || Fault(es, e0.t, e.t))
    && (r.Abandoned? ==> LeftAbandoned(r.phase, g.link, g.recorded, oldLink, oldRecorded, gs, g0.t, failedAt, g.t - 1, g0.front))
    && (g.calm && e.calm <==> g0.calm && e0.calm && !r.Abandoned?)
  }

  lemma ReopenStops(gs: Script, es: Script, g0: Gate, g: Gate, e: Route, r: OffResult, heard: bool)
    requires Announced(gs, g0, g, Some(r), heard) && g0.link == To(MaintenanceMode)
    ensures ReopenPromise(gs, es, g0, g, e, e, r, 0, 0, heard)
  {
  }

  lemma ReopenReturns(gs: Script, es: Script, g0: Gate, g1: Gate, g: Gate, e0: Route, e: Route, r: OffResult,
                      failedAt: nat, waitAt: nat, heard: bool)
    requires Announced(gs, g0, g1, None, heard) && g0.link == To(MaintenanceMode)
    requires Returned(gs, es, g1, g, e0, e, r, failedAt, waitAt, g0.link, g0.recorded)
    ensures ReopenPromise(gs, es, g0, g, e0, e, r, failedAt, waitAt, heard)
  {
    hide BadSwitch, WentWrong, LinkLeft, Relinked, Tick;
  }

  lemma AnnouncedCloses(gs: Script, g0: Gate, g: Gate, heard: bool)
    requires Announced(gs, g0, g, None, heard)
    ensures g.link == g0.link && g.recorded == Closing
  {
  }

  /** The rest of `command_off` from maintenance: announce, count down and return. */
  method Reopen(gateway: Gateway, edge: CaddyEdge, delays: nat -> nat, interruptAt: Option<nat>)
    returns (r: OffResult, ghost failedAt: nat, ghost waitAt: nat)
    requires gateway.link == To(MaintenanceMode)
    modifies gateway, edge
    ensures ReopenPromise(gateway.oracle, edge.oracle, old(gateway.Now()), gateway.Now(), old(edge.Now()), edge.Now(),
                          r, failedAt, waitAt, Heard(COUNTDOWN_SECONDS, delays, interruptAt))
  {
    hide ReopenPromise, Announced, Returned, Heard;
    failedAt, waitAt := 0, 0;
    ghost var heard := Heard(COUNTDOWN_SECONDS, delays, interruptAt);
    ghost var (g0, e0) := (gateway.Now(), edge.Now());
    var stopped := Announce(gateway, delays, interruptAt);
    ghost var g1 := gateway.Now();
    if stopped.Some? {
      r := stopped.value;
      ReopenStops(gateway.oracle, edge.oracle, g0, g1, e0, r, heard);
    } else {
      AnnouncedCloses(gateway.oracle, g0, g1, heard);
      r, failedAt, waitAt := Return(gateway, edge, g0.link, g0.recorded);
      ReopenReturns(gateway.oracle, edge.oracle, g0, g1, gateway.Now(), e0, edge.Now(), r, failedAt, waitAt, heard);
    }
  }

  /** Record the closing state and count down; `None` when the countdown has run out. */
  method Announce(gateway: Gateway, delays: nat -> nat, interruptAt: Option<nat>) returns (r: Option<OffResult>)
    requires gateway.link == To(MaintenanceMode)
    modifies gateway`t, gateway`calm, gateway`served, gateway`loading, gateway`recorded
    ensures Announced(gateway.oracle, old(gateway.Now()), gateway.Now(), r, Heard(COUNTDOWN_SECONDS, delays, interruptAt))
  {
    hide Heard;
    var announced := gateway.WriteState(Closing);
    if announced == Broken { return Some(Abandoned(Announcing)); }
    if announced == Failed { return Some(NotAnnounced); }
    var interrupted, _, _ := RunCountdown(COUNTDOWN_SECONDS, delays, interruptAt);
    if !interrupted { return None; }
    var noted := gateway.WriteState(Active);
    return Some(if noted == Broken then Abandoned(Cancelling) else if noted == Fine then Cancelled else CancelUnrecorded);
  }

  /** From the end of the countdown: go live, record it, or recover. */
  method Return(gateway: Gateway, edge: CaddyEdge, ghost oldLink: Link, ghost oldRecorded: Recorded)
    returns (r: OffResult, ghost failedAt: nat, ghost waitAt: nat)
    requires gateway.link == To(MaintenanceMode) && gateway.recorded == Closing
    modifies gateway, edge
    ensures Returned(gateway.oracle, edge.oracle, old(gateway.Now()), gateway.Now(), old(edge.Now()), edge.Now(),
                     r, failedAt, waitAt, oldLink, oldRecorded)
  {
    hide Returned, BadSwitch, WentWrong, Relinked, LeavesApp, HealthyRoute;
    failedAt := 0;
    ghost var (g0, e0) := (gateway.Now(), edge.Now());
    var live;
    live, waitAt := GoLive(gateway, edge);
    ghost var (g1, e1) := (gateway.Now(), edge.Now());
    if live == Broken {
      r := Abandoned(GoingLive);
      ReturnBroken(gateway.oracle, edge.oracle, g0, g1, e0, e1, failedAt, waitAt, oldLink, oldRecorded);
    } else if live == Failed {
      failedAt := gateway.t;
      r := Recover(gateway);
      ReturnRecovers(gateway.oracle, edge.oracle, g0, g1, gateway.Now(), e0, e1, r, waitAt, oldLink, oldRecorded);
    } else {
      var recorded := gateway.WriteState(Active);
      r := if recorded == Broken then Abandoned(RecordingLive) else if recorded == Fine then Live else LiveUnrecorded;
      ReturnLives(gateway.oracle, edge.oracle, g0, g1, gateway.Now(), e0, e1, r, failedAt, waitAt, oldLink, oldRecorded);
    }
  }

  /** The three ways through `Return`. */
  lemma ReturnBroken(gs: Script, es: Script, g0: Gate, g: Gate, e0: Route, e: Route, failedAt: nat, waitAt: nat,
                     oldLink: Link, oldRecorded: Recorded)
    requires g.t > g0.t && e.t >= e0.t && g.recorded == Closing && g.link == LinkLeft(gs, g0.t, g.t - 1, g0.front)
    requires !(g.calm && e.calm)
    ensures Returned(gs, es, g0, g, e0, e, Abandoned(GoingLive), failedAt, waitAt, oldLink, oldRecorded)
  {
    hide LinkLeft;
  }

  lemma ReturnRecovers(gs: Script, es: Script, g0: Gate, g1: Gate, g: Gate, e0: Route, e: Route, r: OffResult, waitAt: nat,
                       oldLink: Link, oldRecorded: Recorded)
    requires g0.t < waitAt <= g1.t < g.t && e.t >= e0.t && g1.link == LinkLeft(gs, g0.t, g1.t - 1, g0.front)
    requires Recovered(r) && (g1.calm && e.calm <==> g0.calm && e0.calm) && (g.calm <==> g1.calm && !r.Abandoned?)
    requires r == BackInMaintenance ==> g.link == To(MaintenanceMode) && Serves(g.front, MaintenanceMode) && g.recorded == Active
    requires r == NotBack ==> BadSwitch(gs, g1.t, g.t) || !gs(g.t - 1).ok
    requires r == Abandoned(Recovering) ==>
               g.link == (if Relinked(gs, g1.t, g.t - 1) then To(MaintenanceMode) else g1.link) && g.recorded == Closing
    requires r == Abandoned(RecordingBack) ==>
               g.link == To(MaintenanceMode) && g.recorded == if gs(g.t - 1).applied then Active else Closing
    requires GoodRoute(e0) ==> WentWrong(gs, g0.t, waitAt, g1.t, g0.front) || Fault(es, e0.t, e.t)
    ensures Returned(gs, es, g0, g, e0, e, r, g1.t, waitAt, oldLink, oldRecorded)
  {
    hide LinkLeft, BadSwitch, WentWrong, Relinked;
  }

  lemma ReturnLives(gs: Script, es: Script, g0: Gate, g1: Gate, g: Gate, e0: Route, e: Route, r: OffResult,
                    failedAt: nat, waitAt: nat, oldLink: Link, oldRecorded: Recorded)
    requires g0.t < g1.t && g.t == g1.t + 1 && e.t >= e0.t && (g1.calm && e.calm <==> g0.calm && e0.calm)
    requires r == Live || r == LiveUnrecorded || r == Abandoned(RecordingLive)
    requires g.link == To(AppMode) && Serves(g.front, AppMode) && HealthyRoute(e.live)
    requires r == LiveUnrecorded ==> !gs(g1.t).ok
    requires r == Live ==> g.recorded == Active
    requires r == Abandoned(RecordingLive) ==> g.recorded == if gs(g1.t).applied then Active else Closing
    requires g.calm <==> g1.calm && !r.Abandoned?
    ensures Returned(gs, es, g0, g, e0, e, r, failedAt, waitAt, oldLink, oldRecorded)
  {
  }

  /** Availability, edge reconciliation, the selected mode and readiness; nothing is recorded. The
      source checks readiness in both modes before it does anything else. */
  method PrepareOff(gateway: Gateway, edge: CaddyEdge) returns (e: End, mode: Mode)
    modifies gateway, edge
    ensures Prepared(gateway.oracle, edge.oracle, old(gateway.Now()), gateway.Now(), old(edge.Now()), edge.Now(), e, mode)
  {
    hide Tick, HealthyRoute, Aged, Answered;
    ghost var (g0, e0) := (gateway.Now(), edge.Now());
    mode := AppMode;
    e := gateway.Probe();
    ghost var g1 := gateway.Now();
    AgedNext(gateway.oracle, g0.t, g0.t, g0.front);
    AgedNone(gateway.oracle, g0.t, g0.front);
    if e != Fine {
      assert e == Failed ==> !gateway.oracle(g0.t).ok;
      return;
    }
    var route := edge.EnsureGatewayRoute();
    if route != AlreadyCorrect && route != Repaired {
      e := if route == RouteInterrupted then Broken else Failed;
      return;
    }
    e, mode := SelectReady(gateway);
    PreparedThen(gateway.oracle, edge.oracle, g0, g1, gateway.Now(), e0, edge.Now(), e, mode);
  }

  lemma AgedNone(script: Script, from: nat, f: Front)
    ensures Aged(script, from, from, f) == f
  {
  }

  /** The selected mode, then both services. */
  ghost predicate Selected(gs: Script, g0: Gate, g: Gate, end: End, mode: Mode) {
    && g.link == g0.link && g.recorded == g0.recorded && g0.t < g.t <= g0.t + 3
    && g.front == Aged(gs, g0.t, g.t, g0.front)
    && (g.calm <==> g0.calm && end != Broken)
    && (end == Fine ==> g.link == To(mode) && g.t == g0.t + 3 && gs(g0.t + 1).ok && gs(g0.t + 2).ok)
    && (g0.link.To? && end == Failed ==> Refused(gs, g0.t, g.t))
  }

  method SelectReady(gateway: Gateway) returns (e: End, mode: Mode)
    modifies gateway
    ensures Selected(gateway.oracle, old(gateway.Now()), gateway.Now(), e, mode)
  {
    ghost var g0 := gateway.Now();
    e, mode := gateway.SelectedMode();
    AgedNext(gateway.oracle, g0.t, g0.t, g0.front);
    if e != Fine {
      assert e == Failed && gateway.link.To? ==> !gateway.oracle(g0.t).ok;
      return;
    }
    e := gateway.Ready();
    AgedJoin(gateway.oracle, g0.t, g0.t + 1, gateway.t, g0.front);
  }

  lemma PreparedThen(gs: Script, es: Script, g0: Gate, g1: Gate, g: Gate, e0: Route, e: Route, end: End, mode: Mode)
    requires g1 == Gate(g0.t + 1, g0.calm, Tick(gs(g0.t), g0.front), g0.link, g0.recorded) && Selected(gs, g1, g, end, mode)
    requires e.t >= e0.t && (e.calm <==> e0.calm) && (GoodRoute(e0) ==> GoodRoute(e))
    ensures Prepared(gs, es, g0, g, e0, e, end, mode)
  {
    AgedNext(gs, g0.t, g0.t, g0.front);
    AgedJoin(gs, g0.t, g0.t + 1, g.t, g0.front);
    if Refused(gs, g1.t, g.t) {
      var k: nat :| g1.t <= k < g.t && !gs(k).ok;
      assert Refused(gs, g0.t, g.t);
    }
  }

  /** readlink and relink go through, and Ctrl+C arrives at the validation after them. */
  ghost predicate RelinkedThenInterrupted(oracle: Script, from: nat) {
    && oracle(from).ok && !oracle(from).interrupted && oracle(from + 1).ok && !oracle(from + 1).interrupted
    && oracle(from + 2).interrupted
  }

  /** The guarded region: switch, check the app through the gateway, check the edge. However it ends,
      by itself, with a `MaintenanceError` or with Ctrl+C, the outcomes so far say whether it leaves
      the app linked; in particular it does after Ctrl+C at the first command after the relink. */
  method GoLive(gateway: Gateway, edge: CaddyEdge) returns (e: End, ghost waitAt: nat)
    requires gateway.link == To(MaintenanceMode)
    modifies gateway, edge
    ensures gateway.recorded == old(gateway.recorded) && edge.t >= old(edge.t)
    ensures gateway.calm && edge.calm <==> old(gateway.calm && edge.calm) && e != Broken
    ensures old(gateway.t) < waitAt <= gateway.t
    ensures gateway.link == LinkLeft(gateway.oracle, old(gateway.t), gateway.t - 1, old(gateway.State()))
    ensures e == Fine ==> gateway.link == To(AppMode) && gateway.Serving(AppMode) && HealthyRoute(edge.live)
    ensures e == Failed && old(edge.Good()) ==>
              WentWrong(gateway.oracle, old(gateway.t), waitAt, gateway.t, old(gateway.State())) || Fault(edge.oracle, old(edge.t), edge.t)
    ensures e == Broken && !gateway.oracle(gateway.t - 1).interrupted ==> gateway.link == To(AppMode)   // at the edge
    ensures RelinkedThenInterrupted(gateway.oracle, old(gateway.t)) ==>
              e == Broken && gateway.t == old(gateway.t) + 3 && gateway.link == To(AppMode)
  {
    ghost var start, asked := gateway.t, edge.t;
    var switched := gateway.Switch(AppMode);
    waitAt := gateway.t;
    if switched == Interrupted { return Broken, waitAt; }
    if switched != Switched { return Failed, waitAt; }
    var answered := gateway.WaitForRoute(AppMode);
    if answered != Fine { return answered, waitAt; }
    e := edge.AssertGatewayRoute();
    assert !Answered(edge.oracle(asked)) ==> Fault(edge.oracle, old(edge.t), edge.t);
  }

  /** The handler of the guarded region. */
  method Recover(gateway: Gateway) returns (r: OffResult)
    requires gateway.link.To? && gateway.recorded == Closing
    modifies gateway
    ensures gateway.t > old(gateway.t) && Recovered(r)
    ensures gateway.calm <==> old(gateway.calm) && !r.Abandoned?
    ensures r == BackInMaintenance ==>
              gateway.link == To(MaintenanceMode) && gateway.Serving(MaintenanceMode) && gateway.recorded == Active
    ensures r == NotBack ==> BadSwitch(gateway.oracle, old(gateway.t), gateway.t) || !gateway.oracle(gateway.t - 1).ok
    ensures r == Abandoned(Recovering) ==>
              && gateway.link == (if Relinked(gateway.oracle, old(gateway.t), gateway.t - 1) then To(MaintenanceMode) else old(gateway.link))
              && gateway.recorded == Closing
    ensures r == Abandoned(RecordingBack) ==>
              && gateway.link == To(MaintenanceMode)
              && gateway.recorded == if gateway.oracle(gateway.t - 1).applied then Active else Closing
  {
    hide BadSwitch;
    ghost var start := gateway.t;
    var switched := gateway.Switch(MaintenanceMode);
    if switched == Interrupted { return Abandoned(Recovering); }
    if switched != Switched { return NotBack; }
    var recorded := gateway.WriteState(Active);
    return if recorded == Broken then Abandoned(RecordingBack) else if recorded == Fine then BackInMaintenance else NotBack;
  }
}
