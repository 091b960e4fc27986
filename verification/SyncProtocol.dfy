/** Canonical snapshot synchronisation as a transition system. */
module SyncProtocol {
  import opened Wrappers
  import opened MemberShell

  // A refresh in flight is a `Flight`, keyed by the generation it was given; every step below
  // is one synchronous segment of the component, so any sequence of steps is one interleaving.
  // The environment is assumed to do two things only: the event sequence of an organisation
  // never decreases, and a load answers with a sequence the server held between call and return.

  datatype Stage =
    | Reading(attempt: nat, floor: nat)          // both loads out; `floor`: the server's sequence at the call
    | Conversing(accepted: nat)                  // waiting for the conversation
    | Projecting(accepted: nat, messages: seq<Message>) // waiting for projection and preferences
    | Settled                                    // the promise is settled, its `finally` has not run yet

  datatype Flight = Flight(org: OrgId, minimum: nat, event: bool, abortable: bool, aborted: bool, stage: Stage)

  datatype System = System(client: Client, flights: map<nat, Flight>, server: map<OrgId, nat>)

  datatype Step =
    | Advance(org: OrgId, to: nat)                         // the server appends events
    | EffectRefresh(org: OrgId)                            // the refresh effect runs
    | ManualRefresh(org: OrgId)                            // Retry button, `onRefresh`
    | Cleanup(key: nat)                                    // the refresh effect is cleaned up
    | PairRead(key: nat, portfolio: nat, hierarchy: nat)
    | ConversationRead(key: nat, sequence: nat, messages: seq<Message>)
    | GraphRead(key: nat, projection: Surface, preferencesInScope: bool)
    | LoadFailed(key: nat, abortError: bool)
    | Release(key: nat)                                    // the `finally` callback of a settled refresh
    | Events(org: OrgId, next: nat)
    | Poll(org: OrgId, next: nat)                          // a poll without events
    | PollError(org: OrgId)
    | Switch(org: OrgId)

  const ATTEMPTS: nat := 3

  function At(server: map<OrgId, nat>, org: OrgId): nat {
    if org in server then server[org] else 0
  }

  predicate Init(s: System) {
    s.client == InitialClient(s.client.activeOrganization) && s.flights == map[]
  }

  // The event channel is subscribed to while an aligned snapshot is shown. A callback may still come from the
  // subscription of another organisation that is being torn down; the component ignores it.
  predicate Subscribed(c: Client, org: OrgId) {
    org != "" && (org == c.activeOrganization ==> ShowsSnapshot(c, org))
  }

  predicate ShowsSnapshot(c: Client, org: OrgId) {
    && c.portfolio.Some? && c.hierarchy.Some? && c.portfolio.value.org == org
    && c.portfolio.value.sequence == c.hierarchy.value.sequence
  }

  predicate Enabled(s: System, step: Step) {
    match step
    case Advance(org, to) => At(s.server, org) <= to
    case PairRead(k, p, h) =>
      && k in s.flights && s.flights[k].stage.Reading?
      && s.flights[k].stage.floor <= p <= At(s.server, s.flights[k].org)
      && s.flights[k].stage.floor <= h <= At(s.server, s.flights[k].org)
    case ConversationRead(k, _, _) => k in s.flights && s.flights[k].stage.Conversing?
    case GraphRead(k, _, _) => k in s.flights && s.flights[k].stage.Projecting?
    case LoadFailed(k, _) => k in s.flights && !s.flights[k].stage.Settled?
    case Release(k) => k in s.flights && s.flights[k].stage.Settled?
    case Events(org, _) => Subscribed(s.client, org)
    case Poll(org, _) => Subscribed(s.client, org)
    case PollError(org) => Subscribed(s.client, org)
    case _ => true
  }

  predicate CurrentFlight(c: Client, key: nat, f: Flight) {
    IsCurrent(c, key, f.org, f.aborted)
  }

  // A refresh for a non-empty organisation: a new generation and a first pair of loads.
  function Launch(s: System, org: OrgId, minimum: nat, event: bool, abortable: bool): System {
    if org == "" then s
    else
      var c := BeginRefresh(s.client);
      s.(client := c,
         flights := s.flights[c.generation :=
           Flight(org, minimum, event, abortable, false, Reading(0, At(s.server, org)))])
  }

  function LaunchEventRefresh(s: System, org: OrgId): System {
    if EventRefreshStarts(s.client, org)
    then Launch(s.(client := ClaimEventRefresh(s.client, org)), org, s.client.pending.value, true, false)
    else s
  }

  function WithStage(s: System, key: nat, stage: Stage): System
    requires key in s.flights
  {
    s.(flights := s.flights[key := s.flights[key].(stage := stage)])
  }

  function Settle(s: System, key: nat, c: Client): System
    requires key in s.flights
  {
    WithStage(s, key, Settled).(client := c)
  }

  // An exception at `key`: nothing happens unless that refresh is still current.
  function Throw(s: System, key: nat, abortError: bool): System
    requires key in s.flights
  {
    Settle(s, key, if CurrentFlight(s.client, key, s.flights[key]) then FailRefresh(s.client, abortError) else s.client)
  }

  function TakePair(s: System, key: nat, portfolio: nat, hierarchy: nat): System
    requires key in s.flights && s.flights[key].stage.Reading?
  {
    var f := s.flights[key];
    if portfolio == hierarchy && portfolio >= f.minimum then
      if CurrentFlight(s.client, key, f) then WithStage(s, key, Conversing(portfolio)) else Settle(s, key, s.client)
    else if f.stage.attempt + 1 < ATTEMPTS && !f.aborted then
      WithStage(s, key, Reading(f.stage.attempt + 1, At(s.server, f.org)))
    else Throw(s, key, false)
  }

  function TakeConversation(graphMode: bool, s: System, key: nat, sequence: nat, messages: seq<Message>): System
    requires key in s.flights && s.flights[key].stage.Conversing?
  {
    var f := s.flights[key];
    var accepted := f.stage.accepted;
    if sequence < accepted then Throw(s, key, false)
    else if !CurrentFlight(s.client, key, f) then Settle(s, key, s.client)
    else if graphMode then WithStage(s, key, Projecting(accepted, messages))
    else Settle(s, key, Commit(s.client, f.org, accepted, false, messages))
  }

  function TakeGraph(s: System, key: nat, projection: Surface, preferencesInScope: bool): System
    requires key in s.flights && s.flights[key].stage.Projecting?
  {
    var f := s.flights[key];
    var accepted := f.stage.accepted;
    if projection != Surface(f.org, accepted) || !preferencesInScope then Throw(s, key, false)
    else if !CurrentFlight(s.client, key, f) then Settle(s, key, s.client)
    else Settle(s, key, Commit(s.client, f.org, accepted, true, f.stage.messages))
  }

  function TakePoll(s: System, org: OrgId, next: nat): System {
    if org != s.client.activeOrganization then s
    else if PollFindsGap(s.client, next) then LaunchEventRefresh(s.(client := RaisePending(s.client, next)), org)
    else s.(client := s.client.(syncState := Connected))
  }

  function Apply(graphMode: bool, s: System, step: Step): System
    requires Enabled(s, step)
  {
    match step
    case Advance(org, to) => s.(server := s.server[org := to])
    case EffectRefresh(org) =>
      Launch(s.(client := s.client.(messages := [])), org, s.client.pending.GetOr(0), false, true)
    case ManualRefresh(org) => Launch(s, org, s.client.pending.GetOr(0), false, false)
    case Cleanup(k) =>
      s.(client := s.client.(generation := s.client.generation + 1),
         flights := if k in s.flights && s.flights[k].abortable
                    then s.flights[k := s.flights[k].(aborted := true)] else s.flights)
    case PairRead(k, p, h) => TakePair(s, k, p, h)
    case ConversationRead(k, n, messages) => TakeConversation(graphMode, s, k, n, messages)
    case GraphRead(k, projection, inScope) => TakeGraph(s, k, projection, inScope)
    case LoadFailed(k, abortError) => Throw(s, k, abortError)
    case Release(k) =>
      s.(client := if s.flights[k].event then ReleaseEventRefresh(s.client, s.flights[k].org) else s.client,
         flights := s.flights - {k})
    case Events(org, next) =>
      if org != s.client.activeOrganization then s
      else LaunchEventRefresh(s.(client := RaisePending(s.client, next)), org)
    case Poll(org, next) => TakePoll(s, org, next)
    case PollError(org) =>
      if org != s.client.activeOrganization then s else s.(client := s.client.(syncState := Disconnected))
    case Switch(org) => s.(client := SwitchOrganization(s.client, org))
  }

  // ---------------------------------------------------------------- the invariant

  // The sequence an unsettled flight may still commit is at least this.
  function Floor(stage: Stage): nat
    requires !stage.Settled?
  {
    match stage
    case Reading(_, floor) => floor
    case Conversing(accepted) => accepted
    case Projecting(accepted, _) => accepted
  }

  predicate ScreenConsistent(c: Client, server: map<OrgId, nat>) {
    && c.portfolio == c.hierarchy
    && c.aligned == (if c.portfolio.Some? then Some(c.portfolio.value.sequence) else None)
    && (c.portfolio.Some? ==>
          c.portfolio.value.org == c.activeOrganization
          && c.portfolio.value.sequence <= At(server, c.activeOrganization))
    && (c.aligned.None? ==> c.messages == [])
    && (c.aligned.Some? ==> forall m :: m in c.messages ==> VisibleAt(m, c.aligned.value))
  }

  predicate ConnectedHonestly(c: Client) {
    c.syncState == Connected ==> c.pending.None? && c.aligned.Some?
  }

  predicate GraphConsistent(graphMode: bool, c: Client) {
    && c.projection == (if graphMode then c.hierarchy else None)
    && c.preferences == (if graphMode && c.hierarchy.Some? then Some(c.activeOrganization) else None)
  }

  ghost predicate FlightOk(graphMode: bool, s: System, key: nat) {
    key in s.flights ==>
      var f := s.flights[key];
      && 0 < key <= s.client.generation
      && f.org != ""
      && (f.stage.Projecting? ==> graphMode)
      && (f.stage.Conversing? || f.stage.Projecting? ==> f.minimum <= f.stage.accepted)
      && (!f.stage.Settled? ==> Floor(f.stage) <= At(s.server, f.org) && NotBehindScreen(s.client, key, f))
  }

  // Whatever the newest refresh commits is at least what the screen shows.
  predicate NotBehindScreen(c: Client, key: nat, f: Flight)
    requires !f.stage.Settled?
  {
    key == c.generation && f.org == c.activeOrganization && c.aligned.Some? ==> c.aligned.value <= Floor(f.stage)
  }

  // The latch of `refreshPendingEvents` is held only while an event refresh will release it.
  ghost predicate LatchOk(s: System) {
    s.client.eventRefreshOrganization.Some? ==>
      exists k :: HoldsLatch(s, k, s.client.eventRefreshOrganization.value)
  }

  predicate HoldsLatch(s: System, key: nat, org: OrgId) {
    key in s.flights && s.flights[key].event && s.flights[key].org == org
  }

  ghost predicate Inv(graphMode: bool, s: System) {
    && ScreenConsistent(s.client, s.server)
    && ConnectedHonestly(s.client)
    && GraphConsistent(graphMode, s.client)
    && (forall k :: FlightOk(graphMode, s, k))
    && LatchOk(s)
  }

  // ---------------------------------------------------------------- one step

  lemma LatchSurvives(s: System, t: System)
    requires LatchOk(s)
    requires t.client.eventRefreshOrganization == s.client.eventRefreshOrganization
    requires forall k :: k in s.flights ==>
      k in t.flights && t.flights[k].event == s.flights[k].event && t.flights[k].org == s.flights[k].org
    ensures LatchOk(t)
  {
    if t.client.eventRefreshOrganization.Some? {
      var org := t.client.eventRefreshOrganization.value;
      var k :| HoldsLatch(s, k, org);
      assert HoldsLatch(t, k, org);
    }
  }

  lemma LaunchKeepsInv(graphMode: bool, s: System, org: OrgId, minimum: nat, event: bool, abortable: bool)
    requires Inv(graphMode, s)
    ensures Inv(graphMode, Launch(s, org, minimum, event, abortable))
  {
    var t := Launch(s, org, minimum, event, abortable);
    forall k ensures FlightOk(graphMode, t, k) { assert FlightOk(graphMode, s, k); }
    assert s.client.generation + 1 !in s.flights by { assert FlightOk(graphMode, s, s.client.generation + 1); }
    LatchSurvives(s, t);
  }

  lemma LaunchEventKeepsInv(graphMode: bool, s: System, org: OrgId)
    requires Inv(graphMode, s) && org != ""
    ensures Inv(graphMode, LaunchEventRefresh(s, org))
  {
    if EventRefreshStarts(s.client, org) {
      var t := LaunchEventRefresh(s, org);
      forall k ensures FlightOk(graphMode, t, k) { assert FlightOk(graphMode, s, k); }
      assert HoldsLatch(t, t.client.generation, org);
    }
  }

  lemma SettleKeepsInv(graphMode: bool, s: System, key: nat, c: Client)
    requires Inv(graphMode, s) && key in s.flights
    requires c.generation == s.client.generation && c.activeOrganization == s.client.activeOrganization
    requires c.eventRefreshOrganization == s.client.eventRefreshOrganization
    requires c.aligned == s.client.aligned || key == c.generation
    requires ScreenConsistent(c, s.server) && ConnectedHonestly(c) && GraphConsistent(graphMode, c)
    ensures Inv(graphMode, Settle(s, key, c))
  {
    var t := Settle(s, key, c);
    forall k ensures FlightOk(graphMode, t, k) { assert FlightOk(graphMode, s, k); }
    LatchSurvives(s, t);
  }

  lemma ThrowKeepsInv(graphMode: bool, s: System, key: nat, abortError: bool)
    requires Inv(graphMode, s) && key in s.flights
    ensures Inv(graphMode, Throw(s, key, abortError))
  {
    var c := if CurrentFlight(s.client, key, s.flights[key]) then FailRefresh(s.client, abortError) else s.client;
    SettleKeepsInv(graphMode, s, key, c);
  }

  lemma CommitKeepsInv(graphMode: bool, s: System, key: nat, messages: seq<Message>)
    requires Inv(graphMode, s) && key in s.flights && !s.flights[key].stage.Settled?
    requires CurrentFlight(s.client, key, s.flights[key])
    ensures Inv(graphMode, Settle(s, key,
      Commit(s.client, s.flights[key].org, Floor(s.flights[key].stage), graphMode, messages)))
    ensures s.client.aligned.Some? ==> s.client.aligned.value <= Floor(s.flights[key].stage)
  {
    var c := Commit(s.client, s.flights[key].org, Floor(s.flights[key].stage), graphMode, messages);
    assert FlightOk(graphMode, s, key);
    SettleKeepsInv(graphMode, s, key, c);
  }

  lemma StageKeepsInv(graphMode: bool, s: System, key: nat, stage: Stage)
    requires Inv(graphMode, s) && key in s.flights && !s.flights[key].stage.Settled? && !stage.Settled?
    requires Floor(s.flights[key].stage) <= Floor(stage) <= At(s.server, s.flights[key].org)
    requires stage.Projecting? ==> graphMode
    requires !stage.Reading? ==> s.flights[key].minimum <= Floor(stage)
    ensures Inv(graphMode, WithStage(s, key, stage))
  {
    var t := WithStage(s, key, stage);
    forall k ensures FlightOk(graphMode, t, k) { assert FlightOk(graphMode, s, k); }
    LatchSurvives(s, t);
  }

  lemma PairReadKeepsInv(graphMode: bool, s: System, key: nat, portfolio: nat, hierarchy: nat)
    requires Inv(graphMode, s) && Enabled(s, PairRead(key, portfolio, hierarchy))
    ensures Inv(graphMode, TakePair(s, key, portfolio, hierarchy))
  {
    var f := s.flights[key];
    assert FlightOk(graphMode, s, key);
    if portfolio == hierarchy && portfolio >= f.minimum {
      if CurrentFlight(s.client, key, f) {
        StageKeepsInv(graphMode, s, key, Conversing(portfolio));
      } else {
        SettleKeepsInv(graphMode, s, key, s.client);
      }
    } else if f.stage.attempt + 1 < ATTEMPTS && !f.aborted {
      StageKeepsInv(graphMode, s, key, Reading(f.stage.attempt + 1, At(s.server, f.org)));
    } else {
      ThrowKeepsInv(graphMode, s, key, false);
    }
  }

  lemma ConversationReadKeepsInv(graphMode: bool, s: System, key: nat, sequence: nat, messages: seq<Message>)
    requires Inv(graphMode, s) && Enabled(s, ConversationRead(key, sequence, messages))
    ensures Inv(graphMode, TakeConversation(graphMode, s, key, sequence, messages))
  {
    var f := s.flights[key];
    assert FlightOk(graphMode, s, key);
    if sequence < f.stage.accepted {
      ThrowKeepsInv(graphMode, s, key, false);
    } else if !CurrentFlight(s.client, key, f) {
      SettleKeepsInv(graphMode, s, key, s.client);
    } else if graphMode {
      StageKeepsInv(graphMode, s, key, Projecting(f.stage.accepted, messages));
    } else {
      CommitKeepsInv(graphMode, s, key, messages);
    }
  }

  lemma GraphReadKeepsInv(graphMode: bool, s: System, key: nat, projection: Surface, preferencesInScope: bool)
    requires Inv(graphMode, s) && Enabled(s, GraphRead(key, projection, preferencesInScope))
    ensures Inv(graphMode, TakeGraph(s, key, projection, preferencesInScope))
  {
    var f := s.flights[key];
    assert FlightOk(graphMode, s, key);
    if projection != Surface(f.org, f.stage.accepted) || !preferencesInScope {
      ThrowKeepsInv(graphMode, s, key, false);
    } else if !CurrentFlight(s.client, key, f) {
      SettleKeepsInv(graphMode, s, key, s.client);
    } else {
      CommitKeepsInv(graphMode, s, key, f.stage.messages);
    }
  }

  lemma CleanupKeepsInv(graphMode: bool, s: System, key: nat)
    requires Inv(graphMode, s)
    ensures Inv(graphMode, Apply(graphMode, s, Cleanup(key)))
  {
    var t := Apply(graphMode, s, Cleanup(key));
    forall k ensures FlightOk(graphMode, t, k) { assert FlightOk(graphMode, s, k); }
    LatchSurvives(s, t);
  }

  lemma ReleaseKeepsInv(graphMode: bool, s: System, key: nat)
    requires Inv(graphMode, s) && Enabled(s, Release(key))
    ensures Inv(graphMode, Apply(graphMode, s, Release(key)))
  {
    var t := Apply(graphMode, s, Release(key));
    forall k ensures FlightOk(graphMode, t, k) { assert FlightOk(graphMode, s, k); }
    if t.client.eventRefreshOrganization.Some? {
      var k :| HoldsLatch(s, k, t.client.eventRefreshOrganization.value);
      assert HoldsLatch(t, k, t.client.eventRefreshOrganization.value);
    }
  }

  // Steps that touch neither the flights nor anything a flight or the latch refers to.
  lemma QuietStepKeepsInv(graphMode: bool, s: System, t: System)
    requires Inv(graphMode, s)
    requires t.flights == s.flights
    requires t.client.generation == s.client.generation
    requires t.client.activeOrganization == s.client.activeOrganization
    requires t.client.aligned == s.client.aligned
    requires t.client.eventRefreshOrganization == s.client.eventRefreshOrganization
    requires forall org :: At(s.server, org) <= At(t.server, org)
    requires ScreenConsistent(t.client, t.server) && ConnectedHonestly(t.client) && GraphConsistent(graphMode, t.client)
    ensures Inv(graphMode, t)
  {
    forall k ensures FlightOk(graphMode, t, k) { assert FlightOk(graphMode, s, k); }
    LatchSurvives(s, t);
  }

  lemma RaiseKeepsInv(graphMode: bool, s: System, org: OrgId, next: nat)
    requires Inv(graphMode, s) && org != ""
    ensures Inv(graphMode, LaunchEventRefresh(s.(client := RaisePending(s.client, next)), org))
  {
    var raised := s.(client := RaisePending(s.client, next));
    QuietStepKeepsInv(graphMode, s, raised);
    LaunchEventKeepsInv(graphMode, raised, org);
  }

  lemma PollKeepsInv(graphMode: bool, s: System, org: OrgId, next: nat)
    requires Inv(graphMode, s) && org != ""
    ensures Inv(graphMode, TakePoll(s, org, next))
  {
    RaiseKeepsInv(graphMode, s, org, next);
    if org == s.client.activeOrganization && !PollFindsGap(s.client, next) {
      QuietStepKeepsInv(graphMode, s, TakePoll(s, org, next));
    }
  }

  lemma EffectRefreshKeepsInv(graphMode: bool, s: System, org: OrgId)
    requires Inv(graphMode, s)
    ensures Inv(graphMode, Apply(graphMode, s, EffectRefresh(org)))
  {
    var cleared := s.(client := s.client.(messages := []));
    QuietStepKeepsInv(graphMode, s, cleared);
    LaunchKeepsInv(graphMode, cleared, org, s.client.pending.GetOr(0), false, true);
  }

  lemma SwitchKeepsInv(graphMode: bool, s: System, org: OrgId)
    requires Inv(graphMode, s)
    ensures Inv(graphMode, Apply(graphMode, s, Switch(org)))
  {
    var t := Apply(graphMode, s, Switch(org));
    forall k ensures FlightOk(graphMode, t, k) { assert FlightOk(graphMode, s, k); }
  }

  lemma StepKeepsInv(graphMode: bool, s: System, step: Step)
    requires Inv(graphMode, s) && Enabled(s, step)
    ensures Inv(graphMode, Apply(graphMode, s, step))
  {
    match step
    case Advance(_, _) => QuietStepKeepsInv(graphMode, s, Apply(graphMode, s, step));
    case EffectRefresh(org) => EffectRefreshKeepsInv(graphMode, s, org);
    case ManualRefresh(org) => LaunchKeepsInv(graphMode, s, org, s.client.pending.GetOr(0), false, false);
    case Cleanup(k) => CleanupKeepsInv(graphMode, s, k);
    case PairRead(k, p, h) => PairReadKeepsInv(graphMode, s, k, p, h);
    case ConversationRead(k, n, messages) => ConversationReadKeepsInv(graphMode, s, k, n, messages);
    case GraphRead(k, projection, inScope) => GraphReadKeepsInv(graphMode, s, k, projection, inScope);
    case LoadFailed(k, abortError) => ThrowKeepsInv(graphMode, s, k, abortError);
    case Release(k) => ReleaseKeepsInv(graphMode, s, k);
    case Events(org, next) => RaiseKeepsInv(graphMode, s, org, next);
    case Poll(org, next) => PollKeepsInv(graphMode, s, org, next);
    case PollError(_) => QuietStepKeepsInv(graphMode, s, Apply(graphMode, s, step));
    case Switch(org) => SwitchKeepsInv(graphMode, s, org);
  }

  // What the event channel has announced to the active organisation since the last switch.
  function Announce(s: System, step: Step, announced: nat): nat {
    match step
    case Events(org, next) => if org == s.client.activeOrganization then Max(announced, next) else announced
    case Poll(org, next) => if org == s.client.activeOrganization then Max(announced, next) else announced
    case Switch(_) => 0
    case _ => announced
  }

  predicate ContinuesFlight(step: Step, key: nat) {
    match step
    case PairRead(k, _, _) => k == key
    case ConversationRead(k, _, _) => k == key
    case GraphRead(k, _, _) => k == key
    case LoadFailed(k, _) => k == key
    case _ => false
  }

  // The highest sequence the client knows of: shown, or still to be fetched.
  function Known(c: Client): nat {
    Max(c.aligned.GetOr(0), c.pending.GetOr(0))
  }

  // What every step but a switch does: nothing the client knows is forgotten, nothing shown is taken back.
  predicate Forward(c: Client, d: Client) {
    && d.activeOrganization == c.activeOrganization
    && c.generation <= d.generation
    && (c.aligned.Some? ==> d.aligned.Some? && c.aligned.value <= d.aligned.value)
    && Known(c) <= Known(d)
  }

  lemma CommitIsForward(graphMode: bool, s: System, key: nat, messages: seq<Message>)
    requires Inv(graphMode, s) && key in s.flights && !s.flights[key].stage.Settled?
    requires CurrentFlight(s.client, key, s.flights[key])
    ensures Forward(s.client, Commit(s.client, s.flights[key].org, Floor(s.flights[key].stage), graphMode, messages))
  {
    assert FlightOk(graphMode, s, key);
  }

  lemma FlightStepIsForward(graphMode: bool, s: System, step: Step, key: nat)
    requires Inv(graphMode, s) && Enabled(s, step) && ContinuesFlight(step, key)
    ensures Forward(s.client, Apply(graphMode, s, step).client)
  {
    assert FlightOk(graphMode, s, key);
    match step
    case PairRead(_, _, _) =>
    case LoadFailed(_, _) =>
    case ConversationRead(_, _, messages) => ConversationIsForward(graphMode, s, key, step.sequence, messages);
    case GraphRead(_, _, _) =>
      if CurrentFlight(s.client, key, s.flights[key]) {
        CommitIsForward(graphMode, s, key, s.flights[key].stage.messages);
      }
  }

  lemma ConversationIsForward(graphMode: bool, s: System, key: nat, sequence: nat, messages: seq<Message>)
    requires Inv(graphMode, s) && Enabled(s, ConversationRead(key, sequence, messages))
    ensures Forward(s.client, TakeConversation(graphMode, s, key, sequence, messages).client)
  {
    if CurrentFlight(s.client, key, s.flights[key]) { CommitIsForward(graphMode, s, key, messages); }
  }

  lemma RaiseIsForward(s: System, org: OrgId, next: nat)
    ensures var t := LaunchEventRefresh(s.(client := RaisePending(s.client, next)), org).client;
      Forward(s.client, t) && next <= Known(t)
  {}

  lemma StepIsForward(graphMode: bool, s: System, step: Step)
    requires Inv(graphMode, s) && Enabled(s, step)
    ensures s.client.generation <= Apply(graphMode, s, step).client.generation
    ensures !step.Switch? ==> Forward(s.client, Apply(graphMode, s, step).client)
    ensures forall a :: 0 <= a <= Known(s.client) ==>
      Announce(s, step, a) <= Known(Apply(graphMode, s, step).client)
  {
    match step
    case PairRead(k, _, _) => FlightStepIsForward(graphMode, s, step, k);
    case ConversationRead(k, _, _) => FlightStepIsForward(graphMode, s, step, k);
    case GraphRead(k, _, _) => FlightStepIsForward(graphMode, s, step, k);
    case LoadFailed(k, _) => FlightStepIsForward(graphMode, s, step, k);
    case Events(org, next) => RaiseIsForward(s, org, next);
    case Poll(org, next) => RaiseIsForward(s, org, next);
    case _ =>
  }

  // ---------------------------------------------------------------- whole runs

  ghost predicate Run(graphMode: bool, states: seq<System>, steps: seq<Step>) {
    && |states| == |steps| + 1
    && Init(states[0])
    && forall i :: 0 <= i < |steps| ==> Enabled(states[i], steps[i]) && states[i + 1] == Apply(graphMode, states[i], steps[i])
  }

  function AnnouncedAt(states: seq<System>, steps: seq<Step>, n: nat): nat
    requires n <= |steps| < |states|
  {
    if n == 0 then 0 else Announce(states[n - 1], steps[n - 1], AnnouncedAt(states, steps, n - 1))
  }

  lemma {:induction false} EveryStateIsGood(graphMode: bool, states: seq<System>, steps: seq<Step>, n: nat)
    requires Run(graphMode, states, steps) && n <= |steps|
    ensures Inv(graphMode, states[n])
    ensures AnnouncedAt(states, steps, n) <= Known(states[n].client)
  {
    if n > 0 {
      EveryStateIsGood(graphMode, states, steps, n - 1);
      StepKeepsInv(graphMode, states[n - 1], steps[n - 1]);
      StepIsForward(graphMode, states[n - 1], steps[n - 1]);
    }
  }

  // "Connected" means caught up.
  lemma ConnectedMeansCaughtUp(graphMode: bool, states: seq<System>, steps: seq<Step>, n: nat)
    requires Run(graphMode, states, steps) && n <= |steps|
    requires states[n].client.syncState == Connected
    ensures states[n].client.pending == None
    ensures states[n].client.aligned.Some?
    ensures AnnouncedAt(states, steps, n) <= states[n].client.aligned.value
  {
    EveryStateIsGood(graphMode, states, steps, n);
  }

  // The surfaces on screen are one snapshot of the active organisation that the server really held.
  lemma ScreenShowsOneSnapshot(graphMode: bool, states: seq<System>, steps: seq<Step>, n: nat)
    requires Run(graphMode, states, steps) && n <= |steps|
    ensures var c := states[n].client;
      && (c.aligned.None? ==>
            c.portfolio == c.hierarchy == c.projection == None && c.preferences == None && c.messages == [])
      && (c.aligned.Some? ==>
            var shown := Surface(c.activeOrganization, c.aligned.value);
            && c.portfolio == c.hierarchy == Some(shown)
            && c.projection == (if graphMode then Some(shown) else None)
            && c.preferences == (if graphMode then Some(c.activeOrganization) else None)
            && shown.sequence <= At(states[n].server, c.activeOrganization)
            && forall m :: m in c.messages && m.eventSequence.Some? ==> m.eventSequence.value <= shown.sequence)
  {
    EveryStateIsGood(graphMode, states, steps, n);
  }

  // Between two switches the snapshot on screen never moves backwards and never disappears.
  lemma {:induction false} SnapshotsNeverGoBack(
    graphMode: bool, states: seq<System>, steps: seq<Step>, i: nat, j: nat)
    requires Run(graphMode, states, steps) && i <= j <= |steps|
    requires forall k :: i <= k < j ==> !steps[k].Switch?
    requires states[i].client.aligned.Some?
    ensures states[j].client.activeOrganization == states[i].client.activeOrganization
    ensures states[j].client.aligned.Some? && states[i].client.aligned.value <= states[j].client.aligned.value
  {
    if i < j {
      SnapshotsNeverGoBack(graphMode, states, steps, i, j - 1);
      EveryStateIsGood(graphMode, states, steps, j - 1);
      StepIsForward(graphMode, states[j - 1], steps[j - 1]);
    }
  }

  // A refresh changes what the member sees only while it is current, and only to its own organisation's data.
  lemma OnlyCurrentRefreshWrites(graphMode: bool, s: System, step: Step, key: nat)
    requires Inv(graphMode, s) && Enabled(s, step) && ContinuesFlight(step, key)
    requires Apply(graphMode, s, step).client != s.client
    ensures key in s.flights && CurrentFlight(s.client, key, s.flights[key])
    ensures var t := Apply(graphMode, s, step).client;
      t.portfolio != s.client.portfolio ==>
        t.portfolio == Some(Surface(s.flights[key].org, Floor(s.flights[key].stage)))
        && t.portfolio.value.sequence >= Max(s.client.aligned.GetOr(0), s.flights[key].minimum)
  {
    assert FlightOk(graphMode, s, key);
  }

  lemma {:induction false} GenerationNeverDecreases(
    graphMode: bool, states: seq<System>, steps: seq<Step>, i: nat, j: nat)
    requires Run(graphMode, states, steps) && i <= j <= |steps|
    ensures states[i].client.generation <= states[j].client.generation
  {
    if i < j {
      GenerationNeverDecreases(graphMode, states, steps, i, j - 1);
      EveryStateIsGood(graphMode, states, steps, j - 1);
      StepIsForward(graphMode, states[j - 1], steps[j - 1]);
    }
  }

  // Once superseded, a refresh never writes again, however the organisation is switched
  // away and back: nothing it still receives changes the client.
  lemma SupersededRefreshNeverWrites(
    graphMode: bool, states: seq<System>, steps: seq<Step>, i: nat, j: nat, key: nat)
    requires Run(graphMode, states, steps) && i <= j < |steps|
    requires key < states[i].client.generation
    requires ContinuesFlight(steps[j], key)
    ensures states[j + 1].client == states[j].client
  {
    GenerationNeverDecreases(graphMode, states, steps, i, j);
    EveryStateIsGood(graphMode, states, steps, j);
    if Apply(graphMode, states[j], steps[j]).client != states[j].client {
      OnlyCurrentRefreshWrites(graphMode, states[j], steps[j], key);
    }
  }

  // ---------------------------------------------------------------- loading, and how it ends

  predicate Unsettled(s: System, key: nat) {
    key in s.flights && !s.flights[key].stage.Settled? && CurrentFlight(s.client, key, s.flights[key])
  }

  predicate LoadsAt(s: System, key: nat) {
    Unsettled(s, key) ==> s.client.isLoading && !s.client.hasError
  }

  ghost predicate LoadsWhileCurrent(s: System) {
    forall key :: LoadsAt(s, key)
  }

  // This step settles a refresh that is current.
  predicate Ends(graphMode: bool, s: System, step: Step, key: nat)
    requires Enabled(s, step)
  {
    var t := Apply(graphMode, s, step);
    ContinuesFlight(step, key) && Unsettled(s, key) && key in t.flights && t.flights[key].stage.Settled?
  }

  ghost predicate EndsRefresh(graphMode: bool, s: System, step: Step)
    requires Enabled(s, step)
  {
    exists key :: Ends(graphMode, s, step, key)
  }

  // A refresh goes out, or the organisation is switched.
  predicate Begins(graphMode: bool, s: System, step: Step)
    requires Enabled(s, step)
  {
    step.Switch? || s.client.generation + 1 in Apply(graphMode, s, step).flights
  }

  lemma LaunchLoads(graphMode: bool, s: System, org: OrgId, minimum: nat, event: bool, abortable: bool)
    requires Inv(graphMode, s) && LoadsWhileCurrent(s)
    ensures LoadsWhileCurrent(Launch(s, org, minimum, event, abortable))
  {
    var t := Launch(s, org, minimum, event, abortable);
    forall key ensures LoadsAt(t, key) {
      assert LoadsAt(s, key) && FlightOk(graphMode, s, key);
    }
  }

  // A flight step takes loading down exactly when it settles a current refresh, and launches nothing.
  predicate EndsOrStays(s: System, t: System, key: nat) {
    && t.flights.Keys == s.flights.Keys && key in s.flights && !s.flights[key].stage.Settled?
    && t.client.isLoading == (s.client.isLoading && !(Unsettled(s, key) && t.flights[key].stage.Settled?))
  }

  // It leaves the other flights alone, and touches neither the generation nor the error unless it settles.
  predicate KeepsLoads(s: System, t: System, key: nat) {
    && EndsOrStays(s, t, key)
    && t.client.generation == s.client.generation && t.client.activeOrganization == s.client.activeOrganization
    && t.flights == s.flights[key := t.flights[key]]
    && t.flights[key] == s.flights[key].(stage := t.flights[key].stage)
    && (t.client.hasError != s.client.hasError ==> Unsettled(s, key) && t.flights[key].stage.Settled?)
  }

  lemma ThrowLoading(s: System, key: nat, abortError: bool)
    requires key in s.flights && !s.flights[key].stage.Settled?
    ensures KeepsLoads(s, Throw(s, key, abortError), key)
  {}

  lemma PairLoading(s: System, key: nat, portfolio: nat, hierarchy: nat)
    requires Enabled(s, PairRead(key, portfolio, hierarchy))
    ensures KeepsLoads(s, TakePair(s, key, portfolio, hierarchy), key)
  {
    ThrowLoading(s, key, false);
  }

  lemma ConversationLoading(graphMode: bool, s: System, key: nat, sequence: nat, messages: seq<Message>)
    requires Enabled(s, ConversationRead(key, sequence, messages)) && (Unsettled(s, key) ==> !s.client.hasError)
    ensures KeepsLoads(s, TakeConversation(graphMode, s, key, sequence, messages), key)
  {
    ThrowLoading(s, key, false);
  }

  lemma GraphLoading(s: System, key: nat, projection: Surface, preferencesInScope: bool)
    requires Enabled(s, GraphRead(key, projection, preferencesInScope)) && (Unsettled(s, key) ==> !s.client.hasError)
    ensures KeepsLoads(s, TakeGraph(s, key, projection, preferencesInScope), key)
  {
    ThrowLoading(s, key, false);
  }

  lemma FlightStepLoading(graphMode: bool, s: System, step: Step, key: nat)
    requires Enabled(s, step) && ContinuesFlight(step, key) && (Unsettled(s, key) ==> !s.client.hasError)
    ensures KeepsLoads(s, Apply(graphMode, s, step), key)
  {
    match step
    case PairRead(_, p, h) => PairLoading(s, key, p, h);
    case ConversationRead(_, n, messages) => ConversationLoading(graphMode, s, key, n, messages);
    case GraphRead(_, projection, inScope) => GraphLoading(s, key, projection, inScope);
    case LoadFailed(_, abortError) => ThrowLoading(s, key, abortError);
  }

  lemma KeptLoads(graphMode: bool, s: System, t: System, key: nat)
    requires Inv(graphMode, s) && LoadsWhileCurrent(s) && KeepsLoads(s, t, key)
    ensures LoadsWhileCurrent(t)
  {
    forall k ensures LoadsAt(t, k) {
      assert LoadsAt(s, k) && LoadsAt(s, key);
    }
  }

  lemma StepKeepsLoading(graphMode: bool, s: System, step: Step)
    requires Inv(graphMode, s) && LoadsWhileCurrent(s) && Enabled(s, step)
    ensures LoadsWhileCurrent(Apply(graphMode, s, step))
  {
    var t := Apply(graphMode, s, step);
    match step
    case EffectRefresh(org) =>
      var cleared := s.(client := s.client.(messages := []));
      QuietStepKeepsInv(graphMode, s, cleared);
      KeepsLoading(graphMode, s, cleared);
      LaunchLoads(graphMode, cleared, org, s.client.pending.GetOr(0), false, true);
    case ManualRefresh(org) => LaunchLoads(graphMode, s, org, s.client.pending.GetOr(0), false, false);
    case Events(org, next) => RaiseLoads(graphMode, s, org, next);
    case Poll(org, next) => PollLoads(graphMode, s, org, next);
    case Advance(_, _) => KeepsLoading(graphMode, s, t);
    case PollError(_) => KeepsLoading(graphMode, s, t);
    case Cleanup(_) => NothingIsCurrent(graphMode, s, step);
    case Switch(_) => NothingIsCurrent(graphMode, s, step);
    case Release(_) => KeepsLoading(graphMode, s, t);
    case PairRead(key, _, _) => FlightLoads(graphMode, s, step, key);
    case ConversationRead(key, _, _) => FlightLoads(graphMode, s, step, key);
    case GraphRead(key, _, _) => FlightLoads(graphMode, s, step, key);
    case LoadFailed(key, _) => FlightLoads(graphMode, s, step, key);
  }

  lemma FlightLoads(graphMode: bool, s: System, step: Step, key: nat)
    requires Inv(graphMode, s) && LoadsWhileCurrent(s) && Enabled(s, step) && ContinuesFlight(step, key)
    ensures LoadsWhileCurrent(Apply(graphMode, s, step))
  {
    assert LoadsAt(s, key);
    FlightStepLoading(graphMode, s, step, key);
    KeptLoads(graphMode, s, Apply(graphMode, s, step), key);
  }

  lemma KeepsLoading(graphMode: bool, s: System, t: System)
    requires LoadsWhileCurrent(s)
    requires forall k :: k in t.flights ==> k in s.flights && t.flights[k] == s.flights[k]
    requires t.client.generation == s.client.generation && t.client.activeOrganization == s.client.activeOrganization
    requires t.client.isLoading == s.client.isLoading && t.client.hasError == s.client.hasError
    ensures LoadsWhileCurrent(t)
  {
    forall k ensures LoadsAt(t, k) { assert LoadsAt(s, k); }
  }

  lemma RaiseLoads(graphMode: bool, s: System, org: OrgId, next: nat)
    requires Inv(graphMode, s) && LoadsWhileCurrent(s) && org != ""
    ensures var raised := s.(client := RaisePending(s.client, next));
      LoadsWhileCurrent(raised) && LoadsWhileCurrent(LaunchEventRefresh(raised, org))
  {
    var raised := s.(client := RaisePending(s.client, next));
    QuietStepKeepsInv(graphMode, s, raised);
    KeepsLoading(graphMode, s, raised);
    if EventRefreshStarts(raised.client, org) {
      LaunchClaimed(graphMode, raised, org);
    }
  }

  lemma LaunchClaimed(graphMode: bool, s: System, org: OrgId)
    requires Inv(graphMode, s) && LoadsWhileCurrent(s) && org != "" && EventRefreshStarts(s.client, org)
    ensures LoadsWhileCurrent(LaunchEventRefresh(s, org))
  {
    var t := LaunchEventRefresh(s, org);
    forall key ensures LoadsAt(t, key) {
      assert LoadsAt(s, key) && FlightOk(graphMode, s, key);
    }
  }

  lemma PollLoads(graphMode: bool, s: System, org: OrgId, next: nat)
    requires Inv(graphMode, s) && LoadsWhileCurrent(s) && org != ""
    ensures LoadsWhileCurrent(TakePoll(s, org, next))
  {
    RaiseLoads(graphMode, s, org, next);
    if org != s.client.activeOrganization || !PollFindsGap(s.client, next) {
      KeepsLoading(graphMode, s, TakePoll(s, org, next));
    }
  }

  // A cleanup or a switch leaves no refresh current.
  lemma NothingIsCurrent(graphMode: bool, s: System, step: Step)
    requires Inv(graphMode, s) && (step.Cleanup? || step.Switch?)
    ensures forall k :: !Unsettled(Apply(graphMode, s, step), k)
  {
    var t := Apply(graphMode, s, step);
    forall k ensures !Unsettled(t, k) { assert FlightOk(graphMode, s, k); }
  }

  lemma OtherStepsEndNothing(graphMode: bool, s: System, step: Step)
    requires Enabled(s, step) && !step.PairRead? && !step.ConversationRead? && !step.GraphRead? && !step.LoadFailed?
    ensures !EndsRefresh(graphMode, s, step)
  {
    forall key ensures !Ends(graphMode, s, step, key) { assert !ContinuesFlight(step, key); }
  }

  lemma RaiseBegins(graphMode: bool, s: System, org: OrgId, next: nat)
    requires Inv(graphMode, s) && org != ""
    ensures var t := LaunchEventRefresh(s.(client := RaisePending(s.client, next)), org);
      t.client.isLoading == (s.client.generation + 1 in t.flights || s.client.isLoading)
  {
    assert FlightOk(graphMode, s, s.client.generation + 1);
  }

  lemma OtherStepLoading(graphMode: bool, s: System, step: Step)
    requires Inv(graphMode, s) && Enabled(s, step)
    requires !step.PairRead? && !step.ConversationRead? && !step.GraphRead? && !step.LoadFailed?
    ensures Apply(graphMode, s, step).client.isLoading == (Begins(graphMode, s, step) || s.client.isLoading)
  {
    assert FlightOk(graphMode, s, s.client.generation + 1);
    match step
    case Events(org, next) => RaiseBegins(graphMode, s, org, next);
    case Poll(org, next) => RaiseBegins(graphMode, s, org, next);
    case _ =>
  }

  // Loading goes down exactly when a current refresh is settled, and up exactly when a refresh goes out or
  // the organisation is switched.
  lemma LoadingStep(graphMode: bool, s: System, step: Step)
    requires Inv(graphMode, s) && LoadsWhileCurrent(s) && Enabled(s, step)
    ensures Apply(graphMode, s, step).client.isLoading <==>
      !EndsRefresh(graphMode, s, step) && (Begins(graphMode, s, step) || s.client.isLoading)
  {
    match step
    case PairRead(key, _, _) => FlightLoadingStep(graphMode, s, step, key);
    case ConversationRead(key, _, _) => FlightLoadingStep(graphMode, s, step, key);
    case GraphRead(key, _, _) => FlightLoadingStep(graphMode, s, step, key);
    case LoadFailed(key, _) => FlightLoadingStep(graphMode, s, step, key);
    case _ =>
      OtherStepsEndNothing(graphMode, s, step);
      OtherStepLoading(graphMode, s, step);
  }

  lemma FlightLoadingStep(graphMode: bool, s: System, step: Step, key: nat)
    requires Inv(graphMode, s) && LoadsWhileCurrent(s) && Enabled(s, step) && ContinuesFlight(step, key)
    ensures !Begins(graphMode, s, step)
    ensures EndsRefresh(graphMode, s, step) <==> Ends(graphMode, s, step, key)
    ensures Apply(graphMode, s, step).client.isLoading == (s.client.isLoading && !Ends(graphMode, s, step, key))
  {
    assert LoadsAt(s, key) && FlightOk(graphMode, s, s.client.generation + 1);
    FlightStepLoading(graphMode, s, step, key);
  }

  lemma {:induction false} EveryStateLoads(graphMode: bool, states: seq<System>, steps: seq<Step>, n: nat)
    requires Run(graphMode, states, steps) && n <= |steps|
    ensures LoadsWhileCurrent(states[n])
  {
    if n > 0 {
      EveryStateIsGood(graphMode, states, steps, n - 1);
      EveryStateLoads(graphMode, states, steps, n - 1);
      StepKeepsLoading(graphMode, states[n - 1], steps[n - 1]);
    }
  }

  // In every state of every run, a refresh that is current and not settled is shown as loading, without an error.
  lemma CurrentRefreshLoads(graphMode: bool, states: seq<System>, steps: seq<Step>, n: nat, key: nat)
    requires Run(graphMode, states, steps) && n <= |steps|
    requires key in states[n].flights && !states[n].flights[key].stage.Settled?
    requires CurrentFlight(states[n].client, key, states[n].flights[key])
    ensures states[n].client.isLoading && !states[n].client.hasError
  {
    EveryStateLoads(graphMode, states, steps, n);
    assert LoadsAt(states[n], key);
  }

  // A current refresh was settled at m, and nothing has begun since.
  ghost predicate EndedAt(graphMode: bool, states: seq<System>, steps: seq<Step>, m: nat, n: nat)
    requires Run(graphMode, states, steps) && n <= |steps|
  {
    m < n && EndsRefresh(graphMode, states[m], steps[m]) && forall k :: m < k < n ==> !Begins(graphMode, states[k], steps[k])
  }

  ghost predicate Ended(graphMode: bool, states: seq<System>, steps: seq<Step>, n: nat)
    requires Run(graphMode, states, steps) && n <= |steps|
  {
    exists m: nat :: EndedAt(graphMode, states, steps, m, n)
  }

  lemma EndedNext(graphMode: bool, states: seq<System>, steps: seq<Step>, n: nat)
    requires Run(graphMode, states, steps) && n < |steps|
    ensures Ended(graphMode, states, steps, n + 1) <==>
      EndsRefresh(graphMode, states[n], steps[n])
      || (Ended(graphMode, states, steps, n) && !Begins(graphMode, states[n], steps[n]))
  {
    var next := n + 1;
    if EndsRefresh(graphMode, states[n], steps[n]) {
      assert EndedAt(graphMode, states, steps, n, next);
    }
    if m: nat :| EndedAt(graphMode, states, steps, m, n) && !Begins(graphMode, states[n], steps[n]) {
      assert EndedAt(graphMode, states, steps, m, next);
    }
    if m: nat :| EndedAt(graphMode, states, steps, m, next) && m != n {
      assert EndedAt(graphMode, states, steps, m, n);
    }
  }

  lemma LoadingNext(graphMode: bool, states: seq<System>, steps: seq<Step>, n: nat)
    requires Run(graphMode, states, steps) && n < |steps|
    ensures states[n + 1].client.isLoading <==>
      !EndsRefresh(graphMode, states[n], steps[n]) && (Begins(graphMode, states[n], steps[n]) || states[n].client.isLoading)
  {
    EveryStateIsGood(graphMode, states, steps, n);
    EveryStateLoads(graphMode, states, steps, n);
    LoadingStep(graphMode, states[n], steps[n]);
  }

  // So the shell shows loading exactly until a current refresh is settled, and again from the next refresh or
  // switch on.
  lemma {:induction false} LoadingExactly(graphMode: bool, states: seq<System>, steps: seq<Step>, n: nat)
    requires Run(graphMode, states, steps) && n <= |steps|
    ensures states[n].client.isLoading <==> !Ended(graphMode, states, steps, n)
  {
    if n > 0 {
      LoadingExactly(graphMode, states, steps, n - 1);
      LoadingNext(graphMode, states, steps, n - 1);
      EndedNext(graphMode, states, steps, n - 1);
    }
  }

  // The step settles a current refresh with an error.
  ghost predicate FailsRefresh(graphMode: bool, s: System, step: Step)
    requires Enabled(s, step)
  {
    exists key :: Ends(graphMode, s, step, key) && Refused(s, step, key) && !(step.LoadFailed? && step.abortError)
  }

  lemma FlightErrorStep(graphMode: bool, s: System, step: Step, key: nat)
    requires Inv(graphMode, s) && LoadsWhileCurrent(s) && Enabled(s, step) && ContinuesFlight(step, key)
    ensures !Begins(graphMode, s, step)
    ensures FailsRefresh(graphMode, s, step) <==>
      Ends(graphMode, s, step, key) && Refused(s, step, key) && !(step.LoadFailed? && step.abortError)
    ensures Apply(graphMode, s, step).client.hasError == (s.client.hasError || FailsRefresh(graphMode, s, step))
  {
    FlightLoadingStep(graphMode, s, step, key);
    assert LoadsAt(s, key);
    if Unsettled(s, key) {
      if Refused(s, step, key) { RefusedRefresh(graphMode, s, step, key); } else { AcceptedRefresh(graphMode, s, step, key); }
    } else if Apply(graphMode, s, step).client != s.client {
      OnlyCurrentRefreshWrites(graphMode, s, step, key);
    }
  }

  lemma RaiseClears(graphMode: bool, s: System, org: OrgId, next: nat)
    requires Inv(graphMode, s) && org != ""
    ensures var t := LaunchEventRefresh(s.(client := RaisePending(s.client, next)), org);
      t.client.hasError == (s.client.hasError && s.client.generation + 1 !in t.flights)
  {
    assert FlightOk(graphMode, s, s.client.generation + 1);
  }

  lemma OtherErrorStep(graphMode: bool, s: System, step: Step)
    requires Inv(graphMode, s) && Enabled(s, step)
    requires !step.PairRead? && !step.ConversationRead? && !step.GraphRead? && !step.LoadFailed?
    ensures Apply(graphMode, s, step).client.hasError == (s.client.hasError && !Begins(graphMode, s, step))
  {
    assert FlightOk(graphMode, s, s.client.generation + 1);
    match step
    case Events(org, next) => RaiseClears(graphMode, s, org, next);
    case Poll(org, next) => RaiseClears(graphMode, s, org, next);
    case _ =>
  }

  lemma ErrorStep(graphMode: bool, s: System, step: Step)
    requires Inv(graphMode, s) && LoadsWhileCurrent(s) && Enabled(s, step)
    ensures Apply(graphMode, s, step).client.hasError <==>
      FailsRefresh(graphMode, s, step) || (s.client.hasError && !Begins(graphMode, s, step))
  {
    match step
    case PairRead(key, _, _) => FlightErrorStep(graphMode, s, step, key);
    case ConversationRead(key, _, _) => FlightErrorStep(graphMode, s, step, key);
    case GraphRead(key, _, _) => FlightErrorStep(graphMode, s, step, key);
    case LoadFailed(key, _) => FlightErrorStep(graphMode, s, step, key);
    case _ =>
      OtherStepsEndNothing(graphMode, s, step);
      OtherErrorStep(graphMode, s, step);
  }

  ghost predicate FailedAt(graphMode: bool, states: seq<System>, steps: seq<Step>, m: nat, n: nat)
    requires Run(graphMode, states, steps) && n <= |steps|
  {
    m < n && FailsRefresh(graphMode, states[m], steps[m]) && forall k :: m < k < n ==> !Begins(graphMode, states[k], steps[k])
  }

  ghost predicate Failed(graphMode: bool, states: seq<System>, steps: seq<Step>, n: nat)
    requires Run(graphMode, states, steps) && n <= |steps|
  {
    exists m: nat :: FailedAt(graphMode, states, steps, m, n)
  }

  lemma FailedNext(graphMode: bool, states: seq<System>, steps: seq<Step>, n: nat)
    requires Run(graphMode, states, steps) && n < |steps|
    ensures Failed(graphMode, states, steps, n + 1) <==>
      FailsRefresh(graphMode, states[n], steps[n])
      || (Failed(graphMode, states, steps, n) && !Begins(graphMode, states[n], steps[n]))
  {
    var next := n + 1;
    if FailsRefresh(graphMode, states[n], steps[n]) {
      assert FailedAt(graphMode, states, steps, n, next);
    }
    if m: nat :| FailedAt(graphMode, states, steps, m, n) && !Begins(graphMode, states[n], steps[n]) {
      assert FailedAt(graphMode, states, steps, m, next);
    }
    if m: nat :| FailedAt(graphMode, states, steps, m, next) && m != n {
      assert FailedAt(graphMode, states, steps, m, n);
    }
  }

  lemma ErrorNext(graphMode: bool, states: seq<System>, steps: seq<Step>, n: nat)
    requires Run(graphMode, states, steps) && n < |steps|
    ensures states[n + 1].client.hasError <==>
      FailsRefresh(graphMode, states[n], steps[n]) || (states[n].client.hasError && !Begins(graphMode, states[n], steps[n]))
  {
    EveryStateIsGood(graphMode, states, steps, n);
    EveryStateLoads(graphMode, states, steps, n);
    ErrorStep(graphMode, states[n], steps[n]);
  }

  // And it shows the error exactly from a failure of a current refresh on, until the next refresh or switch.
  lemma {:induction false} ErrorExactly(graphMode: bool, states: seq<System>, steps: seq<Step>, n: nat)
    requires Run(graphMode, states, steps) && n <= |steps|
    ensures states[n].client.hasError <==> Failed(graphMode, states, steps, n)
  {
    if n > 0 {
      ErrorExactly(graphMode, states, steps, n - 1);
      ErrorNext(graphMode, states, steps, n - 1);
      FailedNext(graphMode, states, steps, n - 1);
    }
  }

  // ---------------------------------------------------------------- what becomes of a current refresh

  // What a refresh that is current does not accept: surfaces of two sequences or behind the minimum, a
  // conversation behind the surfaces, a projection or preferences of something else, or a load that failed.
  predicate Refused(s: System, step: Step, key: nat)
    requires Enabled(s, step) && ContinuesFlight(step, key)
  {
    var f := s.flights[key];
    match step
    case PairRead(_, portfolio, hierarchy) => portfolio != hierarchy || portfolio < f.minimum
    case ConversationRead(_, sequence, _) => sequence < f.stage.accepted
    case GraphRead(_, projection, inScope) =>
      projection.org != f.org || projection.sequence != f.stage.accepted || !inScope
    case LoadFailed(_, _) => true
  }

  // Two refused pairs are asked for again; everything else that is refused settles the refresh.
  predicate AsksAgain(s: System, step: Step, key: nat)
    requires Enabled(s, step) && ContinuesFlight(step, key)
  {
    step.PairRead? && s.flights[key].stage.attempt < 2
  }

  // The error is shown and the channel counts as disconnected; what is on screen stays.
  predicate ShowsError(c: Client, d: Client) {
    d == c.(isLoading := false, hasError := true, syncState := Disconnected)
  }

  // The snapshot at this sequence is on screen with what it lets see of the conversation.
  ghost predicate ShowsSnapshotOf(graphMode: bool, c: Client, d: Client, sequence: nat, messages: seq<Message>) {
    var shown := Some(Surface(c.activeOrganization, sequence));
    && d.portfolio == d.hierarchy == shown && d.aligned == Some(sequence)
    && (graphMode ==> d.projection == shown && d.preferences == Some(c.activeOrganization))
    && ShownOf(messages, sequence, d.messages)
    && d.pending == (if c.pending.Some? && c.pending.value > sequence then c.pending else None)
    && d.syncState == (if d.pending.Some? then Connecting else Connected)
    && !d.isLoading && !d.hasError
  }

  // A refused step of a current refresh: asked again twice, and then the error, unless it was an abort.
  lemma RefusedRefresh(graphMode: bool, s: System, step: Step, key: nat)
    requires Enabled(s, step) && ContinuesFlight(step, key) && Unsettled(s, key) && Refused(s, step, key)
    ensures var t := Apply(graphMode, s, step);
      if AsksAgain(s, step, key) then
        t == WithStage(s, key, Reading(s.flights[key].stage.attempt + 1, At(s.server, s.flights[key].org)))
      else
        && t.flights[key].stage.Settled?
        && (if step.LoadFailed? && step.abortError then t.client == s.client.(isLoading := false)
            else ShowsError(s.client, t.client))
  {}

  // An accepted step of a current refresh takes it on, and the last one puts the snapshot on screen.
  lemma AcceptedRefresh(graphMode: bool, s: System, step: Step, key: nat)
    requires Inv(graphMode, s) && LoadsWhileCurrent(s)
    requires Enabled(s, step) && ContinuesFlight(step, key) && Unsettled(s, key) && !Refused(s, step, key)
    ensures var t, stage := Apply(graphMode, s, step), s.flights[key].stage;
      && (step.PairRead? ==> t == WithStage(s, key, Conversing(step.portfolio)))
      && (step.ConversationRead? && graphMode ==> t == WithStage(s, key, Projecting(stage.accepted, step.messages)))
      && (step.ConversationRead? && !graphMode ==>
            t.flights[key].stage.Settled? && ShowsSnapshotOf(false, s.client, t.client, stage.accepted, step.messages))
      && (step.GraphRead? ==>
            t.flights[key].stage.Settled? && ShowsSnapshotOf(true, s.client, t.client, stage.accepted, stage.messages))
  {
    assert LoadsAt(s, key) && FlightOk(graphMode, s, key);
    match step
    case ConversationRead(_, _, messages) => VisibleMessagesAreShown(messages, s.flights[key].stage.accepted);
    case GraphRead(_, _, _) => VisibleMessagesAreShown(s.flights[key].stage.messages, s.flights[key].stage.accepted);
    case _ =>
  }

  // From a first pair on, three refused pairs in a row end a current refresh with the error, and two do not.
  lemma ThirdRefusedPairFails(graphMode: bool, s: System, key: nat, first: Step, second: Step, third: Step)
    requires Unsettled(s, key) && s.flights[key].stage.Reading? && s.flights[key].stage.attempt == 0
    requires first.PairRead? && second.PairRead? && third.PairRead? && first.key == second.key == third.key == key
    requires Enabled(s, first) && Refused(s, first, key)
    requires var s1 := Apply(graphMode, s, first); Enabled(s1, second) && Refused(s1, second, key)
    requires var s2 := Apply(graphMode, Apply(graphMode, s, first), second); Enabled(s2, third) && Refused(s2, third, key)
    ensures var s2 := Apply(graphMode, Apply(graphMode, s, first), second); var s3 := Apply(graphMode, s2, third);
      && Unsettled(s2, key) && s2.client == s.client
      && s3.flights[key].stage.Settled? && ShowsError(s.client, s3.client)
  {
    var s1 := Apply(graphMode, s, first);
    RefusedRefresh(graphMode, s, first, key);
    RefusedRefresh(graphMode, s1, second, key);
    RefusedRefresh(graphMode, Apply(graphMode, s1, second), third, key);
  }

  // How a refresh begins: with a pair of loads at the server's own sequence, loading, without an error, and, when
  // the effect begins it, without messages.
  lemma RefreshBegins(graphMode: bool, s: System, org: OrgId)
    requires org != ""
    ensures forall step | step in {ManualRefresh(org), EffectRefresh(org)} ::
      var t := Apply(graphMode, s, step); var key := t.client.generation;
      && s.client.generation < key && key in t.flights && t.flights[key].org == org && !t.flights[key].aborted
      && t.flights[key].minimum == s.client.pending.GetOr(0) && t.flights[key].stage == Reading(0, At(s.server, org))
      && t.client.isLoading && !t.client.hasError && t.client.syncState == Connecting
      && t.client.messages == (if step.EffectRefresh? then [] else s.client.messages)
  {}

  // Cleaning the refresh effect up aborts its refresh and leaves no refresh current; nothing else changes.
  lemma CleanupAborts(graphMode: bool, s: System, key: nat)
    requires Inv(graphMode, s) && key in s.flights
    ensures var t := Apply(graphMode, s, Cleanup(key));
      && t == s.(client := s.client.(generation := s.client.generation + 1),
                 flights := s.flights[key := s.flights[key].(aborted := s.flights[key].aborted || s.flights[key].abortable)])
      && forall k :: !Unsettled(t, k)
  {
    NothingIsCurrent(graphMode, s, Cleanup(key));
  }

  // An aborted refresh asks for no further pair, and nothing it still receives changes the client.
  lemma AbortedEnds(graphMode: bool, s: System, step: Step, key: nat)
    requires Enabled(s, step) && ContinuesFlight(step, key) && s.flights[key].aborted
    ensures Apply(graphMode, s, step).client == s.client && Apply(graphMode, s, step).flights[key].stage.Settled?
  {}

  // A switch leaves nothing of the other organisation: no surface, message, sequence, latch or error.
  lemma SwitchShowsNothing(graphMode: bool, s: System, org: OrgId)
    ensures var c := Apply(graphMode, s, Switch(org)).client;
      && c.activeOrganization == org && c.generation == s.client.generation + 1
      && c.portfolio == c.hierarchy == c.projection == None && c.preferences == None && c.messages == []
      && c.aligned == c.pending == None && c.eventRefreshOrganization == None
      && c.syncState == Connecting && c.isLoading && !c.hasError
  {}

  // An empty poll connects exactly when nothing is pending and the snapshot covers it; any other poll, and every
  // response with events, raises the pending sequence and starts the event refresh if the latch is free, which
  // then is held.
  lemma ResponseExactly(graphMode: bool, s: System, behind: bool, n: nat)
    requires Inv(graphMode, s) && Enabled(s, Response(behind, s.client.activeOrganization, n))
    ensures var org := s.client.activeOrganization;
      var t := Apply(graphMode, s, Response(behind, org, n));
      var key := s.client.generation + 1;
      if !behind && s.client.pending.None? && s.client.aligned.Some? && n <= s.client.aligned.value then
        t == s.(client := s.client.(syncState := Connected))
      else
        && t.client.pending == Some(Max(s.client.pending.GetOr(0), n)) && t.client.syncState == Connecting
        && t.client.eventRefreshOrganization == Some(org)
        && (key in t.flights <==> s.client.eventRefreshOrganization != Some(org))
        && (key in t.flights ==> HoldsLatch(t, key, org) && t.flights[key].minimum == t.client.pending.value)
  {
    assert FlightOk(graphMode, s, s.client.generation + 1);
  }

  // The channel is shown as disconnected exactly after an error of its own or a refused refresh.
  lemma DisconnectsExactly(graphMode: bool, s: System, step: Step)
    requires Inv(graphMode, s) && LoadsWhileCurrent(s) && Enabled(s, step) && s.client.syncState != Disconnected
    ensures Apply(graphMode, s, step).client.syncState == Disconnected <==>
      || step == PollError(s.client.activeOrganization)
      || FailsRefresh(graphMode, s, step)
  {
    match step
    case PairRead(key, _, _) => FlightDisconnects(graphMode, s, step, key);
    case ConversationRead(key, _, _) => FlightDisconnects(graphMode, s, step, key);
    case GraphRead(key, _, _) => FlightDisconnects(graphMode, s, step, key);
    case LoadFailed(key, _) => FlightDisconnects(graphMode, s, step, key);
    case _ =>
      OtherStepsEndNothing(graphMode, s, step);
      OtherStepDisconnects(graphMode, s, step);
  }

  lemma OtherStepDisconnects(graphMode: bool, s: System, step: Step)
    requires Enabled(s, step) && s.client.syncState != Disconnected
    requires !step.PairRead? && !step.ConversationRead? && !step.GraphRead? && !step.LoadFailed?
    ensures Apply(graphMode, s, step).client.syncState == Disconnected <==> step == PollError(s.client.activeOrganization)
  {}

  lemma FlightDisconnects(graphMode: bool, s: System, step: Step, key: nat)
    requires Inv(graphMode, s) && LoadsWhileCurrent(s) && Enabled(s, step) && s.client.syncState != Disconnected
    requires ContinuesFlight(step, key)
    ensures Apply(graphMode, s, step).client.syncState == Disconnected <==>
      Ends(graphMode, s, step, key) && Refused(s, step, key) && !(step.LoadFailed? && step.abortError)
  {
    if Unsettled(s, key) {
      if Refused(s, step, key) { RefusedRefresh(graphMode, s, step, key); } else { AcceptedRefresh(graphMode, s, step, key); }
    } else if Apply(graphMode, s, step).client != s.client {
      OnlyCurrentRefreshWrites(graphMode, s, step, key);
    }
  }

  // ---------------------------------------------------------------- catching up is always possible

  ghost predicate Leads(graphMode: bool, s: System, steps: seq<Step>, t: System)
    decreases |steps|
  {
    if steps == [] then s == t
    else Enabled(s, steps[0]) && Leads(graphMode, Apply(graphMode, s, steps[0]), steps[1..], t)
  }

  lemma {:induction false} LeadsThrough(graphMode: bool, s: System, first: seq<Step>, t: System, second: seq<Step>, u: System)
    requires Leads(graphMode, s, first, t) && Leads(graphMode, t, second, u)
    ensures Leads(graphMode, s, first + second, u)
    decreases |first|
  {
    if first == [] {
      assert first + second == second;
    } else {
      LeadsThrough(graphMode, Apply(graphMode, s, first[0]), first[1..], t, second, u);
      assert (first + second)[1..] == first[1..] + second;
    }
  }

  lemma LeadsFirst(graphMode: bool, s: System, step: Step, rest: seq<Step>, t: System)
    requires Enabled(s, step) && Leads(graphMode, Apply(graphMode, s, step), rest, t)
    ensures Leads(graphMode, s, [step] + rest, t)
  {
    assert ([step] + rest)[1..] == rest;
  }

  // Every other request stays as it was.
  ghost predicate OthersStay(s: System, t: System, key: nat) {
    forall k :: k in s.flights && k != key ==> k in t.flights && t.flights[k] == s.flights[k]
  }

  // A refresh whose loads are answered at once reaches "connected" at the server's own sequence.
  lemma FinishLaunched(graphMode: bool, s: System, key: nat, n: nat) returns (steps: seq<Step>, t: System)
    requires Inv(graphMode, s) && key in s.flights && n == At(s.server, s.client.activeOrganization)
    requires CurrentFlight(s.client, key, s.flights[key])
    requires s.flights[key].stage.Reading? && s.flights[key].minimum <= n
    requires s.client.pending.GetOr(0) <= n
    ensures Leads(graphMode, s, steps, t) && AllSettling(steps)
    ensures t.client.syncState == Connected && t.client.aligned == Some(n)
    ensures t.client.activeOrganization == s.client.activeOrganization && t.client.generation == s.client.generation
    ensures t.client.eventRefreshOrganization == s.client.eventRefreshOrganization
    ensures t.server == s.server && OthersStay(s, t, key)
  {
    var org := s.client.activeOrganization;
    assert FlightOk(graphMode, s, key);
    var read := PairRead(key, n, n);
    var s1 := Apply(graphMode, s, read);
    var talk := ConversationRead(key, n, []);
    var s2 := Apply(graphMode, s1, talk);
    if graphMode {
      var draw := GraphRead(key, Surface(org, n), true);
      t := Apply(graphMode, s2, draw);
      steps := [draw] + [];
      LeadsFirst(graphMode, s2, draw, [], t);
    } else {
      t := s2;
      steps := [];
    }
    LeadsFirst(graphMode, s1, talk, steps, t);
    steps := [talk] + steps;
    LeadsFirst(graphMode, s, read, steps, t);
    steps := [read] + steps;
  }

  // What becomes of requests that are already out.
  predicate Settling(step: Step) {
    step.PairRead? || step.ConversationRead? || step.GraphRead? || step.LoadFailed? || step.Release?
  }

  ghost predicate AllSettling(steps: seq<Step>) {
    forall step :: step in steps ==> Settling(step)
  }

  // The next response of the event channel: it carries events while the subscription's cursor is behind.
  function Response(behind: bool, org: OrgId, n: nat): Step {
    if behind then Events(org, n) else Poll(org, n)
  }

  // Steps that need neither the member nor the refresh effect.
  ghost predicate OwnSteps(steps: seq<Step>, response: Step) {
    forall step :: step in steps ==> Settling(step) || step == response
  }

  lemma ReleaseFreesLatch(graphMode: bool, s: System, key: nat) returns (t: System)
    requires Inv(graphMode, s) && s.client.eventRefreshOrganization.Some?
    requires HoldsLatch(s, key, s.client.eventRefreshOrganization.value) && s.flights[key].stage.Settled?
    ensures Leads(graphMode, s, [Release(key)] + [], t) && Inv(graphMode, t)
    ensures t.server == s.server && t.client == s.client.(eventRefreshOrganization := None)
  {
    t := Apply(graphMode, s, Release(key));
    StepKeepsInv(graphMode, s, Release(key));
    LeadsFirst(graphMode, s, Release(key), [], t);
  }

  // A held latch is always released by the refresh that holds it.
  lemma FreeLatch(graphMode: bool, s: System) returns (steps: seq<Step>, t: System)
    requires Inv(graphMode, s) && s.client.eventRefreshOrganization.Some?
    ensures Leads(graphMode, s, steps, t) && AllSettling(steps) && Inv(graphMode, t)
    ensures t.client.eventRefreshOrganization.None? && t.server == s.server
    ensures t.client.activeOrganization == s.client.activeOrganization
    ensures t.client.pending == s.client.pending && t.client.aligned == s.client.aligned
  {
    var key :| HoldsLatch(s, key, s.client.eventRefreshOrganization.value);
    steps := [Release(key)] + [];
    if s.flights[key].stage.Settled? {
      t := ReleaseFreesLatch(graphMode, s, key);
    } else {
      var fail := LoadFailed(key, false);
      var s1 := Apply(graphMode, s, fail);
      StepKeepsInv(graphMode, s, fail);
      t := ReleaseFreesLatch(graphMode, s1, key);
      LeadsFirst(graphMode, s, fail, steps, t);
      steps := [fail] + steps;
    }
  }

  // Whether the next response finds the client in need of a refresh.
  predicate ResponseFindsGap(c: Client, behind: bool, n: nat) {
    behind || PollFindsGap(c, n)
  }

  lemma GapLaunchesRefresh(graphMode: bool, s: System, behind: bool, n: nat)
    requires ResponseFindsGap(s.client, behind, n) && s.client.eventRefreshOrganization.None?
    requires Enabled(s, Response(behind, s.client.activeOrganization, n)) && s.client.pending.GetOr(0) <= n
    ensures var t := Apply(graphMode, s, Response(behind, s.client.activeOrganization, n)); var key := t.client.generation;
      && t.server == s.server && t.client.activeOrganization == s.client.activeOrganization
      && t.client.pending == Some(n) && key in t.flights
      && t.flights[key] == Flight(s.client.activeOrganization, n, true, false, false,
                                  Reading(0, At(s.server, s.client.activeOrganization)))
  {}

  lemma CatchUpUnlatched(graphMode: bool, s: System, behind: bool) returns (steps: seq<Step>, t: System)
    requires Inv(graphMode, s) && s.client.activeOrganization != "" && s.client.aligned.Some?
    requires s.client.eventRefreshOrganization.None?
    requires s.client.pending.GetOr(0) <= At(s.server, s.client.activeOrganization)
    ensures Leads(graphMode, s, steps, t)
    ensures OwnSteps(steps, Response(behind, s.client.activeOrganization, At(s.server, s.client.activeOrganization)))
    ensures t.client.syncState == Connected && t.client.aligned == Some(At(s.server, s.client.activeOrganization))
  {
    var n := At(s.server, s.client.activeOrganization);
    var response := Response(behind, s.client.activeOrganization, n);
    var s1 := Apply(graphMode, s, response);
    StepKeepsInv(graphMode, s, response);
    if ResponseFindsGap(s.client, behind, n) {
      GapLaunchesRefresh(graphMode, s, behind, n);
      steps, t := FinishLaunched(graphMode, s1, s1.client.generation, n);
    } else {
      steps, t := [], s1;
    }
    LeadsFirst(graphMode, s, response, steps, t);
    steps := [response] + steps;
  }

  // From every good state with a snapshot on screen, whatever is in flight and whoever holds the latch,
  // the next response of the event channel and the requests already out can still connect the client at the
  // server's own sequence: no interleaving wedges the channel. This holds whether the subscription's cursor
  // is behind, so that the response carries events, or not. The channel never announces the future.
  lemma CatchUp(graphMode: bool, s: System, behind: bool) returns (steps: seq<Step>, t: System)
    requires Inv(graphMode, s) && s.client.activeOrganization != "" && s.client.aligned.Some?
    requires s.client.pending.GetOr(0) <= At(s.server, s.client.activeOrganization)
    ensures Leads(graphMode, s, steps, t)
    ensures OwnSteps(steps, Response(behind, s.client.activeOrganization, At(s.server, s.client.activeOrganization)))
    ensures t.client.syncState == Connected && t.client.aligned == Some(At(s.server, s.client.activeOrganization))
  {
    if s.client.eventRefreshOrganization.None? {
      steps, t := CatchUpUnlatched(graphMode, s, behind);
    } else {
      var unlatch, s1 := FreeLatch(graphMode, s);
      var rest;
      rest, t := CatchUpUnlatched(graphMode, s1, behind);
      LeadsThrough(graphMode, s, unlatch, s1, rest, t);
      steps := unlatch + rest;
    }
  }

  // While a latch is held, responses alone start nothing: the refresh that holds it has to come to an end first.
  lemma LatchedResponsesStartNothing(graphMode: bool, s: System, behind: bool, n: nat)
    requires s.client.eventRefreshOrganization == Some(s.client.activeOrganization)
    requires Enabled(s, Response(behind, s.client.activeOrganization, n))
    ensures Apply(graphMode, s, Response(behind, s.client.activeOrganization, n)).flights == s.flights
  {}

  // A refresh of the active organisation, answered at once, connects from every good state.
  lemma RefreshConnects(graphMode: bool, s: System, refresh: Step) returns (steps: seq<Step>, t: System)
    requires Inv(graphMode, s) && s.client.activeOrganization != ""
    requires refresh == ManualRefresh(s.client.activeOrganization) || refresh == EffectRefresh(s.client.activeOrganization)
    requires s.client.pending.GetOr(0) <= At(s.server, s.client.activeOrganization)
    ensures Leads(graphMode, s, [refresh] + steps, t) && AllSettling(steps) && Inv(graphMode, t)
    ensures t.client.syncState == Connected && t.client.aligned == Some(At(s.server, s.client.activeOrganization))
    ensures t.client.activeOrganization == s.client.activeOrganization && s.client.generation < t.client.generation
    ensures t.client.eventRefreshOrganization == s.client.eventRefreshOrganization
    ensures t.server == s.server && OthersStay(s, t, t.client.generation)
  {
    var s1 := Apply(graphMode, s, refresh);
    StepKeepsInv(graphMode, s, refresh);
    steps, t := FinishLaunched(graphMode, s1, s1.client.generation, At(s.server, s.client.activeOrganization));
    LeadsFirst(graphMode, s, refresh, steps, t);
    LeadsKeepsInv(graphMode, s1, steps, t);
  }

  lemma {:induction false} LeadsKeepsInv(graphMode: bool, s: System, steps: seq<Step>, t: System)
    requires Inv(graphMode, s) && Leads(graphMode, s, steps, t)
    ensures Inv(graphMode, t)
    decreases |steps|
  {
    if steps != [] {
      StepKeepsInv(graphMode, s, steps[0]);
      LeadsKeepsInv(graphMode, Apply(graphMode, s, steps[0]), steps[1..], t);
    }
  }

  // Without a snapshot there is no event channel to rely on, but the Retry button connects.
  lemma RetryConnects(graphMode: bool, s: System) returns (steps: seq<Step>, t: System)
    requires Inv(graphMode, s) && s.client.activeOrganization != ""
    requires s.client.pending.GetOr(0) <= At(s.server, s.client.activeOrganization)
    ensures Leads(graphMode, s, [ManualRefresh(s.client.activeOrganization)] + steps, t) && AllSettling(steps)
    ensures t.client.syncState == Connected && t.client.aligned == Some(At(s.server, s.client.activeOrganization))
  {
    steps, t := RefreshConnects(graphMode, s, ManualRefresh(s.client.activeOrganization));
  }

  predicate ReadsFor(s: System, key: nat, org: OrgId) {
    HoldsLatch(s, key, org) && s.flights[key].stage.Reading?
  }

  // With a snapshot on screen, the server moves on and an event announces it: an event refresh starts.
  lemma EventStartsRefresh(s: System, org: OrgId) returns (steps: seq<Step>, t: System)
    requires Inv(false, s) && org != "" && s.client.activeOrganization == org
    requires s.client.aligned.Some? && s.client.eventRefreshOrganization.None?
    ensures Leads(false, s, steps, t) && Inv(false, t) && ReadsFor(t, t.client.generation, org)
    ensures t.client.activeOrganization == org && s.client.generation < t.client.generation
    ensures OthersStay(s, t, t.client.generation)
  {
    var n := At(s.server, org) + s.client.pending.GetOr(0) + 1;
    var advance, event := Advance(org, n), Events(org, n);
    var s1 := Apply(false, s, advance);
    StepKeepsInv(false, s, advance);
    t := Apply(false, s1, event);
    StepKeepsInv(false, s1, event);
    LeadsFirst(false, s1, event, [], t);
    LeadsFirst(false, s, advance, [event] + [], t);
    steps := [advance] + ([event] + []);
  }

  // Switching away and back lets two event refreshes of one organisation overlap, each started by an
  // event that came after a snapshot was shown; the latch alone would not stop the older one, the
  // generation does.
  lemma EventRefreshesCanOverlap(s: System, org: OrgId, other: OrgId) returns (steps: seq<Step>, t: System)
    requires Init(s) && org != "" && other != "" && s.client.activeOrganization == org
    ensures Leads(false, s, steps, t)
    ensures exists k: nat, l: nat :: k < l == t.client.generation && ReadsFor(t, k, org) && ReadsFor(t, l, org)
  {
    var begin, first, second, again;
    var s1, s2, s4, s5;
    begin, s1 := RefreshConnects(false, s, EffectRefresh(org));
    first, s2 := EventStartsRefresh(s1, org);
    var key := s2.client.generation;
    var away := [Switch(other)] + ([Switch(org)] + []);
    var s3 := Apply(false, s2, Switch(other));
    s4 := Apply(false, s3, Switch(org));
    StepKeepsInv(false, s2, Switch(other));
    StepKeepsInv(false, s3, Switch(org));
    LeadsFirst(false, s3, Switch(org), [], s4);
    LeadsFirst(false, s2, Switch(other), [Switch(org)] + [], s4);
    again, s5 := RefreshConnects(false, s4, EffectRefresh(org));
    second, t := EventStartsRefresh(s5, org);
    LeadsThrough(false, s4, [EffectRefresh(org)] + again, s5, second, t);
    LeadsThrough(false, s2, away, s4, [EffectRefresh(org)] + again + second, t);
    LeadsThrough(false, s1, first, s2, away + ([EffectRefresh(org)] + again + second), t);
    LeadsThrough(false, s, [EffectRefresh(org)] + begin, s1, first + (away + ([EffectRefresh(org)] + again + second)), t);
    steps := ([EffectRefresh(org)] + begin) + (first + (away + ([EffectRefresh(org)] + again + second)));
    assert ReadsFor(t, key, org) && key < t.client.generation;
  }
}
