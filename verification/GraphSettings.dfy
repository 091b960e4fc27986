/** Autosave of the graph settings. */
module GraphSettings {
  import opened Wrappers
  import opened Lists
  import opened Traces

  // A debounced client sends every change with the version it last knew, and the service accepts
  // a change only at exactly that version. Requests may be delayed, overtake each other or get
  // lost, and other sessions may write too.

  datatype Renderer = TwoD | ThreeD
  datatype Pin = Pin(entity: string, renderer: Renderer)

  // The settings document by section; a section is a token for its contents.
  datatype Settings = Settings(
    simple: int, layout2D: int, layout3D: int, shared: int, advanced2D: int, advanced3D: int, pins: seq<Pin>)

  datatype Scope = ALL | SHARED | VIEW_2D | VIEW_3D | PINNED_POSITIONS

  const DEFAULTS: Settings := Settings(0, 0, 0, 0, 0, 0, [])

  function OtherPins(pins: seq<Pin>, renderer: Renderer): seq<Pin> {
    Filter((pin: Pin) => pin.renderer != renderer, pins)
  }

  // `resetGraphPreferenceSettings`.
  function ResetSettings(s: Settings, scope: Scope): Settings {
    match scope
    case ALL => DEFAULTS
    case SHARED => s.(simple := DEFAULTS.simple, shared := DEFAULTS.shared)
    case VIEW_2D =>
      s.(layout2D := DEFAULTS.layout2D, advanced2D := DEFAULTS.advanced2D, pins := OtherPins(s.pins, TwoD))
    case VIEW_3D =>
      s.(layout3D := DEFAULTS.layout3D, advanced3D := DEFAULTS.advanced3D, pins := OtherPins(s.pins, ThreeD))
    case PINNED_POSITIONS => s.(pins := [])
  }

  // The pins of one renderer and no others, each where it stood, in order.
  ghost predicate KeepsPinsOf(renderer: Renderer, before: seq<Pin>, after: seq<Pin>) {
    exists at :: PinsAt(renderer, before, at, after)
  }

  ghost predicate PinsAt(renderer: Renderer, before: seq<Pin>, at: seq<nat>, after: seq<Pin>) {
    && Increasing(at) && StandsAt(before, at, after)
    && forall k: nat :: k in at <==> k < |before| && before[k].renderer == renderer
  }

  lemma OtherPinsAreKept(pins: seq<Pin>, dropped: Renderer, kept: Renderer)
    requires dropped != kept
    ensures KeepsPinsOf(kept, pins, OtherPins(pins, dropped))
  {
    var at := FilterPicks((pin: Pin) => pin.renderer != dropped, pins);
    assert PinsAt(kept, pins, at, OtherPins(pins, dropped));
  }

  predicate Part(reset: bool, default: int, before: int, after: int) {
    after == if reset then default else before
  }

  // Which sections a reset puts back to the defaults; all others stay.
  ghost predicate ResetOf(scope: Scope, before: Settings, after: Settings) {
    && Part(scope in {ALL, SHARED}, DEFAULTS.simple, before.simple, after.simple)
    && Part(scope in {ALL, SHARED}, DEFAULTS.shared, before.shared, after.shared)
    && Part(scope in {ALL, VIEW_2D}, DEFAULTS.layout2D, before.layout2D, after.layout2D)
    && Part(scope in {ALL, VIEW_2D}, DEFAULTS.advanced2D, before.advanced2D, after.advanced2D)
    && Part(scope in {ALL, VIEW_3D}, DEFAULTS.layout3D, before.layout3D, after.layout3D)
    && Part(scope in {ALL, VIEW_3D}, DEFAULTS.advanced3D, before.advanced3D, after.advanced3D)
    && (scope in {ALL, PINNED_POSITIONS} ==> after.pins == [])
    && (scope == SHARED ==> after.pins == before.pins)
    && (scope == VIEW_2D ==> KeepsPinsOf(ThreeD, before.pins, after.pins))
    && (scope == VIEW_3D ==> KeepsPinsOf(TwoD, before.pins, after.pins))
  }

  lemma ResetsExactly(s: Settings, scope: Scope)
    ensures ResetOf(scope, s, ResetSettings(s, scope))
  {
    OtherPinsAreKept(s.pins, TwoD, ThreeD);
    OtherPinsAreKept(s.pins, ThreeD, TwoD);
  }

  datatype Preferences = Preferences(version: nat, settings: Settings)

  // ---------------------------------------------------------------- the client

  datatype Payload = Save(settings: Settings, revision: nat) | Reset(scope: Scope)
  datatype Request = Request(expected: nat, payload: Payload)

  // `timer` is the request the armed debounce timer would send.
  datatype Client = Client(
    settings: Settings, dirty: bool, revision: nat, preferences: Preferences, timer: Option<Request>)

  function InitialClient(preferences: Preferences): Client {
    Client(preferences.settings, false, 0, preferences, None)
  }

  function AutosaveRequest(c: Client): Request {
    Request(c.preferences.version, Save(c.settings, c.revision))
  }

  function ChangeSettings(c: Client, next: Settings): Client {
    var edited := c.(settings := next, dirty := true, revision := c.revision + 1);
    edited.(timer := Some(AutosaveRequest(edited)))
  }

  // The effect that copies the preferences. It runs after the preferences were replaced and after
  // `dirty` changed, and does nothing while an edit is pending.
  function PreferencesEffect(c: Client): Client {
    if c.dirty then c else c.(settings := c.preferences.settings)
  }

  // The effect that debounces a save, after a render that left the settings and `dirty` alone or cleared
  // `dirty`: no timer without an edit, and a new one when the version it would send changed.
  function AutosaveEffect(before: Client, c: Client): Client {
    if !c.dirty then c.(timer := None)
    else if c.preferences.version != before.preferences.version then c.(timer := Some(AutosaveRequest(c)))
    else c
  }

  // A reply for the newest revision ends the edit; one for an older revision only brings a new version.
  function SaveReplied(c: Client, revision: nat, reply: Preferences): Client {
    var known := c.(preferences := reply);
    var settled := if c.revision == revision then known.(settings := reply.settings, dirty := false) else known;
    AutosaveEffect(c, PreferencesEffect(settled))
  }

  function ResetReplied(c: Client, reply: Preferences): Client {
    var reset := c.(revision := c.revision + 1, settings := reply.settings, dirty := false, preferences := reply);
    AutosaveEffect(c, PreferencesEffect(reset))
  }

  // Without persistence a reset changes the settings and `dirty` only, so the effect that copies the
  // preferences runs exactly when `dirty` falls.
  function ResetLocally(c: Client, scope: Scope): Client {
    var reset := c.(revision := c.revision + 1, settings := ResetSettings(c.settings, scope), dirty := false);
    AutosaveEffect(c, if c.dirty != reset.dirty then PreferencesEffect(reset) else reset)
  }

  // So a local reset shows its own result only if nothing had been edited, or if dropping every
  // local edit happens to give the same settings.
  lemma LocalResetSurvives(c: Client, scope: Scope)
    ensures ResetLocally(c, scope).settings == ResetSettings(c.settings, scope)
      <==> !c.dirty || c.preferences.settings == ResetSettings(c.settings, scope)
  {}

  // What a local reset shows of settings without a pending edit: the sections of its scope at their defaults, the
  // pins of the other renderer, and everything else as it was.
  lemma LocalResetShows(c: Client, scope: Scope)
    requires !c.dirty
    ensures var t := ResetLocally(c, scope);
      ResetOf(scope, c.settings, t.settings) && !t.dirty && t.timer == None && t.preferences == c.preferences
  {
    ResetsExactly(c.settings, scope);
  }

  lemma LocalResetOf2DLoses3DEdit(p: Preferences)
    ensures var edited := ChangeSettings(InitialClient(p), p.settings.(advanced3D := p.settings.advanced3D + 1));
      ResetLocally(edited, VIEW_2D).settings.advanced3D != ResetSettings(edited.settings, VIEW_2D).advanced3D
  {}

  // ---------------------------------------------------------------- the service

  // A row exists once something was saved; without one the defaults count as version 0.
  datatype Server = Server(row: Option<Preferences>)

  function Stored(server: Server): Preferences {
    server.row.GetOr(Preferences(0, DEFAULTS))
  }

  predicate Accepts(server: Server, q: Request) {
    q.expected == Stored(server).version
  }

  // Saving inserts at version 1 or updates to the next version. Resetting everything deletes the row.
  function AfterAccepting(server: Server, q: Request): Server {
    match q.payload
    case Save(settings, _) => Server(Some(Preferences(Stored(server).version + 1, settings)))
    case Reset(scope) =>
      if server.row.None? || scope == ALL then Server(None)
      else Server(Some(Preferences(server.row.value.version + 1, ResetSettings(server.row.value.settings, scope))))
  }

  // What is stored after an accepted reset: nothing of a document that was reset as a whole, and otherwise the
  // next version with the sections of the scope at their defaults.
  lemma AcceptedResetStores(server: Server, q: Request)
    requires Accepts(server, q) && q.payload.Reset?
    ensures var stored := Stored(AfterAccepting(server, q));
      && ResetOf(q.payload.scope, Stored(server).settings, stored.settings)
      && stored.version == (if server.row.None? || q.payload.scope == ALL then 0 else server.row.value.version + 1)
  {
    ResetsExactly(Stored(server).settings, q.payload.scope);
    ResetsExactly(DEFAULTS, q.payload.scope);
    assert ResetSettings(DEFAULTS, q.payload.scope) == DEFAULTS;
  }

  predicate RowOk(server: Server) {
    server.row.Some? ==> server.row.value.version > 0
  }

  // ---------------------------------------------------------------- the protocol

  datatype Flight = Sent(request: Request) | Accepted(request: Request, reply: Preferences) | Rejected(request: Request)

  datatype System = System(client: Client, flights: map<nat, Flight>, next: nat, server: Server)

  datatype Step =
    | Edit(settings: Settings)
    | Fire                          // the debounce timer runs out
    | ClickReset(scope: Scope)
    | Process(key: nat)             // the service decides a request
    | Deliver(key: nat)             // the reply arrives
    | Lose(key: nat)                // the request or its reply is lost, or timed out
    | External(stored: Preferences) // another session saves, or resets a part
    | ExternalReset                 // another session resets everything

  predicate Init(s: System) {
    && s.client == InitialClient(Stored(s.server))
    && s.flights == map[]
    && RowOk(s.server)
  }

  predicate Enabled(s: System, step: Step) {
    match step
    case Fire => s.client.timer.Some?
    case Process(k) => k in s.flights && s.flights[k].Sent?
    case Deliver(k) => k in s.flights && !s.flights[k].Sent?
    case Lose(k) => k in s.flights
    case External(stored) => stored.version > Stored(s.server).version
    case _ => true
  }

  function Fired(c: Client): Client {
    c.(timer := None)
  }

  function Send(s: System, c: Client, q: Request): System {
    s.(client := c, flights := s.flights[s.next := Sent(q)], next := s.next + 1)
  }

  function Decide(s: System, key: nat): System
    requires key in s.flights
  {
    var q := s.flights[key].request;
    if Accepts(s.server, q) then
      var after := AfterAccepting(s.server, q);
      s.(server := after, flights := s.flights[key := Accepted(q, Stored(after))])
    else s.(flights := s.flights[key := Rejected(q)])
  }

  function Receive(c: Client, f: Flight): Client {
    match f
    case Accepted(q, reply) =>
      if q.payload.Save? then SaveReplied(c, q.payload.revision, reply) else ResetReplied(c, reply)
    case _ => c   // a failure changes the status line only
  }

  function Apply(s: System, step: Step): System
    requires Enabled(s, step)
  {
    match step
    case Edit(settings) => s.(client := ChangeSettings(s.client, settings))
    case Fire => Send(s, Fired(s.client), s.client.timer.value)
    case ClickReset(scope) => Send(s, s.client, Request(s.client.preferences.version, Reset(scope)))
    case Process(k) => Decide(s, k)
    case Deliver(k) => s.(client := Receive(s.client, s.flights[k]), flights := s.flights - {k})
    case Lose(k) => s.(flights := s.flights - {k})
    case External(stored) => s.(server := Server(Some(stored)))
    case ExternalReset => s.(server := Server(None))
  }

  function Next(s: System, step: Step): Option<System> {
    if Enabled(s, step) then Some(Apply(s, step)) else None
  }

  ghost predicate Run(states: seq<System>, steps: seq<Step>) {
    && |states| == |steps| + 1
    && Init(states[0])
    && forall i :: 0 <= i < |steps| ==> Enabled(states[i], steps[i]) && states[i + 1] == Apply(states[i], steps[i])
  }

  // ---------------------------------------------------------------- no edit is lost while it is dirty

  predicate TimerOk(c: Client) {
    c.timer.Some? ==> c.dirty && c.timer.value == AutosaveRequest(c)
  }

  // A save in flight with the newest revision carries what is on screen, and replies echo it.
  predicate FlightOk(c: Client, f: Flight) {
    f.request.payload.Save? ==>
      && f.request.payload.revision <= c.revision
      && (f.request.payload.revision == c.revision && c.dirty ==> f.request.payload.settings == c.settings)
      && (f.Accepted? ==> f.reply.settings == f.request.payload.settings)
  }

  ghost predicate Inv(s: System) {
    && RowOk(s.server)
    && TimerOk(s.client)
    && (!s.client.dirty ==> s.client.settings == s.client.preferences.settings)
    && (forall k :: k in s.flights ==> k < s.next && FlightOk(s.client, s.flights[k]))
  }

  lemma StepKeepsInv(s: System, step: Step)
    requires Inv(s) && Enabled(s, step)
    ensures Inv(Apply(s, step))
  {
    match step
    case Process(k) => assert FlightOk(s.client, s.flights[k]);
    case Deliver(k) => assert FlightOk(s.client, s.flights[k]);
    case _ =>
  }

  function NewestEdit(steps: seq<Step>, n: nat): Option<Settings>
    requires n <= |steps|
  {
    if n == 0 then None
    else if steps[n - 1].Edit? then Some(steps[n - 1].settings)
    else NewestEdit(steps, n - 1)
  }

  // Whatever replies arrive, and in whatever order: while dirty, the screen shows the newest edit.
  lemma {:induction false} DirtyShowsNewestEdit(states: seq<System>, steps: seq<Step>, n: nat)
    requires Run(states, steps) && n <= |steps|
    ensures Inv(states[n])
    ensures states[n].client.dirty ==> NewestEdit(steps, n) == Some(states[n].client.settings)
  {
    if n > 0 {
      DirtyShowsNewestEdit(states, steps, n - 1);
      StepKeepsInv(states[n - 1], steps[n - 1]);
    }
  }

  // An edit stops being dirty in two ways only: the service echoed exactly that edit, or a reset
  // was accepted. In the first case the screen keeps showing it.
  lemma DirtyEndsWithEchoOrReset(states: seq<System>, steps: seq<Step>, n: nat)
    requires Run(states, steps) && n < |steps|
    requires states[n].client.dirty && !states[n + 1].client.dirty
    ensures steps[n].Deliver? && states[n].flights[steps[n].key].Accepted?
    ensures var f := states[n].flights[steps[n].key]; var c := states[n + 1].client;
      && c.preferences == f.reply && c.settings == f.reply.settings
      && (f.request.payload.Save? ==>
            f.request.payload.revision == states[n].client.revision
            && Some(f.reply.settings) == NewestEdit(steps, n))
  {
    DirtyShowsNewestEdit(states, steps, n);
    assert FlightOk(states[n].client, states[n].flights[steps[n].key]);
  }

  // ---------------------------------------------------------------- at most one accepted change is undelivered

  // What the client can tell before it sends a change: a save, or a reset of a part of what was saved,
  // moves the version forward when it is accepted. A reset of everything, or of nothing, leaves the
  // service at version 0.
  predicate Grows(q: Request) {
    q.payload.Save? || (q.expected > 0 && q.payload.scope != ALL)
  }

  lemma GrowsExactly(server: Server, q: Request)
    requires RowOk(server) && Accepts(server, q)
    ensures Grows(q) <==> Stored(AfterAccepting(server, q)).version > Stored(server).version
  {}

  // Every accepted change moves the version forward, and no other session deletes the row.
  ghost predicate GrowingRun(states: seq<System>, steps: seq<Step>) {
    && Run(states, steps)
    && forall i :: 0 <= i < |steps| ==> GrowsAt(states[i], steps[i])
  }

  predicate GrowsAt(s: System, step: Step) {
    && (step.Process? ==> GrowsIfAccepted(s, step.key))
    && (step.ExternalReset? ==> s.server.row.None?)
  }

  predicate GrowsIfAccepted(s: System, key: nat) {
    key in s.flights && Accepts(s.server, s.flights[key].request) ==> Grows(s.flights[key].request)
  }

  predicate VersionOk(s: System, f: Flight) {
    && f.request.expected <= s.client.preferences.version
    && (f.Accepted? ==> s.client.preferences.version < f.reply.version <= Stored(s.server).version)
  }

  predicate Undelivered(s: System, key: nat) {
    key in s.flights && s.flights[key].Accepted?
  }

  ghost predicate Versions(s: System) {
    && s.client.preferences.version <= Stored(s.server).version
    && (forall k :: k in s.flights ==> VersionOk(s, s.flights[k]))
    && (forall j, k :: Undelivered(s, j) && Undelivered(s, k) ==> j == k)
  }

  lemma AcceptedIsOnlyOne(s: System, key: nat)
    requires Versions(s) && key in s.flights && Accepts(s.server, s.flights[key].request)
    ensures forall k :: !Undelivered(s, k)
  {
    assert VersionOk(s, s.flights[key]);
    forall k ensures !Undelivered(s, k) {
      if k in s.flights { assert VersionOk(s, s.flights[k]); }
    }
  }

  lemma DecideKeepsVersions(s: System, key: nat)
    requires RowOk(s.server) && Versions(s) && Enabled(s, Process(key)) && GrowsIfAccepted(s, key)
    ensures Versions(Decide(s, key))
  {
    var t, q := Decide(s, key), s.flights[key].request;
    if Accepts(s.server, q) { AcceptedIsOnlyOne(s, key); }
    forall k | k in t.flights ensures VersionOk(t, t.flights[k]) { assert VersionOk(s, s.flights[k]); }
    forall j, k | Undelivered(t, j) && Undelivered(t, k) ensures j == k {
      assert j == key || Undelivered(s, j);
      assert k == key || Undelivered(s, k);
    }
  }

  lemma DeliverKeepsVersions(s: System, key: nat)
    requires Versions(s) && Enabled(s, Deliver(key))
    ensures Versions(Apply(s, Deliver(key)))
  {
    var t := Apply(s, Deliver(key));
    assert VersionOk(s, s.flights[key]);
    forall k | k in t.flights ensures VersionOk(t, t.flights[k]) {
      assert VersionOk(s, s.flights[k]);
      if Undelivered(t, k) { assert Undelivered(s, k) && (Undelivered(s, key) ==> k == key); }
    }
    forall j, k | Undelivered(t, j) && Undelivered(t, k) ensures j == k {
      assert Undelivered(s, j) && Undelivered(s, k);
    }
  }

  lemma StepKeepsVersions(s: System, step: Step)
    requires Inv(s) && Versions(s) && Enabled(s, step) && GrowsAt(s, step)
    ensures Versions(Apply(s, step))
  {
    var t := Apply(s, step);
    match step
    case Process(k) => DecideKeepsVersions(s, k);
    case Deliver(k) => DeliverKeepsVersions(s, k);
    case _ =>
      forall k | k in t.flights ensures VersionOk(t, t.flights[k]) {
        if k in s.flights { assert VersionOk(s, s.flights[k]); }
      }
      forall j, k | Undelivered(t, j) && Undelivered(t, k) ensures j == k {
        assert Undelivered(s, j) && Undelivered(s, k);
      }
  }

  // All requests carry the last known version, so only one of them can have been accepted since.
  lemma {:induction false} AtMostOneUndelivered(states: seq<System>, steps: seq<Step>, n: nat)
    requires GrowingRun(states, steps) && n <= |steps|
    ensures Versions(states[n])
    ensures forall j, k :: Undelivered(states[n], j) && Undelivered(states[n], k) ==> j == k
  {
    if n > 0 {
      AtMostOneUndelivered(states, steps, n - 1);
      DirtyShowsNewestEdit(states, steps, n - 1);
      StepKeepsVersions(states[n - 1], steps[n - 1]);
    }
  }

  // ---------------------------------------------------------------- clean and quiet means synchronised

  // No other session writes and no reply to an accepted change is lost.
  ghost predicate Undisturbed(states: seq<System>, steps: seq<Step>) {
    forall i :: 0 <= i < |steps| < |states| ==>
      && !steps[i].External? && !steps[i].ExternalReset?
      && (steps[i].Lose? ==> !Undelivered(states[i], steps[i].key))
  }

  ghost predicate Quiet(s: System) {
    forall k :: !Undelivered(s, k)
  }

  // The client knows what is stored, or the one accepted change on its way will tell it.
  ghost predicate Informed(s: System) {
    && (Quiet(s) ==> s.client.preferences == Stored(s.server))
    && (forall k :: Undelivered(s, k) ==> s.flights[k].reply == Stored(s.server))
  }

  // A step that accepts nothing and delivers nothing accepted.
  lemma SilentStepKeepsInformed(s: System, t: System)
    requires Informed(s)
    requires t.server == s.server && t.client.preferences == s.client.preferences
    requires forall k :: Undelivered(s, k) <==> Undelivered(t, k)
    requires forall k :: Undelivered(s, k) ==> k in t.flights && t.flights[k] == s.flights[k]
    ensures Informed(t)
  {
    if Quiet(t) { assert Quiet(s); }
  }

  lemma StepKeepsInformed(s: System, step: Step)
    requires Inv(s) && Versions(s) && Informed(s) && Enabled(s, step) && !step.External? && !step.ExternalReset?
    requires GrowsAt(s, step)
    requires step.Lose? ==> !Undelivered(s, step.key)
    ensures Informed(Apply(s, step))
  {
    var t := Apply(s, step);
    match step
    case Process(k) =>
      if Accepts(s.server, s.flights[k].request) {
        AcceptedIsOnlyOne(s, k);
        assert Undelivered(t, k);
        forall j | Undelivered(t, j) ensures t.flights[j].reply == Stored(t.server) {
          assert j == k || Undelivered(s, j);
        }
      } else {
        SilentStepKeepsInformed(s, t);
      }
    case Deliver(k) =>
      if Undelivered(s, k) {
        forall j ensures !Undelivered(t, j) { assert Undelivered(t, j) ==> Undelivered(s, j); }
      } else {
        SilentStepKeepsInformed(s, t);
      }
    case Lose(k) => SilentStepKeepsInformed(s, t);
    case Edit(_) => SilentStepKeepsInformed(s, t);
    case Fire => SilentStepKeepsInformed(s, t);
    case ClickReset(_) => SilentStepKeepsInformed(s, t);
    case _ =>
  }

  lemma {:induction false} AlwaysInformed(states: seq<System>, steps: seq<Step>, n: nat)
    requires GrowingRun(states, steps) && Undisturbed(states, steps) && n <= |steps|
    ensures Informed(states[n])
  {
    if n > 0 {
      AlwaysInformed(states, steps, n - 1);
      AtMostOneUndelivered(states, steps, n - 1);
      DirtyShowsNewestEdit(states, steps, n - 1);
      StepKeepsInformed(states[n - 1], steps[n - 1]);
    }
  }

  // Once everything accepted has been delivered, a clean screen shows exactly what is stored.
  lemma CleanAndQuietIsStored(states: seq<System>, steps: seq<Step>, n: nat)
    requires GrowingRun(states, steps) && Undisturbed(states, steps) && n <= |steps|
    requires Quiet(states[n]) && !states[n].client.dirty
    ensures states[n].client.settings == Stored(states[n].server).settings
    ensures states[n].client.preferences.version == Stored(states[n].server).version
  {
    AlwaysInformed(states, steps, n);
    DirtyShowsNewestEdit(states, steps, n);
  }

  // The armed timer really saves: fired, decided and delivered without interference, the edit ends
  // up stored, and the screen still shows it.
  lemma TimerSavesEdit(s: System)
    requires Inv(s) && Informed(s) && Quiet(s) && s.client.timer.Some?
    ensures var fired := Apply(s, Fire);
      && Enabled(fired, Process(s.next))
      && Enabled(Apply(fired, Process(s.next)), Deliver(s.next))
      && var t := Apply(Apply(fired, Process(s.next)), Deliver(s.next));
      && !t.client.dirty && t.client.settings == s.client.settings == Stored(t.server).settings
      && t.client.preferences == Stored(t.server)
  {}

  // A reset with the current version, decided and delivered without interference, is stored and on screen.
  lemma ResetIsStoredAndShown(s: System, scope: Scope)
    requires Inv(s) && s.client.preferences.version == Stored(s.server).version
    ensures var sent := Apply(s, ClickReset(scope));
      && Enabled(sent, Process(s.next))
      && Enabled(Apply(sent, Process(s.next)), Deliver(s.next))
      && var t := Apply(Apply(sent, Process(s.next)), Deliver(s.next));
      && ResetOf(scope, Stored(s.server).settings, Stored(t.server).settings)
      && !t.client.dirty && t.client.settings == Stored(t.server).settings && t.client.preferences == Stored(t.server)
  {
    AcceptedResetStores(s.server, Request(s.client.preferences.version, Reset(scope)));
  }

  // ---------------------------------------------------------------- no edit waits in vain

  // The timer ran out with the edit of this revision.
  predicate FiredFor(states: seq<System>, steps: seq<Step>, m: nat, revision: nat)
    requires Run(states, steps)
  {
    m < |steps| && steps[m].Fire?
    && states[m].client.timer.value.payload == Save(states[m].client.settings, revision)
  }

  ghost predicate SaveSent(states: seq<System>, steps: seq<Step>, n: nat, revision: nat)
    requires Run(states, steps)
  {
    exists m: nat :: m < n && FiredFor(states, steps, m, revision)
  }

  // Whatever replies arrive in between: as long as an edit is dirty, its save was sent, or the timer is armed
  // to send exactly what is on screen with the version known now.
  lemma {:induction false} DirtyIsSentOrArmed(states: seq<System>, steps: seq<Step>, n: nat)
    requires Run(states, steps) && n <= |steps| && states[n].client.dirty
    ensures var c := states[n].client;
      || SaveSent(states, steps, n, c.revision)
      || c.timer == Some(Request(c.preferences.version, Save(c.settings, c.revision)))
  {
    DirtyShowsNewestEdit(states, steps, n);
    if n > 0 {
      DirtyShowsNewestEdit(states, steps, n - 1);
      if steps[n - 1].Fire? {
        assert FiredFor(states, steps, n - 1, states[n].client.revision);
      } else if !steps[n - 1].Edit? {
        DirtyIsSentOrArmed(states, steps, n - 1);
      }
    }
  }

  // ---------------------------------------------------------------- when a second change is accepted too early

  ghost predicate NoOtherSession(steps: seq<Step>) {
    forall step :: step in steps ==> !step.External? && !step.ExternalReset?
  }

  ghost predicate TwoUndelivered(s: System, key: nat) {
    Undelivered(s, key) && exists j :: j != key && Undelivered(s, j)
  }

  ghost predicate OnlyUndelivered(s: System, key: nat) {
    Undelivered(s, key) && forall k :: Undelivered(s, k) ==> k == key
  }

  // Without other sessions, a second change can be accepted before `key` is delivered.
  ghost predicate SecondFollows(s: System, key: nat) {
    exists steps: seq<Step>, t :: NoOtherSession(steps) && Perform(Next, s, steps) == Some(t) && TwoUndelivered(t, key)
  }

  predicate Awaits(s: System, k: nat, version: nat) {
    k in s.flights && s.flights[k].Sent? && s.flights[k].request.expected == version
  }

  // The client knows the stored version, or a request of its own that is still to be decided carries it.
  ghost predicate CanMatch(s: System) {
    s.client.preferences.version == Stored(s.server).version || exists k :: Awaits(s, k, Stored(s.server).version)
  }

  lemma MatchIsAccepted(s: System, key: nat) returns (steps: seq<Step>, t: System)
    requires Inv(s) && OnlyUndelivered(s, key) && CanMatch(s)
    ensures NoOtherSession(steps) && Perform(Next, s, steps) == Some(t) && TwoUndelivered(t, key)
  {
    if k :| Awaits(s, k, Stored(s.server).version) {
      t := Apply(s, Process(k));
      PerformFirst(Next, s, Process(k), []);
      steps := [Process(k)] + [];
      assert Undelivered(t, k);
    } else {
      var s1 := Apply(s, ClickReset(ALL));
      t := Apply(s1, Process(s.next));
      PerformFirst(Next, s1, Process(s.next), []);
      PerformFirst(Next, s, ClickReset(ALL), [Process(s.next)] + []);
      steps := [ClickReset(ALL)] + ([Process(s.next)] + []);
      assert Undelivered(t, s.next);
    }
  }

  // Nothing but `key` is accepted, and nothing that is or will be sent matches; or `key` is gone for good.
  ghost predicate Barred(s: System, key: nat) {
    && Inv(s) && key < s.next
    && (key in s.flights ==> OnlyUndelivered(s, key) && !CanMatch(s))
  }

  lemma BarredStays(s: System, step: Step, key: nat)
    requires Barred(s, key) && Enabled(s, step) && !step.External? && !step.ExternalReset?
    ensures Barred(Apply(s, step), key)
  {
    var t := Apply(s, step);
    StepKeepsInv(s, step);
    if key in t.flights {
      assert key in s.flights && t.server == s.server by {
        if step.Process? { assert !Awaits(s, step.key, Stored(s.server).version); }
      }
      assert t.client.preferences == s.client.preferences by {
        if step.Deliver? { assert !Undelivered(s, step.key); }
      }
      forall k ensures !Awaits(t, k, Stored(t.server).version) {
        assert !Awaits(s, k, Stored(s.server).version);
      }
      forall k | Undelivered(t, k) ensures k == key {
        assert Undelivered(s, k);
      }
      assert Undelivered(t, key);
    }
  }

  lemma {:induction false} BarredHasNoSecond(s: System, key: nat, steps: seq<Step>, t: System)
    requires Barred(s, key) && NoOtherSession(steps) && Perform(Next, s, steps) == Some(t)
    ensures !TwoUndelivered(t, key)
    decreases |steps|
  {
    if steps != [] {
      assert steps[0] in steps;
      BarredStays(s, steps[0], key);
      BarredHasNoSecond(Apply(s, steps[0]), key, steps[1..], t);
    }
  }

  // While one accepted change is undelivered, a second one can be accepted exactly when the client, or
  // a request it has out, has the stored version.
  lemma SecondFollowsExactly(s: System, key: nat)
    requires Inv(s) && OnlyUndelivered(s, key)
    ensures SecondFollows(s, key) <==> CanMatch(s)
  {
    if CanMatch(s) {
      var steps, t := MatchIsAccepted(s, key);
    } else {
      forall steps: seq<Step>, t | NoOtherSession(steps) && Perform(Next, s, steps) == Some(t)
        ensures !TwoUndelivered(t, key)
      {
        BarredHasNoSecond(s, key, steps, t);
      }
    }
  }

  // Another request of the client's own that was sent at version 0 and is still to be decided.
  ghost predicate SentAtZero(s: System, key: nat) {
    exists k :: k != key && Awaits(s, k, 0)
  }

  // After an accepted change, a second one can be accepted before the first is delivered exactly when
  // the first left the service at version 0, that is, was a reset of everything or of nothing, and the
  // client knows version 0 or still has a request out that carries it.
  lemma SecondAfterAcceptanceExactly(s: System, key: nat)
    requires Inv(s) && Versions(s) && Enabled(s, Process(key)) && Accepts(s.server, s.flights[key].request)
    ensures SecondFollows(Apply(s, Process(key)), key)
      <==> !Grows(s.flights[key].request) && (s.client.preferences.version == 0 || SentAtZero(s, key))
  {
    var t, q := Apply(s, Process(key)), s.flights[key].request;
    StepKeepsInv(s, Process(key));
    AcceptedIsOnlyOne(s, key);
    forall k | Undelivered(t, k) ensures k == key { assert Undelivered(s, k) || k == key; }
    GrowsExactly(s.server, q);
    SecondFollowsExactly(t, key);
    MatchAfterAcceptance(s, key);
  }

  lemma MatchAfterAcceptance(s: System, key: nat)
    requires Inv(s) && Versions(s) && Enabled(s, Process(key)) && Accepts(s.server, s.flights[key].request)
    ensures CanMatch(Apply(s, Process(key)))
      <==> !Grows(s.flights[key].request) && (s.client.preferences.version == 0 || SentAtZero(s, key))
  {
    var t := Apply(s, Process(key));
    GrowsExactly(s.server, s.flights[key].request);
    forall k ensures Awaits(t, k, Stored(t.server).version) <==> k != key && Awaits(s, k, Stored(t.server).version) {}
    forall k | Awaits(s, k, Stored(t.server).version) ensures Stored(t.server).version <= s.client.preferences.version {
      assert VersionOk(s, s.flights[k]);
    }
  }

  // The same when another session resets everything while an accepted change is undelivered.
  lemma SecondAfterForeignResetExactly(s: System, key: nat)
    requires Inv(s) && Versions(s) && Undelivered(s, key)
    ensures SecondFollows(Apply(s, ExternalReset), key) <==> s.client.preferences.version == 0 || SentAtZero(s, key)
  {
    var t := Apply(s, ExternalReset);
    StepKeepsInv(s, ExternalReset);
    forall k | Undelivered(t, k) ensures k == key { assert Undelivered(s, k); }
    SecondFollowsExactly(t, key);
    forall k ensures Awaits(t, k, 0) <==> Awaits(s, k, 0) {}
    assert !Awaits(s, key, 0);
  }

  // ---------------------------------------------------------------- a run in which it happens

  function Fresh(): System {
    System(InitialClient(Preferences(0, DEFAULTS)), map[], 0, Server(None))
  }

  function BothSavesSent(x: Settings, y: Settings): System {
    var p := Preferences(0, DEFAULTS);
    var edited := Client(y, true, 2, p, None);
    System(edited, map[0 := Sent(Request(0, Save(x, 1))), 1 := Sent(Request(0, Save(y, 2)))], 2, Server(None))
  }

  // Both saves were sent at version 0, the first one is acknowledged.
  function FirstSaveAcknowledged(x: Settings, y: Settings): System {
    var known := Client(y, true, 2, Preferences(1, x), None);
    System(known.(timer := Some(AutosaveRequest(known))), map[1 := Sent(Request(0, Save(y, 2)))], 2,
           Server(Some(Preferences(1, x))))
  }

  lemma TwoSaves(x: Settings, y: Settings)
    ensures Perform(Next, Fresh(), [Edit(x), Fire, Edit(y), Fire]) == Some(BothSavesSent(x, y))
  {
    var s := Fresh();
    var s1 := Apply(s, Edit(x));
    var s2 := Apply(s1, Fire);
    var s3 := Apply(s2, Edit(y));
    PerformFirst(Next, s3, Fire, []);
    PerformFirst(Next, s2, Edit(y), [Fire]);
    PerformFirst(Next, s1, Fire, [Edit(y), Fire]);
    PerformFirst(Next, s, Edit(x), [Fire, Edit(y), Fire]);
  }

  lemma AcknowledgeFirstSave(x: Settings, y: Settings)
    ensures Perform(Next, BothSavesSent(x, y), [Process(0), Deliver(0)]) == Some(FirstSaveAcknowledged(x, y))
  {
    var s := BothSavesSent(x, y);
    var s1 := Apply(s, Process(0));
    assert Apply(s1, Deliver(0)).flights == map[1 := Sent(Request(0, Save(y, 2)))];
    PerformFirst(Next, s1, Deliver(0), []);
    PerformFirst(Next, s, Process(0), [Deliver(0)]);
  }

  lemma LateSaveAfterReset(x: Settings, y: Settings) returns (t: System)
    ensures Perform(Next, FirstSaveAcknowledged(x, y), [ClickReset(ALL), Process(2), Process(1)]) == Some(t)
    ensures Undelivered(t, 1) && Undelivered(t, 2) && t.flights[2].request.payload == Reset(ALL)
    ensures Stored(t.server).settings == y
  {
    var s := FirstSaveAcknowledged(x, y);
    var s1 := Apply(s, ClickReset(ALL));
    var s2 := Apply(s1, Process(2));
    t := Apply(s2, Process(1));
    PerformFirst(Next, s2, Process(1), []);
    PerformFirst(Next, s1, Process(2), [Process(1)]);
    PerformFirst(Next, s, ClickReset(ALL), [Process(2), Process(1)]);
  }

  // The service restarts at version 0 when everything is reset, so an old request can match again: of
  // two saves the second, still on its way, is accepted after the reset. Two accepted changes are then
  // undelivered, and the settings the member just deleted are stored once more.
  lemma LateSaveUndoesReset(x: Settings, y: Settings) returns (steps: seq<Step>, t: System)
    ensures Init(Fresh()) && NoOtherSession(steps) && Perform(Next, Fresh(), steps) == Some(t)
    ensures Undelivered(t, 1) && Undelivered(t, 2) && t.flights[2].request.payload == Reset(ALL)
    ensures Stored(t.server).settings == y
  {
    var first, second, third := [Edit(x), Fire, Edit(y), Fire], [Process(0), Deliver(0)], [ClickReset(ALL), Process(2), Process(1)];
    TwoSaves(x, y);
    AcknowledgeFirstSave(x, y);
    t := LateSaveAfterReset(x, y);
    PerformThrough(Next, BothSavesSent(x, y), second, third);
    PerformThrough(Next, Fresh(), first, second + third);
    steps := first + (second + third);
    assert NoOtherSession(first) && NoOtherSession(second) && NoOtherSession(third);
  }

  // ---------------------------------------------------------------- the component

  class GraphSettingsControls {
    var settings: Settings
    var settingsDirty: bool
    var settingsRevisionRef: nat
    var preferences: Preferences
    var timer: Option<Request>

    function View(): Client
      reads this
    {
      Client(settings, settingsDirty, settingsRevisionRef, preferences, timer)
    }

    constructor (preferences: Preferences)
      ensures View() == InitialClient(preferences)
    {
      this.settings, this.settingsDirty, this.settingsRevisionRef := preferences.settings, false, 0;
      this.preferences, this.timer := preferences, None;
    }

    // The second effect, re-run because the version, the settings or `dirty` changed.
    method ArmTimer()
      modifies `timer
      ensures timer == if settingsDirty then Some(AutosaveRequest(View())) else None
    {
      timer := if settingsDirty
               then Some(Request(preferences.version, Save(settings, settingsRevisionRef))) else None;
    }

    // `valid`: `assertGraphPreferenceSettings` accepts the updated settings.
    method Change(next: Settings, valid: bool)
      modifies this
      ensures View() == if valid then ChangeSettings(old(View()), next) else old(View())
    {
      if !valid { return; }
      settingsRevisionRef := settingsRevisionRef + 1;
      settings := next;
      settingsDirty := true;
      ArmTimer();
    }

    method FireTimer() returns (request: Request)
      requires timer.Some?
      modifies `timer
      ensures View() == Fired(old(View())) && request == old(View()).timer.value
    {
      request := timer.value;
      timer := None;
    }

    // The first effect.
    method CopyPreferences()
      modifies `settings
      ensures View() == PreferencesEffect(old(View()))
    {
      if !settingsDirty { settings := preferences.settings; }
    }

    method OnSaved(revision: nat, reply: Preferences)
      modifies this
      ensures View() == SaveReplied(old(View()), revision, reply)
    {
      var newVersion := reply.version != preferences.version;
      preferences := reply;
      if settingsRevisionRef == revision {
        settings := reply.settings;
        settingsDirty := false;
      }
      CopyPreferences();
      if !settingsDirty || newVersion { ArmTimer(); }
    }

    method OnReset(reply: Preferences)
      modifies this
      ensures View() == ResetReplied(old(View()), reply)
    {
      settingsRevisionRef := settingsRevisionRef + 1;
      settings := reply.settings;
      settingsDirty := false;
      preferences := reply;
      CopyPreferences();
      ArmTimer();
    }

    method ResetWithoutPersistence(scope: Scope)
      modifies this
      ensures View() == ResetLocally(old(View()), scope)
    {
      var wasDirty := settingsDirty;
      settingsRevisionRef := settingsRevisionRef + 1;
      settings := ResetSettings(settings, scope);
      settingsDirty := false;
      if wasDirty { CopyPreferences(); }
      ArmTimer();
    }
  }
}
