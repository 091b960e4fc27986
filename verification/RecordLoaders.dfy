module RecordLoaders {
  import opened Wrappers

  // The latest-wins loaders of an entity record, a business record and a member overview.
  //
  // Every step is one synchronous segment. A selection takes two: a render shows the new properties
  // over whatever is held, and the effect, which clears or loads, runs later; answers, failures and
  // retries may come in between. React runs the effects of one render before it begins the next.
  // Assumed of the environment: an entity or business answer is for the record that was asked for,
  // and a request is rejected as aborted only after it was aborted.

  type Key = string

  datatype Loader = RecordLoader | BusinessLoader | OverviewLoader

  datatype Answer = Answer(key: Key, sequence: nat)

  datatype Request = Request(key: Option<Key>, sequence: nat)

  // What the component holds, beside the properties it was last rendered with.
  datatype Panel = Panel(
    selected: Option<Key>, expected: nat, generation: nat, shown: Option<Answer>, loading: bool, failed: bool)

  // A request without a signal cannot be aborted.
  datatype Flight = Flight(key: Key, expected: nat, attempt: nat, abortable: bool, aborted: bool)

  // `ran` is what the effect last ran with, `asked` what the effect, a retry or an event last asked for.
  datatype System = System(panel: Panel, ran: Request, asked: Request, flights: map<nat, Flight>)

  datatype Step =
    | Render(key: Option<Key>, expected: nat)
    | RunEffect(cached: Option<nat>) // the last run is cleaned up first
    | Retry                          // the button asks for what is rendered
    | Event(sequence: nat)           // an event for the business that the effect last ran with
    | Response(id: nat, answer: Answer)
    | Rejection(id: nat)

  const ATTEMPTS: nat := 3

  function Begun(loader: Loader, p: Panel): Panel {
    p.(generation := p.generation + 1, loading := true, failed := false,
       shown := if loader.BusinessLoader? then p.shown else None)
  }

  function Cleared(p: Panel): Panel {
    p.(generation := p.generation + 1, loading := false, failed := false, shown := None)
  }

  function Showing(p: Panel, answer: Answer): Panel {
    p.(shown := Some(answer), loading := false)
  }

  function Failing(p: Panel): Panel {
    p.(shown := None, loading := false, failed := true)
  }

  // The `finally` of the overview does not ask whether its request was aborted.
  function Dropped(loader: Loader, p: Panel, id: nat): Panel {
    if loader.OverviewLoader? && id == p.generation then p.(loading := false) else p
  }

  function Rendered(p: Panel): Request {
    Request(p.selected, p.expected)
  }

  function Launch(loader: Loader, s: System, key: Key, sequence: nat, abortable: bool): System {
    var p := Begun(loader, s.panel);
    System(p, s.ran, Request(Some(key), sequence), s.flights[p.generation := Flight(key, sequence, 0, abortable, false)])
  }

  function AbortAll(flights: map<nat, Flight>): map<nat, Flight> {
    map id | id in flights :: flights[id].(aborted := flights[id].aborted || flights[id].abortable)
  }

  // The overview is asked for by organisation alone.
  function RenderedWith(loader: Loader, s: System, key: Option<Key>, expected: nat): System {
    s.(panel := s.panel.(selected := key, expected := if loader.OverviewLoader? then 0 else expected))
  }

  // The cleanup of the business effect also takes the generation away from its request.
  function CleanedUp(loader: Loader, s: System): System {
    s.(panel := s.panel.(generation := s.panel.generation + if loader.BusinessLoader? then 1 else 0),
       flights := AbortAll(s.flights))
  }

  function EffectRun(loader: Loader, s: System, cached: Option<nat>): System {
    var c := CleanedUp(loader, s);
    var r := Rendered(s.panel);
    var t := c.(ran := r, asked := r);
    match r.key
    case None => if loader.OverviewLoader? then t else t.(panel := Cleared(t.panel))
    case Some(k) =>
      var hit := cached == Some(r.sequence) && !loader.OverviewLoader?;
      if hit && loader.RecordLoader? then
        t.(panel := Cleared(t.panel).(shown := Some(Answer(k, r.sequence))))
      else if hit then
        Launch(loader, t.(panel := t.panel.(shown := Some(Answer(k, r.sequence)))), k, r.sequence, true)
      else Launch(loader, t, k, r.sequence, true)
  }

  function Retried(loader: Loader, s: System): System {
    match s.panel.selected
    case None => s
    case Some(key) =>
      if loader.OverviewLoader? then Launch(loader, s.(flights := AbortAll(s.flights)), key, s.panel.expected, true)
      else Launch(loader, s, key, s.panel.expected, false)
  }

  function Heard(loader: Loader, s: System, sequence: nat): System {
    match s.ran.key
    case None => s
    case Some(key) => Launch(loader, s, key, sequence, false)
  }

  predicate Stale(s: System, id: nat)
    requires id in s.flights
  {
    s.flights[id].aborted || id != s.panel.generation
  }

  function Settled(s: System, id: nat, p: Panel): System {
    s.(panel := p, flights := s.flights - {id})
  }

  predicate Aligned(loader: Loader, f: Flight, answer: Answer) {
    if loader.OverviewLoader? then answer.key == f.key else answer.sequence == f.expected
  }

  // The record loader asks before it looks at an answer; the business loader only before it writes.
  function Answered(loader: Loader, s: System, id: nat, answer: Answer): System
    requires id in s.flights
  {
    var f := s.flights[id];
    if Stale(s, id) && !loader.BusinessLoader? then Settled(s, id, Dropped(loader, s.panel, id))
    else if Aligned(loader, f, answer) then
      Settled(s, id, if Stale(s, id) then s.panel else Showing(s.panel, answer))
    else if f.attempt + 1 < ATTEMPTS && !f.aborted && !loader.OverviewLoader? then
      s.(flights := s.flights[id := f.(attempt := f.attempt + 1)])
    else Settled(s, id, if Stale(s, id) then s.panel else Failing(s.panel))
  }

  function Rejected(loader: Loader, s: System, id: nat): System
    requires id in s.flights
  {
    Settled(s, id, if Stale(s, id) then Dropped(loader, s.panel, id) else Failing(s.panel))
  }

  // The effect has run with what is rendered.
  predicate Effective(s: System) {
    s.ran == Rendered(s.panel)
  }

  // An organisation is chosen from a list that offers nothing else.
  predicate Enabled(loader: Loader, s: System, step: Step) {
    match step
    case Render(key, _) => Effective(s) && (loader.OverviewLoader? ==> key.Some?)
    case Event(_) => loader.BusinessLoader?
    case Response(id, answer) => id in s.flights && (!loader.OverviewLoader? ==> answer.key == s.flights[id].key)
    case Rejection(id) => id in s.flights
    case _ => true
  }

  function Apply(loader: Loader, s: System, step: Step): System
    requires Enabled(loader, s, step)
  {
    match step
    case Render(key, expected) => RenderedWith(loader, s, key, expected)
    case RunEffect(cached) => EffectRun(loader, s, cached)
    case Retry => Retried(loader, s)
    case Event(sequence) => Heard(loader, s, sequence)
    case Response(id, answer) => Answered(loader, s, id, answer)
    case Rejection(id) => Rejected(loader, s, id)
  }

  const NOTHING: Request := Request(None, 0)

  const INITIAL: System := System(Panel(None, 0, 0, None, false, false), NOTHING, NOTHING, map[])

  ghost predicate Run(loader: Loader, s: System, steps: seq<Step>, t: System)
    decreases |steps|
  {
    if steps == [] then s == t
    else Enabled(loader, s, steps[0]) && Run(loader, Apply(loader, s, steps[0]), steps[1..], t)
  }

  predicate Wanted(loader: Loader, r: Request, answer: Answer) {
    Some(answer.key) == r.key && (!loader.OverviewLoader? ==> answer.sequence == r.sequence)
  }

  predicate Live(s: System, id: nat) {
    id in s.flights && !Stale(s, id)
  }

  ghost predicate FlightOk(loader: Loader, s: System, id: nat) {
    id in s.flights ==>
      && id <= s.panel.generation && s.flights[id].attempt < ATTEMPTS && (loader.OverviewLoader? ==> s.flights[id].abortable)
      && (Live(s, id) ==> Request(Some(s.flights[id].key), s.flights[id].expected) == s.asked)
  }

  ghost predicate PanelOk(loader: Loader, s: System) {
    var p := s.panel;
    && (p.loading ==> if loader.OverviewLoader? then p.generation in s.flights else Live(s, p.generation))
    && (Live(s, p.generation) ==> p.loading)
    && (p.failed ==> p.shown.None? && !p.loading)
    && (s.asked.key.None? ==> p.shown.None? && !p.loading && !p.failed)
    && (p.shown.Some? ==> Wanted(loader, s.asked, p.shown.value) || (loader.BusinessLoader? && p.loading))
  }

  // What was asked for last is what the effect ran with or what is rendered, but for the sequence of an event.
  ghost predicate AskedOk(loader: Loader, s: System) {
    && (s.asked.key == s.ran.key || s.asked.key == s.panel.selected)
    && (!loader.BusinessLoader? ==> Unprompted(s))
    && (loader.OverviewLoader? ==> s.asked.sequence == s.panel.expected == 0)
    && (loader.OverviewLoader? && s.panel.selected.None? ==> s.asked.key.None?)
  }

  predicate Unprompted(s: System) {
    s.asked == s.ran || s.asked == Rendered(s.panel)
  }

  ghost predicate Inv(loader: Loader, s: System) {
    PanelOk(loader, s) && AskedOk(loader, s) && forall id :: FlightOk(loader, s, id)
  }

  lemma RenderKeepsInv(loader: Loader, s: System, key: Option<Key>, expected: nat)
    requires Inv(loader, s) && Enabled(loader, s, Render(key, expected))
    ensures Inv(loader, RenderedWith(loader, s, key, expected))
  {
    var t := RenderedWith(loader, s, key, expected);
    forall id ensures FlightOk(loader, t, id) {
      assert FlightOk(loader, s, id);
    }
  }

  lemma EffectKeepsInv(loader: Loader, s: System, cached: Option<nat>)
    requires Inv(loader, s)
    ensures Inv(loader, EffectRun(loader, s, cached))
  {
    var t := EffectRun(loader, s, cached);
    assert FlightOk(loader, s, t.panel.generation) && FlightOk(loader, s, s.panel.generation);
    forall id ensures FlightOk(loader, t, id) {
      assert FlightOk(loader, s, id);
    }
  }

  lemma RetryKeepsInv(loader: Loader, s: System)
    requires Inv(loader, s)
    ensures Inv(loader, Retried(loader, s))
  {
    var t := Retried(loader, s);
    forall id ensures FlightOk(loader, t, id) {
      assert FlightOk(loader, s, id);
    }
  }

  lemma EventKeepsInv(loader: Loader, s: System, sequence: nat)
    requires Inv(loader, s) && Enabled(loader, s, Event(sequence))
    ensures Inv(loader, Heard(loader, s, sequence))
  {
    var t := Heard(loader, s, sequence);
    forall id ensures FlightOk(loader, t, id) {
      assert FlightOk(loader, s, id);
    }
  }

  lemma AnswerKeepsInv(loader: Loader, s: System, id: nat, answer: Answer)
    requires Inv(loader, s) && Enabled(loader, s, Response(id, answer))
    ensures Inv(loader, Answered(loader, s, id, answer))
  {
    var t := Answered(loader, s, id, answer);
    assert FlightOk(loader, s, id);
    forall other ensures FlightOk(loader, t, other) {
      assert FlightOk(loader, s, other);
    }
  }

  lemma RejectionKeepsInv(loader: Loader, s: System, id: nat)
    requires Inv(loader, s) && id in s.flights
    ensures Inv(loader, Rejected(loader, s, id))
  {
    var t := Rejected(loader, s, id);
    forall other ensures FlightOk(loader, t, other) {
      assert FlightOk(loader, s, other);
    }
  }

  lemma StepKeepsInv(loader: Loader, s: System, step: Step)
    requires Inv(loader, s) && Enabled(loader, s, step)
    ensures Inv(loader, Apply(loader, s, step))
  {
    match step
    case Render(key, expected) => RenderKeepsInv(loader, s, key, expected);
    case RunEffect(cached) => EffectKeepsInv(loader, s, cached);
    case Retry => RetryKeepsInv(loader, s);
    case Event(sequence) => EventKeepsInv(loader, s, sequence);
    case Response(id, answer) => AnswerKeepsInv(loader, s, id, answer);
    case Rejection(id) => RejectionKeepsInv(loader, s, id);
  }

  lemma {:induction false} RunKeepsInv(loader: Loader, s: System, steps: seq<Step>, t: System)
    requires Inv(loader, s) && Run(loader, s, steps, t)
    ensures Inv(loader, t)
    decreases |steps|
  {
    if steps != [] {
      StepKeepsInv(loader, s, steps[0]);
      RunKeepsInv(loader, Apply(loader, s, steps[0]), steps[1..], t);
    }
  }

  // Only the business loader hears events.
  predicate HearsNothing(steps: seq<Step>) {
    steps == [] || (!steps[0].Event? && HearsNothing(steps[1..]))
  }

  lemma {:induction false} StaysUnprompted(loader: Loader, s: System, steps: seq<Step>, t: System)
    requires Unprompted(s) && Run(loader, s, steps, t) && HearsNothing(steps)
    ensures Unprompted(t)
    decreases |steps|
  {
    if steps != [] {
      StaysUnprompted(loader, Apply(loader, s, steps[0]), steps[1..], t);
    }
  }

  // A record is on screen when nothing is loading and nothing has failed; an entity or business, only under a selection.
  function OnScreen(loader: Loader, p: Panel): Option<Answer> {
    if p.loading || p.failed || (p.selected.None? && !loader.OverviewLoader?) then None else p.shown
  }

  // What is on screen is not the record that the rendered properties are about.
  predicate ShowsUnwanted(loader: Loader, p: Panel) {
    OnScreen(loader, p).Some? && !Wanted(loader, Rendered(p), OnScreen(loader, p).value)
  }

  /** After any run, what is on screen is the record last asked for, at the sequence last asked for. */
  lemma ScreenShowsWhatWasAsked(loader: Loader, steps: seq<Step>, t: System)
    requires Run(loader, INITIAL, steps, t)
    ensures OnScreen(loader, t.panel).Some? ==> Wanted(loader, t.asked, OnScreen(loader, t.panel).value)
  {
    RunKeepsInv(loader, INITIAL, steps, t);
  }

  /** After any run, the record on screen is not the rendered one exactly when what is rendered has not been asked for yet; that is so only until the effect has run, or when a business was last asked for at the sequence of an event. */
  lemma ShowsUnwantedExactly(loader: Loader, steps: seq<Step>, t: System)
    requires Run(loader, INITIAL, steps, t)
    ensures ShowsUnwanted(loader, t.panel) <==> OnScreen(loader, t.panel).Some? && t.asked != Rendered(t.panel)
    ensures t.asked != Rendered(t.panel) ==> !Effective(t) || (loader.BusinessLoader? && t.asked.key == t.panel.selected)
  {
    RunKeepsInv(loader, INITIAL, steps, t);
  }

  /** Where no event was heard: exactly when the effect ran last with something else, and nobody has retried since. */
  lemma ShowsUnwantedBeforeEffectExactly(loader: Loader, steps: seq<Step>, t: System)
    requires Run(loader, INITIAL, steps, t) && (loader.BusinessLoader? ==> HearsNothing(steps))
    ensures ShowsUnwanted(loader, t.panel) <==> OnScreen(loader, t.panel).Some? && !Effective(t) && t.asked == t.ran
  {
    ShowsUnwantedExactly(loader, steps, t);
    RunKeepsInv(loader, INITIAL, steps, t);
    if loader.BusinessLoader? {
      StaysUnprompted(loader, INITIAL, steps, t);
    }
  }

  /** Once the effect has run, what is on screen is the rendered record, at the sequence last asked for: without events, the rendered one. */
  lemma ScreenShowsWhatIsWanted(loader: Loader, steps: seq<Step>, t: System)
    requires Run(loader, INITIAL, steps, t) && Effective(t) && OnScreen(loader, t.panel).Some?
    ensures Wanted(loader, Request(t.panel.selected, t.asked.sequence), OnScreen(loader, t.panel).value)
    ensures !loader.BusinessLoader? || HearsNothing(steps) ==> Wanted(loader, Rendered(t.panel), OnScreen(loader, t.panel).value)
  {
    RunKeepsInv(loader, INITIAL, steps, t);
    if !loader.BusinessLoader? || HearsNothing(steps) {
      ShowsUnwantedBeforeEffectExactly(loader, steps, t);
    }
  }

  /** Once the effect has run, the record and overview loaders never even hold anything else. */
  lemma HoldsOnlyWhatIsWanted(loader: Loader, steps: seq<Step>, t: System)
    requires Run(loader, INITIAL, steps, t) && !loader.BusinessLoader? && Effective(t)
    ensures t.panel.shown.Some? ==> Wanted(loader, Rendered(t.panel), t.panel.shown.value)
  {
    RunKeepsInv(loader, INITIAL, steps, t);
  }

  /** Once the effect has run without a selection, nothing is held and nothing loads; no entity or business is on screen even before. */
  lemma DeselectingClears(loader: Loader, steps: seq<Step>, t: System)
    requires Run(loader, INITIAL, steps, t) && t.panel.selected.None?
    ensures Effective(t) ==> t.panel.shown.None? && !t.panel.loading && !t.panel.failed
    ensures OnScreen(loader, t.panel).None?
  {
    RunKeepsInv(loader, INITIAL, steps, t);
  }

  // A record is held that is not the one asked for last.
  predicate HoldsUnasked(loader: Loader, s: System) {
    s.panel.shown.Some? && !Wanted(loader, s.asked, s.panel.shown.value)
  }

  /** After any run, a record that was not asked for last is held by the business loader only, and only while the one asked for loads. */
  lemma UnaskedIsHidden(loader: Loader, steps: seq<Step>, t: System)
    requires Run(loader, INITIAL, steps, t) && HoldsUnasked(loader, t)
    ensures loader.BusinessLoader? && t.panel.loading && OnScreen(loader, t.panel) == None
  {
    RunKeepsInv(loader, INITIAL, steps, t);
  }

  /** The effect leaves such a record held exactly when a business is selected that the cache does not have at the rendered sequence, while any other record is held. */
  lemma EffectLeavesUnaskedExactly(loader: Loader, s: System, cached: Option<nat>)
    requires Inv(loader, s)
    ensures HoldsUnasked(loader, EffectRun(loader, s, cached)) <==>
            && loader.BusinessLoader? && s.panel.selected.Some? && cached != Some(s.panel.expected)
            && s.panel.shown.Some? && s.panel.shown.value != Answer(s.panel.selected.value, s.panel.expected)
  {}

  /** The effect takes an unwanted record off the screen, whatever the cache has. */
  lemma EffectHidesUnwanted(loader: Loader, s: System, cached: Option<nat>)
    requires Inv(loader, s)
    ensures !ShowsUnwanted(loader, EffectRun(loader, s, cached).panel)
  {
    EffectKeepsInv(loader, s, cached);
  }

  // The latest request is out for this key and sequence, the first time of asking, and shown as loading.
  predicate AsksFor(loader: Loader, s: System, key: Key, sequence: nat, abortable: bool) {
    var p := s.panel;
    && p.generation in s.flights && s.flights[p.generation] == Flight(key, sequence, 0, abortable, false)
    && Live(s, p.generation) && p.loading && !p.failed && s.asked == Request(Some(key), sequence)
  }

  predicate AllAborted(s: System, t: System) {
    forall id :: id in s.flights && s.flights[id].abortable && id != t.panel.generation ==> id in t.flights && t.flights[id].aborted
  }

  /** The effect on a selection aborts what is out and asks for what is rendered; the record loader shows a cached record of that very sequence instead, and the business loader meanwhile. */
  lemma EffectAsks(loader: Loader, s: System, cached: Option<nat>)
    requires Inv(loader, s) && s.panel.selected.Some?
    ensures var t, key, sequence := EffectRun(loader, s, cached), s.panel.selected.value, s.panel.expected;
            && Effective(t) && AllAborted(s, t)
            && (loader.RecordLoader? && cached == Some(sequence) ==>
                  OnScreen(loader, t.panel) == Some(Answer(key, sequence)) && forall id :: !Live(t, id))
            && (!(loader.RecordLoader? && cached == Some(sequence)) ==> AsksFor(loader, t, key, sequence, true))
            && (loader.BusinessLoader? ==>
                  t.panel.shown == if cached == Some(sequence) then Some(Answer(key, sequence)) else s.panel.shown)
  {
    if loader.RecordLoader? && cached == Some(s.panel.expected) {
      forall id ensures !Live(EffectRun(loader, s, cached), id) { assert FlightOk(loader, s, id); }
    }
  }

  /** The button asks for what is rendered, and an event for the business that the effect last ran with. */
  lemma RetryAsks(loader: Loader, s: System)
    requires Inv(loader, s) && s.panel.selected.Some?
    ensures AsksFor(loader, Retried(loader, s), s.panel.selected.value, s.panel.expected, loader.OverviewLoader?)
  {
    assert FlightOk(loader, s, s.panel.generation + 1);
  }

  lemma EventAsks(s: System, sequence: nat)
    requires Inv(BusinessLoader, s) && s.ran.key.Some?
    ensures AsksFor(BusinessLoader, Heard(BusinessLoader, s, sequence), s.ran.key.value, sequence, false)
  {}

  /** A live request ends in one of two ways: an answer that is aligned is shown, and a failure puts the error in its place. */
  lemma LiveRequestEnds(loader: Loader, s: System, id: nat, answer: Answer)
    requires Inv(loader, s) && Live(s, id)
    ensures (if loader.OverviewLoader? then answer.key == s.flights[id].key else answer.sequence == s.flights[id].expected) ==>
              Settled(s, id, s.panel.(shown := Some(answer), loading := false)) == Answered(loader, s, id, answer)
    ensures Settled(s, id, s.panel.(shown := None, loading := false, failed := true)) == Rejected(loader, s, id)
  {}

  lemma RunFirst(loader: Loader, s: System, step: Step, rest: seq<Step>, t: System)
    requires Enabled(loader, s, step) && Run(loader, Apply(loader, s, step), rest, t)
    ensures Run(loader, s, [step] + rest, t)
  {
    assert ([step] + rest)[1..] == rest;
  }

  lemma {:induction false} RunThrough(loader: Loader, s: System, first: seq<Step>, t: System, second: seq<Step>, u: System)
    requires Run(loader, s, first, t) && Run(loader, t, second, u)
    ensures Run(loader, s, first + second, u)
    decreases |first|
  {
    if first == [] {
      assert first + second == second;
    } else {
      RunThrough(loader, Apply(loader, s, first[0]), first[1..], t, second, u);
      RunFirst(loader, s, first[0], first[1..] + second, u);
      assert [first[0]] + (first[1..] + second) == first + second;
    }
  }

  // The first selection and its answer.
  function Opening(loader: Loader, a: Key): seq<Step> {
    [Render(Some(a), 1)] + [RunEffect(None)] + [Response(if loader.BusinessLoader? then 2 else 1, Answer(a, 1))] + []
  }

  function Opened(loader: Loader, a: Key): System {
    var r := Request(Some(a), if loader.OverviewLoader? then 0 else 1);
    System(Panel(Some(a), r.sequence, if loader.BusinessLoader? then 2 else 1, Some(Answer(a, 1)), false, false), r, r, map[])
  }

  lemma OpeningOpens(loader: Loader, a: Key)
    ensures Run(loader, INITIAL, Opening(loader, a), Opened(loader, a))
  {
    var id := if loader.BusinessLoader? then 2 else 1;
    var s1 := RenderedWith(loader, INITIAL, Some(a), 1);
    var s2 := EffectRun(loader, s1, None);
    assert s2.flights == map[id := Flight(a, s1.panel.expected, 0, true, false)];
    assert Answered(loader, s2, id, Answer(a, 1)) == Opened(loader, a);
    RunFirst(loader, s2, Response(id, Answer(a, 1)), [], Opened(loader, a));
    RunFirst(loader, s1, RunEffect(None), [Response(id, Answer(a, 1))], Opened(loader, a));
    RunFirst(loader, INITIAL, Render(Some(a), 1), [RunEffect(None)] + [Response(id, Answer(a, 1))], Opened(loader, a));
    assert Opening(loader, a) == [Render(Some(a), 1)] + ([RunEffect(None)] + [Response(id, Answer(a, 1))]);
  }

  /** In all three components the previous record stands under a new selection until the effect runs. */
  lemma PreviousRecordUnderNewSelection(loader: Loader, a: Key, b: Key)
    requires a != b
    ensures exists t ::
              && Run(loader, INITIAL, Opening(loader, a) + [Render(Some(b), 1)], t)
              && t.panel.selected == Some(b) && OnScreen(loader, t.panel) == Some(Answer(a, 1)) && ShowsUnwanted(loader, t.panel)
  {
    var t := RenderedWith(loader, Opened(loader, a), Some(b), 1);
    OpeningOpens(loader, a);
    RunFirst(loader, Opened(loader, a), Render(Some(b), 1), [], t);
    assert [Render(Some(b), 1)] + [] == [Render(Some(b), 1)];
    RunThrough(loader, INITIAL, Opening(loader, a), Opened(loader, a), [Render(Some(b), 1)], t);
  }

  /** After that effect the business loader still holds the previous record, hidden while the next one loads. */
  lemma BusinessHoldsThePreviousRecord(a: Key, b: Key)
    requires a != b
    ensures exists t ::
              && Run(BusinessLoader, INITIAL, Opening(BusinessLoader, a) + ([Render(Some(b), 1)] + [RunEffect(None)]), t)
              && Effective(t) && t.panel.selected == Some(b) && t.panel.shown == Some(Answer(a, 1)) && t.panel.loading
              && OnScreen(BusinessLoader, t.panel) == None
  {
    var s := RenderedWith(BusinessLoader, Opened(BusinessLoader, a), Some(b), 1);
    var t := EffectRun(BusinessLoader, s, None);
    OpeningOpens(BusinessLoader, a);
    RunFirst(BusinessLoader, s, RunEffect(None), [], t);
    assert [RunEffect(None)] + [] == [RunEffect(None)];
    RunFirst(BusinessLoader, Opened(BusinessLoader, a), Render(Some(b), 1), [RunEffect(None)], t);
    RunThrough(BusinessLoader, INITIAL, Opening(BusinessLoader, a), Opened(BusinessLoader, a), [Render(Some(b), 1)] + [RunEffect(None)], t);
  }

  /** An event puts a newer business record under the sequence still rendered, with the effect run. */
  lemma NewerRecordUnderRenderedSequence(a: Key)
    ensures exists t ::
              && Run(BusinessLoader, INITIAL, Opening(BusinessLoader, a) + ([Event(2)] + [Response(3, Answer(a, 2))]), t)
              && Effective(t) && t.panel.expected == 1 && OnScreen(BusinessLoader, t.panel) == Some(Answer(a, 2))
  {
    var s := Heard(BusinessLoader, Opened(BusinessLoader, a), 2);
    assert s.flights[3] == Flight(a, 2, 0, false, false);
    var t := Answered(BusinessLoader, s, 3, Answer(a, 2));
    OpeningOpens(BusinessLoader, a);
    RunFirst(BusinessLoader, s, Response(3, Answer(a, 2)), [], t);
    assert [Response(3, Answer(a, 2))] + [] == [Response(3, Answer(a, 2))];
    RunFirst(BusinessLoader, Opened(BusinessLoader, a), Event(2), [Response(3, Answer(a, 2))], t);
    RunThrough(BusinessLoader, INITIAL, Opening(BusinessLoader, a), Opened(BusinessLoader, a), [Event(2)] + [Response(3, Answer(a, 2))], t);
  }

  /** A request that was aborted or overtaken changes neither the record held nor the error shown, whatever becomes of it. */
  lemma StaleNeverWrites(loader: Loader, s: System, id: nat, answer: Answer)
    requires id in s.flights && Stale(s, id)
    ensures Answered(loader, s, id, answer).panel.(loading := s.panel.loading) == s.panel
    ensures Rejected(loader, s, id).panel.(loading := s.panel.loading) == s.panel
  {}

  /** Loading goes on only while the latest request is out, and the latest request, unless aborted, shows as loading. */
  lemma LoadingIsAccurate(loader: Loader, steps: seq<Step>, t: System)
    requires Run(loader, INITIAL, steps, t)
    ensures t.panel.loading ==> t.panel.generation in t.flights
    ensures !loader.OverviewLoader? ==> (t.panel.loading <==> Live(t, t.panel.generation))
  {
    RunKeepsInv(loader, INITIAL, steps, t);
  }

  // ---------------------------------------------------------------- giving up

  // How many answers a request may get; the overview asks once.
  function Readbacks(loader: Loader): nat {
    if loader.OverviewLoader? then 1 else ATTEMPTS
  }

  // A run that starts with this request live and keeps it live up to the last step, without a rejection
  // or a matching answer. Anything else may happen in between.
  ghost predicate Misses(loader: Loader, s: System, id: nat, steps: seq<Step>, t: System)
    decreases |steps|
  {
    if steps == [] then s == t
    else
      && Live(s, id) && Enabled(loader, s, steps[0]) && steps[0] != Rejection(id)
      && (steps[0].Response? && steps[0].id == id ==> !Aligned(loader, s.flights[id], steps[0].answer))
      && Misses(loader, Apply(loader, s, steps[0]), id, steps[1..], t)
  }

  function AnswersTo(id: nat, steps: seq<Step>): nat {
    if steps == [] then 0
    else (if steps[0].Response? && steps[0].id == id then 1 else 0) + AnswersTo(id, steps[1..])
  }

  // One step of such a run: an answer counts as an attempt, and the last one shows the error.
  lemma OneMiss(loader: Loader, s: System, id: nat, step: Step)
    requires Live(s, id) && FlightOk(loader, s, id) && Enabled(loader, s, step) && step != Rejection(id)
    requires step.Response? && step.id == id ==> !Aligned(loader, s.flights[id], step.answer)
    ensures var t := Apply(loader, s, step); var attempt := s.flights[id].attempt;
            if !(step.Response? && step.id == id) then id in t.flights && t.flights[id].attempt == attempt
            else if attempt + 1 < Readbacks(loader) then id in t.flights && t.flights[id].attempt == attempt + 1
            else id !in t.flights && t.panel == Failing(s.panel)
  {
    assert id == s.panel.generation;
  }

  /** A live request that gets no aligned answer is answered three times at most, once for the overview; the last of these answers shows the error. */
  lemma {:induction false} GivesUp(loader: Loader, s: System, id: nat, steps: seq<Step>, t: System)
    requires Inv(loader, s) && id in s.flights && s.flights[id].attempt < Readbacks(loader)
    requires Misses(loader, s, id, steps, t)
    ensures Readbacks(loader) == if loader.OverviewLoader? then 1 else 3
    ensures var answers := s.flights[id].attempt + AnswersTo(id, steps);
            && answers <= Readbacks(loader)
            && (answers < Readbacks(loader) ==> id in t.flights && t.flights[id].attempt == answers)
            && (answers == Readbacks(loader) ==>
                  id !in t.flights && t.panel.failed && !t.panel.loading && t.panel.shown.None?)
    decreases |steps|
  {
    if steps != [] {
      var u := Apply(loader, s, steps[0]);
      assert FlightOk(loader, s, id);
      OneMiss(loader, s, id, steps[0]);
      StepKeepsInv(loader, s, steps[0]);
      if id in u.flights {
        GivesUp(loader, u, id, steps[1..], t);
      } else {
        GoneEndsMisses(loader, u, id, steps[1..], t);
      }
    }
  }

  lemma GoneEndsMisses(loader: Loader, s: System, id: nat, steps: seq<Step>, t: System)
    requires id !in s.flights && Misses(loader, s, id, steps, t)
    ensures steps == [] && s == t
  {}

  /** The record pane of the Infrastructure tree, with the properties it was last rendered with. */
  class RecordPane {
    var recordLoadId: nat
    var record: Option<Key>
    var recordSequence: nat
    var recordError: bool
    var isRecordLoading: bool
    var selectedEntityId: Option<Key>
    var eventSequence: nat

    function View(): Panel
      reads this
    {
      Panel(selectedEntityId, eventSequence, recordLoadId,
            if record.Some? then Some(Answer(record.value, recordSequence)) else None, isRecordLoading, recordError)
    }

    constructor ()
      ensures View() == INITIAL.panel
    {
      recordLoadId, record, recordSequence, recordError, isRecordLoading := 0, None, 0, false, false;
      selectedEntityId, eventSequence := None, 0;
    }

    method Clear()
      modifies this`record, this`recordSequence, this`recordError
      ensures record == None && recordSequence == 0 && !recordError
    {
      record := None;
      recordSequence := 0;
      recordError := false;
    }

    // The synchronous beginning of `loadRecord`.
    method BeginLoad() returns (loadId: nat)
      modifies this
      ensures View() == Begun(RecordLoader, old(View())) && loadId == recordLoadId
      ensures selectedEntityId == old(selectedEntityId) && eventSequence == old(eventSequence)
    {
      recordLoadId := recordLoadId + 1;
      loadId := recordLoadId;
      isRecordLoading := true;
      Clear();
    }

    method Render(selected: Option<Key>, sequence: nat, ghost s: System)
      requires s.panel == View()
      modifies this`selectedEntityId, this`eventSequence
      ensures View() == RenderedWith(RecordLoader, s, selected, sequence).panel
    {
      selectedEntityId := selected;
      eventSequence := sequence;
    }

    method Show(sequence: nat)
      requires selectedEntityId.Some?
      modifies this
      ensures View() == Cleared(old(View())).(shown := Some(Answer(old(selectedEntityId).value, sequence)))
    {
      recordLoadId := recordLoadId + 1;
      Clear();
      record := selectedEntityId;
      recordSequence := sequence;
      isRecordLoading := false;
    }

    // The effect; the cleanup of its last run has already aborted that run's request.
    method RunEffect(cached: Option<nat>, ghost s: System) returns (loads: bool, loadId: nat)
      requires s.panel == View()
      modifies this
      ensures View() == EffectRun(RecordLoader, s, cached).panel
      ensures loads <==> selectedEntityId.Some? && cached != Some(eventSequence)
      ensures loads ==> loadId == recordLoadId
    {
      loads, loadId := false, 0;
      if selectedEntityId.None? {
        recordLoadId := recordLoadId + 1;
        Clear();
        isRecordLoading := false;
      } else if cached == Some(eventSequence) {
        Show(eventSequence);
      } else {
        loadId := BeginLoad();
        loads := true;
      }
    }

    // One answer inside the loop of `loadRecord`; `again` asks for another readback.
    method TakeAnswer(loadId: nat, f: Flight, answer: Answer, ghost s: System) returns (again: bool)
      requires s.panel == View() && loadId in s.flights && s.flights[loadId] == f
      modifies this
      ensures var t := Answered(RecordLoader, s, loadId, answer);
              View() == t.panel && (again <==> loadId in t.flights)
    {
      again := false;
      if f.aborted || loadId != recordLoadId {
        return;
      }
      if answer.sequence == f.expected {
        record := Some(answer.key);
        recordSequence := answer.sequence;
        isRecordLoading := false;
      } else if f.attempt + 1 < ATTEMPTS {
        again := true;
      } else {
        Catch(loadId, f, s);
      }
    }

    // The `catch` of `loadRecord`, with its `finally`.
    method Catch(loadId: nat, f: Flight, ghost s: System)
      requires s.panel == View() && loadId in s.flights && s.flights[loadId] == f
      modifies this
      ensures View() == Rejected(RecordLoader, s, loadId).panel
    {
      if f.aborted || loadId != recordLoadId {
        return;
      }
      Clear();
      recordError := true;
      isRecordLoading := false;
    }
  }
}
