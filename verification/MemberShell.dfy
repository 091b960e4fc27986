/** The client side of canonical snapshot synchronisation. */
module MemberShell {
  import opened Wrappers
  import opened Lists

  // The refs and the state of `CanonicalMemberShell`, and the synchronous segments that run
  // between two `await`s. The first half specifies every segment as a function on `Client`
  // values; the class at the end updates the fields one by one, as the component does, and is
  // proved against them.

  type OrgId = string

  datatype SyncState = Connecting | Connected | Disconnected

  // `event_sequence` of a conversation message is null for messages outside the event log.
  datatype Message = Message(id: string, eventSequence: Option<nat>)

  // What a canonical surface on screen shows: whose data, and at which event sequence.
  datatype Surface = Surface(org: OrgId, sequence: nat)

  datatype Client = Client(
    activeOrganization: OrgId,
    generation: nat,
    aligned: Option<nat>,
    pending: Option<nat>,
    eventRefreshOrganization: Option<OrgId>,
    portfolio: Option<Surface>,
    hierarchy: Option<Surface>,
    projection: Option<Surface>,
    preferences: Option<OrgId>,
    messages: seq<Message>,
    syncState: SyncState,
    isLoading: bool,
    hasError: bool)

  function InitialClient(org: OrgId): Client {
    Client(org, 0, None, None, None, None, None, None, None, [], Connecting, true, false)
  }

  predicate IsCurrent(c: Client, generation: nat, org: OrgId, aborted: bool) {
    !aborted && generation == c.generation && org == c.activeOrganization
  }

  // The synchronous head of `refreshWorkspace`, after the test that the organisation is not empty.
  function BeginRefresh(c: Client): Client {
    c.(generation := c.generation + 1, hasError := false, isLoading := true, syncState := Connecting)
  }

  predicate VisibleAt(m: Message, sequence: nat) {
    m.eventSequence.None? || m.eventSequence.value <= sequence
  }

  function IsVisibleAt(sequence: nat): Message -> bool {
    (m: Message) => VisibleAt(m, sequence)
  }

  function VisibleMessages(messages: seq<Message>, sequence: nat): (visible: seq<Message>)
    ensures forall m :: m in visible <==> m in messages && VisibleAt(m, sequence)
  {
    FilterElements(IsVisibleAt(sequence), messages);
    Filter(IsVisibleAt(sequence), messages)
  }

  // What is shown of a conversation: the messages outside the event log and those not beyond the
  // snapshot, each where it stands, in order.
  ghost predicate ShownOf(messages: seq<Message>, sequence: nat, visible: seq<Message>) {
    exists at :: ShownAt(messages, sequence, at, visible)
  }

  ghost predicate ShownAt(messages: seq<Message>, sequence: nat, at: seq<nat>, visible: seq<Message>) {
    && Increasing(at) && StandsAt(messages, at, visible)
    && forall k: nat :: k in at <==>
         k < |messages| && match messages[k].eventSequence case None => true case Some(event) => event <= sequence
  }

  lemma VisibleMessagesAreShown(messages: seq<Message>, sequence: nat)
    ensures ShownOf(messages, sequence, VisibleMessages(messages, sequence))
  {
    var at := FilterPicks(IsVisibleAt(sequence), messages);
    assert ShownAt(messages, sequence, at, VisibleMessages(messages, sequence));
  }

  // The setters after the last check; there is no `await` between that check and these.
  // In graph mode the projection and the preferences are set first.
  function Commit(c: Client, org: OrgId, sequence: nat, graphMode: bool, messages: seq<Message>): Client {
    var pending := if c.pending.Some? && sequence >= c.pending.value then None else c.pending;
    c.(portfolio := Some(Surface(org, sequence)),
       hierarchy := Some(Surface(org, sequence)),
       projection := if graphMode then Some(Surface(org, sequence)) else c.projection,
       preferences := if graphMode then Some(org) else c.preferences,
       aligned := Some(sequence),
       pending := pending,
       messages := VisibleMessages(messages, sequence),
       syncState := if pending.None? then Connected else Connecting,
       isLoading := false)
  }

  // The `catch` and `finally` blocks of a refresh that is still current.
  function FailRefresh(c: Client, abortError: bool): Client {
    if abortError then c.(isLoading := false)
    else c.(hasError := true, syncState := Disconnected, isLoading := false)
  }

  function RaisePending(c: Client, next: nat): Client {
    c.(pending := Some(Max(c.pending.GetOr(0), next)), syncState := Connecting)
  }

  // `refreshPendingEvents` starts a refresh exactly when this holds.
  predicate EventRefreshStarts(c: Client, org: OrgId) {
    c.pending.Some? && c.eventRefreshOrganization != Some(org)
  }

  function ClaimEventRefresh(c: Client, org: OrgId): Client {
    if EventRefreshStarts(c, org) then c.(eventRefreshOrganization := Some(org)) else c
  }

  // A poll without events asks for a refresh unless the snapshot already covers `next`.
  predicate PollFindsGap(c: Client, next: nat) {
    c.pending.Some? || c.aligned.None? || next > c.aligned.value
  }

  function ReleaseEventRefresh(c: Client, org: OrgId): Client {
    if c.eventRefreshOrganization == Some(org) then c.(eventRefreshOrganization := None) else c
  }

  function SwitchOrganization(c: Client, org: OrgId): Client {
    InitialClient(org).(generation := c.generation + 1)
  }

  class CanonicalMemberShell {
    var activeOrganizationRef: OrgId
    var refreshGenerationRef: nat
    var alignedEventSequenceRef: Option<nat>
    var pendingEventSequenceRef: Option<nat>
    var eventRefreshOrganizationRef: Option<OrgId>
    var portfolio: Option<Surface>
    var hierarchy: Option<Surface>
    var graphProjection: Option<Surface>
    var graphPreferences: Option<OrgId>
    var conversationMessages: seq<Message>
    var syncState: SyncState
    var isLoading: bool
    var hasWorkspaceError: bool

    function View(): Client
      reads this
    {
      Client(activeOrganizationRef, refreshGenerationRef, alignedEventSequenceRef, pendingEventSequenceRef,
             eventRefreshOrganizationRef, portfolio, hierarchy, graphProjection, graphPreferences,
             conversationMessages, syncState, isLoading, hasWorkspaceError)
    }

    constructor (organization: OrgId)
      ensures View() == InitialClient(organization)
    {
      activeOrganizationRef, refreshGenerationRef := organization, 0;
      alignedEventSequenceRef, pendingEventSequenceRef, eventRefreshOrganizationRef := None, None, None;
      portfolio, hierarchy, graphProjection, graphPreferences := None, None, None, None;
      conversationMessages, syncState, isLoading, hasWorkspaceError := [], Connecting, true, false;
    }

    // Returns the generation of the new refresh, or None when no organisation is selected.
    method RefreshWorkspace(organizationId: OrgId) returns (generation: Option<nat>)
      modifies this
      ensures organizationId == "" ==> generation == None && View() == old(View())
      ensures organizationId != "" ==>
        View() == BeginRefresh(old(View())) && generation == Some(View().generation)
    {
      if organizationId == "" { return None; }
      refreshGenerationRef := refreshGenerationRef + 1;
      hasWorkspaceError := false;
      isLoading := true;
      syncState := Connecting;
      return Some(refreshGenerationRef);
    }

    method ShowSurfaces(organizationId: OrgId, accepted: nat, graphMode: bool)
      modifies `portfolio, `hierarchy, `graphProjection, `graphPreferences
      ensures portfolio == hierarchy == Some(Surface(organizationId, accepted))
      ensures graphProjection == if graphMode then portfolio else old(graphProjection)
      ensures graphPreferences == if graphMode then Some(organizationId) else old(graphPreferences)
    {
      if graphMode {
        graphProjection := Some(Surface(organizationId, accepted));
        graphPreferences := Some(organizationId);
      }
      portfolio := Some(Surface(organizationId, accepted));
      hierarchy := Some(Surface(organizationId, accepted));
    }

    method AlignTo(accepted: nat)
      modifies `alignedEventSequenceRef, `pendingEventSequenceRef
      ensures alignedEventSequenceRef == Some(accepted)
      ensures pendingEventSequenceRef ==
        if old(pendingEventSequenceRef).Some? && accepted >= old(pendingEventSequenceRef).value
        then None else old(pendingEventSequenceRef)
    {
      alignedEventSequenceRef := Some(accepted);
      if pendingEventSequenceRef.Some? && accepted >= pendingEventSequenceRef.value {
        pendingEventSequenceRef := None;
      }
    }

    method FinishRefresh(generation: nat, organizationId: OrgId, aborted: bool, accepted: nat, graphMode: bool,
                         messages: seq<Message>)
      modifies this
      ensures IsCurrent(old(View()), generation, organizationId, aborted) ==>
        View() == Commit(old(View()), organizationId, accepted, graphMode, messages)
      ensures !IsCurrent(old(View()), generation, organizationId, aborted) ==> View() == old(View())
    {
      if aborted || generation != refreshGenerationRef || organizationId != activeOrganizationRef { return; }
      ShowSurfaces(organizationId, accepted, graphMode);
      AlignTo(accepted);
      conversationMessages := VisibleMessages(messages, accepted);
      syncState := if pendingEventSequenceRef == None then Connected else Connecting;
      isLoading := false;
    }

    method CatchRefresh(generation: nat, organizationId: OrgId, aborted: bool, abortError: bool)
      modifies this
      ensures View() ==
        if IsCurrent(old(View()), generation, organizationId, aborted)
        then FailRefresh(old(View()), abortError)
        else old(View())
    {
      var current := !aborted && generation == refreshGenerationRef && organizationId == activeOrganizationRef;
      if !abortError && current {
        hasWorkspaceError := true;
        syncState := Disconnected;
      }
      if current { isLoading := false; }
    }

    // `refreshPendingEvents`: the generation and minimum of the refresh it starts, if any.
    method RefreshPendingEvents(organizationId: OrgId) returns (started: Option<(nat, nat)>)
      requires organizationId != ""
      modifies this
      ensures started.Some? <==> EventRefreshStarts(old(View()), organizationId)
      ensures started.None? ==> View() == old(View())
      ensures started.Some? ==>
        View() == BeginRefresh(ClaimEventRefresh(old(View()), organizationId))
        && started.value == (View().generation, old(View()).pending.value)
    {
      if pendingEventSequenceRef == None || eventRefreshOrganizationRef == Some(organizationId) { return None; }
      eventRefreshOrganizationRef := Some(organizationId);
      var generation := RefreshWorkspace(organizationId);
      return Some((generation.value, pendingEventSequenceRef.value));
    }

    method OnEvents(subscribedOrganizationId: OrgId, nextSequence: nat) returns (started: Option<(nat, nat)>)
      requires subscribedOrganizationId != ""
      modifies this
      ensures activeOrganizationRef == old(activeOrganizationRef)
      ensures subscribedOrganizationId != old(activeOrganizationRef) ==> started.None? && View() == old(View())
      ensures subscribedOrganizationId == old(activeOrganizationRef) ==>
        var raised := RaisePending(old(View()), nextSequence);
        && (started.Some? <==> EventRefreshStarts(raised, subscribedOrganizationId))
        && View() == (if started.Some? then BeginRefresh(ClaimEventRefresh(raised, subscribedOrganizationId)) else raised)
        && (started.Some? ==> started.value == (View().generation, raised.pending.value))
    {
      if activeOrganizationRef != subscribedOrganizationId { return None; }
      pendingEventSequenceRef := Some(Max(pendingEventSequenceRef.GetOr(0), nextSequence));
      syncState := Connecting;
      started := RefreshPendingEvents(subscribedOrganizationId);
    }

    // `onPoll` for a response without events; one with events goes to `OnEvents` instead.
    method OnPoll(subscribedOrganizationId: OrgId, nextSequence: nat) returns (started: Option<(nat, nat)>)
      requires subscribedOrganizationId != ""
      modifies this
      ensures subscribedOrganizationId != old(activeOrganizationRef) ==> started.None? && View() == old(View())
      ensures subscribedOrganizationId == old(activeOrganizationRef) && !PollFindsGap(old(View()), nextSequence) ==>
        started.None? && View() == old(View()).(syncState := Connected)
      ensures subscribedOrganizationId == old(activeOrganizationRef) && PollFindsGap(old(View()), nextSequence) ==>
        var raised := RaisePending(old(View()), nextSequence);
        && (started.Some? <==> EventRefreshStarts(raised, subscribedOrganizationId))
        && View() == (if started.Some? then BeginRefresh(ClaimEventRefresh(raised, subscribedOrganizationId)) else raised)
        && (started.Some? ==> started.value == (View().generation, raised.pending.value))
    {
      if activeOrganizationRef != subscribedOrganizationId { return None; }
      if pendingEventSequenceRef != None
         || alignedEventSequenceRef == None
         || nextSequence > alignedEventSequenceRef.value
      {
        pendingEventSequenceRef := Some(Max(pendingEventSequenceRef.GetOr(0), nextSequence));
        syncState := Connecting;
        started := RefreshPendingEvents(subscribedOrganizationId);
        return;
      }
      syncState := Connected;
      started := None;
    }

    method ClearSurfaces()
      modifies `portfolio, `hierarchy, `graphProjection, `graphPreferences
      ensures portfolio == hierarchy == graphProjection == None && graphPreferences == None
    {
      portfolio := None;
      hierarchy := None;
      graphProjection := None;
      graphPreferences := None;
    }

    // `canonicalOrganizationSwitchPresentation` is the part of this that the member sees.
    method SelectOrganization(organization: OrgId)
      modifies this
      ensures View() == SwitchOrganization(old(View()), organization)
    {
      ForgetSequences();
      activeOrganizationRef := organization;
      refreshGenerationRef := refreshGenerationRef + 1;
      ClearSurfaces();
      conversationMessages := [];
      hasWorkspaceError := false;
      isLoading := true;
      syncState := Connecting;
    }

    method ForgetSequences()
      modifies `alignedEventSequenceRef, `pendingEventSequenceRef, `eventRefreshOrganizationRef
      ensures alignedEventSequenceRef == pendingEventSequenceRef == None && eventRefreshOrganizationRef == None
    {
      alignedEventSequenceRef := None;
      pendingEventSequenceRef := None;
      eventRefreshOrganizationRef := None;
    }
  }
}
