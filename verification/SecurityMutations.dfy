/** Idempotency keys of the account security mutations. */
module SecurityMutations {
  import opened Wrappers
  import opened Traces

  // The client keeps one key per intent until the outcome is definite; the service applies each
  // key once and answers a repeated key with the stored receipt, without the one-time material.
  // The network may lose, delay or repeat anything.

  datatype Intent =
    | RevokeSession(session: string) | RevokeAllSessions
    | Enroll | Confirm(factor: string) | StepUp | Regenerate | Remove(factor: string)

  // A random key; keys are numbered in the order in which they are minted.
  type Key = nat

  // ---------------------------------------------------------------- receipts

  datatype Receipt = Receipt(transition: string, recoveryAction: string)

  datatype Material =
    | Null
    | NotARecord
    | Record(factorId: Option<string>, secret: Option<string>, otpauthUri: Option<string>,
             codes: Option<seq<Option<string>>>)   // None: not an array; an element None: not a string

  datatype Payload = NotAnObject | Object(replayed: Option<bool>, receipt: Option<Receipt>, material: Material)

  // What an accepted receipt lets the page show.
  datatype Shown = Nothing | SetupKey(factorId: string, secret: string) | RecoveryCodes(codes: seq<string>)

  function Transition(intent: Intent): string {
    match intent
    case RevokeSession(_) => "REVOKE_ONE"
    case RevokeAllSessions => "REVOKE_ALL"
    case Enroll => "TOTP_ENROLL"
    case Confirm(_) => "TOTP_CONFIRM"
    case StepUp => "STEP_UP"
    case Regenerate => "RECOVERY_REGENERATE"
    case Remove(_) => "FACTOR_REVOKE"
  }

  predicate IsMfaMutation(p: Payload, transition: string) {
    && p.Object? && p.replayed.Some? && p.receipt.Some? && p.receipt.value.transition == transition
    && !p.material.NotARecord?
  }

  predicate ReplayedAs(p: Payload, recoveryAction: string)
    requires p.Object? && p.replayed.Some? && p.receipt.Some?
  {
    p.material.Null? && p.replayed.value && p.receipt.value.recoveryAction == recoveryAction
  }

  function CheckEnrollment(p: Payload): Result<Shown>
    requires p.Object? && p.replayed.Some? && p.receipt.Some?
  {
    if ReplayedAs(p, "BEGIN_NEW_ENROLLMENT") then Success(Nothing)
    else if !p.material.Record? || p.material.factorId.None? || p.material.secret.None? || p.material.otpauthUri.None?
      then Failure("The authenticator enrollment response was incomplete.")
    else Success(SetupKey(p.material.factorId.value, p.material.secret.value))
  }

  predicate AllCodes(codes: seq<Option<string>>) {
    forall c :: c in codes ==> c.Some? && c.value != ""
  }

  function Values(codes: seq<Option<string>>): seq<string>
    requires AllCodes(codes)
  {
    seq(|codes|, i requires 0 <= i < |codes| => codes[i].value)
  }

  function CheckRecoveryCodes(p: Payload): Result<Shown>
    requires p.Object? && p.replayed.Some? && p.receipt.Some?
  {
    if ReplayedAs(p, "REGENERATE_RECOVERY_CODES") then Success(Nothing)
    else if !p.material.Record? || p.material.codes.None? || |p.material.codes.value| == 0
            || !AllCodes(p.material.codes.value)
      then Failure("The one-time recovery code response was incomplete.")
    else Success(RecoveryCodes(Values(p.material.codes.value)))
  }

  // The check each mutation runs on its response before it counts as done.
  function Check(intent: Intent, p: Payload): Result<Shown> {
    if intent.RevokeSession? || intent.RevokeAllSessions? then
      if p.Object? && p.receipt.Some? && p.receipt.value.transition == Transition(intent)
      then Success(Nothing) else Failure("The session transition response did not match the requested action.")
    else if !IsMfaMutation(p, Transition(intent)) then
      Failure("The MFA transition response did not match the Phase 202 contract.")
    else if intent.Enroll? then CheckEnrollment(p)
    else if intent.Confirm? || intent.Regenerate? then CheckRecoveryCodes(p)
    else Success(Nothing)
  }

  // The receipt names the transition that was asked for.
  predicate NamesTransition(intent: Intent, transition: string) {
    && (intent.RevokeSession? ==> transition == "REVOKE_ONE")
    && (intent.RevokeAllSessions? ==> transition == "REVOKE_ALL")
    && (intent.Enroll? ==> transition == "TOTP_ENROLL")
    && (intent.Confirm? ==> transition == "TOTP_CONFIRM")
    && (intent.StepUp? ==> transition == "STEP_UP")
    && (intent.Regenerate? ==> transition == "RECOVERY_REGENERATE")
    && (intent.Remove? ==> transition == "FACTOR_REVOKE")
  }

  // What an accepted response shows is what it holds: the factor and the secret of an enrollment, each in its
  // place, and all recovery codes in their order; and nothing only where there is nothing to show.
  predicate ShowsMaterial(intent: Intent, p: Payload, shown: Shown)
    requires p.Object?
  {
    match shown
    case SetupKey(factorId, secret) =>
      && intent.Enroll? && p.material.Record? && p.material.otpauthUri.Some?
      && p.material.factorId == Some(factorId) && p.material.secret == Some(secret)
    case RecoveryCodes(codes) =>
      && (intent.Confirm? || intent.Regenerate?) && p.material.Record? && p.material.codes.Some?
      && codes != [] && |codes| == |p.material.codes.value|
      && forall i :: 0 <= i < |codes| ==> codes[i] != "" && p.material.codes.value[i] == Some(codes[i])
    case Nothing =>
      intent.Enroll? || intent.Confirm? || intent.Regenerate? ==> p.material.Null? && p.replayed == Some(true)
  }

  // A replay that offers the way to new material.
  predicate Replay(p: Payload, recoveryAction: string) {
    p.Object? && p.material.Null? && p.replayed == Some(true) && p.receipt.Some?
    && p.receipt.value.recoveryAction == recoveryAction
  }

  predicate CompleteEnrollment(m: Material) {
    m.Record? && m.factorId.Some? && m.secret.Some? && m.otpauthUri.Some?
  }

  predicate CompleteCodes(m: Material) {
    m.Record? && m.codes.Some? && m.codes.value != []
    && forall i :: 0 <= i < |m.codes.value| ==> m.codes.value[i] !in {None, Some("")}
  }

  // What the page accepts as the answer to a mutation: a receipt of that transition, and for the mutations with
  // one-time material either such a replay or the complete material.
  predicate Acceptable(intent: Intent, p: Payload) {
    && p.Object? && p.receipt.Some? && NamesTransition(intent, p.receipt.value.transition)
    && (!intent.RevokeSession? && !intent.RevokeAllSessions? ==> p.replayed.Some? && !p.material.NotARecord?)
    && (intent.Enroll? ==> Replay(p, "BEGIN_NEW_ENROLLMENT") || CompleteEnrollment(p.material))
    && (intent.Confirm? || intent.Regenerate? ==> Replay(p, "REGENERATE_RECOVERY_CODES") || CompleteCodes(p.material))
  }

  lemma EnrollmentExactly(p: Payload)
    requires p.Object? && p.replayed.Some? && p.receipt.Some?
    ensures CheckEnrollment(p).Success? <==> Replay(p, "BEGIN_NEW_ENROLLMENT") || CompleteEnrollment(p.material)
    ensures CheckEnrollment(p).Success? ==> ShowsMaterial(Enroll, p, CheckEnrollment(p).value)
  {}

  lemma RecoveryCodesExactly(intent: Intent, p: Payload)
    requires p.Object? && p.replayed.Some? && p.receipt.Some? && (intent.Confirm? || intent.Regenerate?)
    ensures CheckRecoveryCodes(p).Success? <==> Replay(p, "REGENERATE_RECOVERY_CODES") || CompleteCodes(p.material)
    ensures CheckRecoveryCodes(p).Success? ==> ShowsMaterial(intent, p, CheckRecoveryCodes(p).value)
  {
    if p.material.Record? && p.material.codes.Some? {
      var codes := p.material.codes.value;
      if AllCodes(codes) {
        forall i | 0 <= i < |codes| ensures codes[i] !in {None, Some("")} { assert codes[i] in codes; }
      }
    }
  }

  lemma TransitionIsNamed(intent: Intent, transition: string)
    ensures transition == Transition(intent) <==> NamesTransition(intent, transition)
  {}

  lemma SessionExactly(intent: Intent, p: Payload)
    requires intent.RevokeSession? || intent.RevokeAllSessions?
    ensures Check(intent, p).Success? ==> Check(intent, p).value == Nothing
    ensures Check(intent, p).Success? <==> Acceptable(intent, p)
  {
    if p.Object? && p.receipt.Some? { TransitionIsNamed(intent, p.receipt.value.transition); }
  }

  lemma MfaExactly(intent: Intent, p: Payload)
    requires !intent.RevokeSession? && !intent.RevokeAllSessions?
    ensures IsMfaMutation(p, Transition(intent)) <==>
      && p.Object? && p.replayed.Some? && p.receipt.Some? && NamesTransition(intent, p.receipt.value.transition)
      && !p.material.NotARecord?
  {
    if p.Object? && p.receipt.Some? { TransitionIsNamed(intent, p.receipt.value.transition); }
  }

  // Exactly the acceptable answers are accepted, and what they show is what they hold.
  lemma AcceptedExactly(intent: Intent, p: Payload)
    ensures Check(intent, p).Success? <==> Acceptable(intent, p)
    ensures Check(intent, p).Success? ==> ShowsMaterial(intent, p, Check(intent, p).value)
  {
    if intent.RevokeSession? || intent.RevokeAllSessions? {
      SessionExactly(intent, p);
    } else {
      MfaExactly(intent, p);
      if IsMfaMutation(p, Transition(intent)) {
        if intent.Enroll? {
          EnrollmentExactly(p);
        } else if intent.Confirm? || intent.Regenerate? {
          RecoveryCodesExactly(intent, p);
        }
      }
    }
  }

  function RecoveryAction(intent: Intent): string {
    if intent.Enroll? then "BEGIN_NEW_ENROLLMENT"
    else if intent.Confirm? || intent.Regenerate? then "REGENERATE_RECOVERY_CODES"
    else ""
  }

  // What the service answers: fresh material the first time, only the receipt afterwards.
  function Answer(intent: Intent, first: bool, material: Material): Payload {
    Object(Some(!first), Some(Receipt(Transition(intent), RecoveryAction(intent))), if first then material else Null)
  }

  // A replayed receipt passes every check and shows nothing; material is shown from a first answer only.
  lemma OnlyFirstAnswersShow(intent: Intent, first: bool, material: Material)
    ensures !first ==> Check(intent, Answer(intent, first, material)) == Success(Nothing)
    ensures Check(intent, Answer(intent, first, material)) != Success(Nothing) ==> first
    ensures var result := Check(intent, Answer(intent, first, material));
      result.Success? && result.value != Nothing ==> material.Record?
  {}

  // ---------------------------------------------------------------- the client

  datatype Client = Client(keys: map<Intent, Key>, busy: bool)

  predicate DefiniteFailure(status: int) {
    400 <= status < 500 && status != 408
  }

  // `mutationHeaders`: the key of the intent, minted if there is none.
  function KeyFor(c: Client, intent: Intent, newKey: Key): Key {
    if intent in c.keys then c.keys[intent] else newKey
  }

  function WithKey(c: Client, intent: Intent, newKey: Key): Client {
    c.(keys := c.keys[intent := KeyFor(c, intent, newKey)])
  }

  function Complete(c: Client, intent: Intent): Client {
    c.(keys := c.keys - {intent})
  }

  function Reconcile(c: Client, intent: Intent, status: int): Client {
    if DefiniteFailure(status) then Complete(c, intent) else c
  }

  // A failure takes the key away exactly for the statuses that say the request was not carried out.
  lemma ReconcileExactly(c: Client, intent: Intent, status: int, other: Intent)
    ensures intent in Reconcile(c, intent, status).keys <==>
      intent in c.keys && !(400 <= status && status <= 499 && status != 408)
    ensures other != intent ==> (other in Reconcile(c, intent, status).keys <==> other in c.keys)
    ensures other in Reconcile(c, intent, status).keys ==> Reconcile(c, intent, status).keys[other] == c.keys[other]
    ensures Reconcile(c, intent, status).busy == c.busy
  {}

  class MutationKeys {
    var mutationKeysRef: map<Intent, Key>
    var actionInFlightRef: bool

    function View(): Client
      reads this
    {
      Client(mutationKeysRef, actionInFlightRef)
    }

    constructor ()
      ensures View() == Client(map[], false)
    {
      mutationKeysRef, actionInFlightRef := map[], false;
    }

    method BeginAction() returns (started: bool)
      modifies `actionInFlightRef
      ensures started == !old(actionInFlightRef) && actionInFlightRef
    {
      if actionInFlightRef { return false; }
      actionInFlightRef := true;
      return true;
    }

    method FinishAction()
      modifies `actionInFlightRef
      ensures View() == Finished(old(View()))
    {
      actionInFlightRef := false;
    }

    method MutationHeaders(intent: Intent, randomKey: Key) returns (key: Key)
      modifies `mutationKeysRef
      ensures View() == WithKey(old(View()), intent, randomKey)
      ensures key == KeyFor(old(View()), intent, randomKey) && mutationKeysRef[intent] == key
    {
      if intent in mutationKeysRef {
        key := mutationKeysRef[intent];
      } else {
        key := randomKey;
        mutationKeysRef := mutationKeysRef[intent := key];
      }
    }

    method CompleteMutation(intent: Intent)
      modifies `mutationKeysRef
      ensures View() == Complete(old(View()), intent)
    {
      mutationKeysRef := mutationKeysRef - {intent};
    }

    // `status`: None for anything that is not an `ApiError`.
    method ReconcileMutationFailure(intent: Intent, status: Option<int>)
      modifies `mutationKeysRef
      ensures View() == if status.Some? then Reconcile(old(View()), intent, status.value) else old(View())
    {
      if status.Some? && status.value >= 400 && status.value < 500 && status.value != 408 {
        mutationKeysRef := mutationKeysRef - {intent};
      }
    }
  }

  // ---------------------------------------------------------------- the protocol

  datatype Call = Call(attempt: nat, intent: Intent, key: Key)

  datatype Reply = Answered(call: Call, payload: Payload) | Refused(call: Call, status: int)

  // The history fields record what happened: which intent each key was minted for, the effects the
  // service had in order, how each key was settled, and for which keys material was shown.
  datatype System = System(
    client: Client, waiting: Option<Call>, attempts: nat, left: bool,
    sent: set<Call>, replies: set<Reply>,
    mintedFor: seq<Intent>, effects: seq<Key>, succeeded: set<Key>, dropped: set<Key>, shown: seq<Key>)

  datatype Step =
    | Click(intent: Intent)
    | Serve(call: Call, material: Material)      // the service handles a request, perhaps a late or repeated one
    | Refuse(call: Call, status: int)            // it answers with an error and does nothing
    | Deliver(reply: Reply)
    | Garbled(payload: Payload)                  // a response that fails its check
    | NoAnswer(failure: Option<int>)             // timeout 408, unreachable 503, or an abort
    | Finish                                     // readbacks done, the page accepts the next action

  predicate Init(s: System) {
    s == System(Client(map[], false), None, 0, false, {}, {}, [], [], {}, {}, [])
  }

  predicate Enabled(s: System, step: Step) {
    match step
    case Click(_) => true
    case Serve(call, _) => call in s.sent
    case Refuse(call, status) => call in s.sent && !(200 <= status < 300)
    case Deliver(reply) => reply in s.replies && s.waiting == Some(reply.call)
    case Garbled(payload) => s.waiting.Some? && Check(s.waiting.value.intent, payload).Failure?
    case NoAnswer(status) => s.waiting.Some? && (status.Some? ==> status.value == 408 || status.value == 503)
    case Finish => s.client.busy && s.waiting.None? && !s.left
  }

  function Finished(c: Client): Client {
    c.(busy := false)
  }

  function ClickOn(s: System, intent: Intent): System {
    if s.client.busy then s
    else
      var newKey := |s.mintedFor|;
      var call := Call(s.attempts, intent, KeyFor(s.client, intent, newKey));
      s.(client := WithKey(s.client, intent, newKey).(busy := true),
         waiting := Some(call), attempts := s.attempts + 1, sent := s.sent + {call},
         mintedFor := if intent in s.client.keys then s.mintedFor else s.mintedFor + [intent])
  }

  function Handle(s: System, call: Call, material: Material): System {
    var first := call.key !in s.effects;
    s.(effects := if first then s.effects + [call.key] else s.effects,
       replies := s.replies + {Answered(call, Answer(call.intent, first, material))})
  }

  // `completeMutation` after an accepted receipt. Signing out everywhere leaves the page.
  function Succeed(s: System, call: Call, shows: Shown): System {
    s.(client := Complete(s.client, call.intent), waiting := None, left := s.left || call.intent.RevokeAllSessions?,
       succeeded := s.succeeded + {call.key},
       shown := if shows == Nothing then s.shown else s.shown + [call.key])
  }

  function Fail(s: System, call: Call, status: Option<int>): System {
    if status.Some? && DefiniteFailure(status.value)
    then s.(client := Reconcile(s.client, call.intent, status.value), waiting := None, dropped := s.dropped + {call.key})
    else s.(waiting := None)
  }

  function Take(s: System, reply: Reply): System {
    match reply
    case Answered(call, payload) =>
      var result := Check(call.intent, payload);
      if result.Success? then Succeed(s, call, result.value) else Fail(s, call, None)
    case Refused(call, status) => Fail(s, call, Some(status))
  }

  function Apply(s: System, step: Step): System
    requires Enabled(s, step)
  {
    match step
    case Click(intent) => ClickOn(s, intent)
    case Serve(call, material) => Handle(s, call, material)
    case Refuse(call, status) => s.(replies := s.replies + {Refused(call, status)})
    case Deliver(reply) => Take(s, reply)
    case Garbled(_) => Fail(s, s.waiting.value, None)
    case NoAnswer(status) => Fail(s, s.waiting.value, status)
    case Finish => s.(client := Finished(s.client))
  }

  ghost predicate Run(states: seq<System>, steps: seq<Step>) {
    && |states| == |steps| + 1
    && Init(states[0])
    && forall i :: 0 <= i < |steps| ==> Enabled(states[i], steps[i]) && states[i + 1] == Apply(states[i], steps[i])
  }

  // ---------------------------------------------------------------- the invariant

  // A minted key is in use, or it was settled one way.
  predicate KeyOk(s: System, k: Key) {
    k < |s.mintedFor| ==>
      var live := s.mintedFor[k] in s.client.keys && s.client.keys[s.mintedFor[k]] == k;
      && (live <==> k !in s.succeeded && k !in s.dropped)
      && !(k in s.succeeded && k in s.dropped)
  }

  ghost predicate KeysOk(s: System) {
    && (forall k: Key :: KeyOk(s, k))
    && (forall i :: i in s.client.keys ==> s.client.keys[i] < |s.mintedFor| && s.mintedFor[s.client.keys[i]] == i)
  }

  predicate Minted(s: System, call: Call) {
    call.key < |s.mintedFor| && s.mintedFor[call.key] == call.intent
  }

  ghost predicate WireOk(s: System) {
    && (forall call :: call in s.sent ==> Minted(s, call))
    && (forall r :: r in s.replies ==> Minted(s, r.call) && (r.Answered? ==> r.call.key in s.effects))
    && (s.waiting.Some? ==>
          var call := s.waiting.value;
          Minted(s, call) && call.intent in s.client.keys && s.client.keys[call.intent] == call.key)
    && (s.waiting.Some? ==> s.client.busy)
  }

  ghost predicate NoRepeats(keys: seq<Key>) {
    forall i, j :: 0 <= i < j < |keys| ==> keys[i] != keys[j]
  }

  ghost predicate LedgerOk(s: System) {
    && NoRepeats(s.effects)
    && NoRepeats(s.shown)
    && (forall k :: k in s.effects ==> k < |s.mintedFor|)
    && (forall k :: k in s.succeeded ==> k < |s.mintedFor| && k in s.effects)
    && (forall k :: k in s.dropped ==> k < |s.mintedFor|)
    && (forall k :: k in s.shown ==> k in s.succeeded)
  }

  ghost predicate Inv(s: System) {
    KeysOk(s) && WireOk(s) && LedgerOk(s)
  }

  lemma ClickKeepsInv(s: System, intent: Intent)
    requires Inv(s)
    ensures Inv(ClickOn(s, intent))
  {
    var t := ClickOn(s, intent);
    if !s.client.busy {
      assert KeyOk(s, KeyFor(s.client, intent, |s.mintedFor|));
      forall k: Key ensures KeyOk(t, k) { assert KeyOk(s, k); }
      forall call | call in t.sent ensures Minted(t, call) { assert call in s.sent ==> Minted(s, call); }
      forall r | r in t.replies ensures Minted(t, r.call) { assert Minted(s, r.call); }
    }
  }

  lemma HandleKeepsInv(s: System, call: Call, material: Material)
    requires Inv(s) && call in s.sent
    ensures Inv(Handle(s, call, material))
  {
    var t := Handle(s, call, material);
    assert Minted(s, call);
    forall k: Key ensures KeyOk(t, k) { assert KeyOk(s, k); }
    forall c | c in t.sent ensures Minted(t, c) { assert Minted(s, c); }
    forall r | r in t.replies ensures Minted(t, r.call) && (r.Answered? ==> r.call.key in t.effects) {
      assert r in s.replies || r.call == call;
    }
  }

  // Settling the key of the waiting call, either way.
  lemma SettleKeepsInv(s: System, t: System, call: Call)
    requires Inv(s) && s.waiting == Some(call)
    requires t.client == Complete(s.client, call.intent) && t.waiting == None && t.mintedFor == s.mintedFor
    requires t.sent == s.sent && t.replies == s.replies && t.effects == s.effects
    requires (t.succeeded == s.succeeded + {call.key} && t.dropped == s.dropped && call.key in s.effects
              && (t.shown == s.shown || t.shown == s.shown + [call.key]))
          || (t.succeeded == s.succeeded && t.dropped == s.dropped + {call.key} && t.shown == s.shown)
    ensures Inv(t)
  {
    assert KeyOk(s, call.key) && Minted(s, call);
    forall k: Key ensures KeyOk(t, k) { assert KeyOk(s, k); }
    forall c | c in t.sent ensures Minted(t, c) { assert Minted(s, c); }
    forall r | r in t.replies ensures Minted(t, r.call) { assert Minted(s, r.call); }
  }

  lemma FailKeepsInv(s: System, status: Option<int>)
    requires Inv(s) && s.waiting.Some?
    ensures Inv(Fail(s, s.waiting.value, status))
  {
    var t := Fail(s, s.waiting.value, status);
    if status.Some? && DefiniteFailure(status.value) {
      SettleKeepsInv(s, t, s.waiting.value);
    } else {
      UnchangedKeepsInv(s, t);
    }
  }

  // Only the flags of the page, or the set of replies, changed.
  lemma UnchangedKeepsInv(s: System, t: System)
    requires Inv(s)
    requires t.client.keys == s.client.keys && t.mintedFor == s.mintedFor && t.sent == s.sent
    requires t.effects == s.effects && t.succeeded == s.succeeded && t.dropped == s.dropped && t.shown == s.shown
    requires t.waiting.None? || (t.waiting == s.waiting && t.client.busy == s.client.busy)
    requires forall r :: r in t.replies && r !in s.replies ==> r.Refused? && r.call in s.sent
    ensures Inv(t)
  {
    forall k: Key ensures KeyOk(t, k) { assert KeyOk(s, k); }
    forall c | c in t.sent ensures Minted(t, c) { assert Minted(s, c); }
    forall r | r in t.replies ensures Minted(t, r.call) { assert r in s.replies || Minted(s, r.call); }
  }

  lemma DeliverKeepsInv(s: System, reply: Reply)
    requires Inv(s) && Enabled(s, Deliver(reply))
    ensures Inv(Take(s, reply))
  {
    match reply
    case Answered(call, payload) =>
      if Check(call.intent, payload).Success? {
        SettleKeepsInv(s, Take(s, reply), call);
      } else {
        FailKeepsInv(s, None);
      }
    case Refused(call, status) => FailKeepsInv(s, Some(status));
  }

  lemma StepKeepsInv(s: System, step: Step)
    requires Inv(s) && Enabled(s, step)
    ensures Inv(Apply(s, step))
  {
    match step
    case Click(intent) => ClickKeepsInv(s, intent);
    case Serve(call, material) => HandleKeepsInv(s, call, material);
    case Refuse(_, _) => UnchangedKeepsInv(s, Apply(s, step));
    case Deliver(reply) => DeliverKeepsInv(s, reply);
    case Garbled(_) => FailKeepsInv(s, None);
    case NoAnswer(status) => FailKeepsInv(s, status);
    case Finish => UnchangedKeepsInv(s, Apply(s, step));
  }

  lemma {:induction false} EveryStateIsGood(states: seq<System>, steps: seq<Step>, n: nat)
    requires Run(states, steps) && n <= |steps|
    ensures Inv(states[n])
  {
    if n > 0 {
      EveryStateIsGood(states, steps, n - 1);
      StepKeepsInv(states[n - 1], steps[n - 1]);
    }
  }

  // ---------------------------------------------------------------- what it guarantees

  lemma {:induction false} CountOnce(keys: seq<Key>, k: Key)
    requires NoRepeats(keys)
    ensures multiset(keys)[k] == if k in keys then 1 else 0
  {
    if keys != [] {
      CountOnce(keys[1..], k);
      assert keys == [keys[0]] + keys[1..];
    }
  }

  // Over any run, a key has at most one effect and shows its material at most once, and a reported
  // success means exactly one application of that key.
  lemma KeysActOnce(states: seq<System>, steps: seq<Step>, n: nat, k: Key)
    requires Run(states, steps) && n <= |steps|
    ensures multiset(states[n].effects)[k] <= 1
    ensures multiset(states[n].shown)[k] <= 1
    ensures k in states[n].succeeded ==> multiset(states[n].effects)[k] == 1
  {
    EveryStateIsGood(states, steps, n);
    CountOnce(states[n].effects, k);
    CountOnce(states[n].shown, k);
  }

  lemma MintingSettles(s: System, step: Step, j: Key)
    requires Inv(s) && Enabled(s, step) && j < |s.mintedFor|
    ensures s.mintedFor <= Apply(s, step).mintedFor && |Apply(s, step).mintedFor| <= |s.mintedFor| + 1
    ensures |s.mintedFor| < |Apply(s, step).mintedFor| && Apply(s, step).mintedFor[|s.mintedFor|] == s.mintedFor[j] ==>
      j in s.succeeded || j in s.dropped
    ensures s.succeeded <= Apply(s, step).succeeded && s.dropped <= Apply(s, step).dropped
  {
    assert KeyOk(s, j);
  }

  // A second key for the same intent exists only because every earlier one was settled: by an
  // accepted receipt, or by an error from 400 to 499 other than 408.
  lemma {:induction false} NewKeyOnlyAfterSettlement(
    states: seq<System>, steps: seq<Step>, n: nat, j: Key, k: Key)
    requires Run(states, steps) && n <= |steps|
    requires j < k < |states[n].mintedFor| && states[n].mintedFor[j] == states[n].mintedFor[k]
    ensures j in states[n].succeeded || j in states[n].dropped
  {
    if n > 0 && j < |states[n - 1].mintedFor| {
      EveryStateIsGood(states, steps, n - 1);
      MintingSettles(states[n - 1], steps[n - 1], j);
      if k < |states[n - 1].mintedFor| { NewKeyOnlyAfterSettlement(states, steps, n - 1, j, k); }
    } else if n > 0 {
      OneMintPerStep(states[n - 1], steps[n - 1]);
    }
  }

  lemma OneMintPerStep(s: System, step: Step)
    requires Enabled(s, step)
    ensures |Apply(s, step).mintedFor| <= |s.mintedFor| + 1
  {}

  // Settlement happens in one step each: a key is counted as dropped only by a definite refusal of a
  // call that carried it, and as succeeded only by an accepted receipt for it.
  lemma SettlementHasCause(s: System, step: Step, k: Key)
    requires Inv(s) && Enabled(s, step)
    ensures k in Apply(s, step).dropped <==>
      || k in s.dropped
      || (step.Deliver? && step.reply.Refused? && step.reply.call.key == k
          && 400 <= step.reply.status < 500 && step.reply.status != 408)
    ensures k in Apply(s, step).succeeded <==>
      || k in s.succeeded
      || (step.Deliver? && step.reply.Answered? && step.reply.call.key == k
          && Acceptable(step.reply.call.intent, step.reply.payload))
  {
    if step.Deliver? && step.reply.Answered? {
      AcceptedExactly(step.reply.call.intent, step.reply.payload);
    }
  }

  // The page was left: nothing is waited for and no further action begins.
  predicate Left(s: System) {
    s.left && s.client.busy && s.waiting.None?
  }

  lemma LeftStays(s: System, step: Step)
    requires Left(s) && Enabled(s, step)
    ensures Left(Apply(s, step)) && Apply(s, step).sent == s.sent
  {}

  predicate SignsOutEverywhere(step: Step) {
    step.Deliver? && step.reply.Answered? && step.reply.call.intent.RevokeAllSessions?
    && Acceptable(RevokeAllSessions, step.reply.payload)
  }

  // Once signing out everywhere was accepted, the page sends nothing more.
  lemma {:induction false} SignedOutIsFinal(states: seq<System>, steps: seq<Step>, n: nat, m: nat)
    requires Run(states, steps) && n < m <= |steps| && SignsOutEverywhere(steps[n])
    ensures Left(states[m]) && states[m].sent == states[n].sent
  {
    if m == n + 1 {
      EveryStateIsGood(states, steps, n);
      AcceptedExactly(RevokeAllSessions, steps[n].reply.payload);
    } else {
      SignedOutIsFinal(states, steps, n, m - 1);
      LeftStays(states[m - 1], steps[m - 1]);
    }
  }

  // ---------------------------------------------------------------- accounting per intent

  function KeysOf(s: System, keys: set<Key>, intent: Intent): set<Key> {
    set k | k in keys && k < |s.mintedFor| && s.mintedFor[k] == intent
  }

  function Applied(s: System): set<Key> {
    set k | k in s.effects
  }

  // The key in use, if its effect already happened without the page knowing.
  function Unacknowledged(s: System, intent: Intent): set<Key> {
    if intent in s.client.keys && s.client.keys[intent] in s.effects then {s.client.keys[intent]} else {}
  }

  lemma EffectHasOneAccount(s: System, intent: Intent, k: Key)
    requires Inv(s)
    ensures var a, b, c :=
        k in KeysOf(s, s.succeeded, intent), k in KeysOf(s, s.dropped * Applied(s), intent), k in Unacknowledged(s, intent);
      && (k in KeysOf(s, Applied(s), intent) <==> a || b || c)
      && !(a && b) && !(a && c) && !(b && c)
  {
    assert KeyOk(s, k);
  }

  // Every effect of an intent is accounted for: it was reported, its key was dropped after an
  // error, or it belongs to the one key still in use.
  lemma EffectsAreAccountedFor(states: seq<System>, steps: seq<Step>, n: nat, intent: Intent)
    requires Run(states, steps) && n <= |steps|
    ensures var s := states[n];
      |KeysOf(s, Applied(s), intent)| ==
        |KeysOf(s, s.succeeded, intent)| + |KeysOf(s, s.dropped * Applied(s), intent)| + |Unacknowledged(s, intent)|
  {
    EveryStateIsGood(states, steps, n);
    var s := states[n];
    var a, b, c := KeysOf(s, s.succeeded, intent), KeysOf(s, s.dropped * Applied(s), intent), Unacknowledged(s, intent);
    forall k: Key ensures k in KeysOf(s, Applied(s), intent) <==> k in a || k in b || k in c {
      EffectHasOneAccount(s, intent, k);
    }
    forall k: Key ensures !(k in a && k in b) && !(k in a && k in c) && !(k in b && k in c) {
      EffectHasOneAccount(s, intent, k);
    }
    assert KeysOf(s, Applied(s), intent) == a + b + c;
    assert a !! b && (a + b) !! c;
  }

  // So without such errors the number of effects is the number of reported successes, or one more.
  lemma WithoutRefusalsSuccessesCountEffects(states: seq<System>, steps: seq<Step>, n: nat, intent: Intent)
    requires Run(states, steps) && n <= |steps|
    requires states[n].dropped == {}
    ensures var s := states[n]; var reported := |KeysOf(s, s.succeeded, intent)|;
      reported <= |KeysOf(s, Applied(s), intent)| <= reported + 1
  {
    EffectsAreAccountedFor(states, steps, n, intent);
    assert KeysOf(states[n], states[n].dropped * Applied(states[n]), intent) == {};
  }

  // ---------------------------------------------------------------- a run in which a click acts twice

  function Next(s: System, step: Step): Option<System> {
    if Enabled(s, step) then Some(Apply(s, step)) else None
  }

  const START: System := System(Client(map[], false), None, 0, false, {}, {}, [], [], {}, {}, [])

  const FIRST: Call := Call(0, StepUp, 0)
  const RETRY: Call := Call(1, StepUp, 0)
  const THIRD: Call := Call(2, StepUp, 1)

  // The answer to the first click was lost; its key is kept.
  function AnswerLost(): System {
    START.(client := Client(map[StepUp := 0], false), attempts := 1, sent := {FIRST},
           replies := {Answered(FIRST, Answer(StepUp, true, Null))}, mintedFor := [StepUp], effects := [0])
  }

  lemma LoseFirstAnswer()
    ensures Init(START)
    ensures Perform(Next, START, [Click(StepUp), Serve(FIRST, Null), NoAnswer(Some(408)), Finish]) == Some(AnswerLost())
  {
    var s1 := Apply(START, Click(StepUp));
    var s2 := Apply(s1, Serve(FIRST, Null));
    var s3 := Apply(s2, NoAnswer(Some(408)));
    assert Apply(s3, Finish) == AnswerLost();
    PerformFirst(Next, s3, Finish, []);
    PerformFirst(Next, s2, NoAnswer(Some(408)), [Finish]);
    PerformFirst(Next, s1, Serve(FIRST, Null), [NoAnswer(Some(408)), Finish]);
    PerformFirst(Next, START, Click(StepUp), [Serve(FIRST, Null), NoAnswer(Some(408)), Finish]);
  }

  // The retry carried the same key, but a refusal for its rate drops the key.
  function RetryRefused(): System {
    AnswerLost().(client := Client(map[], false), attempts := 2, sent := {FIRST, RETRY},
                  replies := {Answered(FIRST, Answer(StepUp, true, Null)), Refused(RETRY, 429)}, dropped := {0})
  }

  lemma RefuseRetry()
    ensures Perform(Next, AnswerLost(), [Click(StepUp), Refuse(RETRY, 429), Deliver(Refused(RETRY, 429)), Finish])
      == Some(RetryRefused())
  {
    var refused := Deliver(Refused(RETRY, 429));
    var s1 := Apply(AnswerLost(), Click(StepUp));
    var s2 := Apply(s1, Refuse(RETRY, 429));
    var s3 := Apply(s2, refused);
    assert Apply(s3, Finish) == RetryRefused();
    PerformFirst(Next, s3, Finish, []);
    PerformFirst(Next, s2, refused, [Finish]);
    PerformFirst(Next, s1, Refuse(RETRY, 429), [refused, Finish]);
    PerformFirst(Next, AnswerLost(), Click(StepUp), [Refuse(RETRY, 429), refused, Finish]);
  }

  lemma ServeThird() returns (t: System)
    ensures Perform(Next, RetryRefused(), [Click(StepUp), Serve(THIRD, Null)]) == Some(t)
    ensures t.effects == [0, 1] && t.mintedFor == [StepUp, StepUp] && t.succeeded == {}
  {
    var s1 := Apply(RetryRefused(), Click(StepUp));
    t := Apply(s1, Serve(THIRD, Null));
    PerformFirst(Next, s1, Serve(THIRD, Null), []);
    PerformFirst(Next, RetryRefused(), Click(StepUp), [Serve(THIRD, Null)]);
  }

  // With such an error it is not exactly once: the first attempt took effect but its answer was
  // lost, the retry was refused for its rate, and the third click has a new key and a second effect.
  lemma ThirdClickActsAgain() returns (steps: seq<Step>, t: System)
    ensures Init(START) && Perform(Next, START, steps) == Some(t)
    ensures t.effects == [0, 1] && t.mintedFor == [StepUp, StepUp] && t.succeeded == {}
  {
    var lost := [Click(StepUp), Serve(FIRST, Null), NoAnswer(Some(408)), Finish];
    var refused := [Click(StepUp), Refuse(RETRY, 429), Deliver(Refused(RETRY, 429)), Finish];
    var third := [Click(StepUp), Serve(THIRD, Null)];
    LoseFirstAnswer();
    RefuseRetry();
    t := ServeThird();
    PerformThrough(Next, AnswerLost(), refused, third);
    PerformThrough(Next, START, lost, refused + third);
    steps := lost + (refused + third);
  }
}
