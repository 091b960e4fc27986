module AssistantMessages {
  import opened Sorting
  import opened Lists
  import opened Latest
  import opened EntityOrder
  import opened MessageLog

  // The assistant's message log: merge by id, sort by time, keep the last 40.

  const LIMIT: nat := 40

  function ByTime(lc: Collation): Comparator<Message> {
    (left: Message, right: Message) => lc(left.timestamp, right.timestamp)
  }

  function Merge(lc: Collation, groups: seq<Group>): Group {
    Last(LIMIT, Sort(ByTime(lc), ById(groups)))
  }

  lemma ByTimeIsOrder(lc: Collation)
    requires IsCollation(lc)
    ensures IsOrder(ByTime(lc))
  {
    var cmp := ByTime(lc);
    forall a, b ensures cmp(a, b) < 0 <==> cmp(b, a) > 0 {
      assert lc(a.timestamp, b.timestamp) < 0 <==> lc(b.timestamp, a.timestamp) > 0;
    }
    forall a, b, c | cmp(a, b) <= 0 && cmp(b, c) <= 0 ensures cmp(a, c) <= 0 {
      assert lc(a.timestamp, b.timestamp) <= 0 && lc(b.timestamp, c.timestamp) <= 0;
    }
  }

  // The sorted log before it is cut.
  function Timeline(lc: Collation, groups: seq<Group>): Group {
    Sort(ByTime(lc), ById(groups))
  }

  lemma TimelineHoldsLastWrites(lc: Collation, groups: seq<Group>)
    requires IsCollation(lc)
    ensures var all := Timeline(lc, groups);
            && Sorted(ByTime(lc), all) && OnePerId(all) && Distinct(all)
            && forall e :: e in all <==> LastWrite(Flatten(groups), e)
  {
    ByTimeIsOrder(lc);
    SortSorts(ByTime(lc), ById(groups));
    SortPermutes(ByTime(lc), ById(groups));
    SortedElements(ByTime(lc), ById(groups));
    forall e ensures OnePerId(ById(groups)) && (e in ById(groups) <==> LastWrite(Flatten(groups), e)) {
      PutAllIsLastWrites(Flatten(groups), e);
    }
    assert OnePerId(ById(groups)) by { PutAllIsLastWrites(Flatten(groups), Message("", "", system, "")); }
    OnePerIdStays(ById(groups), Timeline(lc, groups));
    UniqueIsDistinct(Timeline(lc, groups));
  }

  lemma DroppedIsEarlier(lc: Collation, all: Group, e: Message, kept: Message)
    requires Sorted(ByTime(lc), all) && Distinct(all) && e in all && e !in Last(LIMIT, all) && kept in Last(LIMIT, all)
    ensures |Last(LIMIT, all)| == LIMIT && lc(e.timestamp, kept.timestamp) <= 0
  {
    var i :| 0 <= i < |all| && all[i] == e;
    IndexInLast(LIMIT, all, i);
    LastIsPart(LIMIT, all, kept);
    var j :| 0 <= j < |all| && all[j] == kept;
    IndexInLast(LIMIT, all, j);
    assert ByTime(lc)(all[i], all[j]) <= 0;
  }

  /** On any messages the log is in time order, has each id once, and shows under each id the last message written. */
  lemma MergeShowsLastWrites(lc: Collation, groups: seq<Group>)
    requires IsCollation(lc)
    ensures var log := Merge(lc, groups);
            && |log| <= 40 && Sorted(ByTime(lc), log) && OnePerId(log)
            && forall e :: e in log ==> LastWrite(Flatten(groups), e)
  {
    TimelineHoldsLastWrites(lc, groups);
  }

  /** A last-written message is missing only when the log is full, and then it is no later than any that is shown. */
  lemma MergeDropsTheEarliest(lc: Collation, groups: seq<Group>, e: Message, kept: Message)
    requires IsCollation(lc) && LastWrite(Flatten(groups), e) && e !in Merge(lc, groups)
    ensures |Merge(lc, groups)| == 40
    ensures kept in Merge(lc, groups) ==> lc(e.timestamp, kept.timestamp) <= 0
  {
    TimelineHoldsLastWrites(lc, groups);
    if kept in Merge(lc, groups) {
      DroppedIsEarlier(lc, Timeline(lc, groups), e, kept);
    }
  }

  // Equal ids carry equal messages.
  ghost predicate IdsAgree(messages: set<Message>) {
    forall a, b :: a in messages && b in messages && a.id == b.id ==> a == b
  }

  // Different messages with equal times have a full log of strictly later ones behind them.
  ghost predicate EqualTimesBuried(lc: Collation, messages: set<Message>) {
    TiesBuried(LIMIT, ByTime(lc), messages)
  }

  // What a merge of these messages must be: at most a full log, in time order, that covers them all.
  ghost predicate IsLogOf(lc: Collation, all: set<Message>, log: Group) {
    Kept(LIMIT, ByTime(lc), all, log)
  }

  lemma AgreeingWrites(messages: Group, e: Message)
    requires IdsAgree(Elements(messages))
    ensures LastWrite(messages, e) <==> e in messages
  {
    if e in messages {
      var last := EveryIdHasALastWrite(messages, e);
    }
  }

  lemma IdsAgreeInPart(part: set<Message>, whole: set<Message>)
    requires part <= whole && IdsAgree(whole)
    ensures IdsAgree(part)
  {}

  lemma TimelineHoldsAll(lc: Collation, groups: seq<Group>)
    requires IsCollation(lc) && IdsAgree(Elements(Flatten(groups)))
    ensures Elements(Timeline(lc, groups)) == Elements(Flatten(groups))
  {
    TimelineHoldsLastWrites(lc, groups);
    forall e ensures e in Timeline(lc, groups) <==> e in Flatten(groups) {
      AgreeingWrites(Flatten(groups), e);
    }
  }

  /** Any merge covers what it was given: whatever it drops has a full log of no earlier messages. */
  lemma MergeCovers(lc: Collation, groups: seq<Group>)
    requires IsCollation(lc) && IdsAgree(Elements(Flatten(groups)))
    ensures IsLogOf(lc, Elements(Flatten(groups)), Merge(lc, groups))
  {
    ByTimeIsOrder(lc);
    TimelineHoldsLastWrites(lc, groups);
    TimelineHoldsAll(lc, groups);
    LastCovers(LIMIT, ByTime(lc), Timeline(lc, groups));
  }

  /** When equal times are buried, the merged log is the 40 latest of all messages. */
  lemma MergeIsLatest(lc: Collation, groups: seq<Group>, e: Message)
    requires IsCollation(lc) && IdsAgree(Elements(Flatten(groups))) && EqualTimesBuried(lc, Elements(Flatten(groups)))
    ensures e in Merge(lc, groups) <==> Among(LIMIT, ByTime(lc), Elements(Flatten(groups)), e)
  {
    ByTimeIsOrder(lc);
    MergeCovers(lc, groups);
    KeptIsLatest(LIMIT, ByTime(lc), Elements(Flatten(groups)), Merge(lc, groups));
  }

  lemma LogIsDetermined(lc: Collation, all: set<Message>, log: Group, other: Group)
    requires IsCollation(lc) && EqualTimesBuried(lc, all) && IsLogOf(lc, all, log) && IsLogOf(lc, all, other)
    ensures log == other
  {
    ByTimeIsOrder(lc);
    CoveringIsDetermined(LIMIT, ByTime(lc), all, log, other);
  }

  /** Only the set of messages matters then: not their order, grouping or repetition. */
  lemma MergeForgetsGroups(lc: Collation, groups: seq<Group>, others: seq<Group>)
    requires IsCollation(lc) && IdsAgree(Elements(Flatten(groups))) && EqualTimesBuried(lc, Elements(Flatten(groups)))
    requires Elements(Flatten(groups)) == Elements(Flatten(others))
    ensures Merge(lc, groups) == Merge(lc, others)
  {
    MergeCovers(lc, groups);
    MergeCovers(lc, others);
    LogIsDetermined(lc, Elements(Flatten(groups)), Merge(lc, groups), Merge(lc, others));
  }

  // However the messages are ordered, repeated and grouped, merging them gives the same log.
  ghost predicate MergesEqually(lc: Collation, all: set<Message>) {
    forall groups, others :: Elements(Flatten(groups)) == all && Elements(Flatten(others)) == all ==>
      Merge(lc, groups) == Merge(lc, others)
  }

  lemma MergeOfLog(lc: Collation, log: Group)
    requires OnePerId(log)
    ensures Merge(lc, [log]) == Last(LIMIT, Sort(ByTime(lc), log))
  {
    FlattenOne(log);
    UniqueIsLog(log);
  }

  lemma ListingIsLog(all: set<Message>, log: Group)
    requires IdsAgree(all) && Elements(log) == all && Distinct(log)
    ensures OnePerId(log)
  {
    forall i, j | 0 <= i < j < |log| ensures log[i].id != log[j].id {
      assert log[i] in Elements(log) && log[j] in Elements(log);
    }
  }

  lemma MergesDiffer(lc: Collation, all: set<Message>, log: Group, other: Group)
    requires OnePerId(log) && OnePerId(other) && Elements(log) == all && Elements(other) == all
    requires Last(LIMIT, Sort(ByTime(lc), log)) != Last(LIMIT, Sort(ByTime(lc), other))
    ensures !MergesEqually(lc, all)
  {
    MergeOfLog(lc, log);
    MergeOfLog(lc, other);
    FlattenOne(log);
    FlattenOne(other);
  }

  // Where equal times are not buried, two listings of the same messages are cut to different logs.
  lemma UnburiedListings(lc: Collation, all: set<Message>) returns (log: Group, other: Group)
    requires IsCollation(lc) && IdsAgree(all) && !EqualTimesBuried(lc, all)
    ensures OnePerId(log) && OnePerId(other) && Elements(log) == all && Elements(other) == all
    ensures Last(LIMIT, Sort(ByTime(lc), log)) != Last(LIMIT, Sort(ByTime(lc), other))
  {
    var a, b :| a in all && b in all && a != b && ByTime(lc)(a, b) == 0 && |Later(ByTime(lc), all, a)| < LIMIT;
    ByTimeIsOrder(lc);
    log, other := UnburiedShows(LIMIT, ByTime(lc), all, a, b);
    ListingIsLog(all, log);
    ListingIsLog(all, other);
  }

  /** The messages merge equally in all orders and groupings exactly when equal times are buried. */
  lemma MergesEquallyExactly(lc: Collation, all: set<Message>)
    requires IsCollation(lc) && IdsAgree(all)
    ensures MergesEqually(lc, all) <==> EqualTimesBuried(lc, all)
  {
    if EqualTimesBuried(lc, all) {
      forall groups, others | Elements(Flatten(groups)) == all && Elements(Flatten(others)) == all
        ensures Merge(lc, groups) == Merge(lc, others)
      {
        MergeForgetsGroups(lc, groups, others);
      }
    } else {
      var log, other := UnburiedListings(lc, all);
      MergesDiffer(lc, all, log, other);
    }
  }

  lemma ElementsAppend<T>(xs: seq<T>, ys: seq<T>)
    ensures Elements(xs + ys) == Elements(xs) + Elements(ys)
  {}

  lemma ElementsOfBoth(groups: seq<Group>, others: seq<Group>)
    ensures Elements(Flatten(groups + others)) == Elements(Flatten(groups)) + Elements(Flatten(others))
  {
    FlattenAppends(groups, others);
    ElementsAppend(Flatten(groups), Flatten(others));
  }

  // A way of merging messages in steps.
  datatype Plan = Given(messages: Group) | Merged(first: Plan, second: Plan)

  function Sources(plan: Plan): seq<Group> {
    match plan
    case Given(messages) => [messages]
    case Merged(first, second) => Sources(first) + Sources(second)
  }

  function Run(lc: Collation, plan: Plan): Group {
    match plan
    case Given(messages) => messages
    case Merged(first, second) => Merge(lc, [Run(lc, first), Run(lc, second)])
  }

  ghost function All(plan: Plan): set<Message> {
    Elements(Flatten(Sources(plan)))
  }

  lemma AllOfMerged(first: Plan, second: Plan)
    ensures All(Merged(first, second)) == All(first) + All(second)
  {
    ElementsOfBoth(Sources(first), Sources(second));
  }

  lemma ElementsOfPair(a: Group, b: Group)
    ensures Elements(Flatten([a, b])) == Elements(a) + Elements(b)
  {
    ElementsOfBoth([a], [b]);
    FlattenOne(a);
    FlattenOne(b);
    assert [a] + [b] == [a, b];
  }

  lemma AllOfGiven(group: Group)
    ensures All(Given(group)) == Elements(group)
  {
    FlattenOne(group);
  }

  // Whatever a plan makes of its messages covers them.
  ghost predicate RunCovered(lc: Collation, plan: Plan) {
    && Elements(Run(lc, plan)) <= All(plan)
    && Covers(LIMIT, ByTime(lc), All(plan), Elements(Run(lc, plan)))
  }

  lemma MergedStepCovers(lc: Collation, first: Plan, second: Plan)
    requires IsCollation(lc) && IdsAgree(All(Merged(first, second)))
    requires RunCovered(lc, first) && RunCovered(lc, second)
    ensures IsLogOf(lc, All(Merged(first, second)), Run(lc, Merged(first, second)))
  {
    var one, two := Run(lc, first), Run(lc, second);
    var all, part := All(Merged(first, second)), Elements(one) + Elements(two);
    ByTimeIsOrder(lc);
    AllOfMerged(first, second);
    ElementsOfPair(one, two);
    IdsAgreeInPart(part, all);
    MergeCovers(lc, [one, two]);
    CoveringUnites(LIMIT, ByTime(lc), All(first), Elements(one), All(second), Elements(two));
    CoveringComposes(LIMIT, ByTime(lc), all, part, Elements(Merge(lc, [one, two])));
  }

  /** Merging in steps, each step cutting its result, covers everything that was given. */
  lemma {:induction false} RunCovers(lc: Collation, plan: Plan)
    requires IsCollation(lc) && IdsAgree(All(plan))
    ensures RunCovered(lc, plan) && (plan.Merged? ==> IsLogOf(lc, All(plan), Run(lc, plan)))
  {
    match plan
    case Given(messages) => AllOfGiven(messages);
    case Merged(first, second) =>
      AllOfMerged(first, second);
      IdsAgreeInPart(All(first), All(plan));
      IdsAgreeInPart(All(second), All(plan));
      RunCovers(lc, first);
      RunCovers(lc, second);
      MergedStepCovers(lc, first, second);
  }

  /** Two ways of merging the same messages agree, however they are ordered, repeated and nested. */
  lemma PlansAgree(lc: Collation, plan: Plan, other: Plan)
    requires IsCollation(lc) && plan.Merged? && other.Merged? && All(plan) == All(other)
    requires IdsAgree(All(plan)) && EqualTimesBuried(lc, All(plan))
    ensures Run(lc, plan) == Run(lc, other)
  {
    RunCovers(lc, plan);
    RunCovers(lc, other);
    LogIsDetermined(lc, All(plan), Run(lc, plan), Run(lc, other));
  }

  /** Merging is associative, although each merge cuts its result. */
  lemma MergeIsAssociative(lc: Collation, a: Group, b: Group, c: Group)
    requires IsCollation(lc) && IdsAgree(Elements(a) + Elements(b) + Elements(c))
    requires EqualTimesBuried(lc, Elements(a) + Elements(b) + Elements(c))
    ensures Merge(lc, [Merge(lc, [a, b]), c]) == Merge(lc, [a, Merge(lc, [b, c])])
  {
    var x, y, z := Given(a), Given(b), Given(c);
    AllOfThree(a, b, c);
    RunsOfThree(lc, a, b, c);
    PlansAgree(lc, Merged(Merged(x, y), z), Merged(x, Merged(y, z)));
  }

  lemma AllOfThree(a: Group, b: Group, c: Group)
    ensures var x, y, z := Given(a), Given(b), Given(c);
            All(Merged(Merged(x, y), z)) == All(Merged(x, Merged(y, z))) == Elements(a) + Elements(b) + Elements(c)
  {
    var x, y, z := Given(a), Given(b), Given(c);
    AllOfGiven(a);
    AllOfGiven(b);
    AllOfGiven(c);
    AllOfMerged(x, y);
    AllOfMerged(y, z);
    AllOfMerged(Merged(x, y), z);
    AllOfMerged(x, Merged(y, z));
  }

  // All ways of merging these messages in steps give the same log.
  ghost predicate PlansMergeEqually(lc: Collation, all: set<Message>) {
    forall plan: Plan, other: Plan :: plan.Merged? && other.Merged? && All(plan) == all && All(other) == all ==>
      Run(lc, plan) == Run(lc, other)
  }

  // A listing merged with nothing.
  function Alone(log: Group): Plan {
    Merged(Given(log), Given([]))
  }

  lemma RunAlone(lc: Collation, log: Group)
    requires OnePerId(log)
    ensures Run(lc, Alone(log)) == Last(LIMIT, Sort(ByTime(lc), log)) && All(Alone(log)) == Elements(log)
  {
    AllOfGiven(log);
    AllOfGiven([]);
    AllOfMerged(Given(log), Given([]));
    FlattenAppends([log], [[]]);
    FlattenOne(log);
    FlattenOne([]);
    assert [log] + [[]] == [log, []] && log + [] == log;
    UniqueIsLog(log);
  }

  lemma PlansDiffer(lc: Collation, all: set<Message>, plan: Plan, other: Plan)
    requires plan.Merged? && other.Merged? && All(plan) == all && All(other) == all && Run(lc, plan) != Run(lc, other)
    ensures !PlansMergeEqually(lc, all)
  {}

  /** The same condition is exact for merging in any number of steps, each cutting its result. */
  lemma PlansMergeEquallyExactly(lc: Collation, all: set<Message>)
    requires IsCollation(lc) && IdsAgree(all)
    ensures PlansMergeEqually(lc, all) <==> EqualTimesBuried(lc, all)
  {
    if EqualTimesBuried(lc, all) {
      forall plan: Plan, other: Plan | plan.Merged? && other.Merged? && All(plan) == all && All(other) == all
        ensures Run(lc, plan) == Run(lc, other)
      {
        PlansAgree(lc, plan, other);
      }
    } else {
      var log, other := UnburiedListings(lc, all);
      RunAlone(lc, log);
      RunAlone(lc, other);
      PlansDiffer(lc, all, Alone(log), Alone(other));
    }
  }

  lemma RunsOfThree(lc: Collation, a: Group, b: Group, c: Group)
    ensures var x, y, z := Given(a), Given(b), Given(c);
            && Run(lc, Merged(Merged(x, y), z)) == Merge(lc, [Merge(lc, [a, b]), c])
            && Run(lc, Merged(x, Merged(y, z))) == Merge(lc, [a, Merge(lc, [b, c])])
  {
    var x, y, z := Given(a), Given(b), Given(c);
    assert Run(lc, x) == a && Run(lc, y) == b && Run(lc, z) == c;
    assert Run(lc, Merged(x, y)) == Merge(lc, [a, b]) && Run(lc, Merged(y, z)) == Merge(lc, [b, c]);
  }

  /** Merging is commutative. */
  lemma MergeIsCommutative(lc: Collation, a: Group, b: Group)
    requires IsCollation(lc) && IdsAgree(Elements(a) + Elements(b)) && EqualTimesBuried(lc, Elements(a) + Elements(b))
    ensures Merge(lc, [a, b]) == Merge(lc, [b, a])
  {
    ElementsOfPair(a, b);
    ElementsOfPair(b, a);
    MergeForgetsGroups(lc, [a, b], [b, a]);
  }

  /** Merging the same messages into the log once more changes nothing. */
  lemma MergeIsIdempotent(lc: Collation, a: Group, b: Group)
    requires IsCollation(lc) && IdsAgree(Elements(a) + Elements(b)) && EqualTimesBuried(lc, Elements(a) + Elements(b))
    ensures Merge(lc, [a, Merge(lc, [a, b])]) == Merge(lc, [a, b])
  {
    var x, y := Given(a), Given(b);
    AllOfGiven(a);
    AllOfGiven(b);
    AllOfMerged(x, y);
    AllOfMerged(x, Merged(x, y));
    PlansAgree(lc, Merged(x, Merged(x, y)), Merged(x, y));
  }

  lemma LogOrder(log: Group, a: Message, b: Message)
    requires OnePerId(log) && a in log && b in log
    ensures StandsBefore(log, a, b) <==> StandsBefore(IdsOf(log), a.id, b.id)
  {
    var i :| 0 <= i < |log| && log[i] == a;
    var j :| 0 <= j < |log| && log[j] == b;
    assert IdsOf(log)[i] == a.id && IdsOf(log)[j] == b.id;
    if StandsBefore(IdsOf(log), a.id, b.id) {
      var p, q :| 0 <= p < q < |log| && IdsOf(log)[p] == a.id && IdsOf(log)[q] == b.id;
      assert p == i && q == j;
    }
  }

  lemma LogHasId(log: Group, e: Message)
    requires e in log
    ensures e.id in IdsOf(log)
  {
    var i :| 0 <= i < |log| && log[i] == e;
    assert IdsOf(log)[i] == e.id;
  }

  /** Shown messages with equal times stand in the order in which their ids were first written, whatever was written under them later. */
  lemma TiesStandAsFirstWritten(lc: Collation, groups: seq<Group>, a: Message, b: Message)
    requires IsCollation(lc) && a in Merge(lc, groups) && b in Merge(lc, groups) && a != b && a.timestamp == b.timestamp
    ensures StandsBefore(Merge(lc, groups), a, b) <==> WrittenFirst(Flatten(groups), a.id, b.id)
  {
    var log, all := ById(groups), Timeline(lc, groups);
    TimelineHoldsLastWrites(lc, groups);
    PutAllIsLastWrites(Flatten(groups), a);
    SortedElements(ByTime(lc), log);
    LastIsPart(LIMIT, all, a);
    LastIsPart(LIMIT, all, b);
    StandsInSuffix(all, |all| - |Merge(lc, groups)|, a, b);
    ByTimeIsOrder(lc);
    UniqueIsDistinct(log);
    assert ByTime(lc)(a, b) == 0;
    SortIsStable(ByTime(lc), log, a, b);
    LogOrder(log, a, b);
    LogHasId(log, b);
    assert a.id != b.id by { DifferentIds(log, a, b); }
    LogFollowsFirstWrites(Flatten(groups), a.id, b.id);
  }

  lemma DifferentIds(log: Group, a: Message, b: Message)
    requires OnePerId(log) && a in log && b in log && a != b
    ensures a.id != b.id
  {
    var i :| 0 <= i < |log| && log[i] == a;
    var j :| 0 <= j < |log| && log[j] == b;
    assert i < j || j < i;
  }

  /** Messages with equal times stay in the order they came in, so merging them does not commute. */
  lemma EqualTimesKeepTheirOrder(lc: Collation, a: Message, b: Message)
    requires IsCollation(lc) && a.id != b.id && a.timestamp == b.timestamp
    ensures Merge(lc, [[a], [b]]) == [a, b]
    ensures Merge(lc, [[b], [a]]) == [b, a]
  {
    TwoMessages(lc, a, b);
    TwoMessages(lc, b, a);
  }

  lemma TwoMessages(lc: Collation, a: Message, b: Message)
    requires IsCollation(lc) && a.id != b.id && a.timestamp == b.timestamp
    ensures Merge(lc, [[a], [b]]) == [a, b]
  {
    var groups := [[a], [b]];
    FlattenOne([a]);
    FlattenAppends([[a]], [[b]]);
    FlattenOne([b]);
    assert groups == [[a]] + [[b]];
    assert Flatten(groups) == [a, b];
    assert [a, b][..1] == [a] && [a][..0] == [];
    assert PutAll([], [a]) == [a];
    assert ById(groups) == Put([a], b) == [a] + Put([a][1..], b);
    assert ById(groups) == [a, b];
    assert Sort(ByTime(lc), [a]) == [a];
    assert lc(b.timestamp, a.timestamp) == 0;
    assert Insert(ByTime(lc), b, [a]) == [a, b];
  }

  method MergeAssistantMessages(lc: Collation, messageGroups: seq<Group>) returns (log: Group)
    ensures log == Merge(lc, messageGroups)
  {
    var byId: Group := [];
    for i := 0 to |messageGroups|
      invariant byId == PutAll([], Flatten(messageGroups[..i]))
    {
      var group := messageGroups[i];
      for j := 0 to |group|
        invariant byId == PutAll(PutAll([], Flatten(messageGroups[..i])), group[..j])
      {
        assert group[..j + 1][..j] == group[..j];
        byId := Put(byId, group[j]);
      }
      assert group[..|group|] == group;
      FlattenNext(messageGroups, i);
      PutAllAppends([], Flatten(messageGroups[..i]), group);
    }
    assert messageGroups[..|messageGroups|] == messageGroups;
    log := Last(LIMIT, Sort(ByTime(lc), byId));
  }

  // The server's conversation, of which the panel shows the six latest messages.
  datatype ConversationMessage = ConversationMessage(messageId: string, content: string, fromHuman: bool, createdAt: string)

  function ByCreation(lc: Collation): Comparator<ConversationMessage> {
    (left: ConversationMessage, right: ConversationMessage) => lc(left.createdAt, right.createdAt)
  }

  function AsMessage(message: ConversationMessage): Message {
    Message(message.content, "canonical-" + message.messageId, if message.fromHuman then human else assistant, message.createdAt)
  }

  function AsMessages(messages: seq<ConversationMessage>): Group {
    if messages == [] then [] else [AsMessage(messages[0])] + AsMessages(messages[1..])
  }

  function CanonicalMessages(lc: Collation, messages: seq<ConversationMessage>): Group {
    AsMessages(Last(6, Sort(ByCreation(lc), messages)))
  }

  lemma {:induction false} AsMessagesElements(messages: seq<ConversationMessage>, e: Message)
    ensures |AsMessages(messages)| == |messages|
    ensures e in AsMessages(messages) <==> exists m :: m in messages && AsMessage(m) == e
  {
    if messages != [] {
      AsMessagesElements(messages[1..], e);
      assert messages == [messages[0]] + messages[1..];
    }
  }

  lemma AsMessageIsInjective(m: ConversationMessage, other: ConversationMessage)
    requires AsMessage(m).id == AsMessage(other).id
    ensures m.messageId == other.messageId
  {
    assert AsMessage(m).id[10..] == m.messageId && AsMessage(other).id[10..] == other.messageId;
  }

  ghost predicate DistinctConversation(messages: seq<ConversationMessage>) {
    forall i, j :: 0 <= i < j < |messages| ==> messages[i].messageId != messages[j].messageId
  }

  lemma ByCreationIsOrder(lc: Collation)
    requires IsCollation(lc)
    ensures IsOrder(ByCreation(lc))
  {
    var cmp := ByCreation(lc);
    forall a, b ensures cmp(a, b) < 0 <==> cmp(b, a) > 0 {
      assert lc(a.createdAt, b.createdAt) < 0 <==> lc(b.createdAt, a.createdAt) > 0;
    }
    forall a, b, c | cmp(a, b) <= 0 && cmp(b, c) <= 0 ensures cmp(a, c) <= 0 {
      assert lc(a.createdAt, b.createdAt) <= 0 && lc(b.createdAt, c.createdAt) <= 0;
    }
  }

  lemma ConversationIsSorted(lc: Collation, messages: seq<ConversationMessage>)
    requires IsCollation(lc) && DistinctConversation(messages)
    ensures var all := Sort(ByCreation(lc), messages);
            Sorted(ByCreation(lc), all) && Distinct(all) && Elements(all) == Elements(messages)
  {
    var cmp := ByCreation(lc);
    ByCreationIsOrder(lc);
    SortSorts(cmp, messages);
    SortPermutes(cmp, messages);
    SortedElements(cmp, messages);
    ConversationIsDistinct(messages);
    DistinctStays(messages, Sort(cmp, messages));
  }

  // The messages that the panel starts with.
  ghost predicate Starts(lc: Collation, messages: seq<ConversationMessage>, m: ConversationMessage) {
    m in messages && AsMessage(m) in CanonicalMessages(lc, messages)
  }

  lemma StartsExactly(lc: Collation, messages: seq<ConversationMessage>, m: ConversationMessage)
    requires IsCollation(lc) && DistinctConversation(messages)
    ensures Starts(lc, messages, m) <==> m in Last(6, Sort(ByCreation(lc), messages))
  {
    var all := Sort(ByCreation(lc), messages);
    ConversationIsSorted(lc, messages);
    AsMessagesElements(Last(6, all), AsMessage(m));
    if m in messages {
      if other :| other in Last(6, all) && AsMessage(other) == AsMessage(m) {
        AsMessageIsInjective(m, other);
        LastIsPart(6, all, other);
        SameElement(messages, all, other);
      }
    } else if m in Last(6, all) {
      LastIsPart(6, all, m);
      SameElement(messages, all, m);
    }
  }

  lemma SameElement<T>(xs: seq<T>, ys: seq<T>, x: T)
    requires Elements(xs) == Elements(ys) && x in ys
    ensures x in xs
  {
    assert x in Elements(xs);
  }

  ghost function Starters(lc: Collation, messages: seq<ConversationMessage>): set<ConversationMessage> {
    set m | m in messages && Starts(lc, messages, m)
  }

  lemma {:induction false} AsMessagesAt(messages: seq<ConversationMessage>, k: nat)
    requires k < |messages|
    ensures |AsMessages(messages)| == |messages| && AsMessages(messages)[k] == AsMessage(messages[k])
  {
    AsMessagesElements(messages, AsMessage(messages[k]));
    if k > 0 {
      AsMessagesAt(messages[1..], k - 1);
    }
  }

  // The shown message of a conversation message.
  predicate Shows(shown: Message, m: ConversationMessage) {
    && shown.content == m.content && shown.timestamp == m.createdAt && shown.id == "canonical-" + m.messageId
    && shown.role == (if m.fromHuman then human else assistant)
  }

  /** Six messages at most, or all there are, in the order of their times and where these coincide in the order of the conversation, each with the content, time and speaker of its own. */
  lemma StartingMessages(lc: Collation, messages: seq<ConversationMessage>) returns (kept: seq<ConversationMessage>)
    requires IsCollation(lc) && DistinctConversation(messages)
    ensures var log := CanonicalMessages(lc, messages);
            && |log| == |kept| == (if |messages| < 6 then |messages| else 6)
            && (forall k :: 0 <= k < |kept| ==> kept[k] in messages && Shows(log[k], kept[k]))
            && (forall i, j :: 0 <= i < j < |kept| ==>
                  && lc(kept[i].createdAt, kept[j].createdAt) <= 0
                  && (kept[i].createdAt == kept[j].createdAt ==> StandsBefore(messages, kept[i], kept[j])))
  {
    var all := Sort(ByCreation(lc), messages);
    SortedElements(ByCreation(lc), messages);
    kept := Last(6, all);
    AsMessagesElements(kept, Message("", "", system, ""));
    forall k | 0 <= k < |kept| ensures kept[k] in messages && Shows(AsMessages(kept)[k], kept[k]) {
      AsMessagesAt(kept, k);
      LastIsPart(6, all, kept[k]);
    }
    forall i, j | 0 <= i < j < |kept|
      ensures lc(kept[i].createdAt, kept[j].createdAt) <= 0
      ensures kept[i].createdAt == kept[j].createdAt ==> StandsBefore(messages, kept[i], kept[j])
    {
      KeptStandAsSorted(lc, messages, i, j);
    }
  }

  lemma KeptStandAsSorted(lc: Collation, messages: seq<ConversationMessage>, i: nat, j: nat)
    requires IsCollation(lc) && DistinctConversation(messages) && i < j < |Last(6, Sort(ByCreation(lc), messages))|
    ensures var kept := Last(6, Sort(ByCreation(lc), messages));
            && lc(kept[i].createdAt, kept[j].createdAt) <= 0
            && (kept[i].createdAt == kept[j].createdAt ==> StandsBefore(messages, kept[i], kept[j]))
  {
    var all := Sort(ByCreation(lc), messages);
    var kept := Last(6, all);
    ConversationIsSorted(lc, messages);
    LastKeepsOrder(6, ByCreation(lc), all, i, j);
    if kept[i].createdAt == kept[j].createdAt {
      TiesStandAsListed(lc, messages, kept[i], kept[j]);
    }
  }

  lemma TiesStandAsListed(lc: Collation, messages: seq<ConversationMessage>, a: ConversationMessage, b: ConversationMessage)
    requires IsCollation(lc) && DistinctConversation(messages)
    requires a.createdAt == b.createdAt && StandsBefore(Sort(ByCreation(lc), messages), a, b)
    ensures StandsBefore(messages, a, b)
  {
    ByCreationIsOrder(lc);
    ConversationIsSorted(lc, messages);
    SortedElements(ByCreation(lc), messages);
    ConversationIsDistinct(messages);
    SortIsStable(ByCreation(lc), messages, a, b);
  }

  lemma ConversationIsDistinct(messages: seq<ConversationMessage>)
    requires DistinctConversation(messages)
    ensures Distinct(messages)
  {
    forall i, j | 0 <= i < j < |messages| ensures messages[i] != messages[j] {
      assert messages[i].messageId != messages[j].messageId;
    }
  }

  /** The panel starts with messages that fewer than six others come after, and with all of these exactly when they are six at most. */
  lemma CanonicalAreTheSixLatest(lc: Collation, messages: seq<ConversationMessage>)
    requires IsCollation(lc) && DistinctConversation(messages)
    ensures var latest := Newest(6, ByCreation(lc), Elements(messages));
            && Starters(lc, messages) <= latest
            && (Starters(lc, messages) == latest <==> |latest| <= 6)
  {
    var all := Sort(ByCreation(lc), messages);
    ByCreationIsOrder(lc);
    ConversationIsSorted(lc, messages);
    NewestAreKeptExactly(6, ByCreation(lc), all);
    StartersAreKept(lc, messages);
  }

  lemma StartersAreKept(lc: Collation, messages: seq<ConversationMessage>)
    requires IsCollation(lc) && DistinctConversation(messages)
    ensures Starters(lc, messages) == Elements(Last(6, Sort(ByCreation(lc), messages)))
  {
    forall m ensures m in Starters(lc, messages) <==> m in Last(6, Sort(ByCreation(lc), messages)) {
      StartsExactly(lc, messages, m);
    }
  }
}
