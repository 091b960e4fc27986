/**
 * Messages of the assistant panel, and the map by id that a merge fills.
 *
 * The map keeps the order of insertion: a known id keeps its place and gets the new message,
 * an unknown one goes to the end. A log is the list of the values of such a map.
 *
 * Proved here: a filled log has each id once, and holds exactly the last message that was
 * written under each id; filling it group by group or from the concatenation of the groups is
 * the same; and a permutation of a log has each id once as well.
 */
module MessageLog {
  import opened Sorting
  import opened Lists

  datatype Speaker = assistant | human | system

  datatype Message = Message(content: string, id: string, role: Speaker, timestamp: string)

  type Group = seq<Message>

  // `Map.set`: a known id keeps its place.
  function Put(log: Group, message: Message): Group {
    if log == [] then [message]
    else if log[0].id == message.id then [message] + log[1..]
    else [log[0]] + Put(log[1..], message)
  }

  function PutAll(log: Group, messages: Group): Group {
    if messages == [] then log
    else Put(PutAll(log, messages[..|messages| - 1]), messages[|messages| - 1])
  }

  function Flatten(groups: seq<Group>): Group {
    if groups == [] then [] else Flatten(groups[..|groups| - 1]) + groups[|groups| - 1]
  }

  function ById(groups: seq<Group>): Group {
    PutAll([], Flatten(groups))
  }

  lemma {:induction false} FlattenAppends(groups: seq<Group>, others: seq<Group>)
    ensures Flatten(groups + others) == Flatten(groups) + Flatten(others)
  {
    if others == [] {
      assert groups + others == groups;
    } else {
      var init := others[..|others| - 1];
      FlattenAppends(groups, init);
      assert (groups + others)[..|groups + others| - 1] == groups + init;
    }
  }

  lemma FlattenOne(group: Group)
    ensures Flatten([group]) == group
  {}

  ghost predicate OnePerId(log: Group) {
    forall i, j :: 0 <= i < j < |log| ==> log[i].id != log[j].id
  }

  lemma {:induction false} PutElements(log: Group, message: Message, e: Message)
    requires OnePerId(log)
    ensures e in Put(log, message) <==> e == message || (e in log && e.id != message.id)
  {
    if log != [] {
      assert log == [log[0]] + log[1..];
      if log[0].id != message.id {
        PutElements(log[1..], message, e);
      }
    }
  }

  lemma {:induction false} PutKeepsUnique(log: Group, message: Message)
    requires OnePerId(log)
    ensures OnePerId(Put(log, message))
  {
    if log != [] && log[0].id != message.id {
      PutKeepsUnique(log[1..], message);
      var rest := Put(log[1..], message);
      forall j | 0 <= j < |rest| ensures rest[j].id != log[0].id {
        PutElements(log[1..], message, rest[j]);
      }
    }
  }

  // e is the last message written under its id.
  ghost predicate LastWrite(messages: Group, e: Message) {
    exists i :: 0 <= i < |messages| && messages[i] == e && forall j :: i < j < |messages| ==> messages[j].id != e.id
  }

  lemma LastWriteSnoc(messages: Group, message: Message, e: Message)
    ensures LastWrite(messages + [message], e) <==> e == message || (LastWrite(messages, e) && e.id != message.id)
  {
    var all := messages + [message];
    if LastWrite(messages, e) && e.id != message.id {
      var i :| 0 <= i < |messages| && messages[i] == e && forall j :: i < j < |messages| ==> messages[j].id != e.id;
      assert all[i] == e;
    }
    if e == message { assert all[|messages|] == e; }
    if LastWrite(all, e) && e != message {
      var i :| 0 <= i < |all| && all[i] == e && forall j :: i < j < |all| ==> all[j].id != e.id;
      assert messages[i] == e && all[|messages|].id != e.id;
      forall j | i < j < |messages| ensures messages[j].id != e.id { assert all[j].id != e.id; }
    }
  }

  lemma {:induction false} PutAllIsLastWrites(messages: Group, e: Message)
    ensures OnePerId(PutAll([], messages))
    ensures e in PutAll([], messages) <==> LastWrite(messages, e)
  {
    if messages != [] {
      var init, last := messages[..|messages| - 1], messages[|messages| - 1];
      PutAllIsLastWrites(init, e);
      PutElements(PutAll([], init), last, e);
      PutKeepsUnique(PutAll([], init), last);
      LastWriteSnoc(init, last, e);
      assert messages == init + [last];
    }
  }

  // ---------------------------------------------------------------- where a message stands

  function IdsOf(log: Group): (ids: seq<string>)
    ensures |ids| == |log| && forall i :: 0 <= i < |log| ==> ids[i] == log[i].id
  {
    seq(|log|, i requires 0 <= i < |log| => log[i].id)
  }

  // A known id keeps its place and gets the new message.
  lemma {:induction false} PutKeepsPlace(log: Group, message: Message, i: nat)
    requires OnePerId(log) && i < |log| && log[i].id == message.id
    ensures Put(log, message) == log[i := message]
  {
    if i > 0 {
      PutKeepsPlace(log[1..], message, i - 1);
      assert log == [log[0]] + log[1..];
    }
  }

  lemma PutIds(log: Group, message: Message)
    requires OnePerId(log)
    ensures IdsOf(Put(log, message)) == if message.id in IdsOf(log) then IdsOf(log) else IdsOf(log) + [message.id]
  {
    if message.id in IdsOf(log) {
      var i :| 0 <= i < |log| && IdsOf(log)[i] == message.id;
      PutKeepsPlace(log, message, i);
    } else {
      forall i | 0 <= i < |log| ensures log[i].id != message.id { assert IdsOf(log)[i] == log[i].id; }
      PutNew(log, message);
    }
  }

  // The id a is written before the id b is written for the first time.
  ghost predicate WrittenFirst(messages: Group, a: string, b: string) {
    exists p: nat :: WrittenAt(messages, p, a, b)
  }

  ghost predicate WrittenAt(messages: Group, p: nat, a: string, b: string) {
    p < |messages| && messages[p].id == a && b !in IdsOf(messages[..p + 1])
  }

  lemma WrittenFirstSnoc(messages: Group, last: Message, a: string, b: string)
    ensures WrittenFirst(messages + [last], a, b) <==>
            WrittenFirst(messages, a, b) || (last.id == a && a != b && b !in IdsOf(messages))
  {
    var all := messages + [last];
    assert all[..|messages| + 1] == all && IdsOf(all) == IdsOf(messages) + [last.id];
    forall p: nat | p < |messages| ensures WrittenAt(all, p, a, b) <==> WrittenAt(messages, p, a, b) {
      assert all[..p + 1] == messages[..p + 1];
    }
    assert WrittenAt(all, |messages|, a, b) <==> last.id == a && a != b && b !in IdsOf(messages);
  }

  lemma WrittenAlone(messages: Group, a: string, b: string)
    requires b !in IdsOf(messages)
    ensures WrittenFirst(messages, a, b) <==> a in IdsOf(messages)
  {
    if a in IdsOf(messages) {
      var p :| 0 <= p < |messages| && IdsOf(messages)[p] == a;
      var written := IdsOf(messages[..p + 1]);
      forall q | 0 <= q < |written| ensures written[q] != b {
        assert written[q] == IdsOf(messages)[q];
      }
      assert WrittenAt(messages, p, a, b);
    }
  }

  lemma PutStands(ids: seq<string>, init: Group, last: Message, a: string, b: string)
    requires a != b && (a in ids <==> a in IdsOf(init)) && (b in ids <==> b in IdsOf(init))
    requires last.id in ids <==> last.id in IdsOf(init)
    requires b in ids ==> (StandsBefore(ids, a, b) <==> WrittenFirst(init, a, b))
    ensures var next := if last.id in ids then ids else ids + [last.id];
            b in next ==> (StandsBefore(next, a, b) <==> WrittenFirst(init + [last], a, b))
  {
    WrittenFirstSnoc(init, last, a, b);
    StandsAtEnd(ids, last.id, a, b);
    if b !in ids { WrittenAlone(init, a, b); }
  }

  /** A log stands in the order in which its ids were first written. */
  lemma {:induction false} LogFollowsFirstWrites(messages: Group, a: string, b: string)
    requires a != b
    ensures a in IdsOf(PutAll([], messages)) <==> a in IdsOf(messages)
    ensures b in IdsOf(PutAll([], messages)) ==>
            (StandsBefore(IdsOf(PutAll([], messages)), a, b) <==> WrittenFirst(messages, a, b))
  {
    if messages != [] {
      var init, last := messages[..|messages| - 1], messages[|messages| - 1];
      var log := PutAll([], init);
      assert messages == init + [last];
      assert IdsOf(messages) == IdsOf(init) + [last.id];
      PutAllIsLastWrites(init, last);
      PutIds(log, last);
      LogFollowsFirstWrites(init, a, b);
      LogFollowsFirstWrites(init, b, a);
      if last.id != a { LogFollowsFirstWrites(init, last.id, a); }
      PutStands(IdsOf(log), init, last, a, b);
    }
  }

  lemma UniqueIsDistinct(log: Group)
    requires OnePerId(log)
    ensures Distinct(log)
  {
    forall i, j | 0 <= i < j < |log| ensures log[i] != log[j] {
      assert log[i].id != log[j].id;
    }
  }

  // A list with each id once fills the map with itself.
  lemma {:induction false} UniqueIsLog(log: Group)
    requires OnePerId(log)
    ensures PutAll([], log) == log
  {
    if log != [] {
      var init, last := log[..|log| - 1], log[|log| - 1];
      UniqueIsLog(init);
      PutNew(init, last);
      assert log == init + [last];
    }
  }

  // An unknown id goes to the end.
  lemma {:induction false} PutNew(log: Group, message: Message)
    requires forall i :: 0 <= i < |log| ==> log[i].id != message.id
    ensures Put(log, message) == log + [message]
  {
    if log != [] {
      PutNew(log[1..], message);
      assert log == [log[0]] + log[1..];
    }
  }

  lemma OnePerIdStays(xs: Group, ys: Group)
    requires OnePerId(xs) && multiset(xs) == multiset(ys)
    ensures OnePerId(ys)
  {
    UniqueIsDistinct(xs);
    DistinctStays(xs, ys);
    SameElements(xs, ys);
    forall i, j | 0 <= i < j < |ys| ensures ys[i].id != ys[j].id {
      assert ys[i] in ys && ys[j] in ys;
      var p :| 0 <= p < |xs| && xs[p] == ys[i];
      var q :| 0 <= q < |xs| && xs[q] == ys[j];
      assert p != q;
    }
  }

  lemma {:induction false} EveryIdHasALastWrite(messages: Group, e: Message) returns (last: Message)
    requires e in messages
    ensures LastWrite(messages, last) && last.id == e.id && last in messages
  {
    var init, m := messages[..|messages| - 1], messages[|messages| - 1];
    assert messages == init + [m];
    if m.id == e.id {
      last := m;
    } else {
      last := EveryIdHasALastWrite(init, e);
    }
    LastWriteSnoc(init, m, last);
  }

  lemma {:induction false} PutAllAppends(log: Group, a: Group, b: Group)
    ensures PutAll(log, a + b) == PutAll(PutAll(log, a), b)
  {
    if b == [] {
      assert a + b == a;
    } else {
      assert (a + b)[..|a + b| - 1] == a + b[..|b| - 1];
      PutAllAppends(log, a, b[..|b| - 1]);
    }
  }

  lemma FlattenNext(groups: seq<Group>, i: nat)
    requires i < |groups|
    ensures Flatten(groups[..i + 1]) == Flatten(groups[..i]) + groups[i]
  {
    assert groups[..i + 1][..i] == groups[..i];
  }
}
