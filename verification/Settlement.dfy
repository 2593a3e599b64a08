/**
  From a locked queue message to the reconcile queue: the receive loop, the event handler that
  feeds a bounded channel, and the settlement of each message.
 */
module Settlement {
  import opened Options

  /** The part of a rotation event that selects policies. */
  datatype Event = Event(objectName: string, policyName: string)

  datatype ListedPolicy = ListedPolicy(name: string, objectName: string)

  /**
    How many events the controller takes from the channel before the send, and whether the send is
    chosen when there is room.
   */
  datatype SendAnswer = SendAnswer(taken: nat, chosen: bool)

  /**
    A delivery and what its calls answer: None for a body that does not parse and for a failing
    list call, and the results of completing and of abandoning the message.
   */
  datatype Delivery = Delivery(
    event: Option<Event>, listed: Option<seq<ListedPolicy>>, sends: seq<SendAnswer>, complete: bool, abandon: bool)

  datatype Batch = ReceiveFailed | Received(messages: seq<Delivery>)

  /** What the outside sees, by the number of the delivery. */
  datatype Action =
    | Enqueued(id: nat, policy: string)
    | Completed(id: nat)
    | CompleteFailed(id: nat)
    | AbandonTried(id: nat, ok: bool)

  // ---------------------------------------------------------------- what should happen

  predicate Matches(e: Event, p: ListedPolicy) {
    e.objectName == "" || p.objectName == e.objectName || p.name == e.policyName
  }

  function Matching(e: Event, listed: seq<ListedPolicy>): seq<string> {
    if |listed| == 0 then []
    else (if Matches(e, listed[0]) then [listed[0].name] else []) + Matching(e, listed[1..])
  }

  function Taken(channel: seq<string>, n: nat): seq<string> {
    if n <= |channel| then channel[n..] else []
  }

  function SendAt(sends: seq<SendAnswer>, i: nat): SendAnswer {
    if i < |sends| then sends[i] else SendAnswer(0, true)
  }

  /** The channel after some sends, and how many events went through. */
  datatype Sent = Sent(channel: seq<string>, count: nat)

  /** Sends the names in turn until one send fails. */
  function SendAll(capacity: nat, channel: seq<string>, names: seq<string>, sends: seq<SendAnswer>, i: nat): Sent
    decreases |names|
  {
    if |names| == 0 then Sent(channel, 0)
    else
      var room := Taken(channel, SendAt(sends, i).taken);
      if SendAt(sends, i).chosen && |room| < capacity then
        var rest := SendAll(capacity, room + [names[0]], names[1..], sends, i + 1);
        Sent(rest.channel, rest.count + 1)
      else Sent(room, 0)
  }

  function Enqueues(id: nat, names: seq<string>): seq<Action> {
    seq(|names|, i requires 0 <= i < |names| => Enqueued(id, names[i]))
  }

  lemma SendAllBounds(capacity: nat, channel: seq<string>, names: seq<string>, sends: seq<SendAnswer>, i: nat)
    ensures SendAll(capacity, channel, names, sends, i).count <= |names|
    ensures |channel| <= capacity ==> |SendAll(capacity, channel, names, sends, i).channel| <= capacity
    decreases |names|
  {
    if |names| > 0 {
      SendAllBounds(capacity, Taken(channel, SendAt(sends, i).taken) + [names[0]], names[1..], sends, i + 1);
    }
  }

  datatype Settled = Settled(channel: seq<string>, actions: seq<Action>)

  function Settle(capacity: nat, channel: seq<string>, id: nat, m: Delivery): Settled {
    if m.event.None? || m.listed.None? then Settled(channel, [AbandonTried(id, m.abandon)])
    else
      var names := Matching(m.event.value, m.listed.value);
      var sent := SendAll(capacity, channel, names, m.sends, 0);
      SendAllBounds(capacity, channel, names, m.sends, 0);
      Settled(sent.channel,
              Enqueues(id, names[..sent.count]) +
              if sent.count < |names| then [AbandonTried(id, m.abandon)]
              else if m.complete then [Completed(id)]
              else [CompleteFailed(id), AbandonTried(id, m.abandon)])
  }

  /** Deliveries in order, numbered from `first`. */
  function SettleAll(capacity: nat, channel: seq<string>, first: nat, ms: seq<Delivery>): Settled
    decreases |ms|
  {
    if |ms| == 0 then Settled(channel, [])
    else
      var last := |ms| - 1;
      var before := SettleAll(capacity, channel, first, ms[..last]);
      var one := Settle(capacity, before.channel, first + last, ms[last]);
      Settled(one.channel, before.actions + one.actions)
  }

  lemma SettleNext(capacity: nat, channel: seq<string>, log: seq<Action>, first: nat, ms: seq<Delivery>, m: Delivery)
    ensures var before := SettleAll(capacity, channel, first, ms);
      var one := Settle(capacity, before.channel, first + |ms|, m);
      var after := SettleAll(capacity, channel, first, ms + [m]);
      after.channel == one.channel && log + after.actions == log + before.actions + one.actions
  {
    assert (ms + [m])[..|ms|] == ms && (ms + [m])[|ms|] == m;
  }

  function Deliveries(batches: seq<Batch>): seq<Delivery> {
    if |batches| == 0 then []
    else (if batches[0].Received? then batches[0].messages else []) + Deliveries(batches[1..])
  }

  // ---------------------------------------------------------------- the code

  class Listener {
    const capacity: nat
    var handlerSet: bool
    var channel: seq<string>
    var log: seq<Action>
    var next: nat

    constructor (eventBufferSize: int)
      ensures capacity == if eventBufferSize <= 0 then 1000 else eventBufferSize
      ensures !handlerSet && channel == [] && log == [] && next == 0
    {
      capacity := if eventBufferSize <= 0 then 1000 else eventBufferSize;
      handlerSet, channel, log, next := false, [], [], 0;
    }

    method SetEventHandler()
      modifies this`handlerSet
      ensures handlerSet
    {
      handlerSet := true;
    }

    /** Sends one event, unless the channel stays full or the context ends first. */
    method Send(policy: string, answer: SendAnswer) returns (sent: bool)
      modifies this`channel, this`log
      ensures var room := Taken(old(channel), answer.taken);
        && sent == (answer.chosen && |room| < capacity)
        && channel == (if sent then room + [policy] else room)
        && log == (if sent then old(log) + [Enqueued(next, policy)] else old(log))
    {
      channel := Taken(channel, answer.taken);
      sent := answer.chosen && |channel| < capacity;
      if sent {
        channel := channel + [policy];
        log := log + [Enqueued(next, policy)];
      }
    }

    /** Goes through the listed policies and enqueues those that match, until a send fails. */
    method EnqueueMatching(e: Event, policies: seq<ListedPolicy>, sends: seq<SendAnswer>) returns (all: bool)
      modifies this`channel, this`log
      ensures var names := Matching(e, policies);
        var sent := SendAll(capacity, old(channel), names, sends, 0);
        && sent.count <= |names| && all == (sent.count == |names|)
        && channel == sent.channel && log == old(log) + Enqueues(next, names[..sent.count])
    {
      hide SendAll, Matching, Enqueues;
      ghost var names := Matching(e, policies);
      ghost var goal := SendAll(capacity, channel, names, sends, 0);
      SendAllBounds(capacity, channel, names, sends, 0);
      NothingSent(next, names, e, policies);
      var matched := 0;
      for i := 0 to |policies|
        invariant 0 <= matched <= |names|
        invariant names[matched..] == Matching(e, policies[i..])
        invariant log == old(log) + Enqueues(next, names[..matched])
        invariant Reaches(goal, SendAll(capacity, channel, names[matched..], sends, matched), matched)
      {
        MatchingFrom(e, policies, i);
        if Matches(e, policies[i]) {
          NamesFrom(names, matched, policies[i].name, Matching(e, policies[i + 1..]));
          SendNext(goal, capacity, channel, names, sends, matched);
          var sent := Send(policies[i].name, SendAt(sends, matched));
          if !sent {
            return false;
          }
          EnqueuesNext(old(log), next, names, matched);
          matched := matched + 1;
        }
      }
      AllSent(goal, capacity, channel, names, sends, matched, e, policies);
      return true;
    }

    /** The handler: enqueue every matching policy, then acknowledge; any failure is an error. */
    method Handle(m: Delivery) returns (ok: bool)
      modifies this`channel, this`log
      ensures var s := Settle(capacity, old(channel), next, m);
        && channel == s.channel
        && log + (if ok then [] else [AbandonTried(next, m.abandon)]) == old(log) + s.actions
    {
      if m.event.None? {
        return false;
      }
      if m.listed.None? {
        return false;
      }
      ghost var names := Matching(m.event.value, m.listed.value);
      var all := EnqueueMatching(m.event.value, m.listed.value, m.sends);
      if !all {
        return false;
      }
      assert names[..|names|] == names;
      ok := m.complete;
      log := log + [if ok then Completed(next) else CompleteFailed(next)];
    }

    /** One received message: hand it on, and give up its lock if that fails. */
    method Process(m: Delivery)
      requires handlerSet
      modifies this`channel, this`log, this`next
      ensures var s := Settle(capacity, old(channel), old(next), m);
        channel == s.channel && log == old(log) + s.actions && next == old(next) + 1
    {
      var ok := Handle(m);
      if !ok {
        log := log + [AbandonTried(next, m.abandon)];
      }
      next := next + 1;
    }

    /** One received batch, message by message; the ghost arguments say where the run began and what it has handled. */
    method ProcessBatch(messages: seq<Delivery>,
                        ghost channel0: seq<string>, ghost log0: seq<Action>, ghost next0: nat, ghost done: seq<Delivery>)
      requires Handled(channel0, log0, next0, done)
      modifies this`channel, this`log, this`next
      ensures Handled(channel0, log0, next0, done + messages)
    {
      hide SettleAll, Settle;
      assert done + messages[..0] == done;
      for i := 0 to |messages|
        invariant Handled(channel0, log0, next0, done + messages[..i])
      {
        if handlerSet {
          Process(messages[i]);
        }
        SettleNext(capacity, channel0, log0, next0, done + messages[..i], messages[i]);
        assert done + messages[..i] + [messages[i]] == done + messages[..i + 1];
      }
      assert messages[..|messages|] == messages;
    }

    /** The receive loop, until the context is cancelled after the given batches. */
    method Start(batches: seq<Batch>)
      modifies this`channel, this`log, this`next
      ensures handlerSet ==>
        var s := SettleAll(capacity, old(channel), old(next), Deliveries(batches));
        channel == s.channel && log == old(log) + s.actions
      ensures !handlerSet ==> channel == old(channel) && log == old(log)
    {
      hide SettleAll, Deliveries;
      ghost var done: seq<Delivery> := [];
      NothingSettled(capacity, channel, next, batches);
      for b := 0 to |batches|
        invariant done + Deliveries(batches[b..]) == Deliveries(batches)
        invariant Handled(old(channel), old(log), old(next), done)
      {
        DeliveriesFrom(batches, b);
        if batches[b].ReceiveFailed? {
          continue;
        }
        ProcessBatch(batches[b].messages, old(channel), old(log), old(next), done);
        done := done + batches[b].messages;
      }
      assert done == Deliveries(batches);
    }

    /** Where the listener stands after the given deliveries. */
    ghost predicate Handled(channel0: seq<string>, log0: seq<Action>, next0: nat, done: seq<Delivery>)
      reads this
    {
      if handlerSet then
        var s := SettleAll(capacity, channel0, next0, done);
        channel == s.channel && log == log0 + s.actions && next == next0 + |done|
      else channel == channel0 && log == log0 && next == next0
    }
  }

  lemma NothingSettled(capacity: nat, channel: seq<string>, first: nat, batches: seq<Batch>)
    ensures SettleAll(capacity, channel, first, []) == Settled(channel, [])
    ensures batches[0..] == batches && Deliveries(batches[|batches|..]) == []
  {
  }

  lemma DeliveriesFrom(batches: seq<Batch>, b: nat)
    requires b < |batches|
    ensures Deliveries(batches[b..]) ==
            (if batches[b].Received? then batches[b].messages else []) + Deliveries(batches[b + 1..])
  {
    assert batches[b..][1..] == batches[b + 1..];
  }

  lemma NothingSent(id: nat, names: seq<string>, e: Event, policies: seq<ListedPolicy>)
    ensures names[0..] == names && policies[0..] == policies && Enqueues(id, names[..0]) == []
  {
  }

  lemma AllSent(goal: Sent, capacity: nat, channel: seq<string>, names: seq<string>, sends: seq<SendAnswer>, k: nat,
                e: Event, policies: seq<ListedPolicy>)
    requires k <= |names| && names[k..] == Matching(e, policies[|policies|..])
    requires Reaches(goal, SendAll(capacity, channel, names[k..], sends, k), k)
    ensures k == |names| && goal == Sent(channel, k)
  {
    assert policies[|policies|..] == [];
  }

  lemma MatchingFrom(e: Event, policies: seq<ListedPolicy>, i: nat)
    requires i < |policies|
    ensures Matching(e, policies[i..]) ==
            (if Matches(e, policies[i]) then [policies[i].name] else []) + Matching(e, policies[i + 1..])
  {
    assert policies[i..][1..] == policies[i + 1..];
  }

  lemma NamesFrom(names: seq<string>, k: nat, name: string, rest: seq<string>)
    requires k <= |names| && names[k..] == [name] + rest
    ensures k < |names| && names[k] == name && names[k + 1..] == rest
  {
    assert names[k..][0] == name && names[k..][1..] == rest;
  }

  lemma EnqueuesNext(log: seq<Action>, id: nat, names: seq<string>, k: nat)
    requires k < |names|
    ensures log + Enqueues(id, names[..k + 1]) == log + Enqueues(id, names[..k]) + [Enqueued(id, names[k])]
  {
  }

  /** A run that has sent k events and has `rest` before it ends as the goal says. */
  predicate Reaches(goal: Sent, rest: Sent, k: nat) {
    goal == Sent(rest.channel, rest.count + k)
  }

  lemma SendNext(goal: Sent, capacity: nat, channel: seq<string>, names: seq<string>, sends: seq<SendAnswer>, k: nat)
    requires k < |names|
    requires Reaches(goal, SendAll(capacity, channel, names[k..], sends, k), k)
    ensures var room := Taken(channel, SendAt(sends, k).taken);
      if SendAt(sends, k).chosen && |room| < capacity
      then Reaches(goal, SendAll(capacity, room + [names[k]], names[k + 1..], sends, k + 1), k + 1)
      else goal == Sent(room, k)
  {
    assert names[k..][0] == names[k] && names[k..][1..] == names[k + 1..];
  }

  // ---------------------------------------------------------------- exactly one settlement

  predicate Settles(a: Action, id: nat) {
    a == Completed(id) || (a.AbandonTried? && a.id == id)
  }

  /** How often a delivery is completed or its abandonment attempted. */
  function Settlements(log: seq<Action>, id: nat): nat {
    if |log| == 0 then 0 else (if Settles(log[0], id) then 1 else 0) + Settlements(log[1..], id)
  }

  lemma SettlementsConcat(a: seq<Action>, b: seq<Action>, id: nat)
    ensures Settlements(a + b, id) == Settlements(a, id) + Settlements(b, id)
  {
    if |a| == 0 {
      assert a + b == b;
    } else {
      assert (a + b)[1..] == a[1..] + b;
      SettlementsConcat(a[1..], b, id);
    }
  }

  lemma NoneSettles(log: seq<Action>, id: nat)
    requires forall i :: 0 <= i < |log| ==> !Settles(log[i], id)
    ensures Settlements(log, id) == 0
  {
  }

  lemma SettledOnce(capacity: nat, channel: seq<string>, id: nat, m: Delivery, other: nat)
    ensures Settlements(Settle(capacity, channel, id, m).actions, other) == if other == id then 1 else 0
  {
    var actions := Settle(capacity, channel, id, m).actions;
    var last := actions[|actions| - 1];
    assert actions == actions[..|actions| - 1] + [last];
    NoneSettles(actions[..|actions| - 1], other);
    SettlementsConcat(actions[..|actions| - 1], [last], other);
    assert [last][1..] == [];
  }

  /** Over any sequence of batches each handled delivery ends in exactly one completion or abandon attempt. */
  lemma {:induction false} EachDeliverySettlesOnce(capacity: nat, channel: seq<string>, first: nat,
                                                   ms: seq<Delivery>, id: nat)
    ensures Settlements(SettleAll(capacity, channel, first, ms).actions, id) == if first <= id < first + |ms| then 1 else 0
    decreases |ms|
  {
    if |ms| > 0 {
      var last := |ms| - 1;
      var before := SettleAll(capacity, channel, first, ms[..last]);
      EachDeliverySettlesOnce(capacity, channel, first, ms[..last], id);
      SettledOnce(capacity, before.channel, first + last, ms[last], id);
      SettlementsConcat(before.actions, Settle(capacity, before.channel, first + last, ms[last]).actions, id);
    }
  }

  lemma {:induction false} ChannelStaysWithinCapacity(capacity: nat, channel: seq<string>, first: nat,
                                                      ms: seq<Delivery>)
    requires |channel| <= capacity
    ensures |SettleAll(capacity, channel, first, ms).channel| <= capacity
    decreases |ms|
  {
    if |ms| > 0 {
      var last := |ms| - 1;
      ChannelStaysWithinCapacity(capacity, channel, first, ms[..last]);
      var before := SettleAll(capacity, channel, first, ms[..last]);
      if ms[last].event.Some? && ms[last].listed.Some? {
        SendAllBounds(capacity, before.channel, Matching(ms[last].event.value, ms[last].listed.value), ms[last].sends, 0);
      }
    }
  }

  // ---------------------------------------------------------------- completion comes last

  /** Some policy's event was enqueued for the delivery before position i. */
  ghost predicate EnqueuedBefore(log: seq<Action>, i: nat, id: nat, policy: string) {
    exists j :: 0 <= j < i && j < |log| && log[j] == Enqueued(id, policy)
  }

  lemma MatchingIsComplete(e: Event, listed: seq<ListedPolicy>, p: ListedPolicy)
    requires p in listed && Matches(e, p)
    ensures p.name in Matching(e, listed)
  {
    if listed[0] != p {
      assert listed == [listed[0]] + listed[1..];
      MatchingIsComplete(e, listed[1..], p);
    }
  }

  lemma CompletedLast(capacity: nat, channel: seq<string>, id: nat, m: Delivery, i: nat, p: ListedPolicy)
    requires var log := Settle(capacity, channel, id, m).actions; i < |log| && log[i].Completed?
    ensures m.event.Some? && m.listed.Some?
    ensures Settle(capacity, channel, id, m).actions[i] == Completed(id)
    ensures p in m.listed.value && Matches(m.event.value, p) ==>
      EnqueuedBefore(Settle(capacity, channel, id, m).actions, i, id, p.name)
  {
    var log := Settle(capacity, channel, id, m).actions;
    var names := Matching(m.event.value, m.listed.value);
    var sent := SendAll(capacity, channel, names, m.sends, 0);
    SendAllBounds(capacity, channel, names, m.sends, 0);
    assert log[..sent.count] == Enqueues(id, names[..sent.count]);
    assert forall k :: 0 <= k < sent.count ==> log[k].Enqueued?;
    assert i == sent.count == |names| && names[..|names|] == names;
    if p in m.listed.value && Matches(m.event.value, p) {
      MatchingIsComplete(m.event.value, m.listed.value, p);
      var j :| 0 <= j < |names| && names[j] == p.name;
      assert log[j] == Enqueued(id, p.name);
    }
  }

  lemma EnqueuedInPart(a: seq<Action>, b: seq<Action>, i: nat, id: nat, policy: string)
    ensures EnqueuedBefore(a, i, id, policy) && i <= |a| ==> EnqueuedBefore(a + b, i, id, policy)
    ensures EnqueuedBefore(b, i, id, policy) ==> EnqueuedBefore(a + b, |a| + i, id, policy)
  {
    if EnqueuedBefore(a, i, id, policy) && i <= |a| {
      var j :| 0 <= j < i && j < |a| && a[j] == Enqueued(id, policy);
      assert (a + b)[j] == Enqueued(id, policy);
    }
    if EnqueuedBefore(b, i, id, policy) {
      var j :| 0 <= j < i && j < |b| && b[j] == Enqueued(id, policy);
      assert (a + b)[|a| + j] == Enqueued(id, policy);
    }
  }

  /** What a delivery of the run promises if it is the one completed at position i. */
  ghost predicate Backed(log: seq<Action>, i: nat, first: nat, ms: seq<Delivery>, id: nat, p: ListedPolicy) {
    && first <= id < first + |ms|
    && var m := ms[id - first];
    && m.event.Some? && m.listed.Some?
    && (p in m.listed.value && Matches(m.event.value, p) ==> EnqueuedBefore(log, i, id, p.name))
  }

  /**
    A completed delivery was handed on in full: every listed policy that its event matches was
    enqueued for it before the completion.
   */
  lemma {:induction false} CompletionMeansEnqueued(capacity: nat, channel: seq<string>, first: nat,
                                                   ms: seq<Delivery>, i: nat, id: nat, p: ListedPolicy)
    requires var log := SettleAll(capacity, channel, first, ms).actions; i < |log| && log[i] == Completed(id)
    ensures Backed(SettleAll(capacity, channel, first, ms).actions, i, first, ms, id, p)
    decreases |ms|
  {
    var last := |ms| - 1;
    var before := SettleAll(capacity, channel, first, ms[..last]);
    var one := Settle(capacity, before.channel, first + last, ms[last]);
    var n := |before.actions|;
    assert SettleAll(capacity, channel, first, ms).actions == before.actions + one.actions;
    if i < n {
      assert before.actions[i] == Completed(id);
      CompletionMeansEnqueued(capacity, channel, first, ms[..last], i, id, p);
      EnqueuedInPart(before.actions, one.actions, i, id, p.name);
    } else {
      assert one.actions[i - n] == Completed(id);
      CompletedLast(capacity, before.channel, first + last, ms[last], i - n, p);
      EnqueuedInPart(before.actions, one.actions, i - n, id, p.name);
    }
  }
}
