/**
  What the receive loop achieves over any sequence of deliveries: which policies are woken, which
  deliveries are completed, and that the channel is a queue.
 */
module SettlementRuns {
  import opened Settlement

  // ---------------------------------------------------------------- which policies an event is for

  /** The event names no object, the policy's object, or the policy itself. */
  predicate Concerns(e: Event, p: ListedPolicy) {
    e.objectName in {"", p.objectName} || e.policyName == p.name
  }

  /** Of the listed policies exactly those that the event concerns are matched, in the order of the list. */
  lemma {:induction false} MatchingIsTheConcerned(e: Event, a: seq<ListedPolicy>, p: ListedPolicy, b: seq<ListedPolicy>)
    ensures Matching(e, a + [p] + b) == Matching(e, a) + (if Concerns(e, p) then [p.name] else []) + Matching(e, b)
    ensures Matching(e, []) == []
    decreases |a|
  {
    if |a| == 0 {
      assert a + [p] + b == [p] + b && ([p] + b)[1..] == b;
    } else {
      assert (a + [p] + b)[1..] == a[1..] + [p] + b && (a + [p] + b)[0] == a[0];
      MatchingIsTheConcerned(e, a[1..], p, b);
    }
  }

  lemma {:induction false} MatchedIsConcerned(e: Event, listed: seq<ListedPolicy>, k: nat)
    requires k < |Matching(e, listed)|
    ensures exists i :: 0 <= i < |listed| && Concerns(e, listed[i]) && listed[i].name == Matching(e, listed)[k]
    decreases |listed|
  {
    var head := if Matches(e, listed[0]) then [listed[0].name] else [];
    if k >= |head| {
      MatchedIsConcerned(e, listed[1..], k - |head|);
      var i :| 0 <= i < |listed[1..]| && Concerns(e, listed[1..][i]) && listed[1..][i].name == Matching(e, listed)[k];
      assert listed[i + 1] == listed[1..][i];
    }
  }

  // ---------------------------------------------------------------- which sends go through

  function Less(n: nat, taken: nat): nat {
    if taken <= n then n - taken else 0
  }

  /** How many events wait before the k-th send from the i-th on, if those before it went through. */
  function Waiting(n: nat, sends: seq<SendAnswer>, i: nat, k: nat): nat {
    Less(if k == 0 then n else Waiting(n, sends, i, k - 1) + 1, SendAt(sends, i + k).taken)
  }

  /** The k-th send finds room and is chosen. */
  predicate GoesThrough(capacity: nat, n: nat, sends: seq<SendAnswer>, i: nat, k: nat) {
    SendAt(sends, i + k).chosen && Waiting(n, sends, i, k) < capacity
  }

  lemma {:induction false} WaitingNext(n: nat, sends: seq<SendAnswer>, i: nat, k: nat)
    ensures Waiting(n, sends, i, k + 1) == Waiting(Waiting(n, sends, i, 0) + 1, sends, i + 1, k)
    decreases k
  {
    if k > 0 {
      WaitingNext(n, sends, i, k - 1);
    }
  }

  lemma SendAllStep(capacity: nat, channel: seq<string>, names: seq<string>, sends: seq<SendAnswer>, i: nat)
    ensures var room := Taken(channel, SendAt(sends, i).taken);
      SendAll(capacity, channel, names, sends, i) ==
      if |names| > 0 && SendAt(sends, i).chosen && |room| < capacity then
        var rest := SendAll(capacity, room + [names[0]], names[1..], sends, i + 1);
        Sent(rest.channel, rest.count + 1)
      else Sent(if |names| > 0 then room else channel, 0)
  {
  }

  /** The k-th send, once the first has gone through, is the one before it of the others. */
  lemma GoesNext(capacity: nat, n: nat, sends: seq<SendAnswer>, i: nat, k: nat)
    requires k > 0
    ensures GoesThrough(capacity, n, sends, i, k)
       <==> GoesThrough(capacity, Less(n, SendAt(sends, i).taken) + 1, sends, i + 1, k - 1)
  {
    WaitingNext(n, sends, i, k - 1);
  }

  lemma TakenIsLess(channel: seq<string>, taken: nat)
    ensures |Taken(channel, taken)| == Less(|channel|, taken)
  {
  }

  lemma GoesFirst(capacity: nat, n: nat, sends: seq<SendAnswer>, i: nat)
    ensures GoesThrough(capacity, n, sends, i, 0) <==> SendAt(sends, i).chosen && Less(n, SendAt(sends, i).taken) < capacity
  {
  }

  /** The sends go through up to the first that finds no room. */
  lemma {:induction false} SentUntilFull(capacity: nat, channel: seq<string>, names: seq<string>, sends: seq<SendAnswer>, i: nat)
    ensures var count := SendAll(capacity, channel, names, sends, i).count;
      && count <= |names|
      && (forall k :: 0 <= k < count ==> GoesThrough(capacity, |channel|, sends, i, k))
      && (count < |names| ==> !GoesThrough(capacity, |channel|, sends, i, count))
    decreases |names|
  {
    hide SendAll, SendAt, Taken, Less, GoesThrough, Waiting;
    SendAllStep(capacity, channel, names, sends, i);
    if |names| > 0 {
      var room := Taken(channel, SendAt(sends, i).taken);
      TakenIsLess(channel, SendAt(sends, i).taken);
      GoesFirst(capacity, |channel|, sends, i);
      if SendAt(sends, i).chosen && |room| < capacity {
        SentUntilFull(capacity, room + [names[0]], names[1..], sends, i + 1);
        forall k: nat | k > 0
          ensures GoesThrough(capacity, |channel|, sends, i, k) <==> GoesThrough(capacity, |room| + 1, sends, i + 1, k - 1)
        {
          GoesNext(capacity, |channel|, sends, i, k);
        }
      }
    }
  }

  // ---------------------------------------------------------------- the actions of one delivery in a run

  function Id(a: Action): nat {
    a.id
  }

  lemma OwnActions(capacity: nat, channel: seq<string>, id: nat, m: Delivery, a: Action)
    requires a in Settle(capacity, channel, id, m).actions
    ensures Id(a) == id
  {
  }

  /** The channel when a delivery's turn comes. */
  function ChannelAt(capacity: nat, channel: seq<string>, first: nat, ms: seq<Delivery>, id: nat): seq<string>
    requires first <= id <= first + |ms|
  {
    SettleAll(capacity, channel, first, ms[..id - first]).channel
  }

  lemma SettleLast(capacity: nat, channel: seq<string>, first: nat, ms: seq<Delivery>)
    ensures |ms| == 0 ==> SettleAll(capacity, channel, first, ms) == Settled(channel, [])
    ensures |ms| > 0 ==>
      var before := SettleAll(capacity, channel, first, ms[..|ms| - 1]);
      var one := Settle(capacity, before.channel, first + |ms| - 1, ms[|ms| - 1]);
      SettleAll(capacity, channel, first, ms) == Settled(one.channel, before.actions + one.actions)
  {
    hide Settle;
  }

  /** What a run does for a delivery is what settling it in its turn does. */
  lemma {:induction false} ActionsInTurn(capacity: nat, channel: seq<string>, first: nat, ms: seq<Delivery>, a: Action)
    ensures a in SettleAll(capacity, channel, first, ms).actions <==>
      && first <= Id(a) < first + |ms|
      && a in Settle(capacity, ChannelAt(capacity, channel, first, ms, Id(a)), Id(a), ms[Id(a) - first]).actions
    decreases |ms|
  {
    hide Settle, SettleAll;
    SettleLast(capacity, channel, first, ms);
    if |ms| > 0 {
      var last := |ms| - 1;
      ActionsInTurn(capacity, channel, first, ms[..last], a);
      var before := SettleAll(capacity, channel, first, ms[..last]);
      var one := Settle(capacity, before.channel, first + last, ms[last]);
      assert a in SettleAll(capacity, channel, first, ms).actions <==> a in before.actions || a in one.actions;
      if a in one.actions {
        OwnActions(capacity, before.channel, first + last, ms[last], a);
      }
      if first <= Id(a) < first + last {
        assert ms[..last][..Id(a) - first] == ms[..Id(a) - first];
      }
    }
  }

  /** The event can be read, the policies can be listed, and every policy it concerns is enqueued. */
  predicate HandedOn(capacity: nat, waiting: nat, m: Delivery) {
    && m.event.Some? && m.listed.Some?
    && forall k :: 0 <= k < |Matching(m.event.value, m.listed.value)| ==> GoesThrough(capacity, waiting, m.sends, 0, k)
  }

  lemma SettledAs(capacity: nat, channel: seq<string>, id: nat, m: Delivery, ok: bool)
    ensures var actions := Settle(capacity, channel, id, m).actions;
      && (Completed(id) in actions <==> HandedOn(capacity, |channel|, m) && m.complete)
      && (CompleteFailed(id) in actions <==> HandedOn(capacity, |channel|, m) && !m.complete)
      && (AbandonTried(id, ok) in actions <==> ok == m.abandon && !(HandedOn(capacity, |channel|, m) && m.complete))
  {
    hide SendAll, Matching, GoesThrough;
    if m.event.Some? && m.listed.Some? {
      var names := Matching(m.event.value, m.listed.value);
      SentUntilFull(capacity, channel, names, m.sends, 0);
      var sent := SendAll(capacity, channel, names, m.sends, 0);
      assert forall a :: a in Enqueues(id, names[..sent.count]) ==> a.Enqueued?;
    }
  }

  /**
    In any run, a delivery is completed if and only if its event can be read, the policies can be
    listed, each send finds room in the channel as it then is, and the acknowledgement succeeds; a
    failed acknowledgement is noted; and in every other case, and only then, the lock is given up,
    with the answer that the queue gave.
   */
  lemma SettledExactly(capacity: nat, channel: seq<string>, first: nat, ms: seq<Delivery>, id: nat, ok: bool)
    requires first <= id < first + |ms|
    ensures var actions := SettleAll(capacity, channel, first, ms).actions;
      var m, waiting := ms[id - first], |ChannelAt(capacity, channel, first, ms, id)|;
      && (Completed(id) in actions <==> HandedOn(capacity, waiting, m) && m.complete)
      && (CompleteFailed(id) in actions <==> HandedOn(capacity, waiting, m) && !m.complete)
      && (AbandonTried(id, ok) in actions <==> ok == m.abandon && !(HandedOn(capacity, waiting, m) && m.complete))
  {
    hide SettleAll, Settle, HandedOn;
    ActionsInTurn(capacity, channel, first, ms, Completed(id));
    ActionsInTurn(capacity, channel, first, ms, CompleteFailed(id));
    ActionsInTurn(capacity, channel, first, ms, AbandonTried(id, ok));
    SettledAs(capacity, ChannelAt(capacity, channel, first, ms, id), id, ms[id - first], ok);
  }

  /** No policy is woken for a delivery whose event does not concern it. */
  lemma OnlyTheConcernedAreEnqueued(capacity: nat, channel: seq<string>, first: nat, ms: seq<Delivery>, id: nat, policy: string)
    requires Enqueued(id, policy) in SettleAll(capacity, channel, first, ms).actions
    ensures first <= id < first + |ms|
    ensures var m := ms[id - first];
      && m.event.Some? && m.listed.Some?
      && exists i :: 0 <= i < |m.listed.value| && Concerns(m.event.value, m.listed.value[i]) && m.listed.value[i].name == policy
  {
    hide SettleAll, SendAll, Matching, Concerns;
    ActionsInTurn(capacity, channel, first, ms, Enqueued(id, policy));
    var m, at := ms[id - first], ChannelAt(capacity, channel, first, ms, id);
    var names := Matching(m.event.value, m.listed.value);
    var sent := SendAll(capacity, at, names, m.sends, 0);
    SendAllBounds(capacity, at, names, m.sends, 0);
    assert Enqueued(id, policy) in Enqueues(id, names[..sent.count]);
    var k :| 0 <= k < sent.count && names[k] == policy;
    MatchedIsConcerned(m.event.value, m.listed.value, k);
  }

  // ---------------------------------------------------------------- the channel is a queue

  /** The policies enqueued, in order. */
  function Woken(log: seq<Action>): seq<string> {
    if |log| == 0 then [] else (if log[0].Enqueued? then [log[0].policy] else []) + Woken(log[1..])
  }

  lemma {:induction false} WokenConcat(a: seq<Action>, b: seq<Action>)
    ensures Woken(a + b) == Woken(a) + Woken(b)
    decreases |a|
  {
    if |a| == 0 {
      assert a + b == b;
    } else {
      assert (a + b)[1..] == a[1..] + b;
      WokenConcat(a[1..], b);
      Grouped(if a[0].Enqueued? then [a[0].policy] else [], Woken(a[1..]), Woken(b));
    }
  }

  lemma {:induction false} WokenEnqueues(id: nat, names: seq<string>)
    ensures Woken(Enqueues(id, names)) == names
    decreases |names|
  {
    if |names| > 0 {
      assert Enqueues(id, names)[1..] == Enqueues(id, names[1..]);
      WokenEnqueues(id, names[1..]);
    }
  }

  /** The second is what is left of the first when some of its front has been taken away. */
  predicate IsTail(all: seq<string>, left: seq<string>) {
    |left| <= |all| && all[|all| - |left|..] == left
  }

  lemma TailOfTail(a: seq<string>, b: seq<string>, more: seq<string>, c: seq<string>)
    requires IsTail(a, b) && IsTail(b + more, c)
    ensures IsTail(a + more, c)
  {
    var cut := |a| - |b|;
    assert (a + more)[cut..] == b + more;
    assert (a + more)[|a + more| - |c|..] == (a + more)[cut..][|b + more| - |c|..];
  }

  predicate NothingTaken(sends: seq<SendAnswer>) {
    forall i :: 0 <= i < |sends| ==> sends[i].taken == 0
  }

  /** One send: the front of the channel may go, and the name is put at its end. */
  lemma OneSend(channel: seq<string>, taken: nat, name: string, rest: seq<string>, left: seq<string>)
    ensures var room := Taken(channel, taken);
      && IsTail(channel, room) && (taken == 0 ==> room == channel)
      && (IsTail(room + [name] + rest, left) ==> IsTail(channel + ([name] + rest), left))
  {
    var room := Taken(channel, taken);
    assert room + [name] + rest == room + ([name] + rest);
    if IsTail(room + [name] + rest, left) {
      TailOfTail(channel, room, [name] + rest, left);
    }
  }

  lemma NamesNext(names: seq<string>, n: nat)
    requires n < |names|
    ensures [names[0]] + names[1..][..n] == names[..n + 1]
  {
  }

  lemma NothingTakenAt(sends: seq<SendAnswer>, i: nat)
    ensures NothingTaken(sends) ==> SendAt(sends, i).taken == 0
  {
  }

  lemma {:induction false} SentIsQueued(capacity: nat, channel: seq<string>, names: seq<string>, sends: seq<SendAnswer>, i: nat)
    ensures var sent := SendAll(capacity, channel, names, sends, i);
      && sent.count <= |names|
      && IsTail(channel + names[..sent.count], sent.channel)
      && (NothingTaken(sends) ==> sent.channel == channel + names[..sent.count])
    decreases |names|
  {
    hide IsTail, Taken, SendAll, SendAt, NothingTaken;
    SendAllStep(capacity, channel, names, sends, i);
    NothingTakenAt(sends, i);
    var taken := SendAt(sends, i).taken;
    if |names| > 0 && SendAt(sends, i).chosen && |Taken(channel, taken)| < capacity {
      var more := Taken(channel, taken) + [names[0]];
      var rest := SendAll(capacity, more, names[1..], sends, i + 1);
      SentIsQueued(capacity, more, names[1..], sends, i + 1);
      OneSend(channel, taken, names[0], names[1..][..rest.count], rest.channel);
      NamesNext(names, rest.count);
      Joined(channel, names[0], names[1..][..rest.count]);
    } else {
      OneSend(channel, taken, "", [], []);
      assert channel + names[..0] == channel;
      NothingIsLeftAlone(channel);
    }
  }

  lemma Joined(a: seq<string>, x: string, b: seq<string>)
    ensures a + [x] + b == a + ([x] + b)
  {
  }

  lemma SettledIsQueued(capacity: nat, channel: seq<string>, id: nat, m: Delivery)
    ensures var s := Settle(capacity, channel, id, m);
      && IsTail(channel + Woken(s.actions), s.channel)
      && (NothingTaken(m.sends) ==> s.channel == channel + Woken(s.actions))
  {
    hide SendAll, Matching, IsTail, Woken, Enqueues;
    var s := Settle(capacity, channel, id, m);
    if m.event.Some? && m.listed.Some? {
      var names := Matching(m.event.value, m.listed.value);
      var sent := SendAll(capacity, channel, names, m.sends, 0);
      SentIsQueued(capacity, channel, names, m.sends, 0);
      WokenEnqueues(id, names[..sent.count]);
      var last := if sent.count < |names| then [AbandonTried(id, m.abandon)]
        else if m.complete then [Completed(id)] else [CompleteFailed(id), AbandonTried(id, m.abandon)];
      assert s.actions == Enqueues(id, names[..sent.count]) + last;
      WokenConcat(Enqueues(id, names[..sent.count]), last);
      NoneWoken(last);
      assert names[..sent.count] + [] == names[..sent.count];
    } else {
      NoneWoken(s.actions);
      NothingIsLeftAlone(channel);
    }
  }

  lemma {:induction false} NoneWoken(log: seq<Action>)
    requires forall i :: 0 <= i < |log| ==> !log[i].Enqueued?
    ensures Woken(log) == []
  {
    if |log| > 0 {
      NoneWoken(log[1..]);
    }
  }

  /**
    Over any run the channel is a queue: what it held and what was enqueued, in order, less what the
    controller took from the front; nothing is dropped, doubled or overtaken.
   */
  lemma {:induction false} ChannelIsAQueue(capacity: nat, channel: seq<string>, first: nat, ms: seq<Delivery>)
    ensures var s := SettleAll(capacity, channel, first, ms);
      && IsTail(channel + Woken(s.actions), s.channel)
      && ((forall i :: 0 <= i < |ms| ==> NothingTaken(ms[i].sends)) ==> s.channel == channel + Woken(s.actions))
    decreases |ms|
  {
    hide Settle, SettleAll, IsTail, NothingTaken, Woken;
    SettleLast(capacity, channel, first, ms);
    if |ms| > 0 {
      var last := |ms| - 1;
      var before := SettleAll(capacity, channel, first, ms[..last]);
      var one := Settle(capacity, before.channel, first + last, ms[last]);
      ChannelIsAQueue(capacity, channel, first, ms[..last]);
      SettledIsQueued(capacity, before.channel, first + last, ms[last]);
      WokenConcat(before.actions, one.actions);
      TailOfTail(channel + Woken(before.actions), before.channel, Woken(one.actions), one.channel);
      Grouped(channel, Woken(before.actions), Woken(one.actions));
    } else {
      NothingIsLeftAlone(channel);
    }
  }

  lemma Grouped(a: seq<string>, b: seq<string>, c: seq<string>)
    ensures a + b + c == a + (b + c)
  {
  }

  lemma NothingIsLeftAlone(channel: seq<string>)
    ensures IsTail(channel + Woken([]), channel) && channel + Woken([]) == channel
  {
  }

  // ---------------------------------------------------------------- the batches

  /** A batch adds its messages after those of the batches before; a failed receive adds none. */
  lemma {:induction false} DeliveriesInOrder(batches: seq<Batch>, b: Batch)
    ensures Deliveries([]) == []
    ensures Deliveries(batches + [b]) == match b
      case Received(messages) => Deliveries(batches) + messages
      case ReceiveFailed => Deliveries(batches)
    decreases |batches|
  {
    if |batches| == 0 {
      assert batches + [b] == [b] && [b][1..] == [];
    } else {
      assert (batches + [b])[1..] == batches[1..] + [b];
      DeliveriesInOrder(batches[1..], b);
    }
  }
}
