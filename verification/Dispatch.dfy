/** The outbox's delivery half (events/bus.py, events/dispatcher.py): which events are due, what one
    drain does to them, and what survives crashes between delivering and marking. */
module Dispatch {
  import opened Prelude

  datatype Status = Pending | Sent | Failed | Skipped

  datatype Row = Row(status: Status, attempts: nat, created: int)

  /** The configured delivery targets: the retry budget of each webhook, and how many exec hooks. */
  datatype Hooks = Hooks(webhooks: seq<int>, execs: nat)

  function Targets(h: Hooks): nat { |h.webhooks| + h.execs }

  function Largest(budgets: seq<int>): (m: int)
    requires budgets != []
    ensures m in budgets && forall b <- budgets :: b <= m
  {
    if |budgets| == 1 then budgets[0]
    else
      var rest := Largest(budgets[1..]);
      assert budgets == [budgets[0]] + budgets[1..];
      if budgets[0] >= rest then budgets[0] else rest
  }

  function MaxAttempts(h: Hooks): (budget: int)
    ensures h.webhooks == [] ==> budget == 10
    ensures h.webhooks != [] ==> budget in h.webhooks && forall b <- h.webhooks :: b <= budget
  {
    if h.webhooks == [] then 10 else Largest(h.webhooks)
  }

  predicate Due(r: Row, budget: int) {
    r.status == Pending && r.attempts < budget
  }

  function CreatedAt(rows: map<nat, Row>, id: nat): int {
    if id in rows then rows[id].created else 0
  }

  /** due_events: the due rows, oldest first. */
  ghost predicate IsDueList(rows: map<nat, Row>, budget: int, events: seq<nat>) {
    && Lists(events, set id | id in rows && Due(rows[id], budget))
    && (forall i, j | 0 <= i < j < |events| :: CreatedAt(rows, events[i]) <= CreatedAt(rows, events[j]))
  }

  /** mark_sent, or mark_failed with the give-up rule. */
  function Marked(r: Row, accepted: bool, budget: int): Row {
    if accepted then Row(Sent, r.attempts + 1, r.created)
    else Row(if r.attempts + 1 >= budget then Failed else r.status, r.attempts + 1, r.created)
  }

  /** What a completed drain leaves: each due row is settled or retried on its own, no other row moves. */
  function Drained(rows: map<nat, Row>, h: Hooks, accepted: nat -> bool): map<nat, Row> {
    map id | id in rows ::
      if !Due(rows[id], MaxAttempts(h)) then rows[id]
      else if Targets(h) == 0 then rows[id].(status := Skipped)
      else Marked(rows[id], accepted(id), MaxAttempts(h))
  }

  /** An event counts as delivered when any target took it. */
  predicate Accepted(h: Hooks, answer: (nat, nat) -> bool, id: nat) {
    exists t: nat | t < Targets(h) :: answer(id, t)
  }

  function CallsFor(id: nat, targets: nat): seq<(nat, nat)> {
    seq(targets, t requires 0 <= t < targets => (id, t))
  }

  function AllCalls(events: seq<nat>, targets: nat): seq<(nat, nat)> {
    if events == [] then [] else AllCalls(events[..|events| - 1], targets) + CallsFor(events[|events| - 1], targets)
  }

  lemma InsertLists(s: seq<nat>, members: set<nat>, at: nat, x: nat)
    requires Lists(s, members) && x !in members && at <= |s|
    ensures Lists(s[..at] + [x] + s[at..], members + {x})
  {
    var longer := s[..at] + [x] + s[at..];
    assert longer[at] == x;
    forall e <- members ensures e in longer {
      var k :| 0 <= k < |s| && s[k] == e;
      assert longer[if k < at then k else k + 1] == e;
    }
    forall i, j | 0 <= i < j < |longer| ensures longer[i] != longer[j] {
      assert i < at ==> longer[i] == s[i] && s[i] in members;
      assert j < at ==> longer[j] == s[j];
      assert i > at ==> longer[i] == s[i - 1];
      assert j > at ==> longer[j] == s[j - 1] && s[j - 1] in members;
    }
  }

  class Dispatcher {
    const hooks: Hooks
    var rows: map<nat, Row>
    var calls: seq<(nat, nat)>   // (event, target), in the order the deliveries were attempted

    constructor (h: Hooks, stored: map<nat, Row>)
      ensures hooks == h && rows == stored && calls == []
    {
      hooks, rows, calls := h, stored, [];
    }

    method DueEvents(budget: int) returns (events: seq<nat>)
      ensures IsDueList(rows, budget, events)
      ensures forall id :: id in events <==> id in rows && rows[id].status == Pending && rows[id].attempts < budget
      ensures forall i, j | 0 <= i < j < |events| :: rows[events[i]].created <= rows[events[j]].created
    {
      events := [];
      var todo := rows.Keys;
      while todo != {}
        invariant todo <= rows.Keys
        invariant Lists(events, set id | id in rows && id !in todo && Due(rows[id], budget))
        invariant forall i, j | 0 <= i < j < |events| :: CreatedAt(rows, events[i]) <= CreatedAt(rows, events[j])
        decreases todo
      {
        var id :| id in todo;
        if Due(rows[id], budget) {
          var at := 0;
          while at < |events| && CreatedAt(rows, events[at]) <= rows[id].created
            invariant at <= |events|
            invariant forall i | 0 <= i < at :: CreatedAt(rows, events[i]) <= rows[id].created
          {
            at := at + 1;
          }
          ghost var listed := set e | e in rows && e !in todo && Due(rows[e], budget);
          InsertLists(events, listed, at, id);
          assert listed + {id} == set e | e in rows && e !in todo - {id} && Due(rows[e], budget);
          events := events[..at] + [id] + events[at..];
        }
        todo := todo - {id};
      }
    }

    /** One event against every target; a target that raises is a false answer. */
    method Deliver(id: nat, answer: (nat, nat) -> bool) returns (anySuccess: bool)
      modifies this`calls
      ensures anySuccess == Accepted(hooks, answer, id)
      ensures calls == old(calls) + CallsFor(id, Targets(hooks))
    {
      anySuccess := false;
      for i := 0 to |hooks.webhooks|
        invariant anySuccess == exists t: nat | t < i :: answer(id, t)
        invariant calls == old(calls) + CallsFor(id, i)
      {
        calls := calls + [(id, i)];
        if answer(id, i) {
          anySuccess := true;
        }
      }
      for i := 0 to hooks.execs
        invariant anySuccess == exists t: nat | t < |hooks.webhooks| + i :: answer(id, t)
        invariant calls == old(calls) + CallsFor(id, |hooks.webhooks| + i)
      {
        calls := calls + [(id, |hooks.webhooks| + i)];
        if answer(id, |hooks.webhooks| + i) {
          anySuccess := true;
        }
      }
    }

    method Dispatch(id: nat, answer: (nat, nat) -> bool, budget: int)
      modifies this
      ensures calls == old(calls) + CallsFor(id, Targets(hooks))
      ensures rows == if id in old(rows)
                      then old(rows)[id := Marked(old(rows)[id], Accepted(hooks, answer, id), budget)]
                      else old(rows)
      ensures id in old(rows) && old(rows)[id].status == Pending ==>
                (rows[id].status == Sent <==> exists t: nat | t < |hooks.webhooks| + hooks.execs :: answer(id, t))
    {
      var anySuccess := Deliver(id, answer);
      if id !in rows {
        return;
      }
      var row := rows[id];
      if anySuccess {
        rows := rows[id := Row(Sent, row.attempts + 1, row.created)];
      } else {
        row := row.(attempts := row.attempts + 1);
        if row.attempts >= budget {
          row := row.(status := Failed);
        }
        rows := rows[id := row];
      }
    }

    /** No delivery targets: keep the events as audit rows. */
    method SkipAll(due: seq<nat>)
      requires NoDuplicates(due) && forall id <- due :: id in rows
      modifies this`rows
      ensures rows == map id | id in old(rows) ::
                        if id in due then old(rows)[id].(status := Skipped) else old(rows)[id]
    {
      ghost var was := rows;
      for i := 0 to |due|
        invariant rows.Keys == was.Keys
        invariant forall id <- was :: rows[id] == if id in due[..i] then was[id].(status := Skipped) else was[id]
      {
        assert due[i] in due;
        rows := rows[due[i] := rows[due[i]].(status := Skipped)];
        assert due[..i + 1] == due[..i] + [due[i]];
      }
      assert due[..|due|] == due;
    }

    method DispatchAll(due: seq<nat>, answer: (nat, nat) -> bool, budget: int)
      requires NoDuplicates(due) && forall id <- due :: id in rows
      modifies this
      ensures rows == map id | id in old(rows) ::
                        if id in due then Marked(old(rows)[id], Accepted(hooks, answer, id), budget) else old(rows)[id]
      ensures calls == old(calls) + AllCalls(due, Targets(hooks))
    {
      ghost var was := rows;
      for i := 0 to |due|
        invariant rows == MarkedAll(was, due[..i], hooks, answer, budget)
        invariant calls == old(calls) + AllCalls(due[..i], Targets(hooks))
      {
        OneMoreDispatched(was, due, i, hooks, answer, budget);
        Dispatch(due[i], answer, budget);
      }
      assert due[..|due|] == due;
      EachMarkedOnce(was, due, hooks, answer, budget);
    }

    /** drain_once: `answer(event, target)` is false where the delivery raised. */
    method DrainOnce(answer: (nat, nat) -> bool) returns (processed: nat, ghost events: seq<nat>)
      modifies this
      ensures IsDueList(old(rows), MaxAttempts(hooks), events) && processed == |events|
      ensures rows == Drained(old(rows), hooks, (id: nat) => Accepted(hooks, answer, id))
      ensures calls == old(calls) + AllCalls(events, Targets(hooks))
      ensures forall id <- events :: Targets(hooks) > 0 ==>
                id in rows && (rows[id].status == Sent
                               <==> exists t: nat | t < |hooks.webhooks| + hooks.execs :: answer(id, t))
    {
      var budget := MaxAttempts(hooks);
      var due := DueEvents(budget);
      events := due;
      assert forall id <- rows :: id in due <==> Due(rows[id], budget);
      if Targets(hooks) == 0 {
        SkipAll(due);
        NoTargetsNoCalls(due);
      } else {
        DispatchAll(due, answer, budget);
      }
      processed := |due|;
    }
  }

  /** The rows after dispatching `due` one after another. */
  function MarkedAll(rows: map<nat, Row>, due: seq<nat>, h: Hooks, answer: (nat, nat) -> bool, budget: int)
    : map<nat, Row>
  {
    if due == [] then rows
    else
      var id, m := due[|due| - 1], MarkedAll(rows, due[..|due| - 1], h, answer, budget);
      if id in m then m[id := Marked(m[id], Accepted(h, answer, id), budget)] else m
  }

  lemma OneMoreDispatched(rows: map<nat, Row>, due: seq<nat>, i: nat, h: Hooks, answer: (nat, nat) -> bool, budget: int)
    requires i < |due|
    ensures AllCalls(due[..i + 1], Targets(h)) == AllCalls(due[..i], Targets(h)) + CallsFor(due[i], Targets(h))
    ensures var m := MarkedAll(rows, due[..i], h, answer, budget);
            MarkedAll(rows, due[..i + 1], h, answer, budget)
            == if due[i] in m then m[due[i] := Marked(m[due[i]], Accepted(h, answer, due[i]), budget)] else m
  {
    assert due[..i + 1][..i] == due[..i] && due[..i + 1][i] == due[i];
  }

  lemma {:induction false} EachMarkedOnce(rows: map<nat, Row>, due: seq<nat>, h: Hooks,
                                          answer: (nat, nat) -> bool, budget: int)
    requires NoDuplicates(due) && forall id <- due :: id in rows
    ensures MarkedAll(rows, due, h, answer, budget)
            == map id | id in rows :: if id in due then Marked(rows[id], Accepted(h, answer, id), budget) else rows[id]
    decreases |due|
  {
    if due != [] {
      var front, last := due[..|due| - 1], due[|due| - 1];
      EachMarkedOnce(rows, front, h, answer, budget);
      assert forall id :: id in due <==> id in front || id == last;
      assert last !in front;
    }
  }

  /** The calls of one drain: each event in turn, and for each event every target in turn. */
  lemma {:induction false} CallAt(events: seq<nat>, targets: nat, k: nat, t: nat)
    requires k < |events| && t < targets
    ensures |AllCalls(events, targets)| == |events| * targets
    ensures k * targets + t < |events| * targets && AllCalls(events, targets)[k * targets + t] == (events[k], t)
    decreases |events|
  {
    var n := |events| - 1;
    CallCount(events, targets);
    CallCount(events[..n], targets);
    if k < n {
      CallAt(events[..n], targets, k, t);
    }
  }

  lemma {:induction false} CallCount(events: seq<nat>, targets: nat)
    ensures |AllCalls(events, targets)| == |events| * targets
    decreases |events|
  {
    if events != [] {
      var n := |events| - 1;
      CallCount(events[..n], targets);
      assert |AllCalls(events, targets)| == n * targets + targets;
      assert (n + 1) * targets == n * targets + targets;
    }
  }

  lemma {:induction false} NoTargetsNoCalls(events: seq<nat>)
    ensures AllCalls(events, 0) == []
    decreases |events|
  {
    if events != [] {
      NoTargetsNoCalls(events[..|events| - 1]);
    }
  }

  // ----- the dispatcher among crashes -----

  /** `queue` is what the running drain still has in hand; `verdict` is set between delivering its first
      event and marking it. `accepted` holds every event some target ever took, `lostAcks` those whose
      acceptance was forgotten by a crash. */
  datatype System = System(rows: map<nat, Row>, accepted: set<nat>, lostAcks: set<nat>,
                           queue: seq<nat>, verdict: Option<bool>)

  datatype Action =
    | Record(id: nat, created: int)
    | Begin(events: seq<nat>)
    | DeliverFirst(answers: seq<bool>)
    | MarkFirst
    | Crash

  ghost predicate Enabled(s: System, a: Action, h: Hooks) {
    match a
    case Record(id, _) => id !in s.rows
    case Begin(events) => s.queue == [] && IsDueList(s.rows, MaxAttempts(h), events)
    case DeliverFirst(answers) => s.queue != [] && s.verdict.None? && |answers| == Targets(h)
    case MarkFirst => s.queue != [] && s.verdict.Some?
    case Crash => true
  }

  ghost function Next(s: System, a: Action, h: Hooks): System
    requires Enabled(s, a, h)
  {
    match a
    case Record(id, created) => s.(rows := s.rows[id := Row(Pending, 0, created)])
    case Begin(events) =>
      if Targets(h) == 0 then s.(rows := Drained(s.rows, h, id => false)) else s.(queue := events)
    case DeliverFirst(answers) =>
      s.(verdict := Some(true in answers),
         accepted := if true in answers then s.accepted + {s.queue[0]} else s.accepted)
    case MarkFirst =>
      var id := s.queue[0];
      s.(rows := if id in s.rows then s.rows[id := Marked(s.rows[id], s.verdict.value, MaxAttempts(h))] else s.rows,
         queue := s.queue[1..], verdict := None)
    case Crash =>
      s.(queue := [], verdict := None,
         lostAcks := if s.queue != [] && s.verdict == Some(true) then s.lostAcks + {s.queue[0]} else s.lostAcks)
  }

  const START := System(map[], {}, {}, [], None)

  ghost predicate StepAt(trace: seq<System>, actions: seq<Action>, h: Hooks, k: nat)
    requires |trace| == |actions| + 1 && k < |actions|
  {
    Enabled(trace[k], actions[k], h) && trace[k + 1] == Next(trace[k], actions[k], h)
  }

  ghost predicate IsRun(trace: seq<System>, actions: seq<Action>, h: Hooks) {
    && |trace| == |actions| + 1 && trace[0] == START
    && forall k | 0 <= k < |actions| :: StepAt(trace, actions, h, k)
  }

  /** What each status promises about attempts and acceptance. */
  predicate RowSound(r: Row, accepted: bool, h: Hooks) {
    match r.status
    case Pending => r.attempts < MaxAttempts(h) && (Targets(h) == 0 ==> r.attempts == 0)
    case Sent => 1 <= r.attempts <= MaxAttempts(h) && accepted
    case Failed => r.attempts == MaxAttempts(h)
    case Skipped => r.attempts == 0 && Targets(h) == 0
  }

  /** No attempt is ever made past the budget, no pending event is stranded at it, sent means some target
      took the event, and an acceptance that is neither recorded nor about to be was lost by a crash. */
  ghost predicate Sound(s: System, h: Hooks) {
    && (forall id <- s.rows :: RowSound(s.rows[id], id in s.accepted, h))
    && NoDuplicates(s.queue) && (forall id <- s.queue :: id in s.rows && Due(s.rows[id], MaxAttempts(h)))
    && (s.queue == [] ==> s.verdict.None?)
    && (s.verdict == Some(true) ==> s.queue[0] in s.accepted)
    && (forall id <- s.accepted ::
          && id in s.rows
          && (s.rows[id].status == Sent || id in s.lostAcks || (s.verdict == Some(true) && s.queue[0] == id)))
    && (Targets(h) == 0 ==> s.queue == [])
  }

  lemma BeginKeepsSound(s: System, events: seq<nat>, h: Hooks)
    requires MaxAttempts(h) > 0 && Sound(s, h) && Enabled(s, Begin(events), h)
    ensures Sound(Next(s, Begin(events), h), h)
  {
  }

  lemma MarkKeepsSound(s: System, h: Hooks)
    requires MaxAttempts(h) > 0 && Sound(s, h) && Enabled(s, MarkFirst, h)
    ensures Sound(Next(s, MarkFirst, h), h)
  {
    assert s.queue[0] in s.queue;
    assert forall id <- s.queue[1..] :: id in s.queue && id != s.queue[0];
  }

  lemma StepKeepsSound(s: System, a: Action, h: Hooks)
    requires MaxAttempts(h) > 0 && Sound(s, h) && Enabled(s, a, h)
    ensures Sound(Next(s, a, h), h)
  {
    match a
    case Begin(events) => BeginKeepsSound(s, events, h);
    case MarkFirst => MarkKeepsSound(s, h);
    case _ =>
  }

  /** sent, failed and skipped are absorbing. */
  lemma StepKeepsSettledRows(s: System, a: Action, h: Hooks)
    requires Sound(s, h) && Enabled(s, a, h)
    ensures forall id <- s.rows :: id in Next(s, a, h).rows
              && (s.rows[id].status != Pending ==> Next(s, a, h).rows[id] == s.rows[id])
              && s.rows[id].attempts <= Next(s, a, h).rows[id].attempts
  {
    if a.MarkFirst? {
      assert s.queue[0] in s.queue;
    }
  }

  lemma {:induction false} RunsStaySound(trace: seq<System>, actions: seq<Action>, h: Hooks, k: nat)
    requires IsRun(trace, actions, h) && MaxAttempts(h) > 0 && k < |trace|
    ensures Sound(trace[k], h)
  {
    if k > 0 {
      RunsStaySound(trace, actions, h, k - 1);
      assert StepAt(trace, actions, h, k - 1);
      StepKeepsSound(trace[k - 1], actions[k - 1], h);
    }
  }

  lemma {:induction false} SettledForever(trace: seq<System>, actions: seq<Action>, h: Hooks, i: nat, j: nat, id: nat)
    requires IsRun(trace, actions, h) && MaxAttempts(h) > 0 && i <= j < |trace|
    requires id in trace[i].rows && trace[i].rows[id].status != Pending
    ensures id in trace[j].rows && trace[j].rows[id] == trace[i].rows[id]
    decreases j - i
  {
    if i < j {
      SettledForever(trace, actions, h, i, j - 1, id);
      RunsStaySound(trace, actions, h, j - 1);
      assert StepAt(trace, actions, h, j - 1);
      StepKeepsSettledRows(trace[j - 1], actions[j - 1], h);
    }
  }

  /** Delivery is at least once. A sent event was taken by some target, crashes or not; a failed one that
      had been taken after all is one whose acknowledgement a crash lost. */
  lemma StatusesTellTheTruth(trace: seq<System>, actions: seq<Action>, h: Hooks, k: nat, id: nat)
    requires IsRun(trace, actions, h) && MaxAttempts(h) > 0 && k < |trace| && id in trace[k].rows
    ensures trace[k].rows[id].status == Sent ==> id in trace[k].accepted
    ensures trace[k].rows[id].status == Failed && id in trace[k].accepted ==> id in trace[k].lostAcks
    ensures trace[k].rows[id].attempts <= MaxAttempts(h)
    ensures trace[k].rows[id].status == Pending ==> Due(trace[k].rows[id], MaxAttempts(h))
  {
    RunsStaySound(trace, actions, h, k);
    if trace[k].verdict == Some(true) {
      assert trace[k].queue[0] in trace[k].queue;
    }
  }

  /** Without crashes no acknowledgement is lost. */
  lemma {:induction false} OnlyCrashesLoseAcks(trace: seq<System>, actions: seq<Action>, h: Hooks, k: nat)
    requires IsRun(trace, actions, h) && k < |trace| && forall a <- actions :: a != Crash
    ensures trace[k].lostAcks == {}
  {
    if k > 0 {
      OnlyCrashesLoseAcks(trace, actions, h, k - 1);
      assert StepAt(trace, actions, h, k - 1) && actions[k - 1] in actions;
    }
  }

  // ----- a drain that nothing interrupts -----

  /** Deliver and mark each event in hand, one after another; answers[k] are the targets' answers to the k-th. */
  ghost function Served(s: System, answers: seq<seq<bool>>, h: Hooks): System
    requires |answers| == |s.queue| && s.verdict.None? && forall a <- answers :: |a| == Targets(h)
    decreases |answers|
  {
    if answers == [] then s
    else Served(Next(Next(s, DeliverFirst(answers[0]), h), MarkFirst, h), answers[1..], h)
  }

  /** The rows once the queue has been served. */
  function QueueMarked(rows: map<nat, Row>, queue: seq<nat>, accepted: nat -> bool, budget: int): map<nat, Row> {
    map id | id in rows :: if id in queue then Marked(rows[id], accepted(id), budget) else rows[id]
  }

  lemma MarkedOneByOne(rows: map<nat, Row>, queue: seq<nat>, accepted: nat -> bool, budget: int)
    requires queue != [] && NoDuplicates(queue) && queue[0] in rows
    ensures QueueMarked(rows[queue[0] := Marked(rows[queue[0]], accepted(queue[0]), budget)], queue[1..], accepted, budget)
            == QueueMarked(rows, queue, accepted, budget)
  {
    assert forall id :: id in queue <==> id == queue[0] || id in queue[1..];
  }

  /** Delivering and marking the event at the head of the queue. */
  lemma OneServed(s: System, answers: seq<bool>, h: Hooks)
    requires s.queue != [] && s.verdict.None? && |answers| == Targets(h) && s.queue[0] in s.rows
    ensures var next := Next(Next(s, DeliverFirst(answers), h), MarkFirst, h);
            && next.queue == s.queue[1..] && next.verdict.None?
            && next.rows == s.rows[s.queue[0] := Marked(s.rows[s.queue[0]], true in answers, MaxAttempts(h))]
  {
  }

  lemma {:induction false} ServingMarksEach(s: System, answers: seq<seq<bool>>, h: Hooks, accepted: nat -> bool)
    requires |answers| == |s.queue| && s.verdict.None? && forall a <- answers :: |a| == Targets(h)
    requires NoDuplicates(s.queue) && forall id <- s.queue :: id in s.rows
    requires forall k | 0 <= k < |answers| :: accepted(s.queue[k]) == (true in answers[k])
    ensures Served(s, answers, h).rows == QueueMarked(s.rows, s.queue, accepted, MaxAttempts(h))
    ensures Served(s, answers, h).queue == [] && Served(s, answers, h).verdict.None?
    decreases |answers|
  {
    if answers == [] {
      assert QueueMarked(s.rows, [], accepted, MaxAttempts(h)) == s.rows;
    } else {
      OneServed(s, answers[0], h);
      MarkedOneByOne(s.rows, s.queue, accepted, MaxAttempts(h));
      ServingMarksEach(Next(Next(s, DeliverFirst(answers[0]), h), MarkFirst, h), answers[1..], h, accepted);
    }
  }

  lemma OneAcceptanceIsEnough(answers: seq<bool>, h: Hooks, answer: (nat, nat) -> bool, id: nat)
    requires |answers| == Targets(h) && forall t | 0 <= t < Targets(h) :: answers[t] == answer(id, t)
    ensures Accepted(h, answer, id) <==> true in answers
  {
    if t: nat :| t < Targets(h) && answer(id, t) {
      assert answers[t];
    }
  }

  /** Without a crash in between, the protocol's steps do to the rows what one drain_once does with the same
      answers. */
  lemma UninterruptedDrainIsDrained(s: System, events: seq<nat>, answers: seq<seq<bool>>, h: Hooks,
                                    answer: (nat, nat) -> bool)
    requires Enabled(s, Begin(events), h) && s.verdict.None? && Targets(h) > 0
    requires |answers| == |events| && (forall a <- answers :: |a| == Targets(h))
    requires forall k, t | 0 <= k < |answers| && 0 <= t < |answers[k]| :: answers[k][t] == answer(events[k], t)
    ensures Served(Next(s, Begin(events), h), answers, h).rows
            == Drained(s.rows, h, (id: nat) => Accepted(h, answer, id))
  {
    var accepted := (id: nat) => Accepted(h, answer, id);
    forall k | 0 <= k < |answers| ensures accepted(events[k]) == (true in answers[k]) {
      assert answers[k] in answers;
      OneAcceptanceIsEnough(answers[k], h, answer, events[k]);
    }
    ServingMarksEach(Next(s, Begin(events), h), answers, h, accepted);
  }

  /** What one drain makes of a row, written out. A row that is not pending or has used its budget stays as it
      is; without targets it is skipped; otherwise it has used one attempt more, and is sent exactly when some
      target took it, failed exactly when none did and the budget is used up, and still pending otherwise. */
  lemma DrainExactly(rows: map<nat, Row>, h: Hooks, answer: (nat, nat) -> bool, id: nat)
    requires id in rows
    ensures var was, targets := rows[id], |h.webhooks| + h.execs;
            var drained := Drained(rows, h, (e: nat) => Accepted(h, answer, e));
            && id in drained
            && (was.status != Pending || was.attempts >= MaxAttempts(h) ==> drained[id] == was)
            && (was.status == Pending && was.attempts < MaxAttempts(h) ==>
                  if targets == 0 then drained[id] == Row(Skipped, was.attempts, was.created)
                  else
                    && drained[id].attempts == was.attempts + 1 && drained[id].created == was.created
                    && (drained[id].status == Sent <==> exists t: nat | t < targets :: answer(id, t))
                    && (drained[id].status == Failed <==> (forall t: nat | t < targets :: !answer(id, t))
                                                          && was.attempts + 1 >= MaxAttempts(h))
                    && (drained[id].status == Pending <==> (forall t: nat | t < targets :: !answer(id, t))
                                                           && was.attempts + 1 < MaxAttempts(h)))
  {
  }

  // ----- termination -----

  /** The attempts still open: one entry per pending row and unused attempt. */
  function Remaining(rows: map<nat, Row>, budget: int): set<(nat, int)> {
    set id, a | id in rows && rows[id].status == Pending && rows[id].attempts <= a < budget :: (id, a)
  }

  function DueIds(rows: map<nat, Row>, budget: int): set<nat> {
    set id | id in rows && Due(rows[id], budget)
  }

  /** Every completed drain uses up at least one open attempt per due event, so the total strictly
      falls whenever anything was due. */
  lemma DrainUsesAttempts(rows: map<nat, Row>, h: Hooks, accepted: nat -> bool)
    ensures |Remaining(Drained(rows, h, accepted), MaxAttempts(h))| + |DueIds(rows, MaxAttempts(h))|
            <= |Remaining(rows, MaxAttempts(h))|
  {
    var budget := MaxAttempts(h);
    var next := Drained(rows, h, accepted);
    var used := FirstAttempts(rows, DueIds(rows, budget));
    FirstAttemptsSize(rows, DueIds(rows, budget));
    DrainOpensNothing(rows, h, accepted);
    SubsetSize(used + Remaining(next, budget), Remaining(rows, budget));
  }

  /** The attempt each event is about to make. */
  function FirstAttempts(rows: map<nat, Row>, ids: set<nat>): set<(nat, int)>
    requires ids <= rows.Keys
  {
    set id | id in ids :: (id, rows[id].attempts as int)
  }

  lemma DrainOpensNothing(rows: map<nat, Row>, h: Hooks, accepted: nat -> bool)
    ensures var budget := MaxAttempts(h); var next := Drained(rows, h, accepted);
            && Remaining(next, budget) <= Remaining(rows, budget)
            && FirstAttempts(rows, DueIds(rows, budget)) <= Remaining(rows, budget)
            && FirstAttempts(rows, DueIds(rows, budget)) !! Remaining(next, budget)
  {
    var budget := MaxAttempts(h);
    var next := Drained(rows, h, accepted);
    forall x <- Remaining(next, budget)
      ensures x in Remaining(rows, budget) && x !in FirstAttempts(rows, DueIds(rows, budget))
    {
      assert next[x.0].status == Pending && next[x.0].attempts <= x.1 < budget;
      assert Due(rows[x.0], budget) ==> next[x.0].attempts == rows[x.0].attempts + 1;
    }
  }

  lemma {:induction false} FirstAttemptsSize(rows: map<nat, Row>, ids: set<nat>)
    requires ids <= rows.Keys
    ensures |FirstAttempts(rows, ids)| == |ids|
    decreases |ids|
  {
    if ids == {} {
      assert FirstAttempts(rows, ids) == {};
    } else {
      var x :| x in ids;
      FirstAttemptsSize(rows, ids - {x});
      assert FirstAttempts(rows, ids) == FirstAttempts(rows, ids - {x}) + {(x, rows[x].attempts as int)};
    }
  }

  function DrainedAll(rows: map<nat, Row>, h: Hooks, answers: seq<nat -> bool>): map<nat, Row> {
    if answers == [] then rows else Drained(DrainedAll(rows, h, answers[..|answers| - 1]), h, answers[|answers| - 1])
  }

  lemma {:induction false} DrainsRaiseAttempts(rows: map<nat, Row>, h: Hooks, answers: seq<nat -> bool>, id: nat)
    requires id in rows && rows[id].status == Pending
    ensures var after := DrainedAll(rows, h, answers);
            && id in after
            && (rows[id].attempts >= MaxAttempts(h) ==> after[id] == rows[id])
            && (rows[id].attempts < MaxAttempts(h) && after[id].status == Pending ==>
                  rows[id].attempts + |answers| <= after[id].attempts < MaxAttempts(h))
    decreases |answers|
  {
    if answers != [] {
      DrainsRaiseAttempts(rows, h, answers[..|answers| - 1], id);
    }
  }

  /** Under fixed hooks, as many drains as the budget settle a pending event, whatever the targets answer,
      exactly when it is under the budget to begin with. One that is at it already, as after lowering
      max_attempts, is stranded: never due, never marked. */
  lemma SettledUnlessStranded(rows: map<nat, Row>, h: Hooks, answers: seq<nat -> bool>, id: nat)
    requires id in rows && rows[id].status == Pending && |answers| >= MaxAttempts(h)
    ensures id in DrainedAll(rows, h, answers)
    ensures DrainedAll(rows, h, answers)[id].status != Pending <==> rows[id].attempts < MaxAttempts(h)
  {
    DrainsRaiseAttempts(rows, h, answers, id);
  }
}
