/** The watcher's debouncing handler (watcher.py) as a protocol between feeding threads, timers and
    firing threads, all taking turns under one lock. */
module Debounce {
  import opened Prelude

  type Path = string

  // ----- the handler's own fields -----

  /** `order` is the dictionary's key order; `timer` the deadline of the live timer. */
  datatype Handler = Handler(stopped: bool, pending: map<Path, real>, order: seq<Path>, timer: Option<real>)

  const IDLE := Handler(false, map[], [], None)

  function Fed(h: Handler, path: Path, now: real, debounce: real): Handler {
    if h.stopped then h
    else Handler(false, h.pending[path := now],
                 if path in h.pending then h.order else h.order + [path],
                 if h.timer.None? then Some(now + debounce) else h.timer)
  }

  function Emptied(h: Handler): Handler {
    Handler(h.stopped, map[], [], None)
  }

  ghost predicate KeysInOrder(h: Handler) {
    NoDuplicates(h.order) && forall p :: p in h.order <==> p in h.pending
  }

  class DebouncedHandler {
    const debounce: real
    var stopped: bool
    var pending: map<Path, real>
    var order: seq<Path>
    var timer: Option<real>

    ghost function State(): Handler
      reads this
    {
      Handler(stopped, pending, order, timer)
    }

    constructor (seconds: real)
      ensures State() == IDLE && debounce == seconds
    {
      debounce := seconds;
      stopped, pending, order, timer := false, map[], [], None;
    }

    method Stop()
      modifies this
      ensures State() == old(State()).(stopped := true, timer := None)
    {
      stopped := true;
      if timer.Some? {
        timer := None;
      }
    }

    /** feed: the whole critical section at instant `now`. */
    method Feed(path: Path, now: real)
      modifies this
      ensures State() == Fed(old(State()), path, now, debounce)
    {
      if stopped {
        return;
      }
      if path !in pending {
        order := order + [path];
      }
      pending := pending[path := now];
      if timer.None? {
        timer := Some(now + debounce);
      }
    }

    /** The locked part of _fire: the firing thread walks away with the batch. */
    method TakeDue() returns (due: seq<Path>)
      modifies this
      ensures due == old(order) && State() == Emptied(old(State()))
    {
      due := order;
      pending, order := map[], [];
      timer := None;
    }
  }

  // ----- the whole protocol -----

  datatype Entry =
    | FedAt(path: Path, time: real)
    | Handed(path: Path)
    | Dropped(path: Path)

  /** A thread inside _fire's loop: what it still has to hand over, and how long the log was when it
      took the batch. */
  datatype Thread = Thread(batch: seq<Path>, since: nat)

  datatype System = System(now: real, handler: Handler, threads: seq<Thread>, log: seq<Entry>)

  datatype Action =
    | Tick(elapsed: real)
    | Feed(path: Path)
    | Fire
    | Hand(thread: nat)          // on_due returns
    | Raise(thread: nat)         // on_due raises, ending its thread
    | Stop

  function Drops(batch: seq<Path>): seq<Entry> {
    seq(|batch|, i requires 0 <= i < |batch| => Dropped(batch[i]))
  }

  predicate Enabled(s: System, a: Action) {
    match a
    case Tick(elapsed) => elapsed >= 0.0
    case Fire => s.handler.timer.Some? && s.now >= s.handler.timer.value
    case Hand(t) => t < |s.threads| && s.threads[t].batch != []
    case Raise(t) => t < |s.threads| && s.threads[t].batch != []
    case _ => true
  }

  function Next(s: System, a: Action, debounce: real): System
    requires Enabled(s, a)
  {
    match a
    case Tick(elapsed) => s.(now := s.now + elapsed)
    case Feed(path) =>
      s.(handler := Fed(s.handler, path, s.now, debounce),
         log := if s.handler.stopped then s.log else s.log + [FedAt(path, s.now)])
    case Fire =>
      s.(handler := Emptied(s.handler), threads := s.threads + [Thread(s.handler.order, |s.log|)])
    case Hand(t) =>
      var due := s.threads[t].batch;
      s.(threads := s.threads[t := s.threads[t].(batch := due[1..])], log := s.log + [Handed(due[0])])
    case Raise(t) =>
      var due := s.threads[t].batch;
      s.(threads := s.threads[t := s.threads[t].(batch := [])],
         log := s.log + [Handed(due[0])] + Drops(due[1..]))
    case Stop => s.(handler := s.handler.(stopped := true, timer := None))
  }

  const START := System(0.0, IDLE, [], [])

  /** trace[k] to trace[k + 1]. */
  predicate StepAt(trace: seq<System>, actions: seq<Action>, debounce: real, k: nat)
    requires |trace| == |actions| + 1 && k < |actions|
  {
    Enabled(trace[k], actions[k]) && trace[k + 1] == Next(trace[k], actions[k], debounce)
  }

  ghost predicate IsRun(trace: seq<System>, actions: seq<Action>, debounce: real) {
    && |trace| == |actions| + 1 && trace[0] == START
    && forall k | 0 <= k < |actions| :: StepAt(trace, actions, debounce, k)
  }

  // ----- nothing is lost -----

  ghost predicate LoggedAfter(log: seq<Entry>, i: nat, e: Entry) {
    exists j :: i < j < |log| && log[j] == e
  }

  ghost predicate InFlight(threads: seq<Thread>, i: nat, path: Path) {
    exists t :: 0 <= t < |threads| && i < threads[t].since && path in threads[t].batch
  }

  ghost predicate Waiting(h: Handler, path: Path, time: real, debounce: real) {
    path in h.pending && time <= h.pending[path] && h.timer.Some? && h.timer.value <= time + debounce
  }

  /** Where the feed logged at position i is now: handed over since, in the batch of a thread that took
      it since, or waiting under a live timer due no later than its own debounce interval; or it was
      dropped by a callback that raised. */
  ghost predicate Accounted(s: System, i: nat, debounce: real)
    requires i < |s.log| && s.log[i].FedAt?
  {
    var path, time := s.log[i].path, s.log[i].time;
    || LoggedAfter(s.log, i, Handed(path))
    || LoggedAfter(s.log, i, Dropped(path))
    || InFlight(s.threads, i, path)
    || (!s.handler.stopped && Waiting(s.handler, path, time, debounce))
  }

  ghost predicate AllAccounted(s: System, debounce: real) {
    !s.handler.stopped ==> forall i | 0 <= i < |s.log| && s.log[i].FedAt? :: Accounted(s, i, debounce)
  }

  /** A live timer guards a nonempty set of feeds, none of them from the future. */
  ghost predicate Armed(s: System, debounce: real) {
    && KeysInOrder(s.handler)
    && (!s.handler.stopped ==> (s.handler.timer.Some? <==> s.handler.pending.Keys != {}))
    && (s.handler.timer.Some? ==> s.handler.timer.value <= s.now + debounce)
    && (forall t <- s.threads :: t.since <= |s.log|)
    && (forall p <- s.handler.pending :: s.handler.pending[p] <= s.now)
  }

  lemma LogGrows(a: seq<Entry>, b: seq<Entry>, i: nat, e: Entry)
    requires a <= b && LoggedAfter(a, i, e)
    ensures LoggedAfter(b, i, e)
  {
    var j :| i < j < |a| && a[j] == e;
    assert b[j] == e;
  }

  lemma StepKeepsArmed(s: System, a: Action, debounce: real)
    requires Armed(s, debounce) && Enabled(s, a) && debounce >= 0.0
    ensures Armed(Next(s, a, debounce), debounce)
  {
    var next := Next(s, a, debounce);
    match a
    case Feed(path) =>
      if !s.handler.stopped && path !in s.handler.pending {
        assert next.handler.order == s.handler.order + [path];
      }
    case Hand(t) => assert forall u <- next.threads :: u in s.threads || u.since == s.threads[t].since;
    case Raise(t) => assert forall u <- next.threads :: u in s.threads || u.since == s.threads[t].since;
    case _ =>
  }

  lemma FeedKeepsAccounts(s: System, path: Path, debounce: real)
    requires Armed(s, debounce) && AllAccounted(s, debounce) && debounce >= 0.0 && !s.handler.stopped
    requires forall i | 0 <= i < |s.log| && s.log[i].FedAt? :: s.log[i].time <= s.now
    ensures AllAccounted(Next(s, Feed(path), debounce), debounce)
  {
    var next := Next(s, Feed(path), debounce);
    forall i | 0 <= i < |next.log| && next.log[i].FedAt? ensures Accounted(next, i, debounce) {
      if i < |s.log| {
        assert next.log[i] == s.log[i] && Accounted(s, i, debounce);
        StillLogged(s, next, i, s.log[i].path);
      } else {
        assert Waiting(next.handler, path, s.now, debounce);
      }
    }
  }

  /** Log entries survive, whatever is appended. */
  lemma StillLogged(s: System, next: System, i: nat, path: Path)
    requires s.log <= next.log
    ensures LoggedAfter(s.log, i, Handed(path)) ==> LoggedAfter(next.log, i, Handed(path))
    ensures LoggedAfter(s.log, i, Dropped(path)) ==> LoggedAfter(next.log, i, Dropped(path))
  {
    if LoggedAfter(s.log, i, Handed(path)) {
      LogGrows(s.log, next.log, i, Handed(path));
    }
    if LoggedAfter(s.log, i, Dropped(path)) {
      LogGrows(s.log, next.log, i, Dropped(path));
    }
  }

  lemma FireKeepsAccounts(s: System, debounce: real)
    requires Armed(s, debounce) && AllAccounted(s, debounce) && Enabled(s, Fire)
    ensures AllAccounted(Next(s, Fire, debounce), debounce)
  {
    var next := Next(s, Fire, debounce);
    if !s.handler.stopped {
      forall i | 0 <= i < |next.log| && next.log[i].FedAt? ensures Accounted(next, i, debounce) {
        assert Accounted(s, i, debounce);
        var path := s.log[i].path;
        if InFlight(s.threads, i, path) {
          var t :| 0 <= t < |s.threads| && i < s.threads[t].since && path in s.threads[t].batch;
          assert next.threads[t] == s.threads[t];
        } else if Waiting(s.handler, path, s.log[i].time, debounce) {
          assert next.threads[|s.threads|] == Thread(s.handler.order, |s.log|);
          assert path in s.handler.order;
        }
      }
    }
  }

  /** A thread hands over its first path, and loses the rest if the callback raises. */
  lemma HandKeepsAccounts(s: System, t: nat, raises: bool, debounce: real)
    requires Armed(s, debounce) && AllAccounted(s, debounce)
    requires t < |s.threads| && s.threads[t].batch != []
    ensures AllAccounted(Next(s, if raises then Raise(t) else Hand(t), debounce), debounce)
  {
    var next := Next(s, if raises then Raise(t) else Hand(t), debounce);
    var due := s.threads[t].batch;
    if !s.handler.stopped {
      forall i | 0 <= i < |next.log| && next.log[i].FedAt? ensures Accounted(next, i, debounce) {
        assert i < |s.log| && next.log[i] == s.log[i] && Accounted(s, i, debounce);
        var path := s.log[i].path;
        StillLogged(s, next, i, path);
        if u :| 0 <= u < |s.threads| && i < s.threads[u].since && path in s.threads[u].batch {
          if u != t {
            assert next.threads[u] == s.threads[u];
          } else {
            HandedOn(s, next, t, raises, i, path);
          }
        }
      }
    }
  }

  lemma HandedOn(s: System, next: System, t: nat, raises: bool, i: nat, path: Path)
    requires t < |s.threads| && path in s.threads[t].batch && i < |s.log| && i < s.threads[t].since
    requires next.threads == s.threads[t := s.threads[t].(batch := if raises then [] else s.threads[t].batch[1..])]
    requires next.log == s.log + [Handed(s.threads[t].batch[0])]
                         + if raises then Drops(s.threads[t].batch[1..]) else []
    ensures LoggedAfter(next.log, i, Handed(path)) || LoggedAfter(next.log, i, Dropped(path))
            || InFlight(next.threads, i, path)
  {
    var due := s.threads[t].batch;
    var k :| 0 <= k < |due| && due[k] == path;
    if k == 0 {
      assert next.log[|s.log|] == Handed(path);
    } else if raises {
      assert next.log[|s.log| + k] == Drops(due[1..])[k - 1] == Dropped(path);
    } else {
      assert due[1..][k - 1] == path;
      assert next.threads[t].since == s.threads[t].since;
    }
  }

  ghost predicate Sound(s: System, debounce: real) {
    && Armed(s, debounce) && AllAccounted(s, debounce)
    && (forall i | 0 <= i < |s.log| && s.log[i].FedAt? :: s.log[i].time <= s.now)
  }

  lemma StepKeepsSound(s: System, a: Action, debounce: real)
    requires Sound(s, debounce) && Enabled(s, a) && debounce >= 0.0
    ensures Sound(Next(s, a, debounce), debounce)
  {
    StepKeepsArmed(s, a, debounce);
    match a
    case Feed(path) => if !s.handler.stopped { FeedKeepsAccounts(s, path, debounce); }
    case Fire => FireKeepsAccounts(s, debounce);
    case Hand(t) => HandKeepsAccounts(s, t, false, debounce);
    case Raise(t) => HandKeepsAccounts(s, t, true, debounce);
    case Tick(elapsed) => TickKeepsAccounts(s, elapsed, debounce);
    case Stop =>
  }

  lemma TickKeepsAccounts(s: System, elapsed: real, debounce: real)
    requires AllAccounted(s, debounce) && elapsed >= 0.0
    ensures AllAccounted(Next(s, Tick(elapsed), debounce), debounce)
  {
    var next := Next(s, Tick(elapsed), debounce);
    if !s.handler.stopped {
      forall i | 0 <= i < |next.log| && next.log[i].FedAt? ensures Accounted(next, i, debounce) {
        assert Accounted(s, i, debounce);
      }
    }
  }

  /** In every reachable unstopped state, however feeds, overlapping firings and raising callbacks
      interleave, every feed is accounted for. */
  lemma {:induction false} NothingIsLost(trace: seq<System>, actions: seq<Action>, debounce: real, k: nat)
    requires IsRun(trace, actions, debounce) && debounce >= 0.0 && k < |trace|
    ensures Sound(trace[k], debounce)
  {
    if k > 0 {
      NothingIsLost(trace, actions, debounce, k - 1);
      assert StepAt(trace, actions, debounce, k - 1);
      StepKeepsSound(trace[k - 1], actions[k - 1], debounce);
    }
  }

  /** Once nothing is pending and every firing thread is done, each feed was followed by a hand-over of
      its path, unless a raising callback dropped it. */
  lemma QuiescentMeansHanded(trace: seq<System>, actions: seq<Action>, debounce: real, k: nat, i: nat)
    requires IsRun(trace, actions, debounce) && debounce >= 0.0 && k < |trace|
    requires !trace[k].handler.stopped && trace[k].handler.pending == map[]
    requires forall t <- trace[k].threads :: t.batch == []
    requires i < |trace[k].log| && trace[k].log[i].FedAt?
    ensures var path := trace[k].log[i].path;
            LoggedAfter(trace[k].log, i, Handed(path)) || LoggedAfter(trace[k].log, i, Dropped(path))
  {
    NothingIsLost(trace, actions, debounce, k);
    assert Accounted(trace[k], i, debounce);
  }

  // ----- dropping takes a raising callback with more to hand over -----

  /** The step is no raise, or a raise on the last path of its batch. */
  predicate LosesNothing(s: System, a: Action)
    requires Enabled(s, a)
  {
    a.Raise? ==> |s.threads[a.thread].batch| == 1
  }

  ghost predicate NoDrops(log: seq<Entry>) {
    forall e <- log :: !e.Dropped?
  }

  lemma StepDropsExactlyWhen(s: System, a: Action, debounce: real)
    requires Enabled(s, a)
    ensures s.log <= Next(s, a, debounce).log
    ensures NoDrops(Next(s, a, debounce).log) <==> NoDrops(s.log) && LosesNothing(s, a)
  {
    var next := Next(s, a, debounce);
    if a.Raise? {
      var due := s.threads[a.thread].batch;
      if |due| > 1 {
        assert next.log[|s.log| + 1] == Dropped(due[1]);
      }
    }
    if NoDrops(next.log) {
      assert forall e <- s.log :: e in next.log;
    }
  }

  /** In every reachable state: nothing has been dropped so far if and only if every callback that raised
      was handling the last path of its batch. */
  lemma {:induction false} NothingDroppedExactlyWhen(trace: seq<System>, actions: seq<Action>, debounce: real, k: nat)
    requires IsRun(trace, actions, debounce) && k < |trace|
    ensures (forall e <- trace[k].log :: !e.Dropped?) <==>
            forall m | 0 <= m < k && actions[m].Raise? ::
              actions[m].thread < |trace[m].threads| && |trace[m].threads[actions[m].thread].batch| == 1
  {
    if k > 0 {
      NothingDroppedExactlyWhen(trace, actions, debounce, k - 1);
      assert StepAt(trace, actions, debounce, k - 1);
      StepDropsExactlyWhen(trace[k - 1], actions[k - 1], debounce);
    }
  }

  /** The states of one such run: two paths fed, both due, the first callback raises. */
  function LossyTrace(first: Path, second: Path, debounce: real): seq<System> {
    var fed := [FedAt(first, 0.0), FedAt(second, 0.0)];
    var both := Handler(false, map[first := 0.0, second := 0.0], [first, second], Some(debounce));
    [START,
     System(0.0, Handler(false, map[first := 0.0], [first], Some(debounce)), [], [FedAt(first, 0.0)]),
     System(0.0, both, [], fed),
     System(debounce, both, [], fed),
     System(debounce, IDLE, [Thread([first, second], 2)], fed),
     System(debounce, IDLE, [Thread([], 2)], fed + [Handed(first), Dropped(second)])]
  }

  function LossyActions(first: Path, second: Path, debounce: real): seq<Action> {
    [Feed(first), Feed(second), Tick(debounce), Fire, Raise(0)]
  }

  lemma LossyFeeds(first: Path, second: Path, debounce: real)
    requires first != second && debounce >= 0.0
    ensures forall k | 0 <= k < 2 ::
              StepAt(LossyTrace(first, second, debounce), LossyActions(first, second, debounce), debounce, k)
  {
    var trace, actions := LossyTrace(first, second, debounce), LossyActions(first, second, debounce);
    assert trace[1] == Next(trace[0], actions[0], debounce);
    assert trace[2] == Next(trace[1], actions[1], debounce);
    forall k | 0 <= k < 2 ensures StepAt(trace, actions, debounce, k) {
      assert k == 0 || k == 1;
    }
  }

  lemma LossyFire(first: Path, second: Path, debounce: real)
    requires first != second && debounce >= 0.0
    ensures forall k | 2 <= k < 5 ::
              StepAt(LossyTrace(first, second, debounce), LossyActions(first, second, debounce), debounce, k)
  {
    var trace, actions := LossyTrace(first, second, debounce), LossyActions(first, second, debounce);
    assert trace[3] == Next(trace[2], actions[2], debounce);
    assert trace[4] == Next(trace[3], actions[3], debounce);
    assert Drops([second]) == [Dropped(second)] && [first, second][1..] == [second];
    assert trace[5] == Next(trace[4], actions[4], debounce);
    forall k | 2 <= k < 5 ensures StepAt(trace, actions, debounce, k) {
      assert k == 2 || k == 3 || k == 4;
    }
  }

  /** When one does, the rest of its batch really is gone: nothing is pending or in flight any more, and
      the second path was fed but never handed over. */
  lemma RaisingLosesTheRest(first: Path, second: Path, debounce: real)
    requires first != second && debounce >= 0.0
    ensures var trace := LossyTrace(first, second, debounce); var end := trace[5];
            && IsRun(trace, LossyActions(first, second, debounce), debounce)
            && end.log[1] == FedAt(second, 0.0) && Handed(second) !in end.log
            && end.handler == IDLE && end.threads == [Thread([], 2)]
  {
    LossyFeeds(first, second, debounce);
    LossyFire(first, second, debounce);
  }

  // ----- punctual timers -----

  /** Time never runs past a live deadline: a due timer fires before the clock moves on. */
  predicate Punctual(s: System, a: Action) {
    a.Tick? && s.handler.timer.Some? ==> s.now + a.elapsed <= s.handler.timer.value
  }

  lemma {:induction false} DeadlinesAhead(trace: seq<System>, actions: seq<Action>, debounce: real, k: nat)
    requires IsRun(trace, actions, debounce) && debounce >= 0.0 && k < |trace|
    requires forall m | 0 <= m < |actions| :: Punctual(trace[m], actions[m])
    ensures trace[k].handler.timer.Some? ==> trace[k].now <= trace[k].handler.timer.value
  {
    if k > 0 {
      DeadlinesAhead(trace, actions, debounce, k - 1);
      assert StepAt(trace, actions, debounce, k - 1) && Punctual(trace[k - 1], actions[k - 1]);
    }
  }

  /** With punctual timers no feed waits longer than the debounce interval: by then a firing thread
      has taken it. */
  lemma TakenWithinDebounce(trace: seq<System>, actions: seq<Action>, debounce: real, k: nat, i: nat)
    requires IsRun(trace, actions, debounce) && debounce >= 0.0 && k < |trace|
    requires forall m | 0 <= m < |actions| :: Punctual(trace[m], actions[m])
    requires !trace[k].handler.stopped && i < |trace[k].log| && trace[k].log[i].FedAt?
    requires trace[k].log[i].time + debounce < trace[k].now
    ensures var path := trace[k].log[i].path;
            || LoggedAfter(trace[k].log, i, Handed(path))
            || LoggedAfter(trace[k].log, i, Dropped(path))
            || InFlight(trace[k].threads, i, path)
  {
    NothingIsLost(trace, actions, debounce, k);
    DeadlinesAhead(trace, actions, debounce, k);
    assert Accounted(trace[k], i, debounce);
  }

  // ----- what a timer runs from -----

  /** How long the log was when the last firing took its batch. */
  function LastFire(s: System): nat {
    if s.threads == [] then 0 else s.threads[|s.threads| - 1].since
  }

  /** Log entry i is the first feed since then. */
  ghost predicate FirstFeed(s: System, i: nat) {
    LastFire(s) <= i < |s.log| && s.log[i].FedAt? && forall j | LastFire(s) <= j < i :: !s.log[j].FedAt?
  }

  /** A live timer was started by the first feed since the last firing, for the full interval; without one
      there was no feed since. */
  ghost predicate Clocked(s: System, debounce: real) {
    && LastFire(s) <= |s.log| && (forall p <- s.handler.pending :: p in s.handler.order)
    && (s.handler.stopped ==> s.handler.timer.None?)
    && (!s.handler.stopped && s.handler.timer.None? ==> forall j | LastFire(s) <= j < |s.log| :: !s.log[j].FedAt?)
    && (s.handler.timer.Some? ==>
          exists i: nat :: FirstFeed(s, i) && s.log[i].path in s.handler.order
                      && s.handler.timer == Some(s.log[i].time + debounce))
  }

  lemma FirstFeedStays(s: System, next: System, i: nat)
    requires FirstFeed(s, i) && s.log <= next.log && LastFire(next) == LastFire(s)
    ensures FirstFeed(next, i) && next.log[i] == s.log[i]
  {
  }

  lemma FeedKeepsClocked(s: System, path: Path, debounce: real)
    requires Clocked(s, debounce) && !s.handler.stopped
    ensures Clocked(Next(s, Feed(path), debounce), debounce)
  {
    var next := Next(s, Feed(path), debounce);
    if s.handler.timer.None? {
      assert FirstFeed(next, |s.log|) && next.log[|s.log|] == FedAt(path, s.now);
    } else {
      var i: nat :| FirstFeed(s, i) && s.log[i].path in s.handler.order
               && s.handler.timer == Some(s.log[i].time + debounce);
      FirstFeedStays(s, next, i);
    }
  }

  /** Handing over and raising log no feed and start no thread. */
  lemma LoopKeepsClocked(s: System, next: System, debounce: real)
    requires Clocked(s, debounce) && next.handler == s.handler && LastFire(next) == LastFire(s) && s.log <= next.log
    requires forall j | |s.log| <= j < |next.log| :: !next.log[j].FedAt?
    ensures Clocked(next, debounce)
  {
    if s.handler.timer.Some? {
      var i: nat :| FirstFeed(s, i) && s.log[i].path in s.handler.order
               && s.handler.timer == Some(s.log[i].time + debounce);
      FirstFeedStays(s, next, i);
    }
  }

  lemma StepKeepsClocked(s: System, a: Action, debounce: real)
    requires Clocked(s, debounce) && Enabled(s, a)
    ensures Clocked(Next(s, a, debounce), debounce)
  {
    match a
    case Feed(path) => if !s.handler.stopped { FeedKeepsClocked(s, path, debounce); }
    case Hand(t) => LoopKeepsClocked(s, Next(s, a, debounce), debounce);
    case Raise(t) => LoopKeepsClocked(s, Next(s, a, debounce), debounce);
    case Tick(elapsed) => LoopKeepsClocked(s, Next(s, a, debounce), debounce);
    case _ =>
  }

  /** In every reachable state a live timer's deadline is exactly one debounce interval after the first feed
      since the last firing. */
  lemma {:induction false} TimersRunFromTheFirstFeed(trace: seq<System>, actions: seq<Action>, debounce: real, k: nat)
    requires IsRun(trace, actions, debounce) && k < |trace|
    ensures Clocked(trace[k], debounce)
  {
    if k > 0 {
      TimersRunFromTheFirstFeed(trace, actions, debounce, k - 1);
      assert StepAt(trace, actions, debounce, k - 1);
      StepKeepsClocked(trace[k - 1], actions[k - 1], debounce);
    }
  }

  /** No firing comes early: the first feed since the firing before it has waited the full interval, and its
      path is in the batch. */
  lemma NoFiringComesEarly(trace: seq<System>, actions: seq<Action>, debounce: real, k: nat)
    requires IsRun(trace, actions, debounce) && k < |actions| && actions[k].Fire?
    ensures trace[k + 1].threads != []
    ensures exists i: nat :: FirstFeed(trace[k], i) && trace[k].log[i].time + debounce <= trace[k].now
                        && trace[k].log[i].path in trace[k + 1].threads[|trace[k + 1].threads| - 1].batch
  {
    TimersRunFromTheFirstFeed(trace, actions, debounce, k);
    assert StepAt(trace, actions, debounce, k);
    var s := trace[k];
    var i: nat :| FirstFeed(s, i) && s.log[i].path in s.handler.order
             && s.handler.timer == Some(s.log[i].time + debounce);
    assert trace[k + 1].threads[|s.threads|] == Thread(s.handler.order, |s.log|);
  }

  // ----- the order of a batch -----

  /** The paths fed, each where it was fed first. */
  function PathsFed(log: seq<Entry>): seq<Path> {
    if log == [] then []
    else
      var earlier, last := PathsFed(log[..|log| - 1]), log[|log| - 1];
      if last.FedAt? && last.path !in earlier then earlier + [last.path] else earlier
  }

  lemma {:induction false} OnlyFeedsCount(log: seq<Entry>, more: seq<Entry>)
    requires forall e <- more :: !e.FedAt?
    ensures PathsFed(log + more) == PathsFed(log)
    decreases |more|
  {
    if more == [] {
      assert log + more == log;
    } else {
      assert (log + more)[..|log + more| - 1] == log + more[..|more| - 1];
      OnlyFeedsCount(log, more[..|more| - 1]);
    }
  }

  ghost predicate InFeedOrder(s: System) {
    && LastFire(s) <= |s.log| && s.handler.order == PathsFed(s.log[LastFire(s)..])
    && forall p :: p in s.handler.order <==> p in s.handler.pending
  }

  lemma LoopKeepsFeedOrder(s: System, next: System, more: seq<Entry>)
    requires InFeedOrder(s) && next.handler == s.handler && LastFire(next) == LastFire(s) && next.log == s.log + more
    requires forall e <- more :: !e.FedAt?
    ensures InFeedOrder(next)
  {
    OnlyFeedsCount(s.log[LastFire(s)..], more);
    assert next.log[LastFire(s)..] == s.log[LastFire(s)..] + more;
  }

  lemma FeedKeepsFeedOrder(s: System, path: Path, debounce: real)
    requires InFeedOrder(s)
    ensures InFeedOrder(Next(s, Feed(path), debounce))
  {
    var next, lately := Next(s, Feed(path), debounce), s.log[LastFire(s)..];
    if !s.handler.stopped {
      assert next.log[LastFire(s)..] == lately + [FedAt(path, s.now)];
      assert (lately + [FedAt(path, s.now)])[..|lately|] == lately;
    }
  }

  lemma RaiseKeepsFeedOrder(s: System, t: nat, debounce: real)
    requires InFeedOrder(s) && Enabled(s, Raise(t))
    ensures InFeedOrder(Next(s, Raise(t), debounce))
  {
    var due := s.threads[t].batch;
    assert s.log + [Handed(due[0])] + Drops(due[1..]) == s.log + ([Handed(due[0])] + Drops(due[1..]));
    LoopKeepsFeedOrder(s, Next(s, Raise(t), debounce), [Handed(due[0])] + Drops(due[1..]));
  }

  lemma StepKeepsFeedOrder(s: System, a: Action, debounce: real)
    requires InFeedOrder(s) && Enabled(s, a)
    ensures InFeedOrder(Next(s, a, debounce))
  {
    match a
    case Feed(path) => FeedKeepsFeedOrder(s, path, debounce);
    case Hand(t) => LoopKeepsFeedOrder(s, Next(s, a, debounce), [Handed(s.threads[t].batch[0])]);
    case Raise(t) => RaiseKeepsFeedOrder(s, t, debounce);
    case Tick(_) => LoopKeepsFeedOrder(s, Next(s, a, debounce), []);
    case Fire => assert Next(s, a, debounce).log[|s.log|..] == [];
    case Stop =>
  }

  /** In every reachable state the pending paths are those fed since the last firing, each once, in the order
      they were first fed: so they are handed over. */
  lemma {:induction false} BatchesKeepFeedOrder(trace: seq<System>, actions: seq<Action>, debounce: real, k: nat)
    requires IsRun(trace, actions, debounce) && k < |trace|
    ensures InFeedOrder(trace[k])
    ensures k < |actions| && actions[k].Fire? ==>
              var lately := trace[k].log[LastFire(trace[k])..];
              trace[k + 1].threads == trace[k].threads + [Thread(PathsFed(lately), |trace[k].log|)]
  {
    if k > 0 {
      BatchesKeepFeedOrder(trace, actions, debounce, k - 1);
      assert StepAt(trace, actions, debounce, k - 1);
      StepKeepsFeedOrder(trace[k - 1], actions[k - 1], debounce);
    }
    if k < |actions| {
      assert StepAt(trace, actions, debounce, k);
    }
  }

  // ----- coalescing -----

  ghost function Count<T>(s: seq<T>, x: T): nat {
    if s == [] then 0 else (if s[|s| - 1] == x then 1 else 0) + Count(s[..|s| - 1], x)
  }

  ghost function Feeds(log: seq<Entry>, path: Path): nat {
    if log == [] then 0
    else (if log[|log| - 1].FedAt? && log[|log| - 1].path == path then 1 else 0) + Feeds(log[..|log| - 1], path)
  }

  ghost function Settled(log: seq<Entry>, path: Path): nat {
    if log == [] then 0
    else (if !log[|log| - 1].FedAt? && log[|log| - 1].path == path then 1 else 0) + Settled(log[..|log| - 1], path)
  }

  ghost function Held(threads: seq<Thread>, path: Path): nat {
    if threads == [] then 0
    else Count(threads[|threads| - 1].batch, path) + Held(threads[..|threads| - 1], path)
  }

  /** Callbacks made or lost, callbacks still owed by firing threads, and the pending entry together
      never exceed the feeds: bursts coalesce, and on_due is never run more often than it was fed. */
  ghost predicate Coalesced(s: System, path: Path) {
    Settled(s.log, path) + Held(s.threads, path) + (if path in s.handler.pending then 1 else 0)
    <= Feeds(s.log, path)
  }

  lemma {:induction false} CountOnce<T>(s: seq<T>, x: T)
    requires NoDuplicates(s)
    ensures Count(s, x) == if x in s then 1 else 0
    decreases |s|
  {
    if s != [] {
      var front := s[..|s| - 1];
      CountOnce(front, x);
      assert x in s <==> x in front || x == s[|s| - 1];
    }
  }

  lemma {:induction false} CountSplit<T>(s: seq<T>, x: T)
    requires s != []
    ensures Count(s, x) == (if s[0] == x then 1 else 0) + Count(s[1..], x)
    decreases |s|
  {
    if |s| > 1 {
      CountSplit(s[..|s| - 1], x);
      assert s[1..][..|s[1..]| - 1] == s[..|s| - 1][1..];
    }
  }

  lemma {:induction false} HeldAfter(threads: seq<Thread>, t: nat, next: Thread, path: Path)
    requires t < |threads|
    ensures Held(threads[t := next], path) + Count(threads[t].batch, path)
            == Held(threads, path) + Count(next.batch, path)
    decreases |threads|
  {
    var front := threads[..|threads| - 1];
    if t < |threads| - 1 {
      HeldAfter(front, t, next, path);
      assert threads[t := next][..|threads| - 1] == front[t := next];
    } else {
      assert threads[t := next][..|threads| - 1] == front;
    }
  }

  lemma {:induction false} SettledDrops(log: seq<Entry>, due: seq<Path>, path: Path)
    ensures Settled(log + Drops(due), path) == Settled(log, path) + Count(due, path)
    ensures Feeds(log + Drops(due), path) == Feeds(log, path)
    decreases |due|
  {
    if due == [] {
      assert log + Drops(due) == log;
    } else {
      SettledDrops(log, due[..|due| - 1], path);
      assert (log + Drops(due))[..|log| + |due| - 1] == log + Drops(due[..|due| - 1]);
    }
  }

  lemma LogOne(log: seq<Entry>, e: Entry, path: Path)
    ensures Settled(log + [e], path) == Settled(log, path) + if !e.FedAt? && e.path == path then 1 else 0
    ensures Feeds(log + [e], path) == Feeds(log, path) + if e.FedAt? && e.path == path then 1 else 0
  {
    assert (log + [e])[..|log|] == log;
  }

  lemma StepCoalesces(s: System, a: Action, debounce: real, path: Path)
    requires KeysInOrder(s.handler) && Enabled(s, a) && Coalesced(s, path)
    ensures Coalesced(Next(s, a, debounce), path)
  {
    var next := Next(s, a, debounce);
    match a
    case Feed(p) => LogOne(s.log, FedAt(p, s.now), path);
    case Fire =>
      CountOnce(s.handler.order, path);
      assert next.threads[..|s.threads|] == s.threads;
    case Hand(t) =>
      var due := s.threads[t].batch;
      CountSplit(due, path);
      HeldAfter(s.threads, t, s.threads[t].(batch := due[1..]), path);
      LogOne(s.log, Handed(due[0]), path);
    case Raise(t) =>
      var due := s.threads[t].batch;
      CountSplit(due, path);
      HeldAfter(s.threads, t, s.threads[t].(batch := []), path);
      LogOne(s.log, Handed(due[0]), path);
      SettledDrops(s.log + [Handed(due[0])], due[1..], path);
    case _ =>
  }

  /** In every reachable state, raising callbacks or not: no path is handed over more often than it was fed. */
  lemma {:induction false} BurstsCoalesce(trace: seq<System>, actions: seq<Action>, debounce: real, k: nat, path: Path)
    requires IsRun(trace, actions, debounce) && debounce >= 0.0 && k < |trace|
    ensures Coalesced(trace[k], path)
  {
    if k > 0 {
      BurstsCoalesce(trace, actions, debounce, k - 1, path);
      NothingIsLost(trace, actions, debounce, k - 1);
      assert StepAt(trace, actions, debounce, k - 1);
      StepCoalesces(trace[k - 1], actions[k - 1], debounce, path);
    }
  }
}
