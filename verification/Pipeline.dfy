/**
 * `src/broker.rs`: `check_stream`. The driver, the spawned check tasks and the consumer of the
 * stream interleave in atomic steps. Items are spawned in source order, so task `i` checks item `i`.
 */
module Pipeline {
  import opened Prelude
  import opened Proxies

  /** The post-check capability filter. */
  datatype CapsFilter = CapsFilter(cookie: bool, referer: bool, connect25: bool, trusted: bool)
  {
    predicate Passes(p: Proxy)
    {
      && (cookie ==> p.caps.cookieEcho)
      && (referer ==> p.caps.refererEcho)
      && (connect25 ==> Connect25 in p.types)
      && (trusted ==> p.trustSignals == [])
    }
  }

  /** What a check delivers when it runs to its end. */
  datatype Checked = Checked(working: bool, proxy: Proxy)

  datatype Config = Config(
    maxConn: nat, limit: Option<nat>, caps: CapsFilter, observed: bool, capacity: nat, source: seq<Checked>)

  datatype Driver = AtSource | Pulled | Acquiring | Draining | Over

  /** Once the check arm of the `select!` is chosen the task can no longer be cancelled. */
  datatype Task =
    | Checking
    | Recording
    | Observing
    | Deciding
    | Reserving
    | Surplus            // no slot left: about to cancel
    | Sending(slot: nat)
    | AfterSend(slot: nat)
    | Ended
    | Aborted

  datatype LogEntry = Recorded(i: nat) | Shown(i: nat) | Sent(i: nat)

  /** `slots[n]` is the item that drew slot `n`, so the atomic counter reads `|slots|`. */
  datatype Stream = Stream(
    driver: Driver, tasks: seq<Task>, slots: seq<nat>, log: seq<LogEntry>,
    channel: seq<nat>, cancelled: bool, dropped: bool)

  datatype Event = DriverMoves | TaskMoves(i: nat, abort: bool) | Receive | DropStream

  predicate Passing(cfg: Config, i: nat)
  {
    i < |cfg.source| && cfg.source[i].working && cfg.caps.Passes(cfg.source[i].proxy)
  }

  predicate LimitReached(cfg: Config, s: Stream)
  {
    cfg.limit.Some? && |s.slots| >= cfg.limit.value
  }

  predicate IsLive(t: Task) { t != Ended && t != Aborted }

  function Live(tasks: seq<Task>): nat
  {
    if tasks == [] then 0 else Live(tasks[..|tasks| - 1]) + (if IsLive(tasks[|tasks| - 1]) then 1 else 0)
  }

  function DriverStep(cfg: Config, s: Stream): Option<Stream>
  {
    match s.driver
    case AtSource => Some(s.(driver := if |s.tasks| < |cfg.source| then Pulled else Draining))
    case Pulled => Some(s.(driver := if s.cancelled || LimitReached(cfg, s) then Draining else Acquiring))
    case Acquiring =>
      if Live(s.tasks) >= cfg.maxConn then None
      else Some(s.(driver := AtSource, tasks := s.tasks + [Checking]))
    case Draining => if Live(s.tasks) == 0 then Some(s.(driver := Over)) else None
    case Over => None
  }

  function TaskStep(cfg: Config, s: Stream, i: nat, abort: bool): Option<Stream>
    requires i < |s.tasks|
  {
    match s.tasks[i]
    case Checking =>
      if !abort then Some(s.(tasks := s.tasks[i := Recording]))
      else if s.cancelled then Some(s.(tasks := s.tasks[i := Aborted]))
      else None
    case Recording => Some(s.(tasks := s.tasks[i := Observing], log := s.log + [Recorded(i)]))
    case Observing =>
      Some(s.(tasks := s.tasks[i := Deciding], log := if cfg.observed then s.log + [Shown(i)] else s.log))
    case Deciding => Some(s.(tasks := s.tasks[i := if Passing(cfg, i) then Reserving else Ended]))
    case Reserving =>
      Some(s.(tasks := s.tasks[i := if LimitReached(cfg, s) then Surplus else Sending(|s.slots|)],
              slots := s.slots + [i]))
    case Surplus => Some(s.(tasks := s.tasks[i := Ended], cancelled := true))
    case Sending(n) =>
      if s.dropped then Some(s.(tasks := s.tasks[i := AfterSend(n)]))
      else if |s.channel| >= cfg.capacity then None
      else Some(s.(tasks := s.tasks[i := AfterSend(n)], log := s.log + [Sent(i)], channel := s.channel + [i]))
    case AfterSend(n) =>
      Some(s.(tasks := s.tasks[i := Ended],
              cancelled := s.cancelled || (cfg.limit.Some? && n + 1 >= cfg.limit.value)))
    case Ended => None
    case Aborted => None
  }

  function Apply(cfg: Config, s: Stream, e: Event): Option<Stream>
  {
    match e
    case DriverMoves => DriverStep(cfg, s)
    case TaskMoves(i, abort) => if i < |s.tasks| then TaskStep(cfg, s, i, abort) else None
    case Receive => if s.channel == [] || s.dropped then None else Some(s.(channel := s.channel[1..]))
    case DropStream => if s.dropped then None else Some(s.(dropped := true, cancelled := true))
  }

  function Run(cfg: Config, events: seq<Event>): Option<Stream>
  {
    if events == [] then Some(Stream(AtSource, [], [], [], [], false, false))
    else
      var before := Run(cfg, events[..|events| - 1]);
      if before.None? then None else Apply(cfg, before.value, events[|events| - 1])
  }

  // ----- counting live tasks -----

  lemma {:induction false} LiveUpdate(tasks: seq<Task>, i: nat, t: Task)
    requires i < |tasks|
    ensures Live(tasks[i := t]) == Live(tasks) - (if IsLive(tasks[i]) then 1 else 0) + (if IsLive(t) then 1 else 0)
  {
    var n := |tasks| - 1;
    if i == n {
      assert tasks[i := t][..n] == tasks[..n];
    } else {
      assert tasks[i := t][..n] == tasks[..n][i := t];
      LiveUpdate(tasks[..n], i, t);
    }
  }

  lemma {:induction false} LiveZeroIff(tasks: seq<Task>)
    ensures Live(tasks) == 0 <==> forall i :: 0 <= i < |tasks| ==> !IsLive(tasks[i])
  {
    if tasks != [] {
      LiveZeroIff(tasks[..|tasks| - 1]);
      assert forall i :: 0 <= i < |tasks| - 1 ==> tasks[..|tasks| - 1][i] == tasks[i];
    }
  }

  // ----- the invariant -----

  predicate PastRecord(t: Task) { !t.Checking? && !t.Recording? && !t.Aborted? }

  predicate PastShow(t: Task) { PastRecord(t) && !t.Observing? }

  /** The log entries a task has left, exactly as its program point says. */
  predicate LoggedBy(cfg: Config, s: Stream, i: nat)
    requires i < |s.tasks|
  {
    && multiset(s.log)[Recorded(i)] == (if PastRecord(s.tasks[i]) then 1 else 0)
    && multiset(s.log)[Shown(i)] == (if cfg.observed && PastShow(s.tasks[i]) then 1 else 0)
  }

  /** Nothing is sent before it was recorded and, with an observer, shown. */
  predicate SentAfterRecorded(cfg: Config, log: seq<LogEntry>)
  {
    forall p :: 0 <= p < |log| && log[p].Sent? ==>
      Recorded(log[p].i) in log[..p] && (cfg.observed ==> Shown(log[p].i) in log[..p])
  }

  predicate Slot(cfg: Config, s: Stream, i: nat)
    requires i < |s.tasks|
  {
    match s.tasks[i]
    case Checking => i !in s.slots
    case Recording => i !in s.slots
    case Observing => i !in s.slots
    case Deciding => i !in s.slots
    case Aborted => i !in s.slots && s.cancelled
    case Reserving => i !in s.slots && Passing(cfg, i)
    case Surplus => i in s.slots && LimitReached(cfg, s)
    case Sending(n) => n < |s.slots| && s.slots[n] == i
    case AfterSend(n) => n < |s.slots| && s.slots[n] == i
    case Ended => i in s.slots <==> Passing(cfg, i)
  }

  predicate Within(limit: Option<nat>, n: nat) { limit.None? || n < limit.value }

  /** Slot `n` below the limit belongs to a task that is sending or has sent it exactly once. */
  predicate Delivered(cfg: Config, s: Stream, n: nat)
    requires n < |s.slots|
  {
    var i := s.slots[n];
    && i < |s.tasks|
    && Passing(cfg, i)
    && multiset(s.log)[Sent(i)] <= 1
    && (Sent(i) in s.log ==> Within(cfg.limit, n))
    && (Within(cfg.limit, n) ==> s.tasks[i] == Sending(n) || s.tasks[i] == AfterSend(n) || s.tasks[i] == Ended)
    && (s.tasks[i].Sending? ==> Sent(i) !in s.log)
    && (Within(cfg.limit, n) && !s.tasks[i].Sending? && !s.dropped ==> Sent(i) in s.log)
    && (s.tasks[i].Surplus? || s.tasks[i].Sending? || s.tasks[i].AfterSend? || s.tasks[i].Ended?)
    && (s.tasks[i].Sending? ==> s.tasks[i].slot == n && Within(cfg.limit, n))
  }

  predicate SlotsDistinct(slots: seq<nat>)
  {
    forall a, b :: 0 <= a < b < |slots| ==> slots[a] != slots[b]
  }

  ghost predicate Inv(cfg: Config, s: Stream)
  {
    && |s.tasks| <= |cfg.source|
    && (s.driver.Pulled? || s.driver.Acquiring? ==> |s.tasks| < |cfg.source|)
    && Live(s.tasks) <= cfg.maxConn
    && (forall i :: 0 <= i < |s.tasks| ==> LoggedBy(cfg, s, i))
    && SentAfterRecorded(cfg, s.log)
    && (forall e :: e in s.log ==> e.i < |s.tasks| && (e.Sent? ==> e.i in s.slots))
    && (forall i :: 0 <= i < |s.tasks| ==> Slot(cfg, s, i))
    && SlotsDistinct(s.slots)
    && (forall n :: 0 <= n < |s.slots| ==> Delivered(cfg, s, n))
    && (s.cancelled ==> s.dropped || LimitReached(cfg, s))
    && (s.driver.Draining? || s.driver.Over? ==> |s.tasks| == |cfg.source| || s.cancelled || LimitReached(cfg, s))
    && (s.driver.Over? ==> Live(s.tasks) == 0)
  }

  // ----- every step keeps the invariant -----

  /** A step of task `i` as the other tasks see it. */
  predicate Framed(s: Stream, t: Stream, i: nat)
  {
    && i < |s.tasks| == |t.tasks|
    && (forall j :: 0 <= j < |s.tasks| && j != i ==> t.tasks[j] == s.tasks[j])
    && (t.log == s.log || (|t.log| == |s.log| + 1 && t.log == s.log + [t.log[|s.log|]] && t.log[|s.log|].i == i))
    && (t.slots == s.slots || t.slots == s.slots + [i])
    && (s.cancelled ==> t.cancelled)
    && t.dropped == s.dropped && t.driver == s.driver
  }

  lemma TaskStepFramed(cfg: Config, s: Stream, i: nat, abort: bool)
    requires i < |s.tasks| && TaskStep(cfg, s, i, abort).Some?
    ensures Framed(s, TaskStep(cfg, s, i, abort).value, i)
  {
  }

  lemma FramedTask(cfg: Config, s: Stream, t: Stream, i: nat, j: nat)
    requires Framed(s, t, i) && j < |s.tasks| && j != i
    requires LoggedBy(cfg, s, j) && Slot(cfg, s, j)
    ensures LoggedBy(cfg, t, j) && Slot(cfg, t, j)
  {
    assert j in t.slots <==> j in s.slots;
  }

  lemma FramedSlot(cfg: Config, s: Stream, t: Stream, i: nat, n: nat)
    requires Framed(s, t, i) && n < |s.slots| && s.slots[n] != i
    requires Delivered(cfg, s, n)
    ensures Delivered(cfg, t, n)
  {
    var j := s.slots[n];
    assert Sent(j) in t.log <==> Sent(j) in s.log;
    assert multiset(t.log)[Sent(j)] == multiset(s.log)[Sent(j)];
  }

  function Written(cfg: Config, s: Stream, i: nat): multiset<LogEntry>
    requires i < |s.tasks|
  {
    if s.tasks[i].Recording? then multiset{Recorded(i)}
    else if s.tasks[i].Observing? && cfg.observed then multiset{Shown(i)}
    else if s.tasks[i].Sending? && !s.dropped then multiset{Sent(i)}
    else multiset{}
  }

  lemma LoggedStep(cfg: Config, s: Stream, i: nat, abort: bool)
    requires i < |s.tasks| && TaskStep(cfg, s, i, abort).Some? && LoggedBy(cfg, s, i)
    ensures LoggedBy(cfg, TaskStep(cfg, s, i, abort).value, i)
  {
    PointStep(cfg, s, i, abort);
    LogStep(cfg, s, i, abort);
    LoggedFrom(cfg, s, TaskStep(cfg, s, i, abort).value, i);
  }

  /** How far a task's step takes it. */
  lemma PointStep(cfg: Config, s: Stream, i: nat, abort: bool)
    requires i < |s.tasks| && TaskStep(cfg, s, i, abort).Some?
    ensures var t := TaskStep(cfg, s, i, abort).value;
            && |t.tasks| == |s.tasks|
            && (PastRecord(t.tasks[i]) <==> PastRecord(s.tasks[i]) || s.tasks[i].Recording?)
            && (PastShow(t.tasks[i]) <==> PastShow(s.tasks[i]) || s.tasks[i].Observing?)
  {
  }

  lemma LoggedFrom(cfg: Config, s: Stream, t: Stream, i: nat)
    requires i < |s.tasks| == |t.tasks| && LoggedBy(cfg, s, i)
    requires PastRecord(t.tasks[i]) <==> PastRecord(s.tasks[i]) || s.tasks[i].Recording?
    requires PastShow(t.tasks[i]) <==> PastShow(s.tasks[i]) || s.tasks[i].Observing?
    requires multiset(t.log) == multiset(s.log) + Written(cfg, s, i)
    ensures LoggedBy(cfg, t, i)
  {
  }

  /** What a task's step writes to the log. */
  lemma LogStep(cfg: Config, s: Stream, i: nat, abort: bool)
    requires i < |s.tasks| && TaskStep(cfg, s, i, abort).Some?
    ensures multiset(TaskStep(cfg, s, i, abort).value.log) == multiset(s.log) + Written(cfg, s, i)
  {
  }

  lemma SlotStep(cfg: Config, s: Stream, i: nat, abort: bool)
    requires i < |s.tasks| && TaskStep(cfg, s, i, abort).Some? && Slot(cfg, s, i)
    requires forall n :: 0 <= n < |s.slots| ==> Delivered(cfg, s, n)
    ensures Slot(cfg, TaskStep(cfg, s, i, abort).value, i)
  {
    match s.tasks[i]
    case AfterSend(n) => assert Delivered(cfg, s, n);
    case Surplus =>
      var n :| 0 <= n < |s.slots| && s.slots[n] == i;
      assert Delivered(cfg, s, n);
    case _ =>
  }

  lemma OrderedStep(cfg: Config, s: Stream, i: nat, abort: bool)
    requires i < |s.tasks| && TaskStep(cfg, s, i, abort).Some?
    requires LoggedBy(cfg, s, i) && SentAfterRecorded(cfg, s.log)
    ensures SentAfterRecorded(cfg, TaskStep(cfg, s, i, abort).value.log)
  {
    var t := TaskStep(cfg, s, i, abort).value;
    TaskStepFramed(cfg, s, i, abort);
    assert t.log == s.log || t.log == s.log + [t.log[|s.log|]];
    forall p | 0 <= p < |t.log| && t.log[p].Sent?
      ensures Recorded(t.log[p].i) in t.log[..p] && (cfg.observed ==> Shown(t.log[p].i) in t.log[..p])
    {
      if p < |s.log| {
        assert t.log[p] == s.log[p];
        assert t.log[..p] == s.log[..p];
      } else {
        assert t.log[..p] == s.log;
        assert Recorded(i) in multiset(s.log) && (cfg.observed ==> Shown(i) in multiset(s.log));
      }
    }
  }

  /** Drawing a slot, using it, and leaving it, for the slot's own task. */
  lemma OwnSlotStep(cfg: Config, s: Stream, i: nat, abort: bool, n: nat)
    requires Inv(cfg, s) && i < |s.tasks| && TaskStep(cfg, s, i, abort).Some?
    requires var t := TaskStep(cfg, s, i, abort).value; n < |t.slots| && t.slots[n] == i
    ensures Delivered(cfg, TaskStep(cfg, s, i, abort).value, n)
  {
    var t := TaskStep(cfg, s, i, abort).value;
    assert Slot(cfg, s, i);
    if n < |s.slots| {
      assert Delivered(cfg, s, n);
      assert i in s.slots;
      assert forall m :: 0 <= m < |s.slots| && s.slots[m] == i ==> m == n;
    } else {
      assert Sent(i) !in s.log;
      assert multiset(s.log)[Sent(i)] == 0;
    }
  }

  lemma SlotsStayDistinct(cfg: Config, s: Stream, i: nat, abort: bool)
    requires Inv(cfg, s) && i < |s.tasks| && TaskStep(cfg, s, i, abort).Some?
    ensures SlotsDistinct(TaskStep(cfg, s, i, abort).value.slots)
  {
    assert Slot(cfg, s, i);
  }

  lemma TaskKeeps(cfg: Config, s: Stream, i: nat, abort: bool)
    requires Inv(cfg, s) && i < |s.tasks| && TaskStep(cfg, s, i, abort).Some?
    ensures Inv(cfg, TaskStep(cfg, s, i, abort).value)
  {
    var t := TaskStep(cfg, s, i, abort).value;
    TaskStepFramed(cfg, s, i, abort);
    LiveUpdate(s.tasks, i, t.tasks[i]);
    assert t.tasks == s.tasks[i := t.tasks[i]];
    forall j | 0 <= j < |t.tasks|
      ensures LoggedBy(cfg, t, j) && Slot(cfg, t, j)
    {
      if j == i {
        LoggedStep(cfg, s, i, abort);
        SlotStep(cfg, s, i, abort);
      } else {
        FramedTask(cfg, s, t, i, j);
      }
    }
    assert LoggedBy(cfg, s, i) && Slot(cfg, s, i);
    OrderedStep(cfg, s, i, abort);
    SlotsStayDistinct(cfg, s, i, abort);
    forall n | 0 <= n < |t.slots|
      ensures Delivered(cfg, t, n)
    {
      if t.slots[n] == i { OwnSlotStep(cfg, s, i, abort, n); } else { FramedSlot(cfg, s, t, i, n); }
    }
    CancelledStep(cfg, s, i, abort);
    LogOwnersStep(cfg, s, i, abort);
    LiveNonNegative(cfg, s, t, i);
  }

  /** Only a task without a slot below the limit, or the task of the last slot, cancels. */
  lemma CancelledStep(cfg: Config, s: Stream, i: nat, abort: bool)
    requires Inv(cfg, s) && i < |s.tasks| && TaskStep(cfg, s, i, abort).Some?
    ensures var t := TaskStep(cfg, s, i, abort).value;
            && (t.cancelled ==> t.dropped || LimitReached(cfg, t))
            && (LimitReached(cfg, s) ==> LimitReached(cfg, t))
  {
    assert Slot(cfg, s, i);
  }

  lemma LogOwnersStep(cfg: Config, s: Stream, i: nat, abort: bool)
    requires Inv(cfg, s) && i < |s.tasks| && TaskStep(cfg, s, i, abort).Some?
    ensures var t := TaskStep(cfg, s, i, abort).value;
            forall e :: e in t.log ==> e.i < |t.tasks| && (e.Sent? ==> e.i in t.slots)
  {
    assert Slot(cfg, s, i);
  }

  /** A task that moves was live, and moving never makes a finished task live. */
  lemma LiveNonNegative(cfg: Config, s: Stream, t: Stream, i: nat)
    requires Framed(s, t, i) && IsLive(s.tasks[i])
    ensures Live(t.tasks) <= Live(s.tasks)
  {
    assert t.tasks == s.tasks[i := t.tasks[i]];
    LiveUpdate(s.tasks, i, t.tasks[i]);
  }

  lemma DriverKeeps(cfg: Config, s: Stream)
    requires Inv(cfg, s) && DriverStep(cfg, s).Some?
    ensures Inv(cfg, DriverStep(cfg, s).value)
  {
    if s.driver.Acquiring? {
      SpawnKeepsTasks(cfg, s);
      SpawnKeepsSlots(cfg, s);
      assert (s.tasks + [Checking])[..|s.tasks|] == s.tasks;
    } else {
      SameTasksKeep(cfg, s, DriverStep(cfg, s).value);
    }
  }

  lemma SpawnKeepsTasks(cfg: Config, s: Stream)
    requires Inv(cfg, s) && s.driver.Acquiring? && DriverStep(cfg, s).Some?
    ensures var t := DriverStep(cfg, s).value;
            forall j :: 0 <= j < |t.tasks| ==> LoggedBy(cfg, t, j) && Slot(cfg, t, j)
  {
    var t := DriverStep(cfg, s).value;
    var n := |s.tasks|;
    forall m | 0 <= m < |s.slots|
      ensures s.slots[m] != n
    {
      assert Delivered(cfg, s, m);
    }
    assert Recorded(n) !in s.log && Shown(n) !in s.log;
    forall j | 0 <= j < |t.tasks|
      ensures LoggedBy(cfg, t, j) && Slot(cfg, t, j)
    {
      if j < n { assert t.tasks[j] == s.tasks[j] && LoggedBy(cfg, s, j) && Slot(cfg, s, j); }
    }
  }

  lemma SpawnKeepsSlots(cfg: Config, s: Stream)
    requires Inv(cfg, s) && s.driver.Acquiring? && DriverStep(cfg, s).Some?
    ensures var t := DriverStep(cfg, s).value;
            forall m :: 0 <= m < |t.slots| ==> Delivered(cfg, t, m)
  {
    var t := DriverStep(cfg, s).value;
    forall m | 0 <= m < |t.slots|
      ensures Delivered(cfg, t, m)
    {
      assert Delivered(cfg, s, m);
    }
  }

  /** The driver's other moves and the consumer's leave tasks, slots and log alone. */
  lemma SameTasksKeep(cfg: Config, s: Stream, t: Stream)
    requires Inv(cfg, s)
    requires t.tasks == s.tasks && t.slots == s.slots && t.log == s.log
    requires (s.cancelled ==> t.cancelled) && (s.dropped ==> t.dropped)
    ensures forall j :: 0 <= j < |t.tasks| ==> LoggedBy(cfg, t, j) && Slot(cfg, t, j)
    ensures forall n :: 0 <= n < |t.slots| ==> Delivered(cfg, t, n)
  {
    forall j | 0 <= j < |t.tasks|
      ensures LoggedBy(cfg, t, j) && Slot(cfg, t, j)
    {
      assert LoggedBy(cfg, s, j) && Slot(cfg, s, j);
    }
    forall n | 0 <= n < |t.slots|
      ensures Delivered(cfg, t, n)
    {
      assert Delivered(cfg, s, n);
    }
  }

  lemma StepKeeps(cfg: Config, s: Stream, e: Event)
    requires Inv(cfg, s) && Apply(cfg, s, e).Some?
    ensures Inv(cfg, Apply(cfg, s, e).value)
  {
    match e
    case DriverMoves => DriverKeeps(cfg, s);
    case TaskMoves(i, abort) => TaskKeeps(cfg, s, i, abort);
    case Receive => SameTasksKeep(cfg, s, Apply(cfg, s, e).value);
    case DropStream => SameTasksKeep(cfg, s, Apply(cfg, s, e).value);
  }

  lemma {:induction false} InvAlways(cfg: Config, events: seq<Event>)
    requires Run(cfg, events).Some?
    ensures Inv(cfg, Run(cfg, events).value)
  {
    if events != [] {
      var n := |events| - 1;
      InvAlways(cfg, events[..n]);
      StepKeeps(cfg, Run(cfg, events[..n]).value, events[n]);
    }
  }

  // ----- what a run amounts to -----

  function PassingItems(cfg: Config): set<nat>
  {
    set i | 0 <= i < |cfg.source| && Passing(cfg, i)
  }

  function SentItems(log: seq<LogEntry>): set<nat>
  {
    set e | e in log && e.Sent? :: e.i
  }

  /**
   * In every reachable state at most `max_conn` tasks are live, at most `limit` proxies have been
   * emitted, none twice, and each emitted one passed, and was recorded and (with an observer)
   * shown exactly once, before it was sent.
   */
  lemma Safety(cfg: Config, events: seq<Event>)
    requires Run(cfg, events).Some?
    ensures var s := Run(cfg, events).value;
            && Live(s.tasks) <= cfg.maxConn
            && (cfg.limit.Some? ==> |SentItems(s.log)| <= cfg.limit.value)
            && SentAfterRecorded(cfg, s.log)
            && forall i :: Sent(i) in s.log ==>
                 && Passing(cfg, i)
                 && multiset(s.log)[Sent(i)] == 1
                 && multiset(s.log)[Recorded(i)] == 1
                 && multiset(s.log)[Shown(i)] == (if cfg.observed then 1 else 0)
  {
    InvAlways(cfg, events);
    var s := Run(cfg, events).value;
    forall i | Sent(i) in s.log
      ensures Passing(cfg, i) && multiset(s.log)[Sent(i)] == 1
      ensures multiset(s.log)[Recorded(i)] == 1 && multiset(s.log)[Shown(i)] == (if cfg.observed then 1 else 0)
    {
      var n :| 0 <= n < |s.slots| && s.slots[n] == i;
      assert Delivered(cfg, s, n) && LoggedBy(cfg, s, i);
    }
    if cfg.limit.Some? {
      SentFitLimit(cfg, s);
    }
  }

  lemma {:induction false} PrefixSize(slots: seq<nat>, k: nat)
    requires k <= |slots| && SlotsDistinct(slots)
    ensures |set n | 0 <= n < k :: slots[n]| == k
  {
    if k > 0 {
      PrefixSize(slots, k - 1);
      assert (set n | 0 <= n < k :: slots[n]) == (set n | 0 <= n < k - 1 :: slots[n]) + {slots[k - 1]};
    }
  }

  lemma SubsetSize(a: set<nat>, b: set<nat>)
    requires a <= b
    ensures |a| <= |b|
    ensures |a| == |b| ==> a == b
  {
    assert b == a + (b - a);
  }

  lemma SentFitLimit(cfg: Config, s: Stream)
    requires Inv(cfg, s) && cfg.limit.Some?
    ensures |SentItems(s.log)| <= cfg.limit.value
  {
    var k := Min(cfg.limit.value, |s.slots|);
    var drawn := set n | 0 <= n < k :: s.slots[n];
    forall i | i in SentItems(s.log)
      ensures i in drawn
    {
      var n :| 0 <= n < |s.slots| && s.slots[n] == i;
      assert Delivered(cfg, s, n);
    }
    PrefixSize(s.slots, k);
    SubsetSize(SentItems(s.log), drawn);
  }

  /**
   * When the consumer never dropped the stream, a finished run has emitted exactly as many proxies
   * as pass, cut off at the limit; and short of the limit it has checked, recorded and emitted
   * every source proxy that passes.
   */
  lemma Completeness(cfg: Config, events: seq<Event>)
    requires Run(cfg, events).Some? && Run(cfg, events).value.driver.Over? && !Run(cfg, events).value.dropped
    ensures var s := Run(cfg, events).value;
            var passing := PassingItems(cfg);
            && |SentItems(s.log)| == (if cfg.limit.Some? then Min(cfg.limit.value, |passing|) else |passing|)
            && SentItems(s.log) <= passing
            && (cfg.limit.None? || |SentItems(s.log)| < cfg.limit.value ==>
                  && SentItems(s.log) == passing
                  && forall i :: 0 <= i < |cfg.source| ==> multiset(s.log)[Recorded(i)] == 1)
  {
    InvAlways(cfg, events);
    var s := Run(cfg, events).value;
    LiveZeroIff(s.tasks);
    SentArePassing(cfg, s);
    SubsetSize(SentItems(s.log), PassingItems(cfg));
    if LimitReached(cfg, s) {
      FinishedAtLimit(cfg, s);
    } else {
      FinishedShort(cfg, s);
      assert SentItems(s.log) == PassingItems(cfg);
      if cfg.limit.Some? { SentFitLimit(cfg, s); }
    }
  }

  lemma SentArePassing(cfg: Config, s: Stream)
    requires Inv(cfg, s)
    ensures SentItems(s.log) <= PassingItems(cfg)
  {
    forall i | i in SentItems(s.log)
      ensures Passing(cfg, i)
    {
      var n :| 0 <= n < |s.slots| && s.slots[n] == i;
      assert Delivered(cfg, s, n);
    }
  }

  lemma FinishedAtLimit(cfg: Config, s: Stream)
    requires Inv(cfg, s) && s.driver.Over? && !s.dropped && LimitReached(cfg, s)
    ensures |SentItems(s.log)| == cfg.limit.value
  {
    LiveZeroIff(s.tasks);
    var k := cfg.limit.value;
    var drawn := set n | 0 <= n < k :: s.slots[n];
    forall i | i in drawn
      ensures i in SentItems(s.log)
    {
      var n :| 0 <= n < k && s.slots[n] == i;
      assert Delivered(cfg, s, n);
      assert Sent(i) in s.log;
    }
    PrefixSize(s.slots, k);
    SubsetSize(drawn, SentItems(s.log));
    SentFitLimit(cfg, s);
  }

  lemma FinishedShort(cfg: Config, s: Stream)
    requires Inv(cfg, s) && s.driver.Over? && !s.dropped && !LimitReached(cfg, s)
    ensures PassingItems(cfg) <= SentItems(s.log)
    ensures forall i :: 0 <= i < |cfg.source| ==> multiset(s.log)[Recorded(i)] == 1
  {
    LiveZeroIff(s.tasks);
    assert |s.tasks| == |cfg.source|;
    forall i | 0 <= i < |cfg.source|
      ensures multiset(s.log)[Recorded(i)] == 1
      ensures Passing(cfg, i) ==> Sent(i) in s.log
    {
      assert Slot(cfg, s, i) && LoggedBy(cfg, s, i);
      assert s.tasks[i] == Ended;
      if Passing(cfg, i) {
        var n :| 0 <= n < |s.slots| && s.slots[n] == i;
        assert Delivered(cfg, s, n);
      }
    }
  }

  // ----- every run ends -----

  /** What is left to do in one task. */
  function Remaining(t: Task): nat
  {
    match t
    case Checking => 9 case Recording => 8 case Observing => 7 case Deciding => 6 case Reserving => 5
    case Surplus => 1 case Sending(_) => 4 case AfterSend(_) => 1 case Ended => 0 case Aborted => 0
  }

  function Work(tasks: seq<Task>): nat
  {
    if tasks == [] then 0 else Work(tasks[..|tasks| - 1]) + Remaining(tasks[|tasks| - 1])
  }

  function DriverWork(d: Driver): nat
  {
    match d case AtSource => 4 case Pulled => 3 case Acquiring => 2 case Draining => 1 case Over => 0
  }

  function Measure(cfg: Config, s: Stream): int
  {
    12 * (|cfg.source| - |s.tasks|) + DriverWork(s.driver) + Work(s.tasks) + |s.channel| + (if s.dropped then 0 else 1)
  }

  lemma {:induction false} WorkUpdate(tasks: seq<Task>, i: nat, t: Task)
    requires i < |tasks|
    ensures Work(tasks[i := t]) == Work(tasks) - Remaining(tasks[i]) + Remaining(t)
  {
    var n := |tasks| - 1;
    if i == n {
      assert tasks[i := t][..n] == tasks[..n];
    } else {
      assert tasks[i := t][..n] == tasks[..n][i := t];
      WorkUpdate(tasks[..n], i, t);
    }
  }

  lemma TaskMoveUsesWork(cfg: Config, s: Stream, i: nat, abort: bool)
    requires Inv(cfg, s) && Apply(cfg, s, TaskMoves(i, abort)).Some?
    ensures Measure(cfg, Apply(cfg, s, TaskMoves(i, abort)).value) < Measure(cfg, s)
  {
    var t := Apply(cfg, s, TaskMoves(i, abort)).value;
    TaskStepFramed(cfg, s, i, abort);
    assert t.tasks == s.tasks[i := t.tasks[i]];
    WorkUpdate(s.tasks, i, t.tasks[i]);
    TaskUsesWork(cfg, s, i, abort);
  }

  lemma WorkAppend(tasks: seq<Task>, t: Task)
    ensures Work(tasks + [t]) == Work(tasks) + Remaining(t)
  {
    assert (tasks + [t])[..|tasks|] == tasks;
  }

  /** The driver moves on, or spawns one task and starts over. */
  lemma DriverProgress(cfg: Config, s: Stream)
    requires DriverStep(cfg, s).Some?
    ensures var t := DriverStep(cfg, s).value;
            && t == s.(driver := t.driver, tasks := t.tasks)
            && if s.driver.Acquiring? then t.tasks == s.tasks + [Checking]
               else t.tasks == s.tasks && DriverWork(t.driver) < DriverWork(s.driver)
  {
  }

  lemma DriverMoveUsesWork(cfg: Config, s: Stream)
    requires DriverStep(cfg, s).Some?
    ensures Measure(cfg, DriverStep(cfg, s).value) < Measure(cfg, s)
  {
    DriverProgress(cfg, s);
    WorkAppend(s.tasks, Checking);
  }

  /** Every step uses up some of a bounded amount of work, so no run is infinite. */
  lemma StepUsesWork(cfg: Config, s: Stream, e: Event)
    requires Inv(cfg, s) && Apply(cfg, s, e).Some?
    ensures 0 <= Measure(cfg, Apply(cfg, s, e).value) < Measure(cfg, s)
  {
    StepKeeps(cfg, s, e);
    var t := Apply(cfg, s, e).value;
    match e
    case TaskMoves(i, abort) => TaskMoveUsesWork(cfg, s, i, abort);
    case DriverMoves => DriverMoveUsesWork(cfg, s);
    case _ =>
  }

  lemma TaskUsesWork(cfg: Config, s: Stream, i: nat, abort: bool)
    requires i < |s.tasks| && TaskStep(cfg, s, i, abort).Some?
    ensures var t := TaskStep(cfg, s, i, abort).value;
            Remaining(t.tasks[i]) + |t.channel| < Remaining(s.tasks[i]) + |s.channel|
  {
  }

  /** A run is at most as long as the work it starts with. */
  lemma {:induction false} RunsAreBounded(cfg: Config, events: seq<Event>)
    requires Run(cfg, events).Some?
    ensures Inv(cfg, Run(cfg, events).value)
    ensures |events| + Measure(cfg, Run(cfg, events).value) <= 12 * |cfg.source| + 5
    ensures 0 <= Measure(cfg, Run(cfg, events).value)
  {
    InvAlways(cfg, events);
    if events != [] {
      var n := |events| - 1;
      var before := Run(cfg, events[..n]).value;
      RunsAreBounded(cfg, events[..n]);
      StepUsesWork(cfg, before, events[n]);
      assert Run(cfg, events) == Apply(cfg, before, events[n]);
    }
  }

  /**
   * With at least one permit and a channel that holds anything at all, an unfinished run can always
   * go on, so every run that is carried on ends with the stream finished.
   */
  lemma NeverStuck(cfg: Config, events: seq<Event>) returns (e: Event)
    requires Run(cfg, events).Some? && !Run(cfg, events).value.driver.Over?
    requires cfg.maxConn >= 1 && cfg.capacity >= 1
    ensures Apply(cfg, Run(cfg, events).value, e).Some? && !e.DropStream?
  {
    InvAlways(cfg, events);
    var s := Run(cfg, events).value;
    e := DriverMoves;
    if DriverStep(cfg, s).None? {
      LiveZeroIff(s.tasks);
      var i :| 0 <= i < |s.tasks| && IsLive(s.tasks[i]);
      e := if s.tasks[i].Sending? && !s.dropped && |s.channel| >= cfg.capacity then Receive else TaskMoves(i, false);
    }
  }

  lemma DroppedOnce(cfg: Config, s: Stream, e: Event)
    requires Apply(cfg, s, e).Some? && !e.DropStream?
    ensures Apply(cfg, s, e).value.dropped == s.dropped
  {
  }

  /** Any run can be carried on to its end without the consumer dropping the stream. */
  lemma {:induction false} CanFinish(cfg: Config, events: seq<Event>) returns (longer: seq<Event>)
    requires Run(cfg, events).Some? && cfg.maxConn >= 1 && cfg.capacity >= 1
    ensures events <= longer && Run(cfg, longer).Some?
    ensures var (s, t) := (Run(cfg, events).value, Run(cfg, longer).value);
            t.driver.Over? && t.dropped == s.dropped
    decreases Measure(cfg, Run(cfg, events).value)
  {
    var s := Run(cfg, events).value;
    longer := events;
    if !s.driver.Over? {
      var e := NeverStuck(cfg, events);
      RunsAreBounded(cfg, events);
      StepUsesWork(cfg, s, e);
      DroppedOnce(cfg, s, e);
      assert (events + [e])[..|events|] == events;
      longer := CanFinish(cfg, events + [e]);
    }
  }

  /** Whatever the source, some run ends with the consumer still there and the promised proxies emitted. */
  lemma CompleteRunExists(cfg: Config) returns (events: seq<Event>)
    requires cfg.maxConn >= 1 && cfg.capacity >= 1
    ensures Run(cfg, events).Some?
    ensures var s := Run(cfg, events).value;
            var passing := |PassingItems(cfg)|;
            && s.driver.Over? && !s.dropped
            && |SentItems(s.log)| == if cfg.limit.Some? then Min(cfg.limit.value, passing) else passing
  {
    events := CanFinish(cfg, []);
    Completeness(cfg, events);
  }
}
