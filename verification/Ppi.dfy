/**
 The PPI: events are routed to tasks over 32 channels, through tables built from the registers. All tasks of one
 event are queued, without duplicates, and then run; a task may raise further events, which come back here while the
 queue is being emptied.
 */
module Ppi {
  import opened Common
  import opened Histories

  /** Tasks are named by numbers; a channel without a task holds `None`. */
  type Task = nat

  const N_CHANNELS: nat := 32
  const N_PROGRAMMABLE: nat := 20
  const N_EVENTS: nat := 187
  const QUEUE_ALLOC_SIZE: nat := 64

  // ---------- Routing ----------

  const RADIO_EVENTS_READY: nat := 6
  const RADIO_EVENTS_ADDRESS: nat := 7
  const RADIO_EVENTS_END: nat := 9
  const RADIO_EVENTS_BCMATCH: nat := 14
  const TIMER0_EVENTS_COMPARE_0: nat := 39
  const TIMER0_EVENTS_COMPARE_1: nat := 40
  const RTC0_EVENTS_COMPARE_0: nat := 53

  const RADIO_TXEN: Task := 0
  const RADIO_RXEN: Task := 1
  const RADIO_DISABLE: Task := 2
  const AAR_START: Task := 3
  const CCM_KSGEN: Task := 4
  const CCM_CRYPT: Task := 5
  const TIMER0_CAPTURE_1: Task := 6
  const TIMER0_CAPTURE_2: Task := 7
  const TIMER0_CLEAR: Task := 8
  const TIMER0_START: Task := 9

  /** The event and the task of channels 20 to 31, which are wired. */
  const FIXED_ROUTES: seq<(nat, Task)> := [
    (TIMER0_EVENTS_COMPARE_0, RADIO_TXEN), (TIMER0_EVENTS_COMPARE_0, RADIO_RXEN),
    (TIMER0_EVENTS_COMPARE_1, RADIO_DISABLE), (RADIO_EVENTS_BCMATCH, AAR_START),
    (RADIO_EVENTS_READY, CCM_KSGEN), (RADIO_EVENTS_ADDRESS, CCM_CRYPT),
    (RADIO_EVENTS_ADDRESS, TIMER0_CAPTURE_1), (RADIO_EVENTS_END, TIMER0_CAPTURE_2),
    (RTC0_EVENTS_COMPARE_0, RADIO_TXEN), (RTC0_EVENTS_COMPARE_0, RADIO_RXEN),
    (RTC0_EVENTS_COMPARE_0, TIMER0_CLEAR), (RTC0_EVENTS_COMPARE_0, TIMER0_START)]

  /** The wired channels of every event, by its number, and the task of every wired channel. */
  function WiredTo(event: nat): set<nat> {
    if event == 39 then {20, 21}
    else if event == 40 then {22}
    else if event == 14 then {23}
    else if event == 6 then {24}
    else if event == 7 then {25, 26}
    else if event == 9 then {27}
    else if event == 53 then {28, 29, 30, 31}
    else {}
  }

  function WiredTask(channel: nat): Option<Task> {
    if channel == 20 || channel == 28 then Some(RADIO_TXEN)
    else if channel == 21 || channel == 29 then Some(RADIO_RXEN)
    else if channel == 22 then Some(RADIO_DISABLE)
    else if channel == 23 then Some(AAR_START)
    else if channel == 24 then Some(CCM_KSGEN)
    else if channel == 25 then Some(CCM_CRYPT)
    else if channel == 26 then Some(TIMER0_CAPTURE_1)
    else if channel == 27 then Some(TIMER0_CAPTURE_2)
    else if channel == 30 then Some(TIMER0_CLEAR)
    else if channel == 31 then Some(TIMER0_START)
    else None
  }

  /** Only channels 20 and 28, and 21 and 29, share their task. */
  lemma WiredTasksDiffer(c: nat, d: nat)
    requires 20 <= c < d < 32
    ensures WiredTask(c) == WiredTask(d) <==> (c == 20 && d == 28) || (c == 21 && d == 29)
  {
  }

  /** The entry of a table of (address, value) for an address: the first one with that address. */
  function Find(table: seq<(nat, nat)>, address: nat): Option<nat> {
    if table == [] then None
    else if table[0].0 == address then Some(table[0].1)
    else Find(table[1..], address)
  }

  /** What a register that holds an address selects; a NULL address selects nothing. */
  function Selected(table: seq<(nat, nat)>, address: nat): Option<nat> {
    if address == 0 then None else Find(table, address)
  }

  /** The two tasks of a channel. */
  datatype ChannelTasks = ChannelTasks(tep: Option<Task>, fork: Option<Task>)

  function Listed(t: Option<Task>): seq<Task> {
    match t
    case None => []
    case Some(task) => [task]
  }

  function OfChannel(t: ChannelTasks): seq<Task> {
    Listed(t.tep) + Listed(t.fork)
  }

  /** The tasks of some channels, from channel `c` up, each channel's own task before the forked one. */
  function Routed(mask: set<nat>, tasks: seq<ChannelTasks>, c: nat): seq<Task>
    requires |tasks| == N_CHANNELS
    decreases N_CHANNELS - c
  {
    if c >= N_CHANNELS then []
    else (if c in mask then OfChannel(tasks[c]) else []) + Routed(mask, tasks, c + 1)
  }

  lemma {:induction false} RoutedSkips(mask: set<nat>, tasks: seq<ChannelTasks>, a: nat, b: nat)
    requires |tasks| == N_CHANNELS && a <= b && forall c :: a <= c < b ==> c !in mask
    ensures Routed(mask, tasks, a) == Routed(mask, tasks, b)
    decreases b - a
  {
    if a < b {
      RoutedSkips(mask, tasks, a + 1, b);
    }
  }

  /** Where a routed task comes from: the own task of a channel, or the forked one. */
  datatype Source = Source(channel: nat, forked: bool)

  predicate Before(a: Source, b: Source) {
    a.channel < b.channel || (a.channel == b.channel && !a.forked && b.forked)
  }

  function TaskOf(tasks: seq<ChannelTasks>, s: Source): Option<Task>
    requires s.channel < |tasks|
  {
    if s.forked then tasks[s.channel].fork else tasks[s.channel].tep
  }

  function SourcesIn(t: ChannelTasks, c: nat): seq<Source> {
    (if t.tep.Some? then [Source(c, false)] else []) + (if t.fork.Some? then [Source(c, true)] else [])
  }

  /** The tasks come from these sources, in the order of the channels and a channel's own task first. */
  predicate InTurn(from: seq<Source>, routed: seq<Task>, tasks: seq<ChannelTasks>) {
    && |from| == |routed|
    && (forall i, j :: 0 <= i < j < |from| ==> Before(from[i], from[j]))
    && (forall i :: 0 <= i < |from| ==>
          from[i].channel < |tasks| && TaskOf(tasks, from[i]) == Some(routed[i]))
  }

  lemma InTurnAppends(a: seq<Source>, b: seq<Source>, ra: seq<Task>, rb: seq<Task>, tasks: seq<ChannelTasks>)
    requires InTurn(a, ra, tasks) && InTurn(b, rb, tasks) && forall x <- a, y <- b :: Before(x, y)
    ensures InTurn(a + b, ra + rb, tasks)
  {
    assert forall i :: 0 <= i < |a| ==> a[i] in a;
    assert forall i :: 0 <= i < |b| ==> b[i] in b;
  }

  lemma ChannelInTurn(tasks: seq<ChannelTasks>, c: nat)
    requires c < |tasks|
    ensures InTurn(SourcesIn(tasks[c], c), OfChannel(tasks[c]), tasks)
    ensures forall s :: s in SourcesIn(tasks[c], c) <==> s.channel == c && TaskOf(tasks, s).Some?
  {
  }

  /** The routed tasks are all tasks of the channels in the mask, in turn. */
  lemma {:induction false} RoutedInOrder(mask: set<nat>, tasks: seq<ChannelTasks>, c: nat) returns (from: seq<Source>)
    requires |tasks| == N_CHANNELS
    ensures InTurn(from, Routed(mask, tasks, c), tasks)
    ensures forall s :: s in from <==>
      c <= s.channel < N_CHANNELS && s.channel in mask && TaskOf(tasks, s).Some?
    decreases N_CHANNELS - c
  {
    if c >= N_CHANNELS {
      from := [];
    } else {
      var rest := RoutedInOrder(mask, tasks, c + 1);
      if c in mask {
        var own := SourcesIn(tasks[c], c);
        ChannelInTurn(tasks, c);
        from := own + rest;
        hide InTurn, SourcesIn, OfChannel, TaskOf;
        InTurnAppends(own, rest, OfChannel(tasks[c]), Routed(mask, tasks, c + 1), tasks);
      } else {
        from := rest;
        hide InTurn, TaskOf;
        assert Routed(mask, tasks, c) == Routed(mask, tasks, c + 1);
      }
    }
  }

  // ---------- Duplicates ----------

  /** Appends what is not there yet. */
  function AddNew(queue: seq<Task>, tasks: seq<Task>): seq<Task>
    decreases |tasks|
  {
    if tasks == [] then queue
    else AddNew(if tasks[0] in queue then queue else queue + [tasks[0]], tasks[1..])
  }

  predicate NoDuplicates(s: seq<Task>) {
    forall i, j :: 0 <= i < j < |s| ==> s[i] != s[j]
  }

  /** What was queued stays in front, nothing is queued twice, and nothing is lost. */
  lemma {:induction false} AddNewKeeps(queue: seq<Task>, tasks: seq<Task>)
    requires NoDuplicates(queue)
    ensures var r := AddNew(queue, tasks);
      queue <= r && NoDuplicates(r) && (forall t :: t in r <==> t in queue || t in tasks)
    decreases |tasks|
  {
    if tasks != [] {
      AddNewKeeps(if tasks[0] in queue then queue else queue + [tasks[0]], tasks[1..]);
      assert tasks == [tasks[0]] + tasks[1..];
    }
  }

  /** `AddNew` keeps the first occurrence of everything: what was queued stays in front, nothing is queued twice,
      nothing is lost, and what is added comes in the order of its first occurrences. */
  lemma {:induction false} AddNewKeepsFirsts(queue: seq<Task>, tasks: seq<Task>)
    requires NoDuplicates(queue)
    ensures var r := AddNew(queue, tasks);
      && queue <= r && NoDuplicates(r)
      && (forall t :: t in r <==> t in queue || t in tasks)
      && (forall i, j :: |queue| <= i < j < |r| ==> FirstAt(tasks, r[i]) < FirstAt(tasks, r[j]))
    decreases |tasks|
  {
    AddNewKeeps(queue, tasks);
    if tasks != [] {
      var next := if tasks[0] in queue then queue else queue + [tasks[0]];
      AddNewKeeps(next, tasks[1..]);
      AddNewKeepsFirsts(next, tasks[1..]);
      var r := AddNew(queue, tasks);
      assert r == AddNew(next, tasks[1..]);
      InFront(r, next, tasks[0]);
      hide AddNew, NoDuplicates;
      forall i, j | |queue| <= i < j < |r|
        ensures FirstAt(tasks, r[i]) < FirstAt(tasks, r[j])
      {
        if i < |next| {
          assert r[i] == next[i] == tasks[0];
        }
      }
    }
  }

  lemma NoDuplicatesBehind(first: Task, rest: seq<Task>)
    requires NoDuplicates([first] + rest)
    ensures NoDuplicates(rest)
  {
    assert forall i :: 0 <= i < |rest| ==> rest[i] == ([first] + rest)[i + 1];
  }

  lemma InFront(r: seq<Task>, front: seq<Task>, t: Task)
    requires front <= r && NoDuplicates(r) && t in front
    ensures forall i :: |front| <= i < |r| ==> r[i] != t
  {
    var k :| 0 <= k < |front| && front[k] == t;
    assert r[k] == t;
  }

  /** The position of the first occurrence of `t`. */
  function FirstAt(s: seq<Task>, t: Task): nat {
    if s == [] || s[0] == t then 0 else 1 + FirstAt(s[1..], t)
  }

  lemma {:induction false} AddNewAppends(queue: seq<Task>, a: seq<Task>, b: seq<Task>)
    ensures AddNew(queue, a + b) == AddNew(AddNew(queue, a), b)
    decreases |a|
  {
    if a == [] {
      assert a + b == b;
    } else {
      assert (a + b)[1..] == a[1..] + b;
      AddNewAppends(if a[0] in queue then queue else queue + [a[0]], a[1..], b);
    }
  }

  // ---------- The queue ----------

  /** The queued tasks, in order: a task that has been run leaves an empty slot behind. */
  function Waiting(slots: seq<Option<Task>>): seq<Task> {
    if slots == [] then [] else Listed(slots[0]) + Waiting(slots[1..])
  }

  predicate AllEmpty(slots: seq<Option<Task>>) {
    forall i :: 0 <= i < |slots| ==> slots[i].None?
  }

  /** Empty slots, then full ones. */
  predicate Ordered(slots: seq<Option<Task>>) {
    forall i, j :: 0 <= i < j < |slots| && slots[i].Some? ==> slots[j].Some?
  }

  lemma {:induction false} WaitingAppends(a: seq<Option<Task>>, b: seq<Option<Task>>)
    ensures Waiting(a + b) == Waiting(a) + Waiting(b)
  {
    if a == [] {
      assert a + b == b;
    } else {
      assert (a + b)[1..] == a[1..] + b;
      WaitingAppends(a[1..], b);
    }
  }

  lemma {:induction false} WaitingIsIn(slots: seq<Option<Task>>, t: Task)
    ensures t in Waiting(slots) <==> Some(t) in slots
  {
    if slots != [] {
      assert slots == [slots[0]] + slots[1..];
      WaitingIsIn(slots[1..], t);
    }
  }

  lemma {:induction false} NothingWaiting(slots: seq<Option<Task>>)
    requires AllEmpty(slots)
    ensures Waiting(slots) == []
  {
    if slots != [] {
      NothingWaiting(slots[1..]);
    }
  }

  /** The first full slot holds the first waiting task. */
  lemma FirstWaiting(slots: seq<Option<Task>>, i: nat)
    requires i < |slots| && AllEmpty(slots[..i]) && slots[i].Some?
    ensures Waiting(slots) == [slots[i].value] + Waiting(slots[i := None])
  {
    var a, b := slots[..i], slots[i + 1..];
    assert slots == a + ([slots[i]] + b) && slots[i := None] == a + ([None] + b);
    NothingWaiting(a);
    WaitingAppends(a, [slots[i]] + b);
    WaitingAppends(a, [None] + b);
    assert ([slots[i]] + b)[1..] == b && ([None] + b)[1..] == b;
  }

  /** Taking the first waiting task out leaves the queue in order. */
  lemma TakeFirst(slots: seq<Option<Task>>, i: nat, before: seq<Task>)
    requires i < |slots| && AllEmpty(slots[..i]) && slots[i].Some? && Ordered(slots) && NoDuplicates(Waiting(slots))
    ensures var r := slots[i := None];
      && Ordered(r) && NoDuplicates(Waiting(r)) && AllEmpty(r[..i + 1])
      && before + Waiting(slots) == before + [slots[i].value] + Waiting(r)
  {
    FirstWaiting(slots, i);
    var w := Waiting(slots[i := None]);
    NoDuplicatesBehind(slots[i].value, w);
    assert before + ([slots[i].value] + w) == before + [slots[i].value] + w;
    var r := slots[i := None];
    assert r[..i + 1] == slots[..i] + [None];
    forall j, k | 0 <= j < k < |r| && r[j].Some?
      ensures r[k].Some?
    {
      assert slots[j].Some? && k != i;
    }
  }

  /** So does adding a task that does not wait yet. */
  lemma AddLast(slots: seq<Option<Task>>, t: Task, before: seq<Task>)
    requires Ordered(slots) && NoDuplicates(Waiting(slots)) && Some(t) !in slots
    ensures var r := slots + [Some(t)];
      && Ordered(r) && NoDuplicates(Waiting(r)) && Waiting(slots) <= Waiting(r)
      && Waiting(r) == AddNew(Waiting(slots), [t])
      && before + Waiting(slots) + [t] == before + Waiting(r)
  {
    WaitingAppends(slots, [Some(t)]);
    assert Waiting([Some(t)]) == [t];
    WaitingIsIn(slots, t);
    assert before + Waiting(slots) + [t] == before + (Waiting(slots) + [t]);
  }

  lemma FromLowest(mask: set<nat>, tasks: seq<ChannelTasks>, ch: nat)
    requires |tasks| == N_CHANNELS && forall c <- mask :: ch <= c
    ensures Routed(mask, tasks, 0) == Routed(mask, tasks, ch)
  {
    RoutedSkips(mask, tasks, 0, ch);
  }

  lemma AllRouted(queue: seq<Task>, mask: set<nat>, tasks: seq<ChannelTasks>, ch: nat)
    requires |tasks| == N_CHANNELS && ch <= N_CHANNELS && (mask == {} || ch == N_CHANNELS)
    ensures AddNew(queue, Routed(mask, tasks, ch)) == queue
  {
    RoutedSkips(mask, tasks, ch, N_CHANNELS);
  }

  lemma {:induction false} RoutedWithout(mask: set<nat>, tasks: seq<ChannelTasks>, ch: nat, from: nat)
    requires |tasks| == N_CHANNELS && ch < from
    ensures Routed(mask - {ch}, tasks, from) == Routed(mask, tasks, from)
    decreases N_CHANNELS - from
  {
    if from < N_CHANNELS {
      RoutedWithout(mask, tasks, ch, from + 1);
    }
  }

  /** One channel less to route. */
  lemma ChannelAdded(queue: seq<Task>, mask: set<nat>, tasks: seq<ChannelTasks>, ch: nat)
    requires |tasks| == N_CHANNELS && ch < N_CHANNELS
    ensures AddNew(queue, Routed(mask, tasks, ch))
         == AddNew(if ch in mask then AddNew(queue, OfChannel(tasks[ch])) else queue,
                   Routed(mask - {ch}, tasks, ch + 1))
  {
    RoutedWithout(mask, tasks, ch, ch + 1);
    if ch in mask {
      AddNewAppends(queue, OfChannel(tasks[ch]), Routed(mask, tasks, ch + 1));
    } else {
      assert Routed(mask, tasks, ch) == Routed(mask, tasks, ch + 1);
    }
  }

  // ---------- The peripheral ----------

  /** What a task does that matters here. */
  datatype Action = RaiseEvent(event: nat) | EnableChannels(channels: set<nat>)

  /** The channels that are enabled after all that was done. */
  function EnabledAfter(history: seq<Done<Action>>): set<nat> {
    if history == [] then {}
    else match history[|history| - 1].action
      case EnableChannels(channels) => channels
      case RaiseEvent(_) => EnabledAfter(history[..|history| - 1])
  }

  lemma EnabledAfterOneMore(history: seq<Done<Action>>, d: Done<Action>)
    ensures EnabledAfter(history + [d]) == match d.action
      case EnableChannels(channels) => channels
      case RaiseEvent(_) => EnabledAfter(history)
  {
    assert (history + [d])[..|history|] == history;
  }

  class Peripheral {
    // The tables of event and task addresses, and what the tasks do: the k-th task that is run performs `plan[k]`.
    const events: seq<(nat, nat)>
    const tasks: seq<(nat, nat)>
    const plan: seq<seq<Action>>

    // Registers
    var eep: seq<nat>
    var tep: seq<nat>
    var forkTep: seq<nat>
    var chen: set<nat>

    // Routing tables
    var evtToCh: seq<set<nat>>
    var chTasks: seq<ChannelTasks>

    // Queue
    var q: array<Option<Task>>
    var used: nat
    var tasksRun: nat
    ghost var queued: seq<Task>
    ghost var ran: seq<Task>
    ghost var history: seq<Done<Action>>

    /** The routing tables say what the registers say; channels 20 to 31 are wired. */
    ghost predicate RoutesAgree()
      reads `eep, `tep, `forkTep, `evtToCh, `chTasks
    {
      && |eep| == |tep| == N_PROGRAMMABLE && |forkTep| == |chTasks| == N_CHANNELS && |evtToCh| == N_EVENTS
      && (forall e :: 0 <= e < N_EVENTS ==> forall c <- evtToCh[e] :: c < N_CHANNELS)
      && (forall e, c :: 0 <= e < N_EVENTS && 0 <= c < N_PROGRAMMABLE ==>
            (c in evtToCh[e] <==> Selected(events, eep[c]) == Some(e)))
      && (forall e, c :: 0 <= e < N_EVENTS && N_PROGRAMMABLE <= c < N_CHANNELS ==>
            (c in evtToCh[e] <==> FIXED_ROUTES[c - N_PROGRAMMABLE].0 == e))
      && (forall c :: 0 <= c < N_PROGRAMMABLE ==> chTasks[c].tep == Selected(tasks, tep[c]))
      && (forall c :: N_PROGRAMMABLE <= c < N_CHANNELS ==> chTasks[c].tep == Some(FIXED_ROUTES[c - N_PROGRAMMABLE].1))
      && (forall c :: 0 <= c < N_CHANNELS ==> chTasks[c].fork == Selected(tasks, forkTep[c]))
      && (forall k :: 0 <= k < |events| ==> events[k].1 < N_EVENTS)
      && (forall k, a :: 0 <= k < |plan| && a in plan[k] && a.RaiseEvent? ==> a.event < N_EVENTS)
    }

    ghost function Pending(): seq<Task>
      reads this, q
    {
      if used <= q.Length then Waiting(q[..used]) else []
    }

    /** What has been queued is what has been run, in the same order, followed by what is waiting; nothing waits
        twice. */
    ghost predicate QueueValid()
      reads this, q
    {
      && RoutesAgree()
      && used <= q.Length && Ordered(q[..used])
      && queued == ran + Pending() && NoDuplicates(Pending())
    }

    /** Every task that counts as run has been started, those that have not have done nothing, and the channels that are
        enabled are those that were enabled last. */
    ghost predicate Started()
      reads `ran, `tasksRun, `history, `chen
    {
      tasksRun == |ran| && NothingFrom(history, tasksRun) && chen == EnabledAfter(history)
    }

    ghost predicate Valid()
      reads this, q
    {
      QueueValid() && Started()
    }

    /** Every task that was started since has done all that it does, in order, and nothing else; those before have done
        nothing more. */
    twostate predicate TasksPerformed()
      reads `tasksRun, `history
    {
      Performed(plan, old(history), old(tasksRun), history, tasksRun)
    }

    /** How many tasks can still do something. */
    ghost function Remaining(): nat
      reads this
    {
      if tasksRun < |plan| then |plan| - tasksRun else 0
    }

    /** Room for one more, with the queue as it is. */
    method Grow()
      requires used <= q.Length
      modifies `q
      ensures used < q.Length && q[..used] == old(q[..used]) && (q == old(q) || fresh(q))
    {
      if used >= q.Length {
        var larger := new Option<Task>[q.Length + QUEUE_ALLOC_SIZE](_ => None);
        forall k | 0 <= k < used {
          larger[k] := q[k];
        }
        q := larger;
      }
    }

    method Enqueue(task: Task)
      requires Valid()
      modifies `q, `used, `queued, q
      ensures Valid() && (q == old(q) || fresh(q))
      ensures Pending() == AddNew(old(Pending()), [task]) && old(Pending()) <= Pending()
      ensures queued == ran + Pending()
    {
      hide RoutesAgree, NoDuplicates, Waiting, Ordered;
      ghost var before := q[..used];
      WaitingIsIn(before, task);
      var i := 0;
      while i < used
        invariant 0 <= i <= used
        invariant Some(task) !in q[..i]
      {
        if q[i] == Some(task) {
          assert Some(task) in before;
          return;
        }
        i := i + 1;
      }
      AddLast(before, task, ran);
      Grow();
      q[used] := Some(task);
      used := used + 1;
      assert q[..used] == before + [Some(task)];
      queued := queued + [task];
    }

    /** `waiting` tasks were waiting, `before` had been queued and `past` run: either nothing has happened to the queue
        since, or it has been emptied. */
    twostate predicate EmptiedOrUntouched()
      reads this, q
    {
      used == 0
      || (used == old(used) && q == old(q) && q[..] == old(q[..]) && queued == old(queued) && ran == old(ran))
    }

    /** The same while task `f` is being run. */
    twostate predicate EmptiedOrUntouchedBy(f: Task)
      reads this, q
    {
      used == 0
      || (used == old(used) && q == old(q) && q[..] == old(q[..]) && queued == old(queued) && ran == old(ran) + [f])
    }

    /** Runs what is waiting, oldest first, including what the tasks themselves add. */
    method DequeueAll()
      requires Valid()
      modifies `q, `used, `queued, `ran, `tasksRun, `chen, `history, q
      ensures Valid() && used == 0 && queued == ran && (q == old(q) || fresh(q))
      ensures old(queued) <= queued && old(ran) <= ran && Remaining() <= old(Remaining())
      ensures TasksPerformed() && tasksRun == old(tasksRun) + |ran| - |old(ran)|
      decreases Remaining(), 1
    {
      hide RoutesAgree, NoDuplicates, Ordered, Waiting, Pending, By, NothingFrom, EnabledAfter, Performed;
      NothingPerformed(plan, history, tasksRun);
      var i := 0;
      while i < used
        invariant Valid() && (q == old(q) || fresh(q))
        invariant used == 0 || (i <= used && AllEmpty(q[..i]))
        invariant old(queued) <= queued && old(ran) <= ran && Remaining() <= old(Remaining())
        invariant TasksPerformed()
        decreases used - i
      {
        if q[i].Some? {
          ghost var before, n := history, tasksRun;
          var f := TakeTask(i);
          RunTask(f);
          PerformedThen(plan, old(history), old(tasksRun), before, n, history, tasksRun);
        }
        i := i + 1;
      }
      ForgetEmptySlots();
    }

    method ForgetEmptySlots()
      requires Valid() && AllEmpty(q[..used])
      modifies `used
      ensures Valid() && used == 0 && queued == ran
    {
      NothingWaiting(q[..used]);
      used := 0;
    }

    /** A task has been taken out of the queue, and is to be run. */
    ghost predicate Taken(f: Task)
      reads this, q
    {
      && RoutesAgree() && Started()
      && used <= q.Length && Ordered(q[..used])
      && queued == ran + [f] + Pending() && NoDuplicates(Pending())
    }

    /** The task in slot `i` is taken out of the queue. */
    method TakeTask(i: nat) returns (f: Task)
      requires Valid() && i < used && AllEmpty(q[..i]) && q[i].Some?
      modifies q
      ensures Taken(f) && AllEmpty(q[..i + 1])
    {
      hide RoutesAgree, NoDuplicates, Waiting, Ordered, Started;
      ghost var before := q[..used];
      f := q[i].value;
      assert before[..i] == q[..i];
      TakeFirst(before, i, ran);
      q[i] := None;
      assert q[..used] == before[i := None];
    }

    /** The task counts as run. */
    method StartTask(f: Task)
      requires Taken(f)
      modifies `ran, `tasksRun
      ensures Valid() && ran == old(ran) + [f] && tasksRun == old(tasksRun) + 1
    {
      hide RoutesAgree, NoDuplicates, Ordered, Waiting, By, EnabledAfter;
      ran := ran + [f];
      tasksRun := tasksRun + 1;
    }

    lemma PlannedEventExists(k: nat, i: nat)
      requires RoutesAgree() && k < |plan| && i < |plan[k]| && plan[k][i].RaiseEvent?
      ensures plan[k][i].event < N_EVENTS
    {
      assert plan[k][i] in plan[k];
    }

    /** A task runs: it raises events and changes the enabled channels, as planned. */
    method RunTask(f: Task)
      requires Taken(f)
      modifies `q, `used, `queued, `ran, `tasksRun, `chen, `history, q
      ensures Valid() && EmptiedOrUntouchedBy(f) && (q == old(q) || fresh(q))
      ensures old(queued) <= queued && old(ran) + [f] <= ran && Remaining() <= old(Remaining())
      ensures TasksPerformed() && tasksRun > old(tasksRun)
      decreases Remaining(), 0
    {
      hide RoutesAgree, NoDuplicates, Ordered, Waiting, Pending, By, EnabledAfter, Performing, PerformedAnd, Performed,
        NothingFrom;
      ghost var before, k := history, tasksRun;
      StartTask(f);
      var n := tasksRun - 1;
      if n < |plan| {
        StartsPerforming(plan, before, k);
        var i := 0;
        while i < |plan[n]|
          invariant 0 <= i <= |plan[n]|
          invariant Valid() && EmptiedOrUntouchedBy(f) && (q == old(q) || fresh(q))
          invariant old(queued) <= queued && old(ran) + [f] <= ran && Remaining() < old(Remaining())
          invariant tasksRun > k && Performing(plan, before, k, history, tasksRun, i)
          decreases |plan[n]| - i
        {
          ghost var between, started := history, tasksRun;
          match plan[n][i] {
            case RaiseEvent(e) =>
              PlannedEventExists(n, i);
              RaiseEvent(e, Some(k));
            case EnableChannels(channels) => EnableChannels(channels, Some(k));
          }
          PerformsOneMore(plan, before, k, between, started, i, history, tasksRun);
          i := i + 1;
        }
        HasPerformed(plan, before, k, history, tasksRun);
      } else {
        NothingPlanned(plan, before, k);
      }
    }

    /** CHEN is written, by a task or by nobody of them. */
    method EnableChannels(channels: set<nat>, ghost who: Option<nat>)
      requires Valid() && (who.Some? ==> who.value < tasksRun)
      modifies `chen, `history
      ensures Valid() && chen == channels
      ensures PerformedAnd(plan, old(history), tasksRun, history, tasksRun, Done(who, Action.EnableChannels(channels)))
    {
      hide By, EnabledAfter, Performed, PerformedAnd;
      Record(Done(who, Action.EnableChannels(channels)));
      NothingPerformed(plan, history, tasksRun);
      RecordedThen(plan, old(history), tasksRun, Done(who, Action.EnableChannels(channels)), history, tasksRun);
      chen := channels;
    }

    ghost method Record(d: Done<Action>)
      requires NothingFrom(history, tasksRun) && (d.who.Some? ==> d.who.value < tasksRun)
      modifies `history
      ensures NothingFrom(history, tasksRun) && history == old(history) + [d]
      ensures EnabledAfter(history) == match d.action
        case EnableChannels(channels) => channels
        case RaiseEvent(_) => EnabledAfter(old(history))
    {
      RecordedNothingFrom(history, tasksRun, d);
      EnabledAfterOneMore(history, d);
      history := history + [d];
    }

    lemma ListenersExist(event: nat)
      requires RoutesAgree() && event < N_EVENTS
      ensures |evtToCh| == N_EVENTS && |chTasks| == N_CHANNELS && forall c <- evtToCh[event] :: c < N_CHANNELS
    {
    }

    /** Whatever the tasks do, when this returns every queued task has been run exactly once, in the order of the queue,
        and the queue is empty; unless no enabled channel listens to the event, and then nothing happens. What the event
        itself adds are the tasks of its enabled channels, in ascending order and without what already waits. Every task
        that was started has done all that it does, in order. */
    method RaiseEvent(event: nat, ghost who: Option<nat>)
      requires Valid() && event < N_EVENTS && (who.Some? ==> who.value < tasksRun)
      modifies `q, `used, `queued, `ran, `tasksRun, `chen, `history, q
      ensures Valid() && EmptiedOrUntouched() && (q == old(q) || fresh(q))
      ensures old(queued) <= queued && old(ran) <= ran && Remaining() <= old(Remaining())
      ensures evtToCh[event] * old(chen) != {} ==> used == 0 && queued == ran
      ensures evtToCh[event] * old(chen) != {} ==>
        old(ran) + AddNew(old(Pending()), Routed(evtToCh[event] * old(chen), chTasks, 0)) <= queued
      ensures evtToCh[event] * old(chen) == {} ==> queued == old(queued) && ran == old(ran) && used == old(used)
      ensures tasksRun == old(tasksRun) + |ran| - |old(ran)|
      ensures PerformedAnd(plan, old(history), old(tasksRun), history, tasksRun, Done(who, Action.RaiseEvent(event)))
      decreases Remaining(), 2
    {
      hide By, EnabledAfter, RoutesAgree, Ordered, NoDuplicates, Waiting, AddNew, Routed, Performed, PerformedAnd,
        NothingFrom;
      ghost var d := Done(who, Action.RaiseEvent(event));
      ghost var before := history;
      ListenersExist(event);
      Record(d);
      var mask := evtToCh[event] * chen;
      NothingPerformed(plan, history, tasksRun);
      if mask != {} {
        EnqueueRouted(mask);
        DequeueAll();
      }
      RecordedThen(plan, before, old(tasksRun), d, history, tasksRun);
    }

    /** The number of the lowest bit that is set. */
    method LowestChannel(mask: set<nat>) returns (ch: nat)
      requires mask != {} && forall c <- mask :: c < N_CHANNELS
      ensures ch in mask && forall c <- mask :: ch <= c
    {
      ch := 0;
      while ch !in mask
        invariant forall c <- mask :: ch <= c
        decreases N_CHANNELS - ch
      {
        ghost var c :| c in mask;
        ch := ch + 1;
      }
    }

    method EnqueueChannel(ch: nat)
      requires Valid() && ch < |chTasks|
      modifies `q, `used, `queued, q
      ensures Valid() && (q == old(q) || fresh(q))
      ensures Pending() == AddNew(old(Pending()), OfChannel(chTasks[ch]))
      ensures old(queued) <= queued
    {
      hide RoutesAgree, NoDuplicates, Ordered, Waiting;
      ghost var p := Pending();
      var t := chTasks[ch];
      AddNewAppends(p, Listed(t.tep), Listed(t.fork));
      if t.tep.Some? {
        Enqueue(t.tep.value);
      }
      assert Pending() == AddNew(p, Listed(t.tep));
      if t.fork.Some? {
        Enqueue(t.fork.value);
      }
    }

    /** One channel less to route. */
    method EnqueueIfListening(mask: set<nat>, ch: nat) returns (rest: set<nat>)
      requires Valid() && ch < N_CHANNELS == |chTasks|
      modifies `q, `used, `queued, q
      ensures Valid() && (q == old(q) || fresh(q))
      ensures AddNew(Pending(), Routed(rest, chTasks, ch + 1)) == AddNew(old(Pending()), Routed(mask, chTasks, ch))
      ensures old(queued) <= queued
    {
      ChannelAdded(Pending(), mask, chTasks, ch);
      hide Valid, Pending, AddNew, OfChannel, Routed;
      rest := mask - {ch};
      if ch in mask {
        EnqueueChannel(ch);
      }
    }

    method EnqueueRouted(mask0: set<nat>)
      requires Valid() && |chTasks| == N_CHANNELS && mask0 != {} && forall c <- mask0 :: c < N_CHANNELS
      modifies `q, `used, `queued, q
      ensures Valid() && (q == old(q) || fresh(q))
      ensures Pending() == AddNew(old(Pending()), Routed(mask0, chTasks, 0)) && old(queued) <= queued
    {
      hide Valid, Pending, AddNew, Routed, OfChannel;
      var mask := mask0;
      var ch := LowestChannel(mask);
      FromLowest(mask, chTasks, ch);
      while mask != {} && ch < N_CHANNELS
        invariant Valid() && (q == old(q) || fresh(q)) && 0 <= ch <= N_CHANNELS
        invariant AddNew(Pending(), Routed(mask, chTasks, ch)) == AddNew(old(Pending()), Routed(mask0, chTasks, 0))
        invariant old(queued) <= queued
        decreases N_CHANNELS - ch
      {
        mask := EnqueueIfListening(mask, ch);
        ch := ch + 1;
      }
      AllRouted(Pending(), mask, chTasks, ch);
    }

    // ---------- Registers ----------

    constructor (events: seq<(nat, nat)>, tasks: seq<(nat, nat)>, plan: seq<seq<Action>>)
      requires forall k :: 0 <= k < |events| ==> events[k].1 < N_EVENTS
      requires forall k, a :: 0 <= k < |plan| && a in plan[k] && a.RaiseEvent? ==> a.event < N_EVENTS
      ensures Valid() && used == 0 && queued == [] && chen == {} && history == [] && fresh(q)
      ensures forall e :: 0 <= e < N_EVENTS ==> evtToCh[e] == WiredTo(e)
      ensures forall c :: 0 <= c < N_CHANNELS ==> chTasks[c] == ChannelTasks(WiredTask(c), None)
      ensures this.events == events && this.tasks == tasks && this.plan == plan
    {
      this.events, this.tasks, this.plan := events, tasks, plan;
      eep, tep := seq(N_PROGRAMMABLE, _ => 0), seq(N_PROGRAMMABLE, _ => 0);
      forkTep, chen := seq(N_CHANNELS, _ => 0), {};
      evtToCh := seq(N_EVENTS, _ => {});
      chTasks := seq(N_CHANNELS, _ => ChannelTasks(None, None));
      q, used, tasksRun, queued, ran := new Option<Task>[QUEUE_ALLOC_SIZE](_ => None), 0, 0, [], [];
      history := [];
      new;
      SetFixedChannelRoutes();
      WiredAsListed(evtToCh, chTasks);
      NothingWaiting(q[..used]);
      hide WiredTo, WiredTask;
    }

    static lemma WiredAsListed(evtToCh: seq<set<nat>>, chTasks: seq<ChannelTasks>)
      requires |evtToCh| == N_EVENTS && |chTasks| == N_CHANNELS
      requires forall e :: 0 <= e < N_EVENTS ==> forall c <- evtToCh[e] :: N_PROGRAMMABLE <= c < N_CHANNELS
      requires forall e, c :: 0 <= e < N_EVENTS && N_PROGRAMMABLE <= c < N_CHANNELS ==>
        (c in evtToCh[e] <==> FIXED_ROUTES[c - N_PROGRAMMABLE].0 == e)
      requires forall c :: 0 <= c < N_PROGRAMMABLE ==> chTasks[c] == ChannelTasks(None, None)
      requires forall c :: N_PROGRAMMABLE <= c < N_CHANNELS ==>
        chTasks[c] == ChannelTasks(Some(FIXED_ROUTES[c - N_PROGRAMMABLE].1), None)
      ensures forall e :: 0 <= e < N_EVENTS ==> evtToCh[e] == WiredTo(e)
      ensures forall c :: 0 <= c < N_CHANNELS ==> chTasks[c] == ChannelTasks(WiredTask(c), None)
    {
    }

    method SetFixedChannelRoutes()
      requires |evtToCh| == N_EVENTS && forall e :: 0 <= e < N_EVENTS ==> evtToCh[e] == {}
      requires |chTasks| == N_CHANNELS && forall c :: 0 <= c < N_CHANNELS ==> chTasks[c] == ChannelTasks(None, None)
      modifies `evtToCh, `chTasks
      ensures |evtToCh| == N_EVENTS && |chTasks| == N_CHANNELS
      ensures forall e :: 0 <= e < N_EVENTS ==> forall c <- evtToCh[e] :: N_PROGRAMMABLE <= c < N_CHANNELS
      ensures forall e, c :: 0 <= e < N_EVENTS && N_PROGRAMMABLE <= c < N_CHANNELS ==>
        (c in evtToCh[e] <==> FIXED_ROUTES[c - N_PROGRAMMABLE].0 == e)
      ensures forall c :: 0 <= c < N_PROGRAMMABLE ==> chTasks[c] == ChannelTasks(None, None)
      ensures forall c :: N_PROGRAMMABLE <= c < N_CHANNELS ==>
        chTasks[c] == ChannelTasks(Some(FIXED_ROUTES[c - N_PROGRAMMABLE].1), None)
    {
      var ch := N_PROGRAMMABLE;
      while ch < N_CHANNELS
        invariant N_PROGRAMMABLE <= ch <= N_CHANNELS && |evtToCh| == N_EVENTS && |chTasks| == N_CHANNELS
        invariant forall e :: 0 <= e < N_EVENTS ==> forall c <- evtToCh[e] :: N_PROGRAMMABLE <= c < ch
        invariant forall e, c :: 0 <= e < N_EVENTS && N_PROGRAMMABLE <= c < ch ==>
          (c in evtToCh[e] <==> FIXED_ROUTES[c - N_PROGRAMMABLE].0 == e)
        invariant forall c :: 0 <= c < N_CHANNELS && !(N_PROGRAMMABLE <= c < ch) ==>
          chTasks[c] == ChannelTasks(None, None)
        invariant forall c :: N_PROGRAMMABLE <= c < ch ==>
          chTasks[c] == ChannelTasks(Some(FIXED_ROUTES[c - N_PROGRAMMABLE].1), None)
      {
        FixedEventsExist();
        var (event, task) := FIXED_ROUTES[ch - N_PROGRAMMABLE];
        evtToCh := evtToCh[event := evtToCh[event] + {ch}];
        chTasks := chTasks[ch := ChannelTasks(Some(task), None)];
        ch := ch + 1;
      }
    }

    static lemma FixedEventsExist()
      ensures |FIXED_ROUTES| == N_CHANNELS - N_PROGRAMMABLE
      ensures forall k :: 0 <= k < |FIXED_ROUTES| ==> FIXED_ROUTES[k].0 < N_EVENTS
    {
    }

    /** Looks an address up, entry by entry. */
    static method Lookup(table: seq<(nat, nat)>, address: nat) returns (found: Option<nat>)
      ensures found == Find(table, address)
    {
      var i := 0;
      while i < |table|
        invariant 0 <= i <= |table|
        invariant Find(table, address) == Find(table[i..], address)
      {
        if table[i].0 == address {
          return Some(table[i].1);
        }
        i := i + 1;
      }
      return None;
    }

    /** Routes channel `ch` anew. It is taken out of every event first, and that also unhooks a wired channel; only
        a programmable one is routed again. */
    method SideEffectsEep(ch: nat)
      requires ch < N_CHANNELS && |eep| == N_PROGRAMMABLE && |evtToCh| == N_EVENTS
      requires forall k :: 0 <= k < |events| ==> events[k].1 < N_EVENTS
      modifies `evtToCh
      ensures |evtToCh| == N_EVENTS
      ensures forall e :: 0 <= e < N_EVENTS ==>
        evtToCh[e] == if ch < N_PROGRAMMABLE && Selected(events, eep[ch]) == Some(e) then old(evtToCh[e]) + {ch}
                      else old(evtToCh[e]) - {ch}
    {
      var i := 0;
      while i < N_EVENTS
        invariant 0 <= i <= N_EVENTS && |evtToCh| == N_EVENTS
        invariant forall e :: 0 <= e < N_EVENTS ==>
          evtToCh[e] == if e < i then old(evtToCh[e]) - {ch} else old(evtToCh[e])
      {
        evtToCh := evtToCh[i := evtToCh[i] - {ch}];
        i := i + 1;
      }
      if ch < N_PROGRAMMABLE && eep[ch] != 0 {
        var event := Lookup(events, eep[ch]);
        if event.Some? {
          FindsTheFirst(events, eep[ch]);
          evtToCh := evtToCh[event.value := evtToCh[event.value] + {ch}];
        }
      }
    }

    /** What is found stands behind the first entry with that address, and nothing is found only if there is none. */
    static lemma {:induction false} FindsTheFirst(table: seq<(nat, nat)>, address: nat)
      ensures Find(table, address).None? ==> forall k :: 0 <= k < |table| ==> table[k].0 != address
      ensures Find(table, address).Some? ==>
        exists k :: 0 <= k < |table| && table[k] == (address, Find(table, address).value)
          && forall j :: 0 <= j < k ==> table[j].0 != address
    {
      if table != [] && table[0].0 == address {
        assert table[0] == (address, Find(table, address).value);
      } else if table != [] {
        var rest := table[1..];
        FindsTheFirst(rest, address);
        assert forall j :: 0 < j < |table| ==> table[j] == rest[j - 1];
        if Find(rest, address).Some? {
          var k :| 0 <= k < |rest| && rest[k] == (address, Find(rest, address).value)
            && forall j :: 0 <= j < k ==> rest[j].0 != address;
          assert table[k + 1] == rest[k];
        }
      }
    }

    method WriteEep(ch: nat, address: nat)
      requires Valid() && ch < N_PROGRAMMABLE
      modifies `eep, `evtToCh
      ensures Valid() && eep == old(eep)[ch := address]
      ensures forall e :: 0 <= e < N_EVENTS ==>
        (ch in evtToCh[e] <==> address != 0 && Find(events, address) == Some(e))
      ensures forall e, c :: 0 <= e < N_EVENTS && c != ch ==> (c in evtToCh[e] <==> c in old(evtToCh[e]))
    {
      hide Find, Waiting, Ordered, NoDuplicates, EnabledAfter, NothingFrom;
      eep := eep[ch := address];
      SideEffectsEep(ch);
    }

    method SideEffectsTep(ch: nat)
      requires |tep| == N_PROGRAMMABLE && |chTasks| == N_CHANNELS
      modifies `chTasks
      ensures chTasks == if ch < N_PROGRAMMABLE
                         then old(chTasks)[ch := old(chTasks)[ch].(tep := Selected(tasks, tep[ch]))]
                         else old(chTasks)
    {
      if ch < N_PROGRAMMABLE {
        var task := None;
        if tep[ch] != 0 {
          task := Lookup(tasks, tep[ch]);
        }
        chTasks := chTasks[ch := chTasks[ch].(tep := task)];
      }
    }

    method WriteTep(ch: nat, address: nat)
      requires Valid() && ch < N_PROGRAMMABLE
      modifies `tep, `chTasks
      ensures Valid() && tep == old(tep)[ch := address]
      ensures chTasks[ch].tep == (if address == 0 then None else Find(tasks, address))
      ensures chTasks[ch].fork == old(chTasks[ch].fork) && chTasks == old(chTasks)[ch := chTasks[ch]]
    {
      hide Find, Waiting, Ordered, NoDuplicates, EnabledAfter, NothingFrom;
      tep := tep[ch := address];
      SideEffectsTep(ch);
    }

    method SideEffectsForkTep(ch: nat)
      requires ch < |forkTep| == |chTasks|
      modifies `chTasks
      ensures chTasks == old(chTasks)[ch := old(chTasks)[ch].(fork := Selected(tasks, forkTep[ch]))]
    {
      var task := None;
      if forkTep[ch] != 0 {
        task := Lookup(tasks, forkTep[ch]);
      }
      chTasks := chTasks[ch := chTasks[ch].(fork := task)];
    }

    method WriteForkTep(ch: nat, address: nat)
      requires Valid() && ch < N_CHANNELS
      modifies `forkTep, `chTasks
      ensures Valid() && forkTep == old(forkTep)[ch := address]
      ensures chTasks[ch].fork == (if address == 0 then None else Find(tasks, address))
      ensures chTasks[ch].tep == old(chTasks[ch].tep) && chTasks == old(chTasks)[ch := chTasks[ch]]
    {
      hide Find, Waiting, Ordered, NoDuplicates, EnabledAfter, NothingFrom;
      forkTep := forkTep[ch := address];
      SideEffectsForkTep(ch);
    }

    method WriteChenSet(channels: set<nat>)
      requires Valid()
      modifies `chen, `history
      ensures Valid() && chen == old(chen) + channels
    {
      EnableChannels(chen + channels, None);
    }

    method WriteChenClr(channels: set<nat>)
      requires Valid()
      modifies `chen, `history
      ensures Valid() && chen == old(chen) - channels
    {
      EnableChannels(chen - channels, None);
    }
  }
}
