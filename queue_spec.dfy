/**
 * The conversion queue as a state machine over values. `State` holds the
 * page's globals (`conversionQueue`, `isConverting`, `ffmpegLoaded`), the
 * settled items whose rows stay on the page, and the next item id. Each
 * function is one step of the page: `Start` is `processQueue` up to its
 * `await`, `Finish` is the rest of `processQueue` once the conversion
 * settles, `Progress` is the engine's progress callback and `Add` is
 * `addFilesToQueue`. `Inv` is the invariant every step keeps.
 */
module QueueSpec {
  import opened Jobs

  datatype State = State(queue: seq<Item>, busy: bool, loaded: bool, settled: seq<Item>, nextId: nat)

  /** The state right after start-up, once loading the engine has succeeded or failed. */
  function Initial(engineLoaded: bool): State {
    State([], false, engineLoaded, [], 0)
  }

  /** The guard of `processQueue`: it starts nothing without the engine, without items, or while busy. */
  predicate CanStart(s: State) {
    s.loaded && |s.queue| > 0 && !s.busy
  }

  /** `processQueue` up to its `await`: raise the busy flag and mark the head `converting`. */
  function Start(s: State): State {
    if !CanStart(s) then s
    else s.(busy := true, queue := s.queue[0 := s.queue[0].(status := Converting)])
  }

  /** The progress callback: only the head of the queue, and only while busy, takes the new percentage. */
  function Progress(s: State, percent: int): State {
    if |s.queue| > 0 && s.busy then s.(queue := s.queue[0 := s.queue[0].(progress := percent)])
    else s
  }

  /**
   * The rest of `processQueue` once the conversion of the head has settled:
   * record the outcome on the head, remove it, lower the busy flag, and
   * start on the next item.
   */
  function Finish(s: State, outcome: Outcome): State
    requires s.busy && |s.queue| > 0
  {
    Start(s.(queue := s.queue[1..], busy := false, settled := s.settled + [SettleItem(s.queue[0], outcome)]))
  }

  /** `addFilesToQueue`: append the admitted files as pending items, then try to start. */
  function Add(s: State, files: seq<File>): State {
    var items := Admit(files, s.nextId);
    Start(s.(queue := s.queue + items, nextId := s.nextId + |items|))
  }

  /**
   * The conversions settling one after another with the given outcomes, for
   * as long as there are outcomes and a conversion is running.
   */
  function Drain(s: State, outcomes: seq<Outcome>): State
    decreases |outcomes|
  {
    if outcomes == [] || !s.busy || |s.queue| == 0 then s
    else Drain(Finish(s, outcomes[0]), outcomes[1..])
  }

  /** The status every queue position must have: the head is converting while busy, all others wait. */
  function ExpectedStatus(s: State, k: nat): Status {
    if k == 0 && s.busy then Converting else Pending
  }

  /** A settled item: terminal, and a completed one carries its converted bytes and output name. */
  predicate SettledWell(x: Item) {
    && (x.status == Completed || x.status == Error)
    && (x.status == Completed ==> x.convertedData.Some? && x.outputFileName.Some?)
    && WithinLimit(x.file)
  }

  /** All items ever queued, in the order they were queued. */
  function Rows(s: State): seq<Item> {
    s.settled + s.queue
  }

  /** Ids strictly increase along a sequence of items, and all stay below `bound`. */
  predicate IdsIncreasing(items: seq<Item>, bound: nat) {
    && (forall i, j :: 0 <= i < j < |items| ==> items[i].id < items[j].id)
    && (forall i :: 0 <= i < |items| ==> items[i].id < bound)
  }

  /** The invariant of the queue manager. */
  ghost predicate Inv(s: State) {
    // the busy flag is raised only for a loaded engine and a non-empty queue
    && (s.busy ==> s.loaded && |s.queue| > 0)
    // a loaded engine is never idle while items wait
    && (s.loaded && |s.queue| > 0 ==> s.busy)
    // only the head converts; every other waiting item is pending and untouched
    && (forall k :: 0 <= k < |s.queue| ==> s.queue[k].status == ExpectedStatus(s, k))
    && (forall k :: 0 <= k < |s.queue| ==> s.queue[k].convertedData.None? && s.queue[k].outputFileName.None?)
    && (forall k :: 0 <= k < |s.queue| ==> WithinLimit(s.queue[k].file))
    && (forall k :: 0 < k < |s.queue| ==> s.queue[k].progress == 0)
    && (!s.busy ==> forall k :: 0 <= k < |s.queue| ==> s.queue[k].progress == 0)
    // settled items are terminal
    && (forall k :: 0 <= k < |s.settled| ==> SettledWell(s.settled[k]))
    // items settle in the order they were queued
    && IdsIncreasing(Rows(s), s.nextId)
  }

  lemma InitialInv(engineLoaded: bool)
    ensures Inv(Initial(engineLoaded))
  {
  }

  /**
   * `processQueue` changes nothing exactly when the engine is not loaded, the
   * queue is empty or a conversion is running; otherwise the busy flag is set
   * and the head, and only the head, becomes `converting`.
   */
  lemma StartSpec(s: State)
    ensures Start(s) == s <==> !CanStart(s)
    ensures CanStart(s) ==>
              && Start(s).busy
              && |Start(s).queue| == |s.queue|
              && Start(s).queue[0] == s.queue[0].(status := Converting)
              && Start(s).queue[1..] == s.queue[1..]
              && Start(s).settled == s.settled
    ensures Start(s).loaded == s.loaded && Start(s).nextId == s.nextId
  {
  }

  /** The number of converting items in a sequence. */
  function CountConverting(items: seq<Item>): nat {
    if items == [] then 0
    else CountConverting(items[..|items| - 1]) + (if items[|items| - 1].status == Converting then 1 else 0)
  }

  lemma {:induction false} CountConvertingNone(items: seq<Item>)
    requires forall k :: 0 <= k < |items| ==> items[k].status != Converting
    ensures CountConverting(items) == 0
  {
    if items != [] {
      CountConvertingNone(items[..|items| - 1]);
    }
  }

  lemma {:induction false} CountConvertingHeadOnly(items: seq<Item>)
    requires forall k :: 0 < k < |items| ==> items[k].status != Converting
    ensures CountConverting(items) == (if |items| > 0 && items[0].status == Converting then 1 else 0)
  {
    if |items| > 1 {
      CountConvertingHeadOnly(items[..|items| - 1]);
    }
  }

  /** At most one item is converting: the head, exactly while the busy flag is up. */
  lemma AtMostOneConverting(s: State)
    requires Inv(s)
    ensures CountConverting(s.queue) == (if s.busy then 1 else 0)
    ensures CountConverting(s.settled) == 0
    ensures CountConverting(Rows(s)) <= 1
  {
    CountConvertingHeadOnly(s.queue);
    CountConvertingNone(s.settled);
    CountConvertingAppend(s.settled, s.queue);
  }

  lemma {:induction false} CountConvertingAppend(a: seq<Item>, b: seq<Item>)
    ensures CountConverting(a + b) == CountConverting(a) + CountConverting(b)
  {
    if b != [] {
      assert (a + b)[..|a + b| - 1] == a + b[..|b| - 1];
      CountConvertingAppend(a, b[..|b| - 1]);
    } else {
      assert a + b == a;
    }
  }

  lemma StartInv(s: State)
    requires Inv(s)
    ensures Inv(Start(s))
  {
    // Inv says a loaded engine with waiting items is already busy, so Start changes nothing.
  }

  /** The progress callback keeps the invariant and touches nothing but the head's percentage. */
  lemma ProgressSpec(s: State, percent: int)
    requires Inv(s)
    ensures Inv(Progress(s, percent))
    ensures s.busy ==> Progress(s, percent).queue[0] == s.queue[0].(progress := percent)
    ensures Progress(s, percent).loaded == s.loaded && Progress(s, percent).nextId == s.nextId
    ensures Rows(Progress(s, percent)) == Rows(s) <==> (!s.busy || s.queue[0].progress == percent)
    ensures Progress(s, percent).busy == s.busy && Progress(s, percent).settled == s.settled
    ensures |Progress(s, percent).queue| == |s.queue|
    ensures forall k :: 0 < k < |s.queue| ==> Progress(s, percent).queue[k] == s.queue[k]
  {
    var p := Progress(s, percent);
    if s.busy {
      assert Rows(p)[|s.settled|] == p.queue[0];
      assert Rows(s)[|s.settled|] == s.queue[0];
      assert forall k :: 0 <= k < |p.queue| ==> p.queue[k].id == s.queue[k].id;
      assert forall k :: 0 <= k < |Rows(p)| ==> Rows(p)[k].id == Rows(s)[k].id;
    }
  }

  /** Recording an outcome does not depend on the status the item had before. */
  lemma SettleItemIgnoresStatus(x: Item, st: Status, outcome: Outcome)
    ensures SettleItem(x.(status := st), outcome) == SettleItem(x, outcome)
  {
  }

  /** A loaded engine runs a conversion exactly while items wait; every reachable state with a loaded engine is one. */
  predicate Running(s: State) {
    s.loaded && (s.busy <==> |s.queue| > 0)
  }

  /** The shape of the state after the head settles, which needs no more than a running engine. */
  lemma FinishShape(s: State, outcome: Outcome)
    requires Running(s) && s.busy
    ensures Running(Finish(s, outcome))
    ensures Finish(s, outcome).settled == s.settled + [SettleItem(s.queue[0], outcome)]
    ensures |Finish(s, outcome).queue| == |s.queue| - 1
    ensures forall k :: 0 < k < |s.queue| - 1 ==> Finish(s, outcome).queue[k] == s.queue[k + 1]
    ensures |s.queue| > 1 ==> Finish(s, outcome).queue[0] == s.queue[1].(status := Converting)
  {
  }

  /**
   * Once the head's conversion settles, the head, and only the head, leaves
   * the queue with its outcome recorded; the busy flag comes down and goes
   * up again exactly when another item waits, which then becomes the
   * converting head whatever the outcome was. Queue order is kept.
   */
  lemma FinishSpec(s: State, outcome: Outcome)
    requires Inv(s) && s.busy
    ensures Inv(Finish(s, outcome))
    ensures Finish(s, outcome).settled == s.settled + [SettleItem(s.queue[0], outcome)]
    ensures |Finish(s, outcome).queue| == |s.queue| - 1
    ensures forall k :: 0 < k < |s.queue| - 1 ==> Finish(s, outcome).queue[k] == s.queue[k + 1]
    ensures |s.queue| > 1 ==> Finish(s, outcome).queue[0] == s.queue[1].(status := Converting)
    ensures Finish(s, outcome).busy <==> |s.queue| > 1
    ensures Finish(s, outcome).loaded == s.loaded && Finish(s, outcome).nextId == s.nextId
    ensures |Rows(Finish(s, outcome))| == |Rows(s)|
    ensures forall k :: 0 <= k < |Rows(s)| ==> Rows(Finish(s, outcome))[k].id == Rows(s)[k].id
  {
    var done := SettleItem(s.queue[0], outcome);
    var f := Finish(s, outcome);
    assert Rows(s)[|s.settled|] == s.queue[0];
    forall k | 0 <= k < |Rows(s)|
      ensures Rows(f)[k].id == Rows(s)[k].id
    {
      if k < |s.settled| {
        assert Rows(f)[k] == s.settled[k];
      } else if k == |s.settled| {
        assert Rows(f)[k] == done;
      } else {
        assert Rows(f)[k].id == f.queue[k - |s.settled| - 1].id;
        assert Rows(s)[k] == s.queue[k - |s.settled|];
      }
    }
    assert forall k :: 0 <= k < |f.settled| ==> SettledWell(f.settled[k]);
  }

  /** Sequences with the same ids in the same places agree on `IdsIncreasing`. */
  lemma IdsPointwise(a: seq<Item>, b: seq<Item>, bound: nat)
    requires IdsIncreasing(a, bound)
    requires |a| == |b| && forall k :: 0 <= k < |a| ==> a[k].id == b[k].id
    ensures IdsIncreasing(b, bound)
  {
    forall i, j | 0 <= i < j < |b| ensures b[i].id < b[j].id {
      assert a[i].id < a[j].id;
    }
  }

  /** Appending items numbered from `bound` upwards keeps the ids increasing. */
  lemma IdsAppend(a: seq<Item>, b: seq<Item>, bound: nat)
    requires IdsIncreasing(a, bound)
    requires forall k :: 0 <= k < |b| ==> b[k].id == bound + k
    ensures IdsIncreasing(a + b, bound + |b|)
  {
    var c := a + b;
    forall i, j | 0 <= i < j < |c| ensures c[i].id < c[j].id {
      if j < |a| {
        assert c[i] == a[i] && c[j] == a[j];
      } else if i < |a| {
        assert c[i] == a[i] && c[j] == b[j - |a|];
      } else {
        assert c[i] == b[i - |a|] && c[j] == b[j - |a|];
      }
    }
  }

  /** The state with `items` appended to the queue and the id counter advanced past them. */
  function Enqueue(s: State, items: seq<Item>): State {
    s.(queue := s.queue + items, nextId := s.nextId + |items|)
  }

  /** Fresh pending items for admitted files, numbered from `bound` upwards. */
  predicate FreshItems(items: seq<Item>, bound: nat) {
    forall k :: 0 <= k < |items| ==> items[k] == NewItem(bound + k, items[k].file) && WithinLimit(items[k].file)
  }

  /** Appending behind a running conversion, or with no engine, starts nothing and keeps the invariant. */
  lemma EnqueueWhileBlockedInv(s: State, items: seq<Item>)
    requires Inv(s) && (s.busy || !s.loaded)
    requires FreshItems(items, s.nextId)
    ensures Start(Enqueue(s, items)) == Enqueue(s, items)
    ensures Inv(Enqueue(s, items))
  {
    var t := Enqueue(s, items);
    assert Rows(t) == Rows(s) + items;
    IdsAppend(Rows(s), items, s.nextId);
    assert forall k :: 0 <= k < |t.queue| ==> t.queue[k].status == ExpectedStatus(t, k) by {
      forall k | 0 <= k < |t.queue| ensures t.queue[k].status == ExpectedStatus(t, k) {
        if k < |s.queue| { assert t.queue[k] == s.queue[k]; } else { assert t.queue[k] == items[k - |s.queue|]; }
      }
    }
    assert forall k :: 0 <= k < |t.queue| ==> t.queue[k].convertedData.None? && t.queue[k].outputFileName.None? && WithinLimit(t.queue[k].file) by {
      forall k | 0 <= k < |t.queue|
        ensures t.queue[k].convertedData.None? && t.queue[k].outputFileName.None? && WithinLimit(t.queue[k].file)
      {
        if k < |s.queue| { assert t.queue[k] == s.queue[k]; } else { assert t.queue[k] == items[k - |s.queue|]; }
      }
    }
    assert forall k :: 0 <= k < |t.queue| && (k > 0 || !t.busy) ==> t.queue[k].progress == 0 by {
      forall k | 0 <= k < |t.queue| && (k > 0 || !t.busy) ensures t.queue[k].progress == 0 {
        if k < |s.queue| { assert t.queue[k] == s.queue[k]; } else { assert t.queue[k] == items[k - |s.queue|]; }
      }
    }
  }

  /** Appending to the empty queue of an idle, loaded engine starts the first new item and keeps the invariant. */
  lemma EnqueueWhileIdleInv(s: State, items: seq<Item>)
    requires !s.busy && s.loaded && s.queue == [] && items != []
    requires forall k :: 0 <= k < |s.settled| ==> SettledWell(s.settled[k])
    requires IdsIncreasing(Rows(s), s.nextId)
    requires FreshItems(items, s.nextId)
    ensures Inv(Start(Enqueue(s, items)))
  {
    var t := Enqueue(s, items);
    assert t.queue == items;
    IdsAppend(Rows(s), items, s.nextId);
    assert Rows(s) + items == Rows(t);
    StartFreshInv(t, s.nextId);
  }

  /** Starting the first of a queue of fresh pending items keeps the invariant. */
  lemma StartFreshInv(t: State, bound: nat)
    requires !t.busy && t.loaded && |t.queue| > 0
    requires FreshItems(t.queue, bound)
    requires forall k :: 0 <= k < |t.settled| ==> SettledWell(t.settled[k])
    requires IdsIncreasing(Rows(t), t.nextId)
    ensures Inv(Start(t))
  {
    var q := t.queue[0 := t.queue[0].(status := Converting)];
    var a := t.(busy := true, queue := q);
    assert Start(t) == a;
    forall k | 0 <= k < |q|
      ensures q[k].id == t.queue[k].id
      ensures q[k].status == ExpectedStatus(a, k)
      ensures q[k].convertedData.None? && q[k].outputFileName.None? && WithinLimit(q[k].file)
      ensures k > 0 ==> q[k].progress == 0
    {
      if k > 0 { assert q[k] == t.queue[k]; }
    }
    forall k | 0 <= k < |Rows(a)| ensures Rows(a)[k].id == Rows(t)[k].id {
      if k >= |t.settled| { assert Rows(a)[k] == q[k - |t.settled|]; }
    }
    IdsPointwise(Rows(t), Rows(a), a.nextId);
  }

  /** Appending fresh pending items for admitted files, then trying to start, keeps the invariant. */
  lemma EnqueueInv(s: State, items: seq<Item>)
    requires Inv(s)
    requires FreshItems(items, s.nextId)
    ensures Inv(Start(Enqueue(s, items)))
  {
    if items == [] {
      assert Enqueue(s, items) == s;
      StartInv(s);
    } else if s.busy || !s.loaded {
      EnqueueWhileBlockedInv(s, items);
    } else {
      EnqueueWhileIdleInv(s, items);
    }
  }

  /**
   * A batch leaves the settled items and every waiting item as they were and
   * appends, behind them, one pending item per admitted file in batch order;
   * when the queue was empty and the engine is loaded, the first of them starts.
   */
  lemma AddSpec(s: State, files: seq<File>)
    requires Inv(s)
    ensures Inv(Add(s, files))
    ensures Add(s, files).settled == s.settled
    ensures |Add(s, files).queue| == |s.queue| + |Filter(files, WithinLimit)|
    ensures forall k :: 0 <= k < |s.queue| ==> Add(s, files).queue[k] == s.queue[k]
    ensures forall k :: 0 <= k < |Filter(files, WithinLimit)| && (|s.queue| > 0 || k > 0 || !s.loaded) ==>
              Add(s, files).queue[|s.queue| + k] == NewItem(s.nextId + k, Filter(files, WithinLimit)[k])
    ensures |s.queue| == 0 && s.loaded && |Filter(files, WithinLimit)| > 0 ==>
              Add(s, files).queue[0] == NewItem(s.nextId, Filter(files, WithinLimit)[0]).(status := Converting)
    ensures Add(s, files).busy <==> s.loaded && |Add(s, files).queue| > 0
    ensures Add(s, files).loaded == s.loaded && Add(s, files).nextId == s.nextId + |Filter(files, WithinLimit)|
  {
    var items := Admit(files, s.nextId);
    AdmitSpec(files, s.nextId);
    EnqueueInv(s, items);
    assert Add(s, files) == Start(Enqueue(s, items));
  }

  /** An engine that failed to load converts nothing, however the outcomes fall. */
  lemma DrainWithoutEngine(s: State, outcomes: seq<Outcome>)
    requires Inv(s) && !s.loaded
    ensures Drain(s, outcomes) == s
  {
  }

  /** Each item of `q` with its own outcome recorded, in queue order. */
  function SettleAll(q: seq<Item>, outcomes: seq<Outcome>): (r: seq<Item>)
    requires |outcomes| >= |q|
  {
    seq(|q|, k requires 0 <= k < |q| => SettleItem(q[k], outcomes[k]))
  }

  /** The state in which every waiting item has settled with its outcome and nothing runs. */
  function Drained(s: State, outcomes: seq<Outcome>): State
    requires |outcomes| >= |s.queue|
  {
    s.(queue := [], busy := false, settled := s.settled + SettleAll(s.queue, outcomes))
  }

  /** Settling the head and then the rest of the queue (its new head marked converting) settles the whole queue. */
  lemma SettleAllShift(q: seq<Item>, rest: seq<Item>, outcomes: seq<Outcome>)
    requires 0 < |q| <= |outcomes| && |rest| == |q| - 1
    requires |q| > 1 ==> rest[0] == q[1].(status := Converting)
    requires forall k :: 0 < k < |rest| ==> rest[k] == q[k + 1]
    ensures [SettleItem(q[0], outcomes[0])] + SettleAll(rest, outcomes[1..]) == SettleAll(q, outcomes)
  {
    var joined := [SettleItem(q[0], outcomes[0])] + SettleAll(rest, outcomes[1..]);
    var whole := SettleAll(q, outcomes);
    assert |joined| == |whole|;
    forall k | 0 <= k < |whole| ensures joined[k] == whole[k] {
      if k == 1 {
        SettleItemIgnoresStatus(q[1], Converting, outcomes[1]);
      }
      if k > 0 {
        assert joined[k] == SettleItem(rest[k - 1], outcomes[k]);
      }
    }
  }

  /** Settling the head first and the rest after it ends in the same drained state. */
  lemma DrainedAfterFinish(s: State, outcomes: seq<Outcome>)
    requires Running(s) && s.busy && |outcomes| >= |s.queue|
    ensures Drained(Finish(s, outcomes[0]), outcomes[1..]) == Drained(s, outcomes)
  {
    var f := Finish(s, outcomes[0]);
    FinishShape(s, outcomes[0]);
    SettleAllShift(s.queue, f.queue, outcomes);
    assert f.settled + SettleAll(f.queue, outcomes[1..]) == s.settled + SettleAll(s.queue, outcomes);
  }

  /**
   * Draining: with the engine running and an outcome for every waiting item,
   * the queue ends empty and idle, and every item has settled, in queue
   * order, with its own outcome recorded.
   */
  lemma {:induction false} DrainSpec(s: State, outcomes: seq<Outcome>)
    requires Running(s) && |outcomes| >= |s.queue|
    ensures Drain(s, outcomes) == Drained(s, outcomes)
    decreases |s.queue|
  {
    if |s.queue| > 0 {
      var f := Finish(s, outcomes[0]);
      FinishShape(s, outcomes[0]);
      DrainSpec(f, outcomes[1..]);
      DrainedAfterFinish(s, outcomes);
    } else {
      assert SettleAll(s.queue, outcomes) == [];
    }
  }

  /**
   * The same, item by item: the settled items grow by one item per waiting
   * item, in queue order, each `completed` exactly when its conversion
   * succeeded; a failure does not hold up the items behind it.
   */
  lemma DrainSettlesInOrder(s: State, outcomes: seq<Outcome>)
    requires Running(s) && |outcomes| >= |s.queue|
    ensures Drain(s, outcomes).queue == [] && !Drain(s, outcomes).busy
    ensures |Drain(s, outcomes).settled| == |s.settled| + |s.queue|
    ensures Drain(s, outcomes).settled[..|s.settled|] == s.settled
    ensures forall k :: 0 <= k < |s.queue| ==>
              Drain(s, outcomes).settled[|s.settled| + k].id == s.queue[k].id
    ensures forall k :: 0 <= k < |s.queue| ==>
              Drain(s, outcomes).settled[|s.settled| + k].status == (if outcomes[k].Converted? then Completed else Error)
  {
    DrainSpec(s, outcomes);
    var d := Drain(s, outcomes).settled;
    assert forall k :: 0 <= k < |s.queue| ==> d[|s.settled| + k] == SettleAll(s.queue, outcomes)[k];
  }
}
