/**
 * The page's queue manager as an object: the fields are the page's globals
 * (`conversionQueue`, `isConverting`, `ffmpegLoaded`) plus the settled items
 * whose rows stay on the page and the next item id. Every method is proved to
 * move the object along the state machine of `QueueSpec`, so the invariant
 * and the lemmas proved there apply to it.
 */
module Manager {
  import opened Jobs
  import opened QueueSpec

  class QueueManager {
    var queue: seq<Item>
    var busy: bool
    /** Whether `initFFmpeg` succeeded; the page sets it before any file can arrive. */
    const loaded: bool
    var settled: seq<Item>
    var nextId: nat

    /** The abstract state of this manager. */
    function State(): QueueSpec.State
      reads this
    {
      QueueSpec.State(queue, busy, loaded, settled, nextId)
    }

    ghost predicate Valid()
      reads this
    {
      Inv(State())
    }

    /**
     * The page after `init`: the engine has loaded or failed to, and the queue is empty.
     * `init` awaits `initFFmpeg` before it wires the file inputs, so nothing is queued earlier.
     */
    constructor (engineLoaded: bool)
      ensures Valid()
      ensures State() == Initial(engineLoaded)
    {
      queue := [];
      busy := false;
      loaded := engineLoaded;
      settled := [];
      nextId := 0;
      InitialInv(engineLoaded);
    }

    /** `processQueue` up to its `await`: the guard, then the busy flag and the head's status. */
    method StartNext() returns (started: bool)
      modifies this
      ensures State() == Start(old(State()))
      ensures started == CanStart(old(State()))
    {
      if !loaded || |queue| == 0 || busy {
        return false;
      }
      busy := true;
      queue := queue[0 := queue[0].(status := Converting)];
      started := true;
    }

    /**
     * `addFilesToQueue`: each file within 2 GiB becomes a pending item at the
     * tail, oversized ones are skipped, and processing starts when idle.
     */
    method AddFiles(files: seq<File>)
      requires Valid()
      modifies this
      ensures Valid()
      ensures State() == Add(old(State()), files)
    {
      AddSpec(State(), files);
      AppendAdmitted(files);
      if !busy {
        var _ := StartNext();
      }
    }

    /** The `forEach` of `addFilesToQueue`: push one pending item per file within the limit. */
    method AppendAdmitted(files: seq<File>)
      modifies this
      ensures State() == Enqueue(old(State()), Admit(files, old(nextId)))
    {
      var i := 0;
      while i < |files|
        invariant 0 <= i <= |files|
        invariant queue == old(queue) + Admit(files[..i], old(nextId))
        invariant nextId == old(nextId) + |Admit(files[..i], old(nextId))|
        invariant busy == old(busy) && settled == old(settled)
      {
        var f := files[i];
        AdmitStep(files, i, old(nextId));
        if f.size > MaxFileSize {
          // the page reports the file as too large and goes on with the next one
        } else {
          queue := queue + [NewItem(nextId, f)];
          nextId := nextId + 1;
        }
        i := i + 1;
      }
      assert files[..|files|] == files;
    }

    /** One more file of a batch: the items admitted so far, plus the file itself when within the limit. */
    static lemma AdmitStep(files: seq<File>, i: nat, id: nat)
      requires i < |files|
      ensures Admit(files[..i + 1], id) ==
                Admit(files[..i], id) + (if WithinLimit(files[i]) then [NewItem(id + |Admit(files[..i], id)|, files[i])] else [])
    {
      assert files[..i + 1][..i] == files[..i];
    }

    /** The engine's progress callback: the head takes the percentage while a conversion runs. */
    method OnProgress(percent: int)
      requires Valid()
      modifies this
      ensures Valid()
      ensures State() == Progress(old(State()), percent)
    {
      ProgressSpec(State(), percent);
      if |queue| > 0 && busy {
        queue := queue[0 := queue[0].(progress := percent)];
      }
    }

    /**
     * The rest of `processQueue` once `convertFile` has settled with `outcome`:
     * store what it produced, record the status, drop the head, lower the
     * busy flag and move on to the next item.
     */
    method Settle(outcome: Outcome)
      requires Valid() && busy
      modifies this
      ensures Valid()
      ensures State() == Finish(old(State()), outcome)
    {
      FinishSpec(State(), outcome);
      var item := StoreResult(queue[0], outcome);
      item := item.(status := if outcome.Converted? then Completed else Error);
      queue := queue[1..];
      settled := settled + [item];
      busy := false;
      if |queue| > 0 {
        var _ := StartNext();
      }
    }

    /**
     * Lets the running conversions settle one after another with the given
     * outcomes until the outcomes run out or nothing is running; returns how
     * many settled.
     */
    method ProcessAll(outcomes: seq<Outcome>) returns (count: nat)
      requires Valid()
      modifies this
      ensures Valid()
      ensures State() == Drain(old(State()), outcomes)
      ensures count <= |outcomes|
      ensures |settled| == |old(settled)| + count && settled[..|old(settled)|] == old(settled)
    {
      count := 0;
      while count < |outcomes| && busy
        invariant Valid()
        invariant count <= |outcomes|
        invariant Drain(old(State()), outcomes) == Drain(State(), outcomes[count..])
        invariant |settled| == |old(settled)| + count && settled[..|old(settled)|] == old(settled)
      {
        assert outcomes[count..][1..] == outcomes[count + 1..];
        Settle(outcomes[count]);
        count := count + 1;
      }
    }
  }
}
