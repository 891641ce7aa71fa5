/**
 * Clients of the queue manager: a batch with one oversized file, then a
 * failed conversion followed by a successful one.
 */
module Scenario {
  import opened Wrappers
  import opened Jobs
  import opened QueueSpec
  import opened Manager

  /**
   * A batch of three files, the middle one a byte over the limit, on a fresh
   * page with a loaded engine: the oversized file is skipped, the first file
   * converts and the last one, of exactly 2 GiB, waits.
   */
  lemma BatchWithOversizedFile(a: File, big: File, b: File)
    requires a.size <= MaxFileSize && big.size == MaxFileSize + 1 && b.size == MaxFileSize
    ensures Add(Initial(true), [a, big, b]).queue == [NewItem(0, a).(status := Converting), NewItem(1, b)]
    ensures Add(Initial(true), [a, big, b]).busy
  {
    var batch := [a, big, b];
    assert batch == [a] + [big] + [b];
    FilterAppend([a] + [big], [b], WithinLimit);
    FilterAppend([a], [big], WithinLimit);
    assert Filter(batch, WithinLimit) == [a, b];
    AddSpec(Initial(true), batch);
    assert Add(Initial(true), batch).queue[0 + 1] == NewItem(1, b);
  }

  /** The same batch handed to a manager object. */
  method OversizedFileSkipped() returns (m: QueueManager)
    ensures m.Valid() && m.busy && |m.queue| == 2 && m.settled == []
    ensures m.queue[0].file == File("a.mkv", 10) && m.queue[1].file == File("b.mkv", MaxFileSize)
  {
    m := new QueueManager(true);
    var a := File("a.mkv", 10);
    var big := File("big.mkv", MaxFileSize + 1);
    var b := File("b.mkv", MaxFileSize);
    BatchWithOversizedFile(a, big, b);
    m.AddFiles([a, big, b]);
  }

  /** A failed conversion is recorded and the next file starts at once and can still complete. */
  method FailureDoesNotStallQueue(m: QueueManager, data: seq<byte>)
    requires m.Valid() && m.busy && |m.queue| == 2 && m.settled == []
    modifies m
  {
    ghost var b := m.queue[1];
    m.OnProgress(40);
    FinishShape(m.State(), Failed);
    m.Settle(Failed);
    assert m.settled[0].status == Error && Download(m.settled[0]).Err?;
    assert |m.queue| == 1 && m.busy && m.queue[0].id == b.id && m.queue[0].status == Converting;

    FinishShape(m.State(), Converted(data));
    m.Settle(Converted(data));
    assert m.queue == [] && !m.busy;
    assert m.settled[1].id == b.id && m.settled[1].status == Completed;
    assert Download(m.settled[1]) == Ok(Artifact(data, Some(Naming.OutputName(b.file.name))));
  }
}
