/**
 * One entry of the conversion queue and what happens to it: the files a user
 * hands over, the 2 GiB admission rule, the pending items created for a batch,
 * the fields `convertFile` writes, the final status, and the guard of
 * `downloadFile`.
 */
module Jobs {
  import opened Wrappers
  import opened JsString
  import opened Naming

  newtype byte = x: int | 0 <= x < 256

  /** A file as the page receives it from the file picker or the drop zone. */
  datatype File = File(name: string, size: nat)

  /** The four values the `status` field takes. */
  datatype Status = Pending | Converting | Completed | Error

  /** The status string the page stores, also used as the CSS class of the row. */
  function StatusName(s: Status): string {
    match s
    case Pending => "pending"
    case Converting => "converting"
    case Completed => "completed"
    case Error => "error"
  }

  /** The label shown in a row is the status string with its first letter capitalised. */
  lemma StatusLabels()
    ensures CapitalizeFirst(StatusName(Pending)) == "Pending"
    ensures CapitalizeFirst(StatusName(Converting)) == "Converting"
    ensures CapitalizeFirst(StatusName(Completed)) == "Completed"
    ensures CapitalizeFirst(StatusName(Error)) == "Error"
  {
  }

  /**
   * A queue item. `id` stands for the page's `Date.now() + Math.random()`;
   * `convertedData` and `outputFileName` are absent until `convertFile` sets them.
   */
  datatype Item = Item(
    id: nat,
    file: File,
    status: Status,
    progress: int,
    convertedData: Option<seq<byte>>,
    outputFileName: Option<string>)

  /**
   * How the engine's part of `convertFile` settles. `Failed`: staging, the
   * conversion run or reading the output threw, so nothing was stored on the
   * item. `FailedAfterStore`: the output was stored on the item and a later
   * step (unlinking the staged files, wiring the download button) threw.
   * `Converted`: every step succeeded.
   */
  datatype Outcome = Converted(data: seq<byte>) | FailedAfterStore(data: seq<byte>) | Failed

  /** The largest accepted file, 2 GiB. */
  const MaxFileSize: nat := 2 * 1024 * 1024 * 1024

  /** A file is admitted unless its size exceeds 2 GiB. */
  predicate WithinLimit(f: File) {
    !(f.size > MaxFileSize)
  }

  /** The boundary of the size rule: exactly 2 GiB is admitted, one byte more is not. */
  lemma SizeLimitBoundary(name: string)
    ensures WithinLimit(File(name, 2147483648))
    ensures !WithinLimit(File(name, 2147483649))
  {
  }

  /** The elements of `s` that satisfy `keep`, in their original order (`Array.prototype.filter`). */
  function Filter<T>(s: seq<T>, keep: T -> bool): (r: seq<T>)
    ensures |r| <= |s|
    ensures forall k :: 0 <= k < |r| ==> keep(r[k])
  {
    if s == [] then [] else Filter(s[..|s| - 1], keep) + (if keep(s[|s| - 1]) then [s[|s| - 1]] else [])
  }

  /** An element survives the filter exactly when it was in the input and satisfies the test. */
  lemma {:induction false} FilterMembership<T>(s: seq<T>, keep: T -> bool, x: T)
    ensures x in Filter(s, keep) <==> x in s && keep(x)
  {
    if s != [] {
      FilterMembership(s[..|s| - 1], keep, x);
      assert s == s[..|s| - 1] + [s[|s| - 1]];
    }
  }

  /** Filtering a concatenation filters each part: rejected elements do not disturb the order of the rest. */
  lemma {:induction false} FilterAppend<T>(a: seq<T>, b: seq<T>, keep: T -> bool)
    ensures Filter(a + b, keep) == Filter(a, keep) + Filter(b, keep)
  {
    if b != [] {
      var b' := b[..|b| - 1];
      assert (a + b)[..|a + b| - 1] == a + b';
      FilterAppend(a, b', keep);
    } else {
      assert a + b == a;
    }
  }

  /** The files of a drop that reach the queue: those whose name ends in `.mkv`, in any letter case. */
  function DropFilter(files: seq<File>): (r: seq<File>)
    ensures forall k :: 0 <= k < |r| ==> IsMkvName(r[k].name)
  {
    Filter(files, (f: File) => IsMkvName(f.name))
  }

  /** A dropped file reaches the queue exactly when its name passes the `.mkv` test. */
  lemma DropFilterKeepsMkv(files: seq<File>, x: File)
    ensures x in DropFilter(files) <==> x in files && IsMkvName(x.name)
  {
    FilterMembership(files, (f: File) => IsMkvName(f.name), x);
  }

  /** A fresh queue item for an admitted file: pending, at progress 0, with nothing stored. */
  function NewItem(id: nat, f: File): Item {
    Item(id, f, Pending, 0, None, None)
  }

  /**
   * The items a batch adds to the queue: one pending item per admitted file,
   * in batch order, numbered from `id` upwards; oversized files are skipped.
   */
  function Admit(files: seq<File>, id: nat): seq<Item> {
    if files == [] then []
    else
      var before := Admit(files[..|files| - 1], id);
      var f := files[|files| - 1];
      before + (if WithinLimit(f) then [NewItem(id + |before|, f)] else [])
  }

  /**
   * What a batch adds: exactly the admitted files, in batch order, each as a
   * fresh pending item with consecutive ids starting at `id`.
   */
  lemma {:induction false} AdmitSpec(files: seq<File>, id: nat)
    ensures |Admit(files, id)| == |Filter(files, WithinLimit)|
    ensures forall k :: 0 <= k < |Admit(files, id)| ==>
              Admit(files, id)[k] == NewItem(id + k, Filter(files, WithinLimit)[k])
  {
    if files != [] {
      AdmitSpec(files[..|files| - 1], id);
    }
  }

  /** No oversized file is ever among the items of a batch, and every admitted file is. */
  lemma AdmitOnlyWithinLimit(files: seq<File>, id: nat, f: File)
    ensures (exists k :: 0 <= k < |Admit(files, id)| && Admit(files, id)[k].file == f) <==> f in files && WithinLimit(f)
  {
    AdmitSpec(files, id);
    FilterMembership(files, WithinLimit, f);
    var a := Admit(files, id);
    var kept := Filter(files, WithinLimit);
    if f in kept {
      var k :| 0 <= k < |kept| && kept[k] == f;
      assert a[k].file == f;
    }
  }

  /**
   * The item after `convertFile` settles: on `Converted` and `FailedAfterStore`
   * it carries the converted bytes and the output name; on `Failed` it is unchanged.
   */
  function StoreResult(item: Item, outcome: Outcome): (r: Item)
    ensures r.id == item.id && r.file == item.file && r.status == item.status && r.progress == item.progress
    ensures outcome.Failed? ==> r == item
    ensures !outcome.Failed? ==>
              r.convertedData == Some(outcome.data) && r.outputFileName == Some(OutputName(item.file.name))
  {
    match outcome
    case Failed => item
    case _ => item.(convertedData := Some(outcome.data), outputFileName := Some(OutputName(item.file.name)))
  }

  /**
   * The item once `processQueue` has recorded the outcome: `completed` exactly
   * when every step of the conversion succeeded, `error` otherwise.
   */
  function SettleItem(item: Item, outcome: Outcome): (r: Item)
    ensures r.status == Completed <==> outcome.Converted?
    ensures r.status == Error <==> !outcome.Converted?
    ensures r.id == item.id && r.file == item.file && r.progress == item.progress
  {
    StoreResult(item, outcome).(status := if outcome.Converted? then Completed else Error)
  }

  /** What a download hands to the browser: the converted bytes under the stored output name. */
  datatype Artifact = Artifact(data: seq<byte>, fileName: Option<string>)

  /**
   * The guard of `downloadFile`: an item without converted data yields the
   * error message; otherwise its bytes and output name are offered.
   */
  function Download(item: Item): (r: Result<Artifact, string>)
    ensures r.Err? <==> item.convertedData.None?
    ensures r.Ok? ==> r.value.data == item.convertedData.value && r.value.fileName == item.outputFileName
  {
    if item.convertedData.None? then Err("Converted file data not found")
    else Ok(Artifact(item.convertedData.value, item.outputFileName))
  }

  /**
   * A freshly queued item cannot be downloaded; a completed one yields exactly
   * the bytes the engine produced, under the output name of its file; an item
   * whose conversion threw before storing anything has nothing to offer, while
   * one that threw after storing its bytes ends `error` yet passes the guard.
   */
  lemma DownloadAfterSettle(id: nat, f: File, outcome: Outcome)
    ensures Download(NewItem(id, f)).Err?
    ensures SettleItem(NewItem(id, f), outcome).status == Completed ==>
              Download(SettleItem(NewItem(id, f), outcome)) == Ok(Artifact(outcome.data, Some(OutputName(f.name))))
    ensures outcome.Failed? ==> Download(SettleItem(NewItem(id, f), outcome)).Err?
    ensures outcome.FailedAfterStore? ==>
              SettleItem(NewItem(id, f), outcome).status == Error && Download(SettleItem(NewItem(id, f), outcome)).Ok?
  {
  }
}
