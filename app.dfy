/**
 * The page's state and its event handlers: the ordered list of files that are
 * queued for merging and the container's drag counter, with the handlers that
 * change them.
 */
module App {
  import opened Wrappers
  import opened Splice
  import opened Entries
  import opened Transfer
  import Merging
  import Overlay

  /** `pdfFiles[key]`: the file a property key names, if it names one. */
  function Lookup(s: seq<File>, key: string): Option<File> {
    match ArrayIndexKey(key)
    case Some(k) => if k < |s| then Some(s[k]) else None
    case None => None
  }

  /** The list after something is dropped on the delete zone carrying `data` as the item index. */
  function DeleteZoneDrop(s: seq<File>, data: string): seq<File> {
    if data != "" && Lookup(s, data).Some? then RemoveAt(s, ArrayIndexKey(data).value) else s
  }

  /**
   * A drop carrying the index an item wrote removes exactly that entry and keeps
   * the others in order; a drop carrying anything else changes nothing.
   */
  lemma DeleteZoneDropSpec(s: seq<File>, data: string)
    ensures forall k :: 0 <= k < |s| && k <= MaxArrayIndex && data == Decimal(k) ==>
              DeleteZoneDrop(s, data) == RemoveAt(s, k)
    ensures (forall k :: 0 <= k < |s| ==> data != Decimal(k)) ==> DeleteZoneDrop(s, data) == s
  {
    match ArrayIndexKey(data)
    case None =>
      forall k | 0 <= k < |s| && k <= MaxArrayIndex && data == Decimal(k)
        ensures false
      {
        ArrayIndexKeyOfDecimal(k);
      }
    case Some(k) =>
      ArrayIndexKeyIsDecimal(data);
      forall k' | 0 <= k' < |s| && k' <= MaxArrayIndex && data == Decimal(k')
        ensures k' == k
      {
        ArrayIndexKeyOfDecimal(k');
      }
  }

  class PdfMerger {
    /** `pdfFiles`: the queued files, in display and merge order. */
    var files: seq<File>
    /** `dragCounter` of the container. */
    var dragCounter: int
    /** Whether the container's drag overlay is shown. */
    var overlayShown: bool

    function OverlayState(): Overlay.State
      reads this
    {
      Overlay.State(dragCounter, overlayShown)
    }

    /** Only PDF files are ever queued, and the overlay keeps its invariant. */
    ghost predicate Valid()
      reads this
    {
      (forall f :: f in files ==> IsPdf(f)) && Overlay.Valid(OverlayState())
    }

    /** The page as it loads: no files, no drag. */
    constructor ()
      ensures Valid()
      ensures files == [] && OverlayState() == Overlay.Initial
    {
      files := [];
      dragCounter := 0;
      overlayShown := false;
    }

    /**
     * `handleFiles`: append the PDF files among `incoming`, in their order, and
     * report whether any was added.
     */
    method HandleFiles(incoming: seq<File>) returns (added: bool)
      requires Valid()
      modifies this`files
      ensures Valid()
      ensures files == old(files) + PdfOnly(incoming)
      ensures added <==> exists i :: 0 <= i < |incoming| && IsPdf(incoming[i])
    {
      added := false;
      for i := 0 to |incoming|
        invariant files == old(files) + PdfOnly(incoming[..i])
        invariant added <==> exists j :: 0 <= j < i && IsPdf(incoming[j])
        invariant Valid()
      {
        assert incoming[..i + 1][..i] == incoming[..i];
        if incoming[i].mediaType == PdfType {
          files := files + [incoming[i]];
          added := true;
        }
      }
      assert incoming[..|incoming|] == incoming;
    }

    /** The drop handler of a grid item: move the dragged entry to the target's index. */
    method DropOnItem(fromIdx: nat, toIdx: nat)
      requires Valid()
      requires fromIdx < |files| && toIdx < |files|
      modifies this`files
      ensures Valid()
      ensures files == Move(old(files), fromIdx, toIdx)
    {
      ghost var before := files;
      if fromIdx != toIdx {
        var movedFile := files[fromIdx];
        files := RemoveAt(files, fromIdx);
        files := InsertAt(files, toIdx, movedFile);
      }
      MoveSpec(before, fromIdx, toIdx);
      SameElements(files, before);
    }

    /** The delete zone's drop handler: remove the entry the drag data names, if it names one. */
    method DropOnDeleteZone(data: string)
      requires Valid()
      modifies this`files
      ensures Valid()
      ensures files == DeleteZoneDrop(old(files), data)
    {
      if data != "" && Lookup(files, data).Some? {
        var k := ArrayIndexKey(data).value;
        assert files[k] in files;
        ghost var before := files;
        files := RemoveAt(files, k);
        RemovedElements(before, k);
      }
    }

    /** The container's `dragenter`. */
    method ContainerDragEnter()
      requires Valid()
      modifies this`dragCounter, this`overlayShown
      ensures Valid()
      ensures OverlayState() == Overlay.DragEnter(old(OverlayState()), |files| > 0)
    {
      dragCounter := dragCounter + 1;
      if |files| > 0 && dragCounter == 1 {
        overlayShown := true;
      }
    }

    /** The container's `dragleave`. */
    method ContainerDragLeave()
      requires Valid()
      modifies this`dragCounter, this`overlayShown
      ensures Valid()
      ensures OverlayState() == Overlay.DragLeave(old(OverlayState()))
    {
      dragCounter := dragCounter - 1;
      if dragCounter == 0 {
        overlayShown := false;
      }
    }

    /** The container's `drop`: reset the overlay, and ingest only into a list that has files. */
    method ContainerDrop(incoming: seq<File>)
      requires Valid()
      modifies this
      ensures Valid()
      ensures OverlayState() == Overlay.Drop(old(OverlayState()))
      ensures files == if |old(files)| > 0 then old(files) + PdfOnly(incoming) else old(files)
    {
      dragCounter := 0;
      overlayShown := false;
      if |files| > 0 {
        var added := HandleFiles(incoming);
      }
    }

    /**
     * The download button: with fewer than two files refuse without merging,
     * otherwise merge the list in its order. The list is not changed either way.
     */
    method DownloadClick<P>(load: File -> Option<seq<P>>) returns (outcome: Merging.Outcome<P>)
      ensures outcome == Merging.Download(files, load)
    {
      if |files| < 2 {
        return Merging.Refused(Merging.TooFewAlert);
      }
      var merged := Merging.MergePdfs(files, load);
      match merged
      case Err(m) =>
        outcome := Merging.MergeFailed(Merging.MergeFailedPrefix + m);
      case Ok(pages) =>
        outcome := Merging.Downloaded(Merging.OutputName, pages);
    }
  }
}
