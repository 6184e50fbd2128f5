/**
 * The merge: every file of the list is loaded by the PDF library and its pages
 * are appended to one output document, in list order; the first file that
 * cannot be read, loaded or copied aborts the whole merge. The library is an
 * oracle `load` that gives a file's pages, or `None` when any of those steps
 * throws. The oracle sees the whole file, bytes included, so two files with the
 * same name can load differently. Pages are of an arbitrary type `P`.
 */
module Merging {
  import opened Wrappers
  import opened Entries

  /** The error `mergePDFs` throws for a file that fails. */
  function FailureMessage(f: File): string {
    "Failed to process " + f.name
  }

  /** The result of `mergePDFs` over `files`: a left fold that stops at the first failure. */
  function Merge<P>(files: seq<File>, load: File -> Option<seq<P>>): Result<seq<P>, string>
    decreases |files|
  {
    if files == [] then Ok([])
    else
      var last := files[|files| - 1];
      match Merge(files[..|files| - 1], load)
      case Err(e) => Err(e)
      case Ok(pages) =>
        match load(last)
        case None => Err(FailureMessage(last))
        case Some(ps) => Ok(pages + ps)
  }

  predicate AllLoad<P>(files: seq<File>, load: File -> Option<seq<P>>) {
    forall i :: 0 <= i < |files| ==> load(files[i]).Some?
  }

  /** Reference definition: each file's pages, one file after another. */
  function AllPages<P>(files: seq<File>, load: File -> Option<seq<P>>): seq<P>
    requires AllLoad(files, load)
    decreases |files|
  {
    if files == [] then [] else load(files[0]).value + AllPages(files[1..], load)
  }

  /** The total number of pages of the files. */
  function TotalPages<P>(files: seq<File>, load: File -> Option<seq<P>>): nat
    requires AllLoad(files, load)
    decreases |files|
  {
    if files == [] then 0 else |load(files[0]).value| + TotalPages(files[1..], load)
  }

  /** The index of the first file that fails to load, if there is one. */
  function FirstFailure<P>(files: seq<File>, load: File -> Option<seq<P>>): (k: Option<nat>)
    ensures k.None? <==> AllLoad(files, load)
    ensures k.Some? ==> k.value < |files| && load(files[k.value]).None?
    ensures k.Some? ==> forall i :: 0 <= i < k.value ==> load(files[i]).Some?
    decreases |files|
  {
    if files == [] then None
    else if load(files[0]).None? then Some(0)
    else
      match FirstFailure(files[1..], load)
      case None => None
      case Some(j) => Some(j + 1)
  }

  lemma {:induction false} AllPagesAppend<P>(a: seq<File>, b: seq<File>, load: File -> Option<seq<P>>)
    requires AllLoad(a, load) && AllLoad(b, load)
    ensures AllLoad(a + b, load)
    ensures AllPages(a + b, load) == AllPages(a, load) + AllPages(b, load)
    decreases |a|
  {
    assert AllLoad(a + b, load) by {
      forall i | 0 <= i < |a + b| ensures load((a + b)[i]).Some? {
        if i < |a| { assert (a + b)[i] == a[i]; } else { assert (a + b)[i] == b[i - |a|]; }
      }
    }
    if a != [] {
      assert (a + b)[1..] == a[1..] + b;
      assert (a + b)[0] == a[0];
      assert AllLoad(a[1..], load) by {
        forall i | 0 <= i < |a[1..]| ensures load(a[1..][i]).Some? { assert a[1..][i] == a[i + 1]; }
      }
      AllPagesAppend(a[1..], b, load);
      var first := load(a[0]).value;
      calc {
        AllPages(a + b, load);
        first + AllPages(a[1..] + b, load);
        first + (AllPages(a[1..], load) + AllPages(b, load));
        (first + AllPages(a[1..], load)) + AllPages(b, load);
      }
    } else {
      assert a + b == b;
    }
  }

  /** The number of pages of the concatenation is the sum of the files' page counts. */
  lemma {:induction false} AllPagesCount<P>(files: seq<File>, load: File -> Option<seq<P>>)
    requires AllLoad(files, load)
    ensures |AllPages(files, load)| == TotalPages(files, load)
    decreases |files|
  {
    if files != [] {
      assert AllLoad(files[1..], load) by {
        forall i | 0 <= i < |files[1..]| ensures load(files[1..][i]).Some? { assert files[1..][i] == files[i + 1]; }
      }
      AllPagesCount(files[1..], load);
    }
  }

  /** When every file loads, the merge gives the pages of each file, in list order. */
  lemma {:induction false} MergeSucceeds<P>(files: seq<File>, load: File -> Option<seq<P>>)
    requires AllLoad(files, load)
    ensures Merge(files, load) == Ok(AllPages(files, load))
    decreases |files|
  {
    if files != [] {
      var init, last := files[..|files| - 1], files[|files| - 1];
      assert AllLoad(init, load) by {
        forall i | 0 <= i < |init| ensures load(init[i]).Some? { assert init[i] == files[i]; }
      }
      MergeSucceeds(init, load);
      assert AllLoad([last], load);
      AllPagesAppend(init, [last], load);
      assert files == init + [last];
      assert AllPages([last], load) == load(last).value by {
        assert [last][1..] == [];
      }
    }
  }

  /** Once a merge has failed, the files after it change nothing: they are not processed. */
  lemma {:induction false} MergeStopsAtFailure<P>(a: seq<File>, rest: seq<File>, load: File -> Option<seq<P>>)
    requires Merge(a, load).Err?
    ensures Merge(a + rest, load) == Merge(a, load)
    decreases |rest|
  {
    if rest == [] {
      assert a + rest == a;
    } else {
      var rest' := rest[..|rest| - 1];
      assert (a + rest)[..|a + rest| - 1] == a + rest';
      MergeStopsAtFailure(a, rest', load);
    }
  }

  /** A merge fails exactly when some file fails, and then it names the first failing file. */
  lemma MergeFailsAtFirst<P>(files: seq<File>, load: File -> Option<seq<P>>)
    ensures Merge(files, load).Err? <==> FirstFailure(files, load).Some?
    ensures FirstFailure(files, load).Some? ==>
              Merge(files, load) == Err(FailureMessage(files[FirstFailure(files, load).value]))
  {
    match FirstFailure(files, load)
    case None =>
      MergeSucceeds(files, load);
    case Some(k) =>
      var init := files[..k];
      assert AllLoad(init, load) by {
        forall i | 0 <= i < |init| ensures load(init[i]).Some? { assert init[i] == files[i]; }
      }
      MergeSucceeds(init, load);
      assert files[..k + 1][..k] == init;
      assert files[..k + 1] + files[k + 1..] == files;
      MergeStopsAtFailure(files[..k + 1], files[k + 1..], load);
  }

  /**
   * The merge depends on no file after the first failing one: any library that
   * agrees on the files up to and including it gives the same result.
   */
  lemma MergeIgnoresLaterFiles<P>(files: seq<File>, load: File -> Option<seq<P>>, load': File -> Option<seq<P>>, k: nat)
    requires FirstFailure(files, load) == Some(k)
    requires forall j :: 0 <= j <= k ==> load'(files[j]) == load(files[j])
    ensures Merge(files, load') == Merge(files, load)
  {
    assert FirstFailure(files, load') == Some(k);
    MergeFailsAtFirst(files, load);
    MergeFailsAtFirst(files, load');
  }

  /** `mergePDFs`: load each file in turn and append its pages, or throw on the first failure. */
  method MergePdfs<P>(files: seq<File>, load: File -> Option<seq<P>>) returns (r: Result<seq<P>, string>)
    ensures r == Merge(files, load)
  {
    var merged: seq<P> := [];
    for i := 0 to |files|
      invariant Merge(files[..i], load) == Ok(merged)
    {
      assert files[..i + 1][..i] == files[..i];
      var pages := load(files[i]);
      if pages.None? {
        assert files[..i + 1] + files[i + 1..] == files;
        MergeStopsAtFailure(files[..i + 1], files[i + 1..], load);
        return Err(FailureMessage(files[i]));
      }
      merged := merged + pages.value;
    }
    assert files[..|files|] == files;
    return Ok(merged);
  }

  /** What a click on the download button ends in. */
  datatype Outcome<P> =
    | Refused(alert: string)
    | MergeFailed(alert: string)
    | Downloaded(fileName: string, pages: seq<P>)

  const TooFewAlert: string := "Please add at least two PDF files to merge."
  const MergeFailedPrefix: string := "Failed to merge PDFs: "
  const OutputName: string := "merged-pdfs.pdf"

  /** The download click: refuse fewer than two files, otherwise merge and offer the result. */
  function Download<P>(files: seq<File>, load: File -> Option<seq<P>>): Outcome<P> {
    if |files| < 2 then Refused(TooFewAlert)
    else
      match Merge(files, load)
      case Err(m) => MergeFailed(MergeFailedPrefix + m)
      case Ok(pages) => Downloaded(OutputName, pages)
  }

  /** The gate and both ways a merge can end, in terms of the files and the library. */
  lemma DownloadSpec<P>(files: seq<File>, load: File -> Option<seq<P>>)
    ensures Download(files, load).Refused? <==> |files| < 2
    ensures |files| < 2 ==> Download(files, load) == Refused(TooFewAlert)
    ensures Download(files, load).Downloaded? <==> |files| >= 2 && AllLoad(files, load)
    ensures |files| >= 2 && AllLoad(files, load) ==>
              Download(files, load) == Downloaded(OutputName, AllPages(files, load))
    ensures |files| >= 2 && FirstFailure(files, load).Some? ==>
              Download(files, load) ==
                MergeFailed(MergeFailedPrefix + FailureMessage(files[FirstFailure(files, load).value]))
  {
    MergeFailsAtFirst(files, load);
    if AllLoad(files, load) {
      MergeSucceeds(files, load);
    }
  }
}
