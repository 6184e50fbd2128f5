/** The files the page accepts into its list, and the filter applied on ingestion. */
module Entries {

  /**
   * A browser `File` as the page reads it: its name, its declared media type and
   * its bytes (read by `arrayBuffer()` for the preview and for the merge). Two
   * files with the same name and type may differ in content.
   */
  datatype File = File(name: string, mediaType: string, bytes: seq<bv8>)

  const PdfType: string := "application/pdf"

  predicate IsPdf(f: File) {
    f.mediaType == PdfType
  }

  /** The files of `fs` whose media type is PDF, in their order in `fs`. */
  function PdfOnly(fs: seq<File>): (r: seq<File>)
    ensures |r| <= |fs|
    ensures forall i :: 0 <= i < |r| ==> IsPdf(r[i])
    decreases |fs|
  {
    if fs == [] then []
    else
      var last := fs[|fs| - 1];
      PdfOnly(fs[..|fs| - 1]) + (if IsPdf(last) then [last] else [])
  }

  /** Filtering commutes with concatenation: the kept files stay in input order. */
  lemma {:induction false} PdfOnlyAppend(a: seq<File>, b: seq<File>)
    ensures PdfOnly(a + b) == PdfOnly(a) + PdfOnly(b)
    decreases |b|
  {
    if b == [] {
      assert a + b == a;
    } else {
      var b' := b[..|b| - 1];
      assert (a + b)[..|a + b| - 1] == a + b';
      assert (a + b)[|a + b| - 1] == b[|b| - 1];
      PdfOnlyAppend(a, b');
    }
  }

  /** Every PDF file is kept as often as it occurs, and no other file is kept. */
  lemma {:induction false} PdfOnlyCounts(fs: seq<File>)
    ensures forall f :: multiset(PdfOnly(fs))[f] == if IsPdf(f) then multiset(fs)[f] else 0
    ensures forall f :: f in PdfOnly(fs) <==> f in fs && IsPdf(f)
    decreases |fs|
  {
    if fs != [] {
      var init, last := fs[..|fs| - 1], fs[|fs| - 1];
      assert fs == init + [last];
      PdfOnlyCounts(init);
      assert multiset(fs) == multiset(init) + multiset{last};
    }
  }

  /** A list of PDF files passes the filter unchanged. */
  lemma {:induction false} PdfOnlyKeepsPdfs(fs: seq<File>)
    requires forall i :: 0 <= i < |fs| ==> IsPdf(fs[i])
    ensures PdfOnly(fs) == fs
    decreases |fs|
  {
    if fs != [] {
      var init := fs[..|fs| - 1];
      assert forall i :: 0 <= i < |init| ==> IsPdf(init[i]) by {
        forall i | 0 <= i < |init| ensures IsPdf(init[i]) { assert init[i] == fs[i]; }
      }
      PdfOnlyKeepsPdfs(init);
      assert fs == init + [fs[|fs| - 1]];
    }
  }

  /** The filter keeps nothing exactly when no file is a PDF. */
  lemma PdfOnlyEmpty(fs: seq<File>)
    ensures PdfOnly(fs) == [] <==> forall i :: 0 <= i < |fs| ==> !IsPdf(fs[i])
  {
    PdfOnlyCounts(fs);
    if PdfOnly(fs) != [] {
      assert PdfOnly(fs)[0] in PdfOnly(fs);
    } else {
      forall i | 0 <= i < |fs| ensures !IsPdf(fs[i]) {
        assert fs[i] in fs;
      }
    }
  }

  /** Filtering twice is filtering once. */
  lemma PdfOnlyIdempotent(fs: seq<File>)
    ensures PdfOnly(PdfOnly(fs)) == PdfOnly(fs)
  {
    PdfOnlyKeepsPdfs(PdfOnly(fs));
  }
}
