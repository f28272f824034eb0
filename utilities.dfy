/**
 * The small helpers of Extensions+Utilities.swift that the viewer's state relies
 * on: the list of recently opened documents, the check of a typed page number and
 * the document-type predicates on file URLs.
 */
module Utilities {
  import opened Options
  import opened SwiftText
  import opened DocumentFormat

  /** Length of the recent-documents list. */
  const MaxRecentDocuments: nat := 10

  /** `removeAll { $0 == url }`, as a value: the list without any occurrence of `url`. */
  function Without(docs: seq<Url>, url: Url): seq<Url>
  {
    if docs == [] then []
    else if docs[0] == url then Without(docs[1..], url)
    else [docs[0]] + Without(docs[1..], url)
  }

  /** `s` can be obtained from `t` by deleting elements. */
  predicate IsSubsequence(s: seq<Url>, t: seq<Url>)
    decreases |t|
  {
    s == [] || (t != [] && ((s[0] == t[0] && IsSubsequence(s[1..], t[1..])) || IsSubsequence(s, t[1..])))
  }

  lemma {:induction false} WithoutSpec(docs: seq<Url>, url: Url)
    ensures url !in Without(docs, url)
    ensures forall d :: d != url ==> (d in Without(docs, url) <==> d in docs)
    ensures |Without(docs, url)| <= |docs|
    ensures url !in docs ==> Without(docs, url) == docs
    ensures IsSubsequence(Without(docs, url), docs)
  {
    if docs != [] {
      WithoutSpec(docs[1..], url);
      assert docs == [docs[0]] + docs[1..];
      if docs[0] != url {
        var w := Without(docs[1..], url);
        assert ([docs[0]] + w)[1..] == w;
      }
    }
  }

  /** The recent-documents list after `addRecentDocument(url)`. */
  function WithRecent(docs: seq<Url>, url: Url): seq<Url>
  {
    var moved := [url] + Without(docs, url);
    if |moved| > MaxRecentDocuments then moved[..|moved| - 1] else moved
  }

  /** The document just opened heads the list and appears in it exactly once. */
  lemma WithRecentPutsUrlFirst(docs: seq<Url>, url: Url)
    ensures |WithRecent(docs, url)| >= 1 && WithRecent(docs, url)[0] == url
    ensures forall i :: 1 <= i < |WithRecent(docs, url)| ==> WithRecent(docs, url)[i] != url
  {
    WithoutSpec(docs, url);
    var w := Without(docs, url);
    forall i | 1 <= i < |WithRecent(docs, url)|
      ensures WithRecent(docs, url)[i] != url
    {
      assert WithRecent(docs, url)[i] == w[i - 1];
    }
  }

  /**
   * The other documents keep their relative order, the list never grows past 10
   * when it was within 10, and on overflow only the last (oldest) entry is dropped.
   */
  lemma WithRecentKeepsOthers(docs: seq<Url>, url: Url)
    ensures WithRecent(docs, url)[1..] == Without(docs, url)[..|WithRecent(docs, url)| - 1]
    ensures IsSubsequence(WithRecent(docs, url)[1..], docs)
    ensures |docs| <= MaxRecentDocuments ==> |WithRecent(docs, url)| <= MaxRecentDocuments
    ensures |WithRecent(docs, url)| >= |Without(docs, url)|
    ensures url in docs && |docs| <= MaxRecentDocuments ==> |WithRecent(docs, url)| <= |docs|
    ensures url !in docs && |docs| == MaxRecentDocuments ==>
      WithRecent(docs, url) == [url] + docs[..MaxRecentDocuments - 1]
  {
    WithoutSpec(docs, url);
    var w := Without(docs, url);
    var r := WithRecent(docs, url);
    assert r[1..] == w[..|r| - 1];
    PrefixIsSubsequence(w, |r| - 1);
    SubsequenceTransitive(w[..|r| - 1], w, docs);
    if url in docs {
      WithoutCount(docs, url);
    }
  }

  /** Removing a document that is present shortens the list. */
  lemma {:induction false} WithoutCount(docs: seq<Url>, url: Url)
    requires url in docs
    ensures |Without(docs, url)| < |docs|
  {
    WithoutSpec(docs[1..], url);
    if docs[0] != url {
      WithoutCount(docs[1..], url);
    }
  }

  lemma {:induction false} PrefixIsSubsequence(s: seq<Url>, n: nat)
    requires n <= |s|
    ensures IsSubsequence(s[..n], s)
    decreases |s|
  {
    if n > 0 {
      PrefixIsSubsequence(s[1..], n - 1);
      assert s[..n][1..] == s[1..][..n - 1];
    }
  }

  lemma {:induction false} SubsequenceTransitive(a: seq<Url>, b: seq<Url>, c: seq<Url>)
    requires IsSubsequence(a, b) && IsSubsequence(b, c)
    ensures IsSubsequence(a, c)
    decreases |c|
  {
    if a != [] {
      if IsSubsequence(b, c[1..]) {
        SubsequenceTransitive(a, b, c[1..]);
      } else if a[0] == b[0] && IsSubsequence(a[1..], b[1..]) {
        SubsequenceTransitive(a[1..], b[1..], c[1..]);
      } else {
        SubsequenceTransitive(a, b[1..], c[1..]);
      }
    }
  }

  /** The recent documents and the last opened one, as `DocumentStateManager` keeps them. */
  class DocumentStateManager {
    var recentDocuments: seq<Url>
    var lastOpenedDocument: Option<Url>

    /** `init()`, with the values `loadState()` decoded from the user defaults given as arguments. */
    constructor (saved: seq<Url>, lastSaved: Option<Url>)
      ensures recentDocuments == saved && lastOpenedDocument == lastSaved
    {
      recentDocuments := saved;
      lastOpenedDocument := lastSaved;
    }

    /** `addRecentDocument(_:)`: move or insert `url` at the front, cap the list, remember it as last opened. */
    method AddRecentDocument(url: Url)
      modifies this
      ensures recentDocuments == WithRecent(old(recentDocuments), url)
      ensures lastOpenedDocument == Some(url)
    {
      var kept: seq<Url> := [];
      var i := |recentDocuments|;
      while i > 0
        invariant 0 <= i <= |recentDocuments|
        invariant recentDocuments == old(recentDocuments)
        invariant kept == Without(recentDocuments[i..], url)
      {
        i := i - 1;
        assert recentDocuments[i..][1..] == recentDocuments[i + 1..];
        if recentDocuments[i] != url {
          kept := [recentDocuments[i]] + kept;
        }
      }
      assert recentDocuments[0..] == recentDocuments;
      recentDocuments := [url] + kept;
      if |recentDocuments| > MaxRecentDocuments {
        recentDocuments := recentDocuments[..|recentDocuments| - 1];
      }
      lastOpenedDocument := Some(url);
    }

    /** `clearRecentDocuments()`: empties the list; the last opened document is kept. */
    method ClearRecentDocuments()
      modifies this
      ensures recentDocuments == []
      ensures lastOpenedDocument == old(lastOpenedDocument)
    {
      recentDocuments := [];
    }
  }

  /** `isValidPageNumber(totalPages:)`: the text is an integer n with 1 <= n <= totalPages. */
  function IsValidPageNumber(text: string, totalPages: int): bool
  {
    match ParseInt(text)
    case Some(n) => 1 <= n && n <= totalPages
    case None => false
  }

  /** A page number typed in decimal is accepted exactly when it names a page of the document. */
  lemma ValidPageNumberRoundTrip(n: nat, totalPages: int)
    requires n <= IntMax
    ensures IsValidPageNumber(DecimalString(n), totalPages) <==> 1 <= n <= totalPages
  {
    ParseDecimalRoundTrip(n);
  }

  /** Surrounding blanks make a page number invalid: the text is not trimmed. */
  lemma PaddedPageNumberInvalid(text: string, totalPages: int)
    requires |text| >= 2 && text[|text| - 1] == ' '
    ensures !IsValidPageNumber(text, totalPages)
  {
    ParseIntRejectsNonDigit(text, |text| - 1);
  }

  /** `isDJVUDocument`. */
  predicate IsDjvuDocument(url: Url)
  {
    Lowercased(url.pathExtension) in ["djvu", "djv"]
  }

  /** `isPDFDocument`. */
  predicate IsPdfDocument(url: Url)
  {
    Lowercased(url.pathExtension) == "pdf"
  }

  /** `documentType`: DJVU is checked first, then PDF. */
  function DocumentType(url: Url): string
  {
    if IsDjvuDocument(url) then "DJVU"
    else if IsPdfDocument(url) then "PDF"
    else "Неизвестный"
  }

  /** No file is both a DJVU and a PDF document. */
  lemma DocumentPredicatesExclusive(url: Url)
    ensures !(IsDjvuDocument(url) && IsPdfDocument(url))
  {
  }

  /** The type shown to the user is the kind of loader `loadDocument` chooses for the file. */
  lemma DocumentTypeMatchesLoader(url: Url)
    ensures DocumentType(url) == "DJVU" <==> LoaderKind(url) == Djvu
    ensures DocumentType(url) == "PDF" <==> LoaderKind(url) == Pdf
    ensures DocumentType(url) == "Неизвестный" <==> LoaderKind(url).Unsupported?
  {
  }
}
