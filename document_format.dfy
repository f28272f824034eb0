/**
 * The pure parts of opening a document: which loader a file goes to, decided by
 * its lower-cased extension, and whether its name needs the ASCII-named temporary
 * copy that the DJVU command-line tools are given instead.
 */
module DocumentFormat {
  import opened SwiftText

  /**
   * A file URL, reduced to what the viewer reads from it. Foundation derives the
   * last path component and the extension from the path; here they are given.
   */
  datatype Url = Url(path: string, lastPathComponent: string, pathExtension: string)

  /** The loader `loadDocument` hands a file to. */
  datatype Kind = Pdf | Djvu | Unsupported(lowercasedExtension: string)

  /** Extension dispatch of `loadDocument`: "pdf" first, then "djvu" or "djv", else unsupported. */
  function LoaderKind(url: Url): (k: Kind)
    ensures k == Pdf <==> Lowercased(url.pathExtension) == "pdf"
    ensures k == Djvu <==> Lowercased(url.pathExtension) in {"djvu", "djv"}
    ensures k.Unsupported? ==> k.lowercasedExtension == Lowercased(url.pathExtension)
  {
    var ext := Lowercased(url.pathExtension);
    if ext == "pdf" then Pdf
    else if ext == "djvu" || ext == "djv" then Djvu
    else Unsupported(ext)
  }

  /** The loader ignores the case of the extension. */
  lemma LoaderKindIgnoresCase(url: Url, other: Url)
    requires Lowercased(url.pathExtension) == Lowercased(other.pathExtension)
    ensures LoaderKind(url) == LoaderKind(other)
  {
  }

  /** `hasNonASCIICharacters(in:)`: some character of the file name is outside ASCII. */
  function HasNonAsciiCharacters(url: Url): (b: bool)
    ensures b <==> exists i :: 0 <= i < |url.lastPathComponent| && url.lastPathComponent[i] as int >= 128
  {
    !(forall i :: 0 <= i < |url.lastPathComponent| ==> url.lastPathComponent[i] as int < 128)
  }

  /** Text of the error shown for an unsupported file. */
  function UnsupportedFormatMessage(lowercasedExtension: string): (m: string)
    ensures m != []
  {
    "Неподдерживаемый формат файла: ." + lowercasedExtension
  }
}
