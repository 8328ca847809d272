/** The uploaded-document record and its `is_pdf` test. */
module Document {
  import Text

  /** The content type a document gets when none is given. */
  const PdfContentType: string := "application/pdf"

  /**
   * Metadata of an uploaded document. A datatype value, hence immutable like the
   * frozen dataclass. `createdAt` stands for the creation timestamp, as an
   * integer count of microseconds, so that timestamps compare as integers.
   */
  datatype Document = Document(
    id: string,
    originalFilename: string,
    storedFilename: string,
    sizeBytes: int,
    pages: int,
    createdAt: int,
    contentType: string := PdfContentType)

  /** `is_pdf`: the content type says PDF, or the stored name ends in `.pdf` ignoring case. */
  predicate IsPdf(d: Document) {
    d.contentType == PdfContentType || Text.EndsWith(Text.Lower(d.storedFilename), ".pdf")
  }

  /** The last four characters are `.pdf` in any mix of upper and lower case. */
  predicate HasPdfExtension(name: string) {
    var n := |name|;
    n >= 4 && name[n - 4] == '.' && (name[n - 3] == 'p' || name[n - 3] == 'P')
    && (name[n - 2] == 'd' || name[n - 2] == 'D') && (name[n - 1] == 'f' || name[n - 1] == 'F')
  }

  lemma LowerEndsWithPdf(name: string)
    ensures Text.EndsWith(Text.Lower(name), ".pdf") <==> HasPdfExtension(name)
  {
    var low := Text.Lower(name);
    var n := |name|;
    if n >= 4 {
      assert low[n - 4..] == [low[n - 4], low[n - 3], low[n - 2], low[n - 1]];
      assert ".pdf" == ['.', 'p', 'd', 'f'];
    }
  }

  /**
   * A document is a PDF exactly when its content type is `application/pdf` or its
   * stored file name ends in `.pdf`, `.PDF`, `.Pdf`, ...; either test alone suffices.
   */
  lemma IsPdfCases(d: Document)
    ensures IsPdf(d) <==> d.contentType == PdfContentType || HasPdfExtension(d.storedFilename)
  {
    LowerEndsWithPdf(d.storedFilename);
  }

  /** A document built without a content type is a PDF, whatever its file name. */
  lemma DefaultIsPdf(id: string, original: string, stored: string, size: int, pages: int, created: int)
    ensures Document(id, original, stored, size, pages, created).contentType == PdfContentType
    ensures IsPdf(Document(id, original, stored, size, pages, created))
  {
  }
}
