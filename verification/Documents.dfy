// The canonical shapes every provider normalises into (src/providers/types.ts),
// and the function declarations the router matches them against.
module Documents {
  import opened Collections

  datatype MimeGroup = Pdf | Image | Docx | PlainText

  datatype Capability = Text | Layout | Tables | Handwriting | Seals

  datatype BlockLabel = ImageLabel | TextLabel | FormulaLabel | TableLabel

  datatype Bbox = Bbox(x0: real, y0: real, x1: real, y1: real)

  datatype LayoutBlock = LayoutBlock(index: int, page: int, kind: BlockLabel, bbox: Option<Bbox>, content: string)

  datatype Dimensions = Dimensions(width: real, height: real)

  datatype PageResult = PageResult(page: int, markdown: string, size: Option<Dimensions>)

  // What a provider reads out of a file; the rest of a document is provenance.
  datatype Content = Content(
    markdown: string,
    plainText: string,
    pages: seq<PageResult>,
    blocks: seq<LayoutBlock>,
    pageCount: nat,
    tokensUsed: Option<nat>)

  datatype Document = Document(content: Content, provider: string, fellBackFrom: Option<string>, durationMs: nat)

  datatype FunctionKey =
    | SIGNING
    | ID_VERIFICATION
    | DOCUMENT_CLASSIFICATION
    | FORM_DATA_EXTRACTION
    | RECEIPT_PARSING
    | TEXT_EXTRACTION
    | RESUME_PARSING
    | DOCUMENT_AUTHENTICITY

  datatype Sensitivity = Standard | Pii | Restricted

  datatype FunctionDef = FunctionDef(
    key: FunctionKey,
    accepts: seq<MimeGroup>,
    required: seq<Capability>,
    sensitivity: Sensitivity,
    maxPages: nat,
    skipExtraction: bool)
}
