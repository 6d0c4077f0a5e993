/** src/components/PdfImporter.tsx: the card that picks a PDF file, extracts its pages as images,
    batches them and hands them on. The extraction itself (`extractPdfAsImages`) is not part of this
    model: its outcome is a parameter of the handlers that await it, and the `onPagesExtracted`
    callback is the handlers' result. */
module PdfImporter {
  import opened Common
  import PdfBatching

  const MaxFileSizeMb := 10
  const BytesPerMb := 1048576
  const FileTooLargeMessage := "File size exceeds 10MB limit. Please choose a smaller file."
  const SelectFileFirst := "Please select a PDF file first"
  const SelectFile := "Please select a PDF file"
  const NoPagesExtracted := "No pages could be extracted from the PDF"

  /** The file the input holds. */
  datatype PdfFile = PdfFile(name: string, size: nat)

  /** What `extractPdfAsImages` resolves to; an empty `error` is no error. */
  datatype Extraction = Extraction(images: seq<string>, error: string)

  /** One call of `onPagesExtracted(pages, title, images)`. */
  datatype PagesExtracted = PagesExtracted(texts: seq<string>, title: string, images: seq<string>)

  /** `file.size / (1024 * 1024) > MAX_FILE_SIZE_MB`. */
  predicate FileTooLarge(size: nat) {
    (size as real) / (BytesPerMb as real) > MaxFileSizeMb as real
  }

  /** The limit in bytes: a file is refused exactly when it is larger than 10 MiB. */
  lemma FileTooLargeIffOverLimit(size: nat)
    ensures FileTooLarge(size) <==> size > MaxFileSizeMb * BytesPerMb
  {
  }

  /** The index of the last `c` in `s`, or -1. */
  function LastIndexOf(s: string, c: char): (i: int)
    ensures -1 <= i < |s|
    ensures i >= 0 ==> s[i] == c
    ensures forall j :: i < j < |s| ==> s[j] != c
  {
    if s == [] then -1
    else if s[|s| - 1] == c then |s| - 1
    else LastIndexOf(s[..|s| - 1], c)
  }

  /** `name.replace(/\.[^/.]+$/, "")`: the last dot and what follows go, provided at least one
      character follows and none of them is a slash. */
  function StripExtension(name: string): (r: string)
    ensures StartsWith(name, r)
    ensures r != name ==>
      && |r| < |name| - 1 && name[|r|] == '.'
      && forall j :: |r| < j < |name| ==> name[j] != '.' && name[j] != '/'
  {
    var dot := LastIndexOf(name, '.');
    if 0 <= dot < |name| - 1 && forall j :: dot < j < |name| ==> name[j] != '/' then name[..dot]
    else name
  }

  /** A name ending in a dot and an extension loses exactly that ending. */
  lemma StripExtensionOfNamed(base: string, ext: string)
    requires ext != [] && forall j :: 0 <= j < |ext| ==> ext[j] != '.' && ext[j] != '/'
    ensures StripExtension(base + "." + ext) == base
  {
    var name := base + "." + ext;
    assert name[|base|] == '.';
    assert forall j :: |base| < j < |name| ==> name[j] == ext[j - |base| - 1];
    assert LastIndexOf(name, '.') == |base|;
    assert name[..|base|] == base;
  }

  /** A name with no dot is kept whole. */
  lemma StripExtensionWithoutDot(name: string)
    requires forall j :: 0 <= j < |name| ==> name[j] != '.'
    ensures StripExtension(name) == name
  {
  }

  /** The title proposed for a picked file: the name without its extension, with dashes and
      underscores turned into spaces. */
  function DeriveTitle(name: string): (title: string)
    ensures |title| == |StripExtension(name)|
    ensures forall i :: 0 <= i < |title| ==> title[i] != '-' && title[i] != '_'
  {
    DashesToSpaces(StripExtension(name))
  }

  lemma DeriveTitleOfPdfName(base: string)
    ensures DeriveTitle(base + ".pdf") == DashesToSpaces(base)
  {
    StripExtensionOfNamed(base, "pdf");
    assert base + "." + "pdf" == base + ".pdf";
  }

  /** `parseInt(value) || 1` as written: a missing number or zero becomes 1, every other parsed
      integer is kept, negative ones included. */
  function PagesPerPageAsWritten(input: string): (k: int)
    ensures k != 0
    ensures ParseInt(input).None? ==> k == 1
    ensures ParseInt(input).Some? && ParseInt(input).value != 0 ==> k == ParseInt(input).value
  {
    match ParseInt(input)
    case None => 1
    case Some(v) => if v == 0 then 1 else v
  }

  /** Typing "-3" into the field gives a batch size of -3. */
  lemma PagesPerPageAsWrittenTakesNegative()
    ensures PagesPerPageAsWritten("-3") == -3
  {
    assert NatToString(3) == "3";
    ParseIntOfNegated(3);
    assert "-" + NatToString(3) == "-3";
  }

  /** With a batch size below one, the batching loop's index never reaches the end of a non-empty
      image list: after any number of steps it is still below the length, so the loop runs on. */
  lemma BatchLoopNeverEndsBelowOne(imageCount: int, k: int, steps: nat)
    requires imageCount > 0 && k < 1
    ensures steps * k < imageCount
  {
    MulSign(-k + 1, steps + 1);
  }

  /** The batch size the field evidently means: a value below one also becomes 1. */
  function PagesPerPage(input: string): (k: int)
    ensures k >= 1
    ensures PagesPerPageAsWritten(input) >= 1 ==> k == PagesPerPageAsWritten(input)
    ensures ParseInt(input).None? ==> k == 1
  {
    var k := PagesPerPageAsWritten(input);
    if k < 1 then 1 else k
  }

  /** "Page 1", "Page 2", ...: one placeholder text per page. */
  function PlaceholderTexts(count: nat): (texts: seq<string>)
    ensures |texts| == count
    ensures forall i :: 0 <= i < count ==> texts[i] == "Page " + NatToString(i + 1)
  {
    seq(count, i requires 0 <= i < count => "Page " + NatToString(i + 1))
  }

  /** No two pages get the same placeholder. */
  lemma PlaceholderTextsDistinct(count: nat, i: int, j: int)
    requires 0 <= i < j < count
    ensures PlaceholderTexts(count)[i] != PlaceholderTexts(count)[j]
  {
    var texts := PlaceholderTexts(count);
    if texts[i] == texts[j] {
      assert texts[i][5..] == NatToString(i + 1);
      assert texts[j][5..] == NatToString(j + 1);
      NatToStringInjective(i + 1, j + 1);
      assert false;
    }
  }

  /** The card's state; `selected` is the file the input holds. */
  class PdfImportForm {
    var isLoading: bool
    var fileName: string
    var fileSize: nat
    var error: string
    var pagesPerFlipbookPage: int
    var pdfTitle: string
    var showPreview: bool
    var previewImages: seq<string>
    var totalPages: nat
    var previewExtracted: bool
    var selected: Option<PdfFile>

    /** The batch size is always usable by the batching loop. */
    ghost predicate Valid()
      reads this
    {
      pagesPerFlipbookPage >= 1
    }

    constructor ()
      ensures Valid()
      ensures !isLoading && fileName == "" && fileSize == 0 && error == "" && pagesPerFlipbookPage == 1
      ensures pdfTitle == "" && !showPreview && previewImages == [] && totalPages == 0 && !previewExtracted
      ensures selected == None
    {
      isLoading, fileName, fileSize, error, pagesPerFlipbookPage := false, "", 0, "", 1;
      pdfTitle, showPreview, previewImages, totalPages, previewExtracted := "", false, [], 0, false;
      selected := None;
    }

    /** `handleFileChange`: an oversized file is refused (the message is shown, the name and title
        are cleared and the input is reset); an accepted file proposes a title and drops any
        preview; no file clears the name, title and size. */
    method HandleFileChange(file: Option<PdfFile>)
      requires Valid()
      modifies this`fileName, this`fileSize, this`error, this`pdfTitle, this`showPreview
      modifies this`previewImages, this`previewExtracted, this`selected
      ensures Valid()
      ensures file.Some? && FileTooLarge(file.value.size) ==>
        && error == FileTooLargeMessage && fileName == "" && pdfTitle == "" && selected == None
        && fileSize == file.value.size
        && showPreview == old(showPreview) && previewImages == old(previewImages)
        && previewExtracted == old(previewExtracted)
      ensures file.Some? && !FileTooLarge(file.value.size) ==>
        && fileName == file.value.name && pdfTitle == DeriveTitle(file.value.name) && error == ""
        && fileSize == file.value.size && selected == file
        && !showPreview && previewImages == [] && !previewExtracted
      ensures file.None? ==>
        && fileName == "" && pdfTitle == "" && fileSize == 0 && !previewExtracted && selected == None
        && error == old(error) && showPreview == old(showPreview) && previewImages == old(previewImages)
    {
      selected := file;
      if file.Some? {
        var f := file.value;
        fileSize := f.size;
        if FileTooLarge(f.size) {
          error := FileTooLargeMessage;
          fileName, pdfTitle := "", "";
          selected := None;
          return;
        }
        fileName := f.name;
        pdfTitle := DeriveTitle(f.name);
        error := "";
        showPreview, previewImages, previewExtracted := false, [], false;
      } else {
        fileName, pdfTitle, fileSize := "", "", 0;
        previewExtracted := false;
      }
    }

    /** The title field: whatever is typed becomes the title the import passes on. */
    method HandleTitleChange(value: string)
      modifies this`pdfTitle
      ensures pdfTitle == value
    {
      pdfTitle := value;
    }

    /** The pages-per-page field: the parsed batch size, and any preview is dropped. */
    method HandlePagesPerPageChange(input: string)
      requires Valid()
      modifies this`pagesPerFlipbookPage, this`showPreview, this`previewExtracted
      ensures Valid()
      ensures pagesPerFlipbookPage == PagesPerPage(input)
      ensures old(previewExtracted) ==> !showPreview && !previewExtracted
      ensures !old(previewExtracted) ==> showPreview == old(showPreview) && !previewExtracted
    {
      pagesPerFlipbookPage := PagesPerPage(input);
      if previewExtracted {
        showPreview, previewExtracted := false, false;
      }
    }

    /** `handlePreview`: extracts the selected file's pages and keeps them for the import. */
    method HandlePreview(extraction: Extraction)
      requires Valid()
      modifies this`error, this`isLoading, this`previewImages, this`totalPages, this`showPreview
      modifies this`previewExtracted
      ensures Valid()
      ensures selected.None? ==>
        error == SelectFileFirst && isLoading == old(isLoading) && previewImages == old(previewImages)
        && previewExtracted == old(previewExtracted) && totalPages == old(totalPages) && showPreview == old(showPreview)
      ensures selected.Some? ==> !isLoading
      ensures selected.Some? && extraction.error != [] ==>
        error == extraction.error && previewImages == old(previewImages) && previewExtracted == old(previewExtracted)
        && totalPages == old(totalPages) && showPreview == old(showPreview)
      ensures selected.Some? && extraction.error == [] && extraction.images == [] ==>
        error == NoPagesExtracted && previewImages == old(previewImages) && previewExtracted == old(previewExtracted)
        && totalPages == old(totalPages) && showPreview == old(showPreview)
      ensures selected.Some? && extraction.error == [] && extraction.images != [] ==>
        && error == "" && previewImages == extraction.images && totalPages == |extraction.images|
        && showPreview && previewExtracted
    {
      if selected.None? {
        error := SelectFileFirst;
        return;
      }
      isLoading, error := true, "";
      if extraction.error != [] {
        error := extraction.error;
      } else if extraction.images == [] {
        error := NoPagesExtracted;
      } else {
        previewImages, totalPages := extraction.images, |extraction.images|;
        showPreview, previewExtracted := true, true;
      }
      isLoading := false;
    }

    /** `handleImport`: reuses the preview's images when there are some, and otherwise extracts
        the selected file. Either way the images are batched and passed on with one placeholder
        text per image; a failed or empty extraction passes nothing on and shows why. */
    method HandleImport(extraction: Extraction) returns (emitted: Option<PagesExtracted>)
      requires Valid()
      modifies this`error, this`isLoading, this`fileName, this`pdfTitle, this`previewExtracted
      modifies this`selected
      ensures Valid()
      ensures emitted.Some? ==>
        && |emitted.value.texts| == |emitted.value.images|
        && emitted.value.texts == PlaceholderTexts(|emitted.value.images|)
        && emitted.value.title == old(pdfTitle)
      ensures old(previewExtracted) && old(previewImages) != [] ==>
        && emitted.Some? && Batched(emitted.value.images, old(previewImages), pagesPerFlipbookPage)
        && error == old(error) && fileName == old(fileName) && pdfTitle == old(pdfTitle)
        && selected == old(selected) && previewExtracted && isLoading == old(isLoading)
      ensures !(old(previewExtracted) && old(previewImages) != []) ==>
        if old(selected).None? then
          && emitted.None? && error == SelectFile && pdfTitle == old(pdfTitle) && selected == None
          && isLoading == old(isLoading) && fileName == old(fileName) && previewExtracted == old(previewExtracted)
        else if extraction.error != [] || extraction.images == [] then
          && emitted.None? && !isLoading
          && error == (if extraction.error != [] then extraction.error else NoPagesExtracted)
          && fileName == old(fileName) && pdfTitle == old(pdfTitle) && selected == old(selected)
          && previewExtracted == old(previewExtracted)
        else
          && emitted.Some? && Batched(emitted.value.images, extraction.images, pagesPerFlipbookPage)
          && error == "" && !isLoading
          && fileName == "" && pdfTitle == "" && !previewExtracted && selected == None
    {
      if previewExtracted && |previewImages| > 0 {
        var finalImages := PdfBatching.CombinePageImages(previewImages, pagesPerFlipbookPage);
        return Some(PagesExtracted(PlaceholderTexts(|finalImages|), pdfTitle, finalImages));
      }
      if selected.None? {
        error := SelectFile;
        return None;
      }
      isLoading, error := true, "";
      emitted := None;
      if extraction.error != [] {
        error := extraction.error;
      } else if extraction.images == [] {
        error := NoPagesExtracted;
      } else {
        var finalImages := PdfBatching.CombinePageImages(extraction.images, pagesPerFlipbookPage);
        emitted := Some(PagesExtracted(PlaceholderTexts(|finalImages|), pdfTitle, finalImages));
        selected := None;
        fileName, pdfTitle := "", "";
        previewExtracted := false;
      }
      isLoading := false;
    }
  }

  /** What `combinePageImages` promises: one image per batch of `k`, the batch's first. */
  predicate Batched(combined: seq<string>, images: seq<string>, k: int)
    requires k >= 1
  {
    && |combined| == (|images| + k - 1) / k
    && forall j :: 0 <= j < |combined| ==> j * k < |images| && combined[j] == images[j * k]
  }
}
