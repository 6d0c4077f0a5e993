/** src/pages/AdminPdfImportPage.tsx: the administrator's import page. It receives the pages the
    PDF importer extracted, lets the title be edited, and hands title and pages over to the add-story
    form through two `localStorage` entries, which are fields here. */
module AdminPdfImport {
  import opened Common
  import opened Types
  import opened StoryForm
  import PdfImporter

  /** The page records `handleCreateStory` stores: each image with its "Page n" placeholder text. */
  function StoryPages(images: seq<string>): (pages: seq<PageBody>)
    ensures |pages| == |images|
    ensures forall i :: 0 <= i < |images| ==>
      pages[i].imageUrl == Some(images[i]) && pages[i].content == None
      && pages[i].textContent == Some(PdfImporter.PlaceholderTexts(|images|)[i])
  {
    var texts := PdfImporter.PlaceholderTexts(|images|);
    seq(|images|, i requires 0 <= i < |images| => PageBody(Some(images[i]), None, Some(texts[i])))
  }

  /** The image of every page that has one, in order. */
  function Images(pages: seq<PageBody>): (images: seq<string>)
    ensures |images| <= |pages|
  {
    if pages == [] then []
    else if pages[0].imageUrl.Some? then [pages[0].imageUrl.value] + Images(pages[1..])
    else Images(pages[1..])
  }

  /** The stored pages give back exactly the extracted images. */
  lemma {:induction false} ImagesOfStoryPages(images: seq<string>)
    ensures Images(StoryPages(images)) == images
  {
    var pages := StoryPages(images);
    ImagesOfImageSuffix(images, 0);
    assert pages[0..] == pages;
  }

  lemma {:induction false} ImagesOfImageSuffix(images: seq<string>, from: nat)
    requires from <= |images|
    ensures Images(StoryPages(images)[from..]) == images[from..]
    decreases |images| - from
  {
    var pages := StoryPages(images);
    if from < |images| {
      ImagesOfImageSuffix(images, from + 1);
      assert pages[from..][1..] == pages[from + 1..];
      assert images[from..] == [images[from]] + images[from + 1..];
    }
  }

  /** Every stored page carries text, so the add-story form's check on such a page comes down to
      its image, whether or not text is required. */
  lemma StoryPagesNeedOnlyImages(images: seq<string>, requireText: bool)
    ensures (forall i :: 0 <= i < |images| ==> PageIsValid(StoryPages(images)[i], requireText))
      <==> forall i :: 0 <= i < |images| ==> ValidateImageUrl(images[i])
  {
    var pages := StoryPages(images);
    forall i | 0 <= i < |images|
      ensures PageIsValid(pages[i], requireText) <==> ValidateImageUrl(images[i])
    {
      assert pages[i].textContent.value == "Page " + NatToString(i + 1);
      assert pages[i].textContent.value[0] == 'P';
    }
  }

  /** What `handleCreateStory` leads to. */
  datatype CreateOutcome = AlreadyProcessing | TitleMissing | HandedOver

  /** The page's state; `storedTitle` and `storedPages` are the two `localStorage` entries. */
  class AdminPdfImportPage {
    var extractedPages: seq<string>
    var storyTitle: string
    var showPdfImporter: bool
    var extractedImages: seq<string>
    var processingStory: bool
    var storedTitle: Option<string>
    var storedPages: Option<seq<PageBody>>

    /** The first render, with the mount effect's removal of both entries. */
    constructor ()
      ensures extractedPages == [] && storyTitle == "" && showPdfImporter
      ensures extractedImages == [] && !processingStory
      ensures storedTitle == None && storedPages == None
    {
      extractedPages, storyTitle, showPdfImporter := [], "", true;
      extractedImages, processingStory := [], false;
      storedTitle, storedPages := None, None;
    }

    /** `handlePagesExtracted`: keeps the texts, a non-empty title and a non-empty image list,
        and hides the importer. */
    method HandlePagesExtracted(pages: seq<string>, title: Option<string>, images: Option<seq<string>>)
      modifies this`extractedPages, this`storyTitle, this`extractedImages, this`showPdfImporter
      ensures extractedPages == pages && !showPdfImporter
      ensures storyTitle == if title.Some? && title.value != [] then title.value else old(storyTitle)
      ensures extractedImages == if images.Some? && images.value != [] then images.value else old(extractedImages)
    {
      extractedPages := pages;
      if title.Some? && title.value != [] {
        storyTitle := title.value;
      }
      if images.Some? && images.value != [] {
        extractedImages := images.value;
      }
      showPdfImporter := false;
    }

    /** `handleCreateStory`: ignored while a previous call is still processing; a blank title is
        refused; otherwise the trimmed title and one page record per image are stored for the
        add-story form. Processing is over when the handler returns. */
    method CreateStory() returns (outcome: CreateOutcome)
      modifies this`processingStory, this`storedTitle, this`storedPages
      ensures old(processingStory) <==> outcome == AlreadyProcessing
      ensures outcome == AlreadyProcessing ==> processingStory
      ensures outcome != AlreadyProcessing ==> !processingStory
      ensures outcome == TitleMissing <==> !old(processingStory) && IsBlank(storyTitle)
      ensures outcome != HandedOver ==> storedTitle == old(storedTitle) && storedPages == old(storedPages)
      ensures outcome == HandedOver ==>
        storedTitle == Some(Trim(storyTitle)) && storedPages == Some(StoryPages(extractedImages))
    {
      if processingStory {
        return AlreadyProcessing;
      }
      processingStory := true;
      if Trim(storyTitle) == [] {
        BlankIffTrimEmpty(storyTitle);
        processingStory := false;
        return TitleMissing;
      }
      BlankIffTrimEmpty(storyTitle);
      storedTitle := Some(Trim(storyTitle));
      storedPages := Some(StoryPages(extractedImages));
      processingStory := false;
      outcome := HandedOver;
    }

    /** `handleStartOver`: forgets the extraction and shows the importer again. */
    method HandleStartOver()
      modifies this`extractedPages, this`extractedImages, this`storyTitle, this`showPdfImporter
      ensures extractedPages == [] && extractedImages == [] && storyTitle == "" && showPdfImporter
    {
      extractedPages, extractedImages, storyTitle, showPdfImporter := [], [], "", true;
    }
  }
}
