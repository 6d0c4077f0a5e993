/** src/pages/AddStoryPage.tsx: the form that creates a story. Its pages have no ids yet; the page
    handlers address a page by its position, and ids 1..n are given out on submit. */
module StoryDraft {
  import opened Common
  import opened Types
  import opened StoryForm
  import StoryEditor
  import Store
  import AdminPdfImport

  /** The page `handleAddPage` appends and the form starts with. */
  const BlankBody := PageBody(Some(""), None, Some(""))

  /** `splice(index, 1)` on a copy, for an index of an existing entry. */
  function Removed<T>(s: seq<T>, index: int): (r: seq<T>)
    requires 0 <= index < |s|
    ensures |r| == |s| - 1
    ensures forall j :: 0 <= j < index ==> r[j] == s[j]
    ensures forall j :: index <= j < |r| ==> r[j] == s[j + 1]
  {
    s[..index] + s[index + 1..]
  }

  /** Removing what was just inserted gives the list back. */
  lemma RemoveUndoesInsert<T>(s: seq<T>, index: int, x: T)
    requires 0 <= index <= |s|
    ensures Removed(StoryEditor.Inserted(s, index, x), index) == s
  {
    var r := Removed(StoryEditor.Inserted(s, index, x), index);
    assert |r| == |s|;
    forall j | 0 <= j < |s| ensures r[j] == s[j] {
    }
  }

  /** After a duplication, removing either the original or the copy gives the list back. */
  lemma DuplicateThenRemoveRestores(pages: seq<PageBody>, index: int)
    requires 0 <= index < |pages|
    ensures Removed(StoryEditor.Inserted(pages, index + 1, pages[index]), index + 1) == pages
    ensures Removed(StoryEditor.Inserted(pages, index + 1, pages[index]), index) == pages
  {
    RemoveUndoesInsert(pages, index + 1, pages[index]);
    var d := StoryEditor.Inserted(pages, index + 1, pages[index]);
    var r := Removed(d, index);
    assert |r| == |pages|;
    forall j | 0 <= j < |pages| ensures r[j] == pages[j] {
      if j > index {
        assert r[j] == d[j + 1] == pages[j];
      } else if j == index {
        assert r[j] == d[index + 1] == pages[index];
      }
    }
  }

  /** The active tab after removing a page stays on an existing page. */
  lemma RemoveKeepsActiveInRange(count: int, active: int, index: int)
    requires 1 < count && 0 <= active < count && 0 <= index < count
    ensures 0 <= StoryEditor.ActiveAfterRemove(active, index) < count - 1
  {
  }

  /** The active tab after removing another page still shows the page it showed. */
  lemma RemoveKeepsActivePage(pages: seq<PageBody>, active: int, index: int)
    requires 0 <= active < |pages| && 0 <= index < |pages| && active != index
    ensures Removed(pages, index)[StoryEditor.ActiveAfterRemove(active, index)] == pages[active]
  {
  }

  /** On imported pages the text plays no part: two page lists with the same images get the
      same messages from the imported form's check, whatever their texts; typed-in pages, where
      text is required, differ as soon as one of them lacks text where the other has it. */
  lemma ImportedPageTextIgnored(f: StoryFields, pages: seq<PageBody>, texts: seq<Option<string>>)
    requires |texts| == |pages|
    ensures var retexted := seq(|pages|, i requires 0 <= i < |pages| => pages[i].(textContent := texts[i]));
      && FormErrorsOf(f, retexted, false) == FormErrorsOf(f, pages, false)
      && (FormIsValid(f, retexted, false) <==> FormIsValid(f, pages, false))
    ensures forall i :: 0 <= i < |pages| && PageIsValid(pages[i], false) ==>
      FormErrorsOf(f, pages[i := pages[i].(textContent := None)], true).pages[i] == TextRequired
  {
    var retexted := seq(|pages|, i requires 0 <= i < |pages| => pages[i].(textContent := texts[i]));
    assert PageErrors(retexted, false) == PageErrors(pages, false);
    assert FormErrorsOf(f, retexted, false) == FormErrorsOf(f, pages, false);
  }

  /** The pages `handleSubmit` stores: each body with its position plus one as its id. */
  function Numbered(bodies: seq<PageBody>): (pages: seq<Page>)
    ensures |pages| == |bodies|
    ensures forall i :: 0 <= i < |bodies| ==> pages[i].id == i + 1
  {
    seq(|bodies|, i requires 0 <= i < |bodies| => WithId(bodies[i], i + 1))
  }

  /** Numbering keeps every body in its place and gives out distinct ids. */
  lemma NumberedKeepsBodies(bodies: seq<PageBody>)
    ensures StoryEditor.Bodies(Numbered(bodies)) == bodies
    ensures StoryEditor.PageIdsUnique(Numbered(bodies))
  {
    var pages := Numbered(bodies);
    assert forall i :: 0 <= i < |bodies| ==> pages[i].Body() == bodies[i];
  }

  /** A page the editor later adds to a numbered story gets the id after the last one. */
  lemma NumberedNextId(bodies: seq<PageBody>)
    ensures StoryEditor.NextPageId(Numbered(bodies)) == |bodies| + 1
  {
    var pages := Numbered(bodies);
    if bodies != [] {
      var ids := StoryEditor.PageIds(pages);
      var m := SeqMax(ids);
      assert ids[|ids| - 1] == |bodies|;
      var k :| 0 <= k < |ids| && ids[k] == m;
    }
  }

  /** The `Omit<Story, 'id'>` that `handleSubmit` hands to `addStory`; the id is given out by
      the store, so the one here is a placeholder. */
  function NewStory(f: StoryFields, bodies: seq<PageBody>): (story: Story)
    ensures story.likes == 0 && story.views == 0
    ensures story.title == f.title && story.author == f.author && story.coverImage == f.coverImage
    ensures story.description == f.description && story.category == f.category && story.tags == f.tags
    ensures story.pages == Numbered(bodies)
  {
    Story(0, f.title, f.author, f.coverImage, f.description, f.category, f.tags, 0, 0,
      Numbered(bodies))
  }

  /** The form's state. */
  class StoryDraftForm {
    var title: string
    var author: string
    var coverImage: string
    var description: string
    var category: string
    var tagInput: string
    var tags: seq<string>
    var isPdfImported: bool
    var isLoadingData: bool
    var pages: seq<PageBody>
    var formErrors: FormErrors
    var activePageIndex: int

    /** What every handler keeps: at least one page, the tab on one of them, and no more page
        messages than pages. */
    ghost predicate Valid()
      reads this
    {
      && |pages| > 0
      && 0 <= activePageIndex < |pages|
      && |formErrors.pages| <= |pages|
    }

    function Fields(): StoryFields
      reads this`title, this`author, this`coverImage, this`description, this`category, this`tags
    {
      StoryFields(title, author, coverImage, description, category, tags)
    }

    /** The initial state: empty fields, one blank page, data still loading. */
    constructor ()
      ensures Valid()
      ensures Fields() == StoryFields("", "", "", "", "", [])
      ensures tagInput == "" && pages == [BlankBody] && activePageIndex == 0
      ensures !isPdfImported && isLoadingData
      ensures formErrors == FormErrors("", "", "", "", "", "", [])
    {
      title, author, coverImage, description, category := "", "", "", "", "";
      tagInput, tags := "", [];
      isPdfImported, isLoadingData := false, true;
      pages := [BlankBody];
      formErrors := FormErrors("", "", "", "", "", "", []);
      activePageIndex := 0;
    }

    /** The loading effect: takes over the pages and the title a PDF import left behind in the
        two `localStorage` entries, which are fields of the import page's object here. The stored
        pages count only when they parse to a non-empty list (`None` stands for absent or
        unparsable), and then the story is marked as imported; an empty title is ignored. Once
        read, both entries are removed, so the next visit starts blank. It runs when the form
        first shows, on the first tab. */
    method LoadImported(handover: AdminPdfImport.AdminPdfImportPage)
      requires Valid() && activePageIndex == 0
      modifies this`pages, this`isPdfImported, this`title, this`isLoadingData, this`formErrors
      modifies handover`storedTitle, handover`storedPages
      ensures Valid()
      ensures var imported := old(handover.storedPages);
        imported.Some? && imported.value != [] ==> pages == imported.value && isPdfImported
      ensures var imported := old(handover.storedPages);
        !(imported.Some? && imported.value != []) ==> pages == old(pages) && isPdfImported == old(isPdfImported)
      ensures var stored := old(handover.storedTitle);
        title == if stored.Some? && stored.value != [] then stored.value else old(title)
      ensures formErrors == old(formErrors).(pages := StoryEditor.ErrorsForPages(old(formErrors.pages), |pages|))
      ensures !isLoadingData
      ensures var stored := old(handover.storedTitle);
        if old(handover.storedPages).Some? || (stored.Some? && stored.value != []) then
          handover.storedTitle == None && handover.storedPages == None
        else
          handover.storedTitle == stored && handover.storedPages == old(handover.storedPages)
    {
      var importedPages, importedTitle := handover.storedPages, handover.storedTitle;
      if importedPages.Some? && importedPages.value != [] {
        pages := importedPages.value;
        isPdfImported := true;
      }
      if importedTitle.Some? && importedTitle.value != [] {
        title := importedTitle.value;
      }
      if importedPages.Some? || (importedTitle.Some? && importedTitle.value != []) {
        handover.storedPages, handover.storedTitle := None, None;
      }
      formErrors := formErrors.(pages := StoryEditor.ErrorsForPages(formErrors.pages, |pages|));
      isLoadingData := false;
    }

    /** `validateForm`: page text is required only when the pages were not imported. */
    method ValidateForm() returns (isValid: bool)
      requires Valid()
      modifies this`formErrors
      ensures Valid()
      ensures formErrors == FormErrorsOf(Fields(), pages, !isPdfImported)
      ensures isValid <==> FormIsValid(Fields(), pages, !isPdfImported)
    {
      formErrors, isValid := CheckForm(Fields(), pages, !isPdfImported);
    }

    /** `handleAddTag`. */
    method AddTag()
      requires Valid()
      modifies this`tags, this`tagInput, this`formErrors
      ensures Valid()
      ensures tags == TagAdded(old(tags), old(tagInput))
      ensures tags != old(tags) ==> tagInput == "" && formErrors == old(formErrors).(tags := "")
      ensures tags == old(tags) ==> tagInput == old(tagInput) && formErrors == old(formErrors)
    {
      var tag := ToLower(Trim(tagInput));
      if Trim(tagInput) != [] && tag !in tags {
        tags := tags + [tag];
        tagInput := "";
        if formErrors.tags != [] {
          formErrors := formErrors.(tags := "");
        }
      }
    }

    /** `handleRemoveTag`. */
    method RemoveTag(tag: string)
      modifies this`tags
      ensures tags == Without(old(tags), tag)
    {
      tags := Without(tags, tag);
    }

    /** `handleAddPage`: a blank page at the end, and its tab made active. */
    method AddPage()
      requires Valid()
      modifies this`pages, this`activePageIndex
      ensures Valid()
      ensures pages == old(pages) + [BlankBody]
      ensures activePageIndex == |old(pages)|
    {
      activePageIndex := |pages|;
      pages := pages + [BlankBody];
    }

    /** `handleRemovePage`: ignored on the last remaining page; otherwise the page at the index
        goes, the tab moves back when it was at or after it, and the page messages past the new
        end are dropped. */
    method RemovePage(index: int)
      requires Valid() && 0 <= index < |pages|
      modifies this`pages, this`activePageIndex, this`formErrors
      ensures Valid()
      ensures |old(pages)| == 1 ==>
        pages == old(pages) && activePageIndex == old(activePageIndex) && formErrors == old(formErrors)
      ensures |old(pages)| > 1 ==>
        && pages == Removed(old(pages), index)
        && activePageIndex == StoryEditor.ActiveAfterRemove(old(activePageIndex), index)
        && formErrors == old(formErrors).(pages := StoryEditor.ErrorsForPages(old(formErrors.pages), |pages|))
    {
      if |pages| > 1 {
        RemoveKeepsActiveInRange(|pages|, activePageIndex, index);
        pages := Removed(pages, index);
        if activePageIndex >= index {
          activePageIndex := Max(0, activePageIndex - 1);
        }
        formErrors := formErrors.(pages := StoryEditor.ErrorsForPages(formErrors.pages, |pages|));
      }
    }

    /** `handlePageChange`: sets one field of the page at the index, and clears that page's
        message when it has one. */
    method PageChange(index: int, field: PageField, value: string)
      requires Valid() && 0 <= index < |pages|
      modifies this`pages, this`formErrors
      ensures Valid()
      ensures pages == old(pages)[index := old(pages)[index].WithField(field, value)]
      ensures if index < |old(formErrors.pages)| then formErrors == old(formErrors).(pages := old(formErrors.pages)[index := ""])
        else formErrors == old(formErrors)
    {
      pages := pages[index := pages[index].WithField(field, value)];
      if index < |formErrors.pages| && formErrors.pages[index] != [] {
        formErrors := formErrors.(pages := formErrors.pages[index := ""]);
      }
    }

    /** `handleDuplicatePage`: a copy right after the page, with its tab made active. */
    method DuplicatePage(index: int)
      requires Valid() && 0 <= index < |pages|
      modifies this`pages, this`activePageIndex
      ensures Valid()
      ensures pages == StoryEditor.Inserted(old(pages), index + 1, old(pages)[index])
      ensures activePageIndex == index + 1
    {
      pages := StoryEditor.Inserted(pages, index + 1, pages[index]);
      activePageIndex := index + 1;
    }

    /** `handleSubmit`: when the form is valid, the story is added with no likes or views and its
        pages numbered 1..n in order. */
    method Submit(store: Store.StoryStore) returns (saved: bool)
      requires Valid() && store.Valid()
      modifies this`formErrors, store`stories, store`isLoading
      ensures Valid() && store.Valid()
      ensures saved <==> FormIsValid(Fields(), pages, !isPdfImported)
      ensures saved ==>
        store.stories == old(store.stories) + [NewStory(Fields(), pages).(id := Store.NextStoryId(old(store.stories)))]
      ensures formErrors == FormErrorsOf(Fields(), pages, !isPdfImported)
      ensures saved ==> !store.isLoading
      ensures !saved ==> store.stories == old(store.stories) && store.isLoading == old(store.isLoading)
    {
      saved := ValidateForm();
      if !saved {
        return;
      }
      store.AddStory(NewStory(Fields(), pages));
    }
  }

  /** The handover from the import page to this form, end to end: extracted images and a
      non-blank title, stored by `handleCreateStory`, reach a freshly shown form as its imported
      pages and its trimmed title, and the entries are gone afterwards. */
  method ImportReachesDraft(images: seq<string>, title: string) returns (form: StoryDraftForm)
    requires images != [] && !IsBlank(title)
    ensures form.pages == AdminPdfImport.StoryPages(images) && form.isPdfImported
    ensures form.title == Trim(title)
  {
    var importPage := new AdminPdfImport.AdminPdfImportPage();
    importPage.HandlePagesExtracted([], Some(title), Some(images));
    var outcome := importPage.CreateStory();
    assert outcome == AdminPdfImport.HandedOver;
    form := new StoryDraftForm();
    form.LoadImported(importPage);
  }
}
