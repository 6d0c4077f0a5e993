/** src/pages/EditStoryPage.tsx: the editor of an existing story. Its pages carry ids; the page
    handlers address a page by id, and new pages get the next id after the largest one. */
module StoryEditor {
  import opened Common
  import opened Types
  import opened StoryForm
  import Store

  predicate PageIdsUnique(pages: seq<Page>) {
    forall i, j :: 0 <= i < j < |pages| ==> pages[i].id != pages[j].id
  }

  function PageIds(pages: seq<Page>): (ids: seq<int>)
    ensures |ids| == |pages| && forall i :: 0 <= i < |pages| ==> ids[i] == pages[i].id
  {
    seq(|pages|, i requires 0 <= i < |pages| => pages[i].id)
  }

  function Bodies(pages: seq<Page>): (bodies: seq<PageBody>)
    ensures |bodies| == |pages| && forall i :: 0 <= i < |pages| ==> bodies[i] == pages[i].Body()
  {
    seq(|pages|, i requires 0 <= i < |pages| => pages[i].Body())
  }

  /** The id a new page gets: one more than the largest id, or 1 when there are no pages. */
  function NextPageId(pages: seq<Page>): (id: int)
    ensures forall i :: 0 <= i < |pages| ==> pages[i].id < id
    ensures pages == [] ==> id == 1
  {
    if pages == [] then 1 else SeqMax(PageIds(pages)) + 1
  }

  /** The new id follows the largest id in use. */
  lemma NextPageIdIsTight(pages: seq<Page>)
    requires pages != []
    ensures exists i :: 0 <= i < |pages| && pages[i].id == NextPageId(pages) - 1
  {
    var ids := PageIds(pages);
    var m := SeqMax(ids);
    var i :| 0 <= i < |ids| && ids[i] == m;
    assert pages[i].id == m;
  }

  /** `pages.findIndex(page => page.id === pageId)`: the first position holding the id, or -1. */
  function PageIndex(pages: seq<Page>, id: int): (i: int)
    ensures -1 <= i < |pages|
    ensures i == -1 <==> forall j :: 0 <= j < |pages| ==> pages[j].id != id
    ensures i >= 0 ==> pages[i].id == id && forall j :: 0 <= j < i ==> pages[j].id != id
  {
    if pages == [] then -1
    else if pages[0].id == id then 0
    else
      var r := PageIndex(pages[1..], id);
      if r == -1 then -1 else r + 1
  }

  /** `pages.filter(page => page.id !== pageId)`. */
  function PagesWithout(pages: seq<Page>, id: int): (r: seq<Page>)
    ensures |r| <= |pages|
    ensures forall i :: 0 <= i < |r| ==> r[i].id != id
  {
    if pages == [] then []
    else if pages[0].id == id then PagesWithout(pages[1..], id)
    else [pages[0]] + PagesWithout(pages[1..], id)
  }

  /** What survives the filter: exactly the pages with another id, and nothing else. */
  lemma {:induction false} PagesWithoutKeepsOthers(pages: seq<Page>, id: int)
    ensures forall i :: 0 <= i < |PagesWithout(pages, id)| ==> PagesWithout(pages, id)[i] in pages
    ensures forall i :: 0 <= i < |pages| && pages[i].id != id ==> pages[i] in PagesWithout(pages, id)
  {
    if pages != [] {
      PagesWithoutKeepsOthers(pages[1..], id);
      forall i | 0 <= i < |pages| && pages[i].id != id
        ensures pages[i] in PagesWithout(pages, id)
      {
        if i > 0 { assert pages[i] == pages[1..][i - 1]; }
      }
    }
  }

  /** `pages.map(page => page.id === pageId ? { ...page, [field]: value } : page)`. */
  function PagesEdited(pages: seq<Page>, id: int, field: PageField, value: string): (r: seq<Page>)
    ensures PageIds(r) == PageIds(pages)
    ensures forall i :: 0 <= i < |r| && pages[i].id == id ==> r[i].Body().Get(field) == Some(value)
    ensures forall i, f :: 0 <= i < |r| && (pages[i].id != id || f != field) ==>
      r[i].Body().Get(f) == pages[i].Body().Get(f)
  {
    seq(|pages|, i requires 0 <= i < |pages| =>
      if pages[i].id == id then WithId(pages[i].Body().WithField(field, value), id) else pages[i])
  }

  /** `splice(i, 0, x)` on a copy: `x` placed before position `i`. */
  function Inserted<T>(s: seq<T>, i: int, x: T): (r: seq<T>)
    requires 0 <= i <= |s|
    ensures |r| == |s| + 1 && r[i] == x
    ensures forall j :: 0 <= j < i ==> r[j] == s[j]
    ensures forall j :: i < j < |r| ==> r[j] == s[j - 1]
  {
    s[..i] + [x] + s[i..]
  }

  /** The blank page `handleAddPage` appends. */
  function BlankPage(id: int): Page {
    Page(id, Some(""), None, Some(""))
  }

  /** `handleAddPage`: a blank page with a fresh id at the end. */
  function PageAdded(pages: seq<Page>): (r: seq<Page>)
    ensures |r| == |pages| + 1 && r[..|pages|] == pages
    ensures r[|pages|].Body() == BlankPage(0).Body()
    ensures forall j :: 0 <= j < |pages| ==> pages[j].id < r[|pages|].id
  {
    pages + [BlankPage(NextPageId(pages))]
  }

  /** `handleDuplicatePage`: a copy of the page, under a fresh id, right after it; an unknown id
      changes nothing. */
  function Duplicated(pages: seq<Page>, id: int): (r: seq<Page>)
    ensures PageIndex(pages, id) == -1 ==> r == pages
    ensures PageIndex(pages, id) >= 0 ==> |r| == |pages| + 1
  {
    var i := PageIndex(pages, id);
    if i == -1 then pages else Inserted(pages, i + 1, pages[i].(id := NextPageId(pages)))
  }

  /** The copy sits right after the original, with the original's content and an id no page had;
      every other page keeps its position relative to it. */
  lemma DuplicatePlacesCopy(pages: seq<Page>, id: int)
    requires PageIndex(pages, id) >= 0
    ensures var i := PageIndex(pages, id);
      var r := Duplicated(pages, id);
      && r[..i + 1] == pages[..i + 1] && r[i + 2..] == pages[i + 1..]
      && r[i + 1].Body() == pages[i].Body()
      && forall j :: 0 <= j < |pages| ==> pages[j].id != r[i + 1].id
  {
    var i := PageIndex(pages, id);
    var r := Duplicated(pages, id);
    assert r[..i + 1] == pages[..i + 1];
    assert r[i + 2..] == pages[i + 1..];
  }

  /** `handleRemovePage`'s tab adjustment: a tab at or after the removed position moves back one,
      but not below the first. */
  function ActiveAfterRemove(active: int, removedIndex: int): int {
    if active >= removedIndex then Max(0, active - 1) else active
  }

  /** Filtering out an id that no page carries changes nothing. */
  lemma PagesWithoutAbsent(pages: seq<Page>, id: int)
    requires forall j :: 0 <= j < |pages| ==> pages[j].id != id
    ensures PagesWithout(pages, id) == pages
  {
  }

  lemma {:induction false} PagesWithoutAppend(a: seq<Page>, b: seq<Page>, id: int)
    ensures PagesWithout(a + b, id) == PagesWithout(a, id) + PagesWithout(b, id)
  {
    if a == [] {
      assert a + b == b;
    } else {
      assert (a + b)[1..] == a[1..] + b;
      PagesWithoutAppend(a[1..], b, id);
    }
  }

  /** With unique ids, removing an id removes exactly the page found at its index. */
  lemma RemoveIsSplice(pages: seq<Page>, id: int)
    requires PageIdsUnique(pages) && PageIndex(pages, id) >= 0
    ensures var i := PageIndex(pages, id);
      PagesWithout(pages, id) == pages[..i] + pages[i + 1..]
  {
    var i := PageIndex(pages, id);
    var before, after := pages[..i], pages[i + 1..];
    assert pages == before + [pages[i]] + after;
    forall j | 0 <= j < |after| ensures after[j].id != id {
      assert after[j] == pages[i + 1 + j];
    }
    PagesWithoutAbsent(before, id);
    PagesWithoutAbsent(after, id);
    assert PagesWithout([pages[i]], id) == [];
    var upTo := before + [pages[i]];
    assert PagesWithout(upTo, id) == before by {
      PagesWithoutAppend(before, [pages[i]], id);
      assert before + [] == before;
    }
    PagesWithoutAppend(upTo, after, id);
  }

  /** Removing a page keeps the ids unique. */
  lemma RemoveKeepsIdsUnique(pages: seq<Page>, id: int)
    requires PageIdsUnique(pages)
    ensures PageIdsUnique(PagesWithout(pages, id))
  {
    if PageIndex(pages, id) >= 0 {
      RemoveIsSplice(pages, id);
      var i := PageIndex(pages, id);
      var r := pages[..i] + pages[i + 1..];
      forall a, b | 0 <= a < b < |r| ensures r[a].id != r[b].id {
        var a' := if a < i then a else a + 1;
        var b' := if b < i then b else b + 1;
        assert r[a] == pages[a'] && r[b] == pages[b'];
      }
    } else {
      PagesWithoutAbsent(pages, id);
    }
  }

  /** The tab stays on an existing page after a removal, and when the removed page was before it,
      the tab shows the same page as before. */
  lemma RemoveKeepsActivePage(pages: seq<Page>, id: int, active: int)
    requires PageIdsUnique(pages) && |pages| > 1 && 0 <= active < |pages|
    ensures var r := PagesWithout(pages, id);
      var next := ActiveAfterRemove(active, PageIndex(pages, id));
      && 0 <= next < |r|
      && (0 <= PageIndex(pages, id) < active ==> r[next] == pages[active])
      && (PageIndex(pages, id) > active ==> r[next] == pages[active])
  {
    var i := PageIndex(pages, id);
    if i == -1 {
      PagesWithoutAbsent(pages, id);
    } else {
      RemoveIsSplice(pages, id);
      SpliceKeepsActivePage(pages, i, active);
    }
  }

  lemma SpliceKeepsActivePage(pages: seq<Page>, i: int, active: int)
    requires 0 <= i < |pages| && |pages| > 1 && 0 <= active < |pages|
    ensures var r := pages[..i] + pages[i + 1..];
      var next := ActiveAfterRemove(active, i);
      && 0 <= next < |r|
      && (i < active ==> r[next] == pages[active])
      && (i > active ==> r[next] == pages[active])
  {
    var r := pages[..i] + pages[i + 1..];
    if i < active {
      assert r[active - 1] == pages[i + 1..][active - 1 - i] == pages[active];
    } else if i > active {
      assert r[active] == pages[..i][active] == pages[active];
    }
  }

  /** Inserting a page whose id no page has keeps the ids unique. */
  lemma InsertFreshKeepsIdsUnique(pages: seq<Page>, k: int, p: Page)
    requires PageIdsUnique(pages) && 0 <= k <= |pages|
    requires forall j :: 0 <= j < |pages| ==> pages[j].id != p.id
    ensures PageIdsUnique(Inserted(pages, k, p))
  {
    var r := Inserted(pages, k, p);
    forall a, b | 0 <= a < b < |r| ensures r[a].id != r[b].id {
      if a == k {
        assert r[b] == pages[b - 1];
      } else if b == k {
        assert r[a] == pages[a];
      } else {
        var a' := if a < k then a else a - 1;
        var b' := if b < k then b else b - 1;
        assert r[a] == pages[a'] && r[b] == pages[b'];
      }
    }
  }

  /** Filtering out the id of a page inserted under a fresh id removes just that page. */
  lemma RemoveInsertedFresh(pages: seq<Page>, k: int, p: Page)
    requires 0 <= k <= |pages|
    requires forall j :: 0 <= j < |pages| ==> pages[j].id != p.id
    ensures PagesWithout(Inserted(pages, k, p), p.id) == pages
  {
    var before, after := pages[..k], pages[k..];
    assert Inserted(pages, k, p) == before + [p] + after;
    forall j | 0 <= j < |after| ensures after[j].id != p.id {
      assert after[j] == pages[k + j];
    }
    PagesWithoutAbsent(before, p.id);
    PagesWithoutAbsent(after, p.id);
    assert PagesWithout([p], p.id) == [];
    var upTo := before + [p];
    assert PagesWithout(upTo, p.id) == before by {
      PagesWithoutAppend(before, [p], p.id);
      assert before + [] == before;
    }
    PagesWithoutAppend(upTo, after, p.id);
    assert before + after == pages;
  }

  /** Adding a page keeps the ids unique, and removing the page just added gives the old list
      back. */
  lemma AddThenRemoveRestores(pages: seq<Page>)
    ensures PageIdsUnique(pages) ==> PageIdsUnique(PageAdded(pages))
    ensures PagesWithout(PageAdded(pages), NextPageId(pages)) == pages
  {
    var p := BlankPage(NextPageId(pages));
    assert PageAdded(pages) == Inserted(pages, |pages|, p);
    if PageIdsUnique(pages) {
      InsertFreshKeepsIdsUnique(pages, |pages|, p);
    }
    RemoveInsertedFresh(pages, |pages|, p);
  }

  /** Duplicating keeps the ids unique, and removing the copy gives the old list back. */
  lemma DuplicateThenRemoveRestores(pages: seq<Page>, id: int)
    ensures PageIdsUnique(pages) ==> PageIdsUnique(Duplicated(pages, id))
    ensures PageIndex(pages, id) >= 0 ==> PagesWithout(Duplicated(pages, id), NextPageId(pages)) == pages
  {
    var i := PageIndex(pages, id);
    if i >= 0 {
      var p := pages[i].(id := NextPageId(pages));
      if PageIdsUnique(pages) {
        InsertFreshKeepsIdsUnique(pages, i + 1, p);
      }
      RemoveInsertedFresh(pages, i + 1, p);
    }
  }

  /** Editing a field twice with the same value is editing it once, and an edit keeps the ids. */
  lemma EditIsIdempotent(pages: seq<Page>, id: int, field: PageField, value: string)
    ensures PagesEdited(PagesEdited(pages, id, field, value), id, field, value) == PagesEdited(pages, id, field, value)
    ensures PageIdsUnique(pages) ==> PageIdsUnique(PagesEdited(pages, id, field, value))
  {
    var once := PagesEdited(pages, id, field, value);
    assert PageIds(once) == PageIds(pages);
    forall i | 0 <= i < |once| ensures once[i].id == pages[i].id {
      assert PageIds(once)[i] == PageIds(pages)[i];
    }
  }

  /** `errors.pages` after the page-count effect: entries past the last page are dropped. */
  function ErrorsForPages(messages: seq<string>, pageCount: nat): (r: seq<string>)
    ensures |r| == Min(|messages|, pageCount) && r == messages[..|r|]
  {
    if |messages| <= pageCount then messages else messages[..pageCount]
  }

  /** The editor's state. */
  class StoryEditor {
    var title: string
    var author: string
    var coverImage: string
    var description: string
    var category: string
    var tagInput: string
    var tags: seq<string>
    var pages: seq<Page>
    var isFormLoading: bool
    var formErrors: FormErrors
    var activePageIndex: int
    var storyModified: bool

    /** What every handler keeps: a non-negative tab and no more page messages than pages. */
    ghost predicate Valid()
      reads this
    {
      0 <= activePageIndex && |formErrors.pages| <= |pages|
    }

    /** What the page handlers keep on a story whose page ids are unique: the ids stay unique and
        the tab stays on an existing page. */
    ghost predicate PagesWellFormed()
      reads this
    {
      PageIdsUnique(pages) && (|pages| > 0 ==> activePageIndex < |pages|)
    }

    function Fields(): StoryFields
      reads this`title, this`author, this`coverImage, this`description, this`category, this`tags
    {
      StoryFields(title, author, coverImage, description, category, tags)
    }

    constructor ()
      ensures Valid() && PagesWellFormed()
      ensures Fields() == StoryFields("", "", "", "", "", [])
      ensures tagInput == "" && pages == [] && isFormLoading && activePageIndex == 0 && !storyModified
      ensures formErrors == FormErrors("", "", "", "", "", "", [])
    {
      title, author, coverImage, description, category := "", "", "", "", "";
      tagInput, tags, pages := "", [], [];
      isFormLoading := true;
      formErrors := FormErrors("", "", "", "", "", "", []);
      activePageIndex, storyModified := 0, false;
    }

    /** The loading effect: fills the form from the stored story, or asks to go back to the
        dashboard when there is none. It runs when the editor first shows, on the first tab. */
    method Load(store: Store.StoryStore, storyId: int) returns (redirect: bool)
      requires Valid() && activePageIndex == 0
      modifies this`title, this`author, this`coverImage, this`description, this`category
      modifies this`tags, this`pages, this`isFormLoading, this`formErrors
      ensures Valid()
      ensures redirect <==> store.GetStoryById(storyId).None?
      ensures !redirect ==>
        var story := store.GetStoryById(storyId).value;
        && Fields() == StoryFields(story.title, story.author, story.coverImage, story.description, story.category, story.tags)
        && pages == story.pages
        && (PageIdsUnique(story.pages) ==> PagesWellFormed())
      ensures !redirect ==> formErrors == old(formErrors).(pages := ErrorsForPages(old(formErrors.pages), |pages|))
      ensures redirect ==> Fields() == old(Fields()) && pages == old(pages) && formErrors == old(formErrors)
      ensures !isFormLoading
    {
      var found := store.GetStoryById(storyId);
      redirect := found.None?;
      if found.Some? {
        Fill(found.value);
      }
      isFormLoading := false;
    }

    /** The fields the loading effect copies from a stored story; the page messages follow the
        new page count. */
    method Fill(story: Story)
      requires Valid() && activePageIndex == 0
      modifies this`title, this`author, this`coverImage, this`description, this`category
      modifies this`tags, this`pages, this`formErrors
      ensures Valid()
      ensures Fields() == StoryFields(story.title, story.author, story.coverImage, story.description, story.category, story.tags)
      ensures pages == story.pages
      ensures formErrors == old(formErrors).(pages := ErrorsForPages(old(formErrors.pages), |story.pages|))
      ensures PageIdsUnique(story.pages) ==> PagesWellFormed()
    {
      title, author, coverImage := story.title, story.author, story.coverImage;
      description, category := story.description, story.category;
      tags, pages := story.tags, story.pages;
      formErrors := formErrors.(pages := ErrorsForPages(formErrors.pages, |pages|));
    }

    /** `validateForm`, with every page's text required. */
    method ValidateForm() returns (isValid: bool)
      requires Valid()
      modifies this`formErrors
      ensures Valid()
      ensures formErrors == FormErrorsOf(Fields(), Bodies(pages), true)
      ensures isValid <==> FormIsValid(Fields(), Bodies(pages), true)
    {
      formErrors, isValid := CheckForm(Fields(), Bodies(pages), true);
    }

    /** `handleAddTag`. */
    method AddTag()
      requires Valid()
      modifies this`tags, this`tagInput, this`storyModified, this`formErrors
      ensures Valid()
      ensures tags == TagAdded(old(tags), old(tagInput))
      ensures tags != old(tags) ==> tagInput == "" && storyModified && formErrors == old(formErrors).(tags := "")
      ensures tags == old(tags) ==>
        tagInput == old(tagInput) && storyModified == old(storyModified) && formErrors == old(formErrors)
    {
      var tag := ToLower(Trim(tagInput));
      if Trim(tagInput) != [] && tag !in tags {
        tags := tags + [tag];
        tagInput := "";
        storyModified := true;
        if formErrors.tags != [] {
          formErrors := formErrors.(tags := "");
        }
      }
    }

    /** `handleRemoveTag`. */
    method RemoveTag(tag: string)
      modifies this`tags, this`storyModified
      ensures tags == Without(old(tags), tag) && storyModified
    {
      tags := Without(tags, tag);
      storyModified := true;
    }

    /** `handleAddPage`: a blank page with a fresh id at the end, and its tab made active. */
    method AddPage()
      requires Valid()
      modifies this`pages, this`activePageIndex, this`storyModified
      ensures Valid()
      ensures pages == PageAdded(old(pages))
      ensures activePageIndex == |old(pages)| && storyModified
      ensures old(PagesWellFormed()) ==> PagesWellFormed()
    {
      AddThenRemoveRestores(pages);
      var count := |pages|;
      var maxId := if |pages| > 0 then SeqMax(PageIds(pages)) else 0;
      pages := pages + [BlankPage(maxId + 1)];
      activePageIndex := count;
      storyModified := true;
    }

    /** `handleRemovePage`: ignored on the last remaining page; otherwise every page with the id
        is dropped and the tab moves back when it was at or after the removed position. */
    method RemovePage(pageId: int)
      requires Valid()
      modifies this`pages, this`activePageIndex, this`storyModified, this`formErrors
      ensures Valid()
      ensures |old(pages)| <= 1 ==>
        pages == old(pages) && activePageIndex == old(activePageIndex)
        && storyModified == old(storyModified) && formErrors == old(formErrors)
      ensures |old(pages)| > 1 ==>
        && pages == PagesWithout(old(pages), pageId)
        && activePageIndex == ActiveAfterRemove(old(activePageIndex), PageIndex(old(pages), pageId))
        && storyModified
        && formErrors == old(formErrors).(pages := ErrorsForPages(old(formErrors.pages), |pages|))
      ensures old(PagesWellFormed()) ==> PagesWellFormed()
    {
      if |pages| > 1 {
        var pageIndex := PageIndex(pages, pageId);
        if PageIdsUnique(pages) && activePageIndex < |pages| {
          RemoveKeepsActivePage(pages, pageId, activePageIndex);
          RemoveKeepsIdsUnique(pages, pageId);
        }
        pages := PagesWithout(pages, pageId);
        if activePageIndex >= pageIndex {
          activePageIndex := Max(0, activePageIndex - 1);
        }
        storyModified := true;
        formErrors := formErrors.(pages := ErrorsForPages(formErrors.pages, |pages|));
      }
    }

    /** `handlePageChange`: sets one field of the page with the id, and clears that page's
        message when it has one. */
    method PageChange(pageId: int, field: PageField, value: string)
      requires Valid()
      modifies this`pages, this`storyModified, this`formErrors
      ensures Valid()
      ensures pages == PagesEdited(old(pages), pageId, field, value) && storyModified
      ensures var i := PageIndex(old(pages), pageId);
        if 0 <= i < |old(formErrors.pages)| then formErrors == old(formErrors).(pages := old(formErrors.pages)[i := ""])
        else formErrors == old(formErrors)
      ensures old(PagesWellFormed()) ==> PagesWellFormed()
    {
      var pageIndex := PageIndex(pages, pageId);
      EditIsIdempotent(pages, pageId, field, value);
      pages := PagesEdited(pages, pageId, field, value);
      storyModified := true;
      if 0 <= pageIndex < |formErrors.pages| && formErrors.pages[pageIndex] != [] {
        formErrors := formErrors.(pages := formErrors.pages[pageIndex := ""]);
      }
    }

    /** `handleDuplicatePage`: a copy right after the page, under a fresh id, with its tab made
        active; an unknown id changes nothing. */
    method DuplicatePage(pageId: int)
      requires Valid()
      modifies this`pages, this`activePageIndex, this`storyModified
      ensures Valid()
      ensures pages == Duplicated(old(pages), pageId)
      ensures PageIndex(old(pages), pageId) == -1 ==>
        activePageIndex == old(activePageIndex) && storyModified == old(storyModified)
      ensures PageIndex(old(pages), pageId) >= 0 ==>
        activePageIndex == PageIndex(old(pages), pageId) + 1 && storyModified
      ensures old(PagesWellFormed()) ==> PagesWellFormed()
    {
      var pageIndex := PageIndex(pages, pageId);
      if pageIndex == -1 {
        return;
      }
      DuplicateThenRemoveRestores(pages, pageId);
      var newId := SeqMax(PageIds(pages)) + 1;
      assert newId == NextPageId(pages);
      var newPage := pages[pageIndex].(id := newId);
      PlaceCopy(pageIndex, newPage);
    }

    /** The last steps of `handleDuplicatePage`: the copy goes right after the page at `index`
        and its tab becomes active. */
    method PlaceCopy(index: int, copy: Page)
      requires Valid() && 0 <= index < |pages|
      modifies this`pages, this`activePageIndex, this`storyModified
      ensures Valid()
      ensures pages == Inserted(old(pages), index + 1, copy)
      ensures activePageIndex == index + 1 && storyModified
    {
      pages := Inserted(pages, index + 1, copy);
      activePageIndex := index + 1;
      storyModified := true;
    }

    /** `handleSubmit`: nothing without a story id; otherwise, when the form is valid, the
        story's fields and pages are written to the store under that id. */
    method Submit(store: Store.StoryStore, storyId: Option<int>) returns (saved: bool)
      requires Valid() && store.Valid()
      modifies this`formErrors, store`stories, store`isLoading
      ensures Valid() && store.Valid()
      ensures saved <==> storyId.Some? && FormIsValid(Fields(), Bodies(pages), true)
      ensures storyId.Some? ==> formErrors == FormErrorsOf(Fields(), Bodies(pages), true)
      ensures storyId.None? ==> formErrors == old(formErrors)
      ensures saved ==> store.stories == Store.Updated(old(store.stories), storyId.value, PatchOf(Fields(), pages))
      ensures saved ==> !store.isLoading
      ensures !saved ==> store.stories == old(store.stories) && store.isLoading == old(store.isLoading)
    {
      if storyId.None? {
        return false;
      }
      saved := ValidateForm();
      if !saved {
        return;
      }
      store.UpdateStory(storyId.value, PatchOf(Fields(), pages));
    }
  }

  /** The `Partial<Story>` the editor submits: every edited field and the pages; likes and views
      are left as stored. */
  function PatchOf(f: StoryFields, pages: seq<Page>): (patch: Store.StoryPatch)
    ensures forall story :: Store.Merge(story, patch) == story.(title := f.title, author := f.author,
      coverImage := f.coverImage, description := f.description, category := f.category, tags := f.tags,
      pages := pages)
  {
    Store.StoryPatch(Some(f.title), Some(f.author), Some(f.coverImage), Some(f.description),
      Some(f.category), Some(f.tags), None, None, Some(pages))
  }
}
