/** The validation rules and tag edits that the story editor (src/pages/EditStoryPage.tsx) and the
    new-story form (src/pages/AddStoryPage.tsx) share. The two files carry the same code, except
    that the new-story form does not ask for page text when the pages came from a PDF; that
    difference is the `requireText` parameter here. */
module StoryForm {
  import opened Common
  import opened Types

  /** The extensions the `validateImageUrl` pattern accepts at the very end of an address. */
  const ImageExtensions := [".jpeg", ".jpg", ".gif", ".png", ".webp"]

  /** The address shapes `validateImageUrl` accepts. */
  predicate LooksLikeImage(url: string) {
    || (exists e :: e in ImageExtensions && EndsWith(url, e))
    || StartsWith(url, "data:image/")
    || StartsWith(url, "https://images.unsplash.com/")
  }

  /** `validateImageUrl`: an empty address is refused; otherwise the address must end in one of the
      image extensions (letter case counts), or be an image data URL, or point at Unsplash. */
  function ValidateImageUrl(url: string): (ok: bool)
    ensures ok <==> url != [] && LooksLikeImage(url)
  {
    url != [] && (
      || EndsWith(url, ".jpeg") || EndsWith(url, ".jpg") || EndsWith(url, ".gif")
      || EndsWith(url, ".png") || EndsWith(url, ".webp")
      || StartsWith(url, "data:image/")
      || StartsWith(url, "https://images.unsplash.com/"))
  }

  /** Any name followed by an accepted extension is accepted. */
  lemma ExtensionMakesValid(name: string, i: int)
    requires 0 <= i < |ImageExtensions|
    ensures ValidateImageUrl(name + ImageExtensions[i])
  {
    var url := name + ImageExtensions[i];
    assert url[|url| - |ImageExtensions[i]|..] == ImageExtensions[i];
  }

  /** An address whose character `k` places into the span of `e` at its end differs from `e`'s
      does not end in `e`. */
  lemma EndMismatch(u: string, e: string, k: int)
    requires 0 <= k < |e| <= |u| && u[|u| - |e| + k] != e[k]
    ensures !EndsWith(u, e)
  {
    assert u[|u| - |e|..][k] == u[|u| - |e| + k];
  }

  /** The extension test is case-sensitive: an address ending in ".PNG" is refused unless its
      start makes it a data URL or an Unsplash address, while the same name with ".png" passes. */
  lemma UpperCaseExtensionRefused(url: string)
    requires EndsWith(url, ".PNG")
    requires !StartsWith(url, "data:image/") && !StartsWith(url, "https://images.unsplash.com/")
    ensures !ValidateImageUrl(url)
    ensures ValidateImageUrl(url[..|url| - 4] + ".png")
  {
    ExtensionMakesValid(url[..|url| - 4], 3);
    var n := |url|;
    assert url[n - 4..][1] == 'P' && url[n - 4..][3] == 'G';
    UpperCaseEnding(url, n);
  }

  lemma UpperCaseEnding(url: string, n: int)
    requires n == |url| >= 4 && url[n - 3] == 'P' && url[n - 1] == 'G'
    ensures !EndsWith(url, ".png") && !EndsWith(url, ".gif") && !EndsWith(url, ".jpg")
    ensures !EndsWith(url, ".jpeg") && !EndsWith(url, ".webp")
  {
    EndMismatch(url, ".png", 1);
    EndMismatch(url, ".gif", 3);
    EndMismatch(url, ".jpg", 3);
    if n >= 5 {
      EndMismatch(url, ".jpeg", 4);
      EndMismatch(url, ".webp", 4);
    }
  }

  /** An address the validator accepts is never blank, so the form's blank-cover check only
      changes which message is shown, not whether the cover passes. */
  lemma ValidImageUrlIsNotBlank(url: string)
    requires ValidateImageUrl(url)
    ensures !IsBlank(url)
  {
    if StartsWith(url, "data:image/") {
      PrefixNotBlank(url, "data:image/");
    } else if StartsWith(url, "https://images.unsplash.com/") {
      PrefixNotBlank(url, "https://images.unsplash.com/");
    } else if EndsWith(url, ".jpeg") {
      SuffixNotBlank(url, ".jpeg");
    } else if EndsWith(url, ".jpg") {
      SuffixNotBlank(url, ".jpg");
    } else if EndsWith(url, ".gif") {
      SuffixNotBlank(url, ".gif");
    } else if EndsWith(url, ".png") {
      SuffixNotBlank(url, ".png");
    } else {
      SuffixNotBlank(url, ".webp");
    }
  }

  lemma PrefixNotBlank(s: string, prefix: string)
    requires StartsWith(s, prefix) && prefix != [] && !IsSpace(prefix[0])
    ensures !IsBlank(s)
  {
    assert s[0] == s[..|prefix|][0];
  }

  lemma SuffixNotBlank(s: string, suffix: string)
    requires EndsWith(s, suffix) && suffix != [] && !IsSpace(suffix[0])
    ensures !IsBlank(s)
  {
    var k := |s| - |suffix|;
    assert s[k] == s[k..][0];
  }

  /** `!value` on an optional text field: absent or empty. */
  predicate Missing(field: Option<string>) {
    field.None? || field.value == []
  }

  const ImageUrlRequired := "Valid image URL is required"
  const TextRequired := "Text content is required"
  const TitleRequired := "Title is required"
  const AuthorRequired := "Author is required"
  const CoverRequired := "Cover image URL is required"
  const CoverInvalid := "Please enter a valid image URL"
  const DescriptionRequired := "Description is required"
  const CategoryRequired := "Category is required"
  const TagsRequired := "At least one tag is required"

  /** A page passes when its image address is valid and, where text is asked for, it has text. */
  predicate PageIsValid(page: PageBody, requireText: bool) {
    && page.imageUrl.Some? && ValidateImageUrl(page.imageUrl.value)
    && (requireText ==> page.textContent.Some? && page.textContent.value != [])
  }

  /** The message the page loop of `validateForm` records for one page; empty when it passes. */
  function PageError(page: PageBody, requireText: bool): (e: string)
    ensures e == [] <==> PageIsValid(page, requireText)
    ensures e == ImageUrlRequired <==> page.imageUrl.None? || !ValidateImageUrl(page.imageUrl.value)
    ensures e == TextRequired <==> PageIsValid(page, false) && !PageIsValid(page, requireText)
  {
    if Missing(page.imageUrl) || !ValidateImageUrl(page.imageUrl.value) then ImageUrlRequired
    else if requireText && Missing(page.textContent) then TextRequired
    else []
  }

  /** The story fields the form edits. */
  datatype StoryFields = StoryFields(
    title: string,
    author: string,
    coverImage: string,
    description: string,
    category: string,
    tags: seq<string>)

  /** `formErrors`: one message per field and one per page; an empty message means no error. */
  datatype FormErrors = FormErrors(
    title: string,
    author: string,
    coverImage: string,
    description: string,
    category: string,
    tags: string,
    pages: seq<string>)
  {
    predicate FieldsClear() {
      title == [] && author == [] && coverImage == [] && description == [] && category == [] && tags == []
    }

    predicate IsClear() {
      FieldsClear() && forall i :: 0 <= i < |pages| ==> pages[i] == []
    }
  }

  /** What makes a story form acceptable, stated field by field. */
  predicate FormIsValid(f: StoryFields, pages: seq<PageBody>, requireText: bool) {
    && FieldsAreValid(f)
    && forall i :: 0 <= i < |pages| ==> PageIsValid(pages[i], requireText)
  }

  /** The story fields alone pass. */
  predicate FieldsAreValid(f: StoryFields) {
    && !IsBlank(f.title) && !IsBlank(f.author) && ValidateImageUrl(f.coverImage)
    && !IsBlank(f.description) && !IsBlank(f.category) && |f.tags| > 0
  }

  /** The messages `validateForm` records for the story fields, with no page messages. */
  function FieldErrors(f: StoryFields): (e: FormErrors)
    ensures e.pages == []
    ensures e.FieldsClear() <==> FieldsAreValid(f)
  {
    assert ValidateImageUrl(f.coverImage) ==> !IsBlank(f.coverImage) by {
      if ValidateImageUrl(f.coverImage) { ValidImageUrlIsNotBlank(f.coverImage); }
    }
    FormErrors(
      if IsBlank(f.title) then TitleRequired else [],
      if IsBlank(f.author) then AuthorRequired else [],
      if IsBlank(f.coverImage) then CoverRequired else if !ValidateImageUrl(f.coverImage) then CoverInvalid else [],
      if IsBlank(f.description) then DescriptionRequired else [],
      if IsBlank(f.category) then CategoryRequired else [],
      if |f.tags| == 0 then TagsRequired else [],
      [])
  }

  /** The field checks of `validateForm`, in its order. */
  method CheckFields(f: StoryFields) returns (errors: FormErrors, isValid: bool)
    ensures errors == FieldErrors(f)
    ensures isValid <==> FieldsAreValid(f)
  {
    errors := FormErrors([], [], [], [], [], [], []);
    isValid := true;
    if IsBlank(f.title) {
      errors := errors.(title := TitleRequired);
      isValid := false;
    }
    if IsBlank(f.author) {
      errors := errors.(author := AuthorRequired);
      isValid := false;
    }
    if IsBlank(f.coverImage) {
      errors := errors.(coverImage := CoverRequired);
      isValid := false;
    } else if !ValidateImageUrl(f.coverImage) {
      errors := errors.(coverImage := CoverInvalid);
      isValid := false;
    }
    if IsBlank(f.description) {
      errors := errors.(description := DescriptionRequired);
      isValid := false;
    }
    if IsBlank(f.category) {
      errors := errors.(category := CategoryRequired);
      isValid := false;
    }
    if |f.tags| == 0 {
      errors := errors.(tags := TagsRequired);
      isValid := false;
    }
  }

  /** The page messages `validateForm` records, one per page in order. */
  function PageErrors(pages: seq<PageBody>, requireText: bool): (messages: seq<string>)
    ensures |messages| == |pages|
    ensures forall i :: 0 <= i < |pages| ==> messages[i] == PageError(pages[i], requireText)
  {
    seq(|pages|, i requires 0 <= i < |pages| => PageError(pages[i], requireText))
  }

  /** Everything `validateForm` records: no message at all exactly when the form is valid. */
  function FormErrorsOf(f: StoryFields, pages: seq<PageBody>, requireText: bool): (e: FormErrors)
    ensures e.pages == PageErrors(pages, requireText)
    ensures e.IsClear() <==> FormIsValid(f, pages, requireText)
  {
    var e := FieldErrors(f).(pages := PageErrors(pages, requireText));
    assert e.FieldsClear() <==> FieldErrors(f).FieldsClear();
    e
  }

  /** The page loop of `validateForm`: one message per page, in order, and whether all pages
      passed. */
  method CheckPages(pages: seq<PageBody>, requireText: bool) returns (messages: seq<string>, allValid: bool)
    ensures messages == PageErrors(pages, requireText)
    ensures allValid <==> forall i :: 0 <= i < |pages| ==> PageIsValid(pages[i], requireText)
  {
    messages := seq(|pages|, _ => []);
    allValid := true;
    var i := 0;
    while i < |pages|
      invariant 0 <= i <= |pages|
      invariant |messages| == |pages|
      invariant forall j :: 0 <= j < i ==> messages[j] == PageError(pages[j], requireText)
      invariant forall j :: i <= j < |pages| ==> messages[j] == []
      invariant allValid <==> forall j :: 0 <= j < i ==> PageIsValid(pages[j], requireText)
    {
      var message := PageError(pages[i], requireText);
      if message != [] {
        messages := messages[i := message];
        allValid := false;
      }
      i := i + 1;
    }
  }

  /** `validateForm`: records a message for every field and page that fails, and reports whether
      none did. */
  method CheckForm(f: StoryFields, pages: seq<PageBody>, requireText: bool) returns (errors: FormErrors, isValid: bool)
    ensures errors == FormErrorsOf(f, pages, requireText)
    ensures isValid <==> FormIsValid(f, pages, requireText)
  {
    var fieldsValid, pagesValid;
    errors, fieldsValid := CheckFields(f);
    var messages;
    messages, pagesValid := CheckPages(pages, requireText);
    errors := errors.(pages := messages);
    isValid := fieldsValid && pagesValid;
  }

  /** `handleAddTag`: the trimmed, lower-cased input is appended when it is not blank and not
      already a tag; otherwise the list is unchanged. */
  function TagAdded(tags: seq<string>, input: string): (r: seq<string>)
    ensures var tag := ToLower(Trim(input));
      && (r == tags || r == tags + [tag])
      && (r != tags <==> !IsBlank(input) && tag !in tags)
      && (forall x :: x in r ==> x in tags || (x == tag && x != []))
      && (NoDuplicates(tags) ==> NoDuplicates(r))
  {
    var tag := ToLower(Trim(input));
    if Trim(input) != [] && tag !in tags then tags + [tag] else tags
  }

  /** Adding the same input a second time changes nothing. */
  lemma AddTagTwiceIsOnce(tags: seq<string>, input: string)
    ensures TagAdded(TagAdded(tags, input), input) == TagAdded(tags, input)
  {
    var tag := ToLower(Trim(input));
    if TagAdded(tags, input) != tags {
      assert tag in TagAdded(tags, input) by { assert TagAdded(tags, input)[|tags|] == tag; }
    }
  }

  /** `handleRemoveTag` undoes `handleAddTag`: removing the tag just added restores the list. */
  lemma RemoveUndoesAdd(tags: seq<string>, input: string)
    requires TagAdded(tags, input) != tags
    ensures Without(TagAdded(tags, input), ToLower(Trim(input))) == tags
  {
    var tag := ToLower(Trim(input));
    WithoutAppend(tags, [tag], tag);
    WithoutAbsent(tags, tag);
    assert Without([tag], tag) == [];
  }

  /** `handleRemoveTag` removes every copy of the tag and keeps the list free of duplicates. */
  lemma RemoveTagRemovesIt(tags: seq<string>, tag: string)
    ensures tag !in Without(tags, tag)
    ensures NoDuplicates(tags) ==> NoDuplicates(Without(tags, tag))
  {
    if NoDuplicates(tags) {
      WithoutKeepsNoDuplicates(tags, tag);
    }
  }
}
