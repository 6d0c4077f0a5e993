# Flipbook viewer: a verified model of its book, editing and import rules

The flipbook viewer is a React application that shows illustrated stories as page-turning books.
Signed-in administrators can write stories page by page or import them from PDF files. This
project models the rules that sit underneath the user interface and proves what they guarantee:

- **Spread resolver and gestures** (`FlipbookViewer`, from `src/components/FlipbookViewer.tsx`).
  - Which page or pair of pages a spread shows, and its "p/N" or "a-b/N" label.
  - When the single-page layout is used.
  - How drags, mouse pans and swipes either request a page turn or snap back.
- **Reading session** (`FlipbookLayout`, from `src/components/FlipbookLayout.tsx`).
  - Clamped navigation and the sorted, duplicate-free bookmark list.
  - The wrapping auto-flip tick and the settings toggles.
  - The keyboard shortcut table and the arrow buttons' `disabled` rules.
- **Page batching** (`PdfBatching`, from `src/lib/pdfImporter.ts`).
  - `combinePageImages` keeps the first image of each batch.
  - `getDefaultPageImages` cycles through six stock photographs.
- **Stores** (`Store`, from `src/lib/store.ts`).
  - The mock sign-in check and sign-out.
  - The story list's id generation, update, delete and lookup, which keep ids unique.
- **Story forms** (`StoryForm`, `StoryEditor` and `StoryDraft`, from `src/pages/EditStoryPage.tsx`
  and `src/pages/AddStoryPage.tsx`).
  - The image-address and form validators, and the tag handlers.
  - The page handlers (add, remove, duplicate, edit) with the active-tab adjustment.
  - Fresh page ids, and the ids assigned on submit.
- **Sign-in page** (`LoginPage`, from `src/pages/LoginPage.tsx`).
  - The field checks and the error clearing on input.
  - Where a signed-in user is sent.
- **PDF import** (`PdfImporter` and `AdminPdfImport`, from `src/components/PdfImporter.tsx` and
  `src/pages/AdminPdfImportPage.tsx`).
  - The file-size limit and the title derived from a file name.
  - The pages-per-page field and the placeholder page texts.
  - Reuse of a preview, and the page records handed to the story form.

`Common` holds the JavaScript string and number behaviour the app relies on: `trim`,
`toLowerCase`, `parseInt`, `${n}`, `filter` and `Math.max`. `Types` holds the records of
`src/types/index.ts`.

Components whose methods update state in place are classes, and their handlers are methods.
Each handler's contract gives its new state in terms of the old one. The pure rules are functions. The lemmas relate
operations to each other: inverses, preserved invariants and round trips.

The viewport width test is a boolean parameter `narrow`. Page numbers in the viewer are 1-based
ordinals. Zoom levels are exact reals. File sizes are byte counts.

## Model

| member | source | states |
|---|---|---|
| Types.PageBody.WithField | src/pages/EditStoryPage.tsx:198-201 | `{ ...page, [field]: value }` sets that field and leaves the other two as they were |
| Types.WithId | src/pages/AddStoryPage.tsx:237-240 | a page built from a body and an id has exactly that id and body |
| Common.Trim | src/lib/store.ts:106 | `trim()` is empty exactly when every character is ECMAScript white space |
| Common.TrimStart | src/lib/store.ts:106 | the result is a suffix of the input, all dropped characters are spaces, and it does not start with one |
| Common.TrimEnd | src/lib/store.ts:106 | the result is a prefix of the input, all dropped characters are spaces, and it does not end with one |
| Common.BlankIffTrimEmpty | src/pages/LoginPage.tsx:52 | `!s.trim()` holds exactly when the string is blank |
| Common.ToLower | src/lib/store.ts:106 | `toLowerCase` keeps the length |
| Common.Utf16Length | src/pages/LoginPage.tsx:58 | `length` counts one or two UTF-16 units per character, and equals the character count exactly when no character lies outside the Basic Multilingual Plane |
| Common.Utf16LengthAppend | src/pages/LoginPage.tsx:58 | the length of a concatenation is the sum of the lengths |
| Common.AppendKeepsPrefix | src/pages/EditStoryPage.tsx:86 | `startsWith` survives appending |
| Common.NatToString | src/components/PdfImporter.tsx:121 | `${n}` is a non-empty run of decimal digits |
| Common.DigitsValueOfNatToString | src/components/PdfImporter.tsx:121 | reading back the digits of `${n}` gives `n` |
| Common.NatToStringInjective | src/components/PdfImporter.tsx:121 | different numbers render differently |
| Common.DigitPrefix | src/components/PdfImporter.tsx:239 | the longest leading run of digits, stopping at the first non-digit |
| Common.DigitPrefixOfDigits | src/components/PdfImporter.tsx:239 | the digit prefix of digits followed by a non-digit is exactly those digits |
| Common.ParseInt | src/components/PdfImporter.tsx:239 | `parseInt` yields a number only when some digits were read, and the number is their value or its negation |
| Common.ParseIntOfNatToString | src/components/PdfImporter.tsx:239 | `parseInt` reads a rendered number `n` back as `n` |
| Common.ParseIntOfNegated | src/components/PdfImporter.tsx:239 | `parseInt` reads a minus sign followed by a rendered `n` as `-n` |
| Common.DashesToSpaces | src/components/PdfImporter.tsx:49 | `replace(/[-_]/g, " ")` keeps the length, leaves no dash or underscore, and keeps every other character |
| Common.SeqMax | src/pages/EditStoryPage.tsx:177 | `Math.max(...xs)` is an element of the list and bounds all of them |
| Common.Without | src/pages/EditStoryPage.tsx:164 | `filter(y => y !== x)` keeps exactly the elements other than `x` |
| Common.WithoutAbsent | src/pages/EditStoryPage.tsx:164 | filtering out a value that does not occur changes nothing |
| Common.WithoutAppend | src/lib/store.ts:231 | filtering distributes over concatenation, so order is kept |
| Common.WithoutKeepsNoDuplicates | src/pages/EditStoryPage.tsx:164 | filtering keeps a duplicate-free list duplicate-free |
| Store.CheckCredentials | src/lib/store.ts:106-137 | the regular account signs in exactly for user name "user" (trimmed, lower-cased) with password "password", the administrator exactly for "admin"/"admin123", and nobody otherwise |
| Store.PasswordIsCaseSensitive | src/lib/store.ts:106-118 | a capitalised password is refused for every user name |
| Store.UserNameIgnoresCaseAndSpaces | src/lib/store.ts:106-118 | user names equal after trim and lower-casing sign in alike |
| Store.AuthStore.constructor | src/lib/store.ts:94-97 | nobody is signed in, nothing is loading, there is no error |
| Store.AuthStore.Login | src/lib/store.ts:98-147 | the user becomes the account the credentials match; `isAuthenticated` holds exactly when there is one; a failure records "Invalid username or password" |
| Store.AuthStore.Logout | src/lib/store.ts:148-154 | user, signed-in flag and error are all cleared |
| Store.MaxId | src/lib/store.ts:194 | `Math.max(0, ...ids)` bounds every id and is 0 or one of them |
| Store.NextStoryId | src/lib/store.ts:194 | the new id exceeds every id in use and follows the largest one |
| Store.MergeProperties | src/lib/store.ts:216 | a merge keeps the id, is idempotent, and an empty patch changes nothing |
| Store.Merge | src/lib/store.ts:216 | `{ ...story, ...storyData }`: its properties are stated by `MergeProperties` and `PatchOf` |
| Store.Updated | src/lib/store.ts:214-219 | the list keeps its length and ids; stories with the id are merged, all others unchanged |
| Store.WithoutId | src/lib/store.ts:230-233 | no story with the id survives, and every other story does |
| Store.WithoutIdKeepsOrder | src/lib/store.ts:230-233 | the survivors keep their order |
| Store.FindById | src/lib/store.ts:238-240 | nothing exactly when no story has the id; otherwise the first story holding it |
| Store.FindUnique | src/lib/store.ts:238-240 | with unique ids, looking up a story's id finds that story |
| Store.FindAfterUpdate | src/lib/store.ts:214-219 | after an update the id finds the merged story and other ids find what they found before |
| Store.FindUpdatedId | src/lib/store.ts:214-219 | after an update the id finds the merged story, or nothing when it was absent |
| Store.FindOtherAfterUpdate | src/lib/store.ts:214-219 | an update does not change what other ids find |
| Store.FindAfterDelete | src/lib/store.ts:230-233 | after a delete the id finds nothing and other ids find what they found before |
| Store.FindAfterAdd | src/lib/store.ts:194-203 | a newly added story is found under its new id |
| Store.StoryStore.constructor | src/lib/store.ts:178-180 | the list starts empty, with no error |
| Store.StoryStore.AddStory | src/lib/store.ts:190-207 | the story is appended under the next id and the ids stay unique |
| Store.StoryStore.UpdateStory | src/lib/store.ts:208-223 | the list becomes its update by id and the ids stay unique |
| Store.StoryStore.DeleteStory | src/lib/store.ts:224-237 | the list becomes its filter by id and the ids stay unique |
| Store.StoryStore.GetStoryById | src/lib/store.ts:238-240 | a story in the list with that id, or nothing when no story has it |
| Store.DeletePreservesUniqueIds | src/lib/store.ts:230-233 | deleting keeps ids unique |
| StoryForm.ValidateImageUrl | src/pages/EditStoryPage.tsx:84-87 | an address passes exactly when it is non-empty and ends in a listed extension or starts with one of the two accepted prefixes |
| StoryForm.ExtensionMakesValid | src/pages/EditStoryPage.tsx:84-87 | any name followed by an accepted extension passes |
| StoryForm.UpperCaseExtensionRefused | src/pages/AddStoryPage.tsx:93-96 | any address ending in ".PNG" that is neither a data URL nor an Unsplash address is refused, and the same name with ".png" passes |
| StoryForm.ValidImageUrlIsNotBlank | src/pages/EditStoryPage.tsx:112-118 | an address that passes is never blank, so the cover's two checks never both report |
| StoryForm.PageIsValid | src/pages/EditStoryPage.tsx:136-144 | a page passes with a valid image address and, when text is required, some text; `PageError` is empty exactly then |
| StoryForm.PageError | src/pages/EditStoryPage.tsx:136-144 | a page's message is empty exactly when the page passes; it names the image first and the text only for a good image |
| StoryForm.FieldErrors | src/pages/EditStoryPage.tsx:100-133 | the field messages are all empty exactly when every field passes |
| StoryForm.CheckFields | src/pages/EditStoryPage.tsx:100-133 | the field checks record those messages and report whether every field passes |
| StoryForm.PageErrors | src/pages/EditStoryPage.tsx:136-144 | one message per page, in order |
| StoryForm.FormErrorsOf | src/pages/EditStoryPage.tsx:89-148 | no message at all exactly when the whole form is valid |
| StoryForm.CheckPages | src/pages/EditStoryPage.tsx:136-144 | the `forEach` loop records one message per page and reports whether all pages pass |
| StoryForm.CheckForm | src/pages/EditStoryPage.tsx:89-148 | `validateForm` records the messages of `FormErrorsOf` and returns true exactly when the form is valid |
| StoryForm.TagAdded | src/pages/EditStoryPage.tsx:150-161 | the trimmed, lower-cased input is appended exactly when it is not blank and not yet a tag |
| StoryForm.AddTagTwiceIsOnce | src/pages/EditStoryPage.tsx:150-161 | adding the same input twice is adding it once |
| StoryForm.RemoveUndoesAdd | src/pages/EditStoryPage.tsx:163-166 | removing the tag just added restores the list |
| StoryForm.RemoveTagRemovesIt | src/pages/EditStoryPage.tsx:163-166 | removal takes out every copy and keeps the list duplicate-free |
| StoryEditor.PageIds | src/pages/EditStoryPage.tsx:177 | `pages.map(page => page.id)` |
| StoryEditor.Bodies | src/pages/EditStoryPage.tsx:136-144 | the pages without their ids, position by position |
| StoryEditor.NextPageId | src/pages/EditStoryPage.tsx:177 | the new page's id exceeds every id, and is 1 for no pages |
| StoryEditor.NextPageIdIsTight | src/pages/EditStoryPage.tsx:219 | the new id follows the largest id in use |
| StoryEditor.PageIndex | src/pages/EditStoryPage.tsx:215 | `findIndex`: -1 exactly when no page has the id, otherwise the first position holding it |
| StoryEditor.PagesWithout | src/pages/EditStoryPage.tsx:187 | no page with the id survives |
| StoryEditor.PagesWithoutAbsent | src/pages/EditStoryPage.tsx:187 | filtering out an unknown id changes nothing |
| StoryEditor.PagesWithoutKeepsOthers | src/pages/EditStoryPage.tsx:187 | every surviving page was a page before, and every page with another id survives |
| StoryEditor.PagesEdited | src/pages/EditStoryPage.tsx:198-201 | ids stay put; the pages with the id get the value in that field; every other field of every page is kept |
| StoryEditor.Inserted | src/pages/EditStoryPage.tsx:223 | `splice(i, 0, x)` places `x` at `i` and shifts the rest by one |
| StoryEditor.PageAdded | src/pages/EditStoryPage.tsx:175-181 | a blank page is appended under an id larger than every other |
| StoryEditor.BlankPage | src/pages/EditStoryPage.tsx:178 | the empty page `handleAddPage` appends; `PageAdded` states its place and fresh id |
| StoryEditor.Duplicated | src/pages/EditStoryPage.tsx:214-228 | an unknown id changes nothing; otherwise one page is added |
| StoryEditor.DuplicatePlacesCopy | src/pages/EditStoryPage.tsx:214-228 | the copy sits right after the original, with its content and an id no page had |
| StoryEditor.RemoveIsSplice | src/pages/EditStoryPage.tsx:184-196 | with unique ids, filtering out an id removes exactly the page at its index |
| StoryEditor.RemoveKeepsIdsUnique | src/pages/EditStoryPage.tsx:184-196 | removal keeps the ids unique |
| StoryEditor.RemoveKeepsActivePage | src/pages/EditStoryPage.tsx:184-196 | after a removal the active tab is on an existing page, the page it showed when that page survives |
| StoryEditor.ActiveAfterRemove | src/pages/EditStoryPage.tsx:189-193 | the tab index after a removal; `RemoveKeepsActivePage` and `SpliceKeepsActivePage` prove it stays on an existing page, the one it showed when that page survives |
| StoryEditor.SpliceKeepsActivePage | src/pages/EditStoryPage.tsx:189-193 | the tab adjustment on a spliced list keeps the tab in range and on the page it showed |
| StoryEditor.InsertFreshKeepsIdsUnique | src/pages/EditStoryPage.tsx:219-223 | inserting a page under a fresh id keeps the ids unique |
| StoryEditor.RemoveInsertedFresh | src/pages/EditStoryPage.tsx:214-228 | filtering out the id of a freshly inserted page removes just that page |
| StoryEditor.AddThenRemoveRestores | src/pages/EditStoryPage.tsx:175-196 | adding keeps ids unique, and removing the added page restores the list |
| StoryEditor.DuplicateThenRemoveRestores | src/pages/EditStoryPage.tsx:184-228 | duplicating keeps ids unique, and removing the copy restores the list |
| StoryEditor.EditIsIdempotent | src/pages/EditStoryPage.tsx:198-201 | the same edit twice is the edit once, and edits keep ids unique |
| StoryEditor.ErrorsForPages | src/pages/EditStoryPage.tsx:76-82 | page messages past the last page are dropped, the rest kept |
| StoryEditor.PatchOf | src/pages/EditStoryPage.tsx:276-284 | merging the submitted patch overwrites the edited fields and pages and keeps id, likes and views |
| StoryEditor.StoryEditor.constructor | src/pages/EditStoryPage.tsx:28-50 | empty fields, no pages, loading, first tab, no messages |
| StoryEditor.StoryEditor.Load | src/pages/EditStoryPage.tsx:52-74 | an unknown story asks to go back and changes no field; a known one fills the form from it |
| StoryEditor.StoryEditor.Fill | src/pages/EditStoryPage.tsx:58-66 | the fields and pages become the story's, and the page messages are cut to the page count |
| StoryEditor.StoryEditor.ValidateForm | src/pages/EditStoryPage.tsx:89-148 | the messages become `FormErrorsOf` the form with page text required, and the result says whether it is valid |
| StoryEditor.StoryEditor.AddTag | src/pages/EditStoryPage.tsx:150-161 | the tags become `TagAdded`; an added tag clears the input and the tag message |
| StoryEditor.StoryEditor.RemoveTag | src/pages/EditStoryPage.tsx:163-166 | the tag is filtered out and the story is marked modified |
| StoryEditor.StoryEditor.AddPage | src/pages/EditStoryPage.tsx:175-182 | the pages become `PageAdded`, the new tab is active, and ids stay unique |
| StoryEditor.StoryEditor.RemovePage | src/pages/EditStoryPage.tsx:184-196 | nothing happens on the last page; otherwise the page is filtered out and the tab adjusted, and ids stay unique |
| StoryEditor.StoryEditor.PageChange | src/pages/EditStoryPage.tsx:198-212 | the pages become `PagesEdited` and that page's message is cleared |
| StoryEditor.StoryEditor.DuplicatePage | src/pages/EditStoryPage.tsx:214-228 | the pages become `Duplicated`, the copy's tab is active, ids stay unique |
| StoryEditor.StoryEditor.PlaceCopy | src/pages/EditStoryPage.tsx:221-227 | the copy is inserted after the index and its tab made active |
| StoryEditor.StoryEditor.Submit | src/pages/EditStoryPage.tsx:260-292 | the story is saved exactly when there is an id and the form is valid, as the patch merged into it, with loading over; otherwise the store is unchanged; with an id the messages become `FormErrorsOf` the form |
| StoryDraft.Removed | src/pages/AddStoryPage.tsx:184-194 | `splice(index, 1)` drops that entry and shifts the rest back |
| StoryDraft.RemoveUndoesInsert | src/pages/AddStoryPage.tsx:184-214 | removing what was just inserted restores the list |
| StoryDraft.DuplicateThenRemoveRestores | src/pages/AddStoryPage.tsx:208-214 | after a duplication, removing either the original or the copy restores the list |
| StoryDraft.RemoveKeepsActiveInRange | src/pages/AddStoryPage.tsx:184-194 | the adjusted tab is on an existing page |
| StoryDraft.RemoveKeepsActivePage | src/pages/AddStoryPage.tsx:184-194 | after removing another page the tab still shows the page it showed |
| StoryDraft.ImportedPageTextIgnored | src/pages/AddStoryPage.tsx:144-152 | for imported pages, replacing every page's text leaves all messages and the verdict unchanged; with text required, a valid page whose text is removed gets the text message |
| StoryDraft.Numbered | src/pages/AddStoryPage.tsx:237-240 | page `i` gets id `i + 1` |
| StoryDraft.NumberedKeepsBodies | src/pages/AddStoryPage.tsx:237-240 | numbering keeps every page's content in place and gives unique ids |
| StoryDraft.NumberedNextId | src/pages/AddStoryPage.tsx:237-240 | the editor's next page id for a numbered story is one past the page count |
| StoryDraft.NewStory | src/pages/AddStoryPage.tsx:228-241 | the story handed to the store has the form's fields, numbered pages, and no likes or views |
| StoryDraft.StoryDraftForm.constructor | src/pages/AddStoryPage.tsx:16-44 | empty fields, one blank page, first tab, not imported, loading |
| StoryDraft.StoryDraftForm.LoadImported | src/pages/AddStoryPage.tsx:46-84 | stored imported pages replace the pages and mark the story imported; a stored title replaces the title; both entries are then removed |
| StoryDraft.ImportReachesDraft | src/pages/AdminPdfImportPage.tsx:38-79 | images and a non-blank title handed over by the import page reach a fresh form as its imported pages and trimmed title |
| StoryDraft.StoryDraftForm.ValidateForm | src/pages/AddStoryPage.tsx:98-156 | the messages become `FormErrorsOf` the form, with page text required only when not imported |
| StoryDraft.StoryDraftForm.AddTag | src/pages/AddStoryPage.tsx:158-166 | the tags become `TagAdded`; an added tag clears the input and the tag message |
| StoryDraft.StoryDraftForm.RemoveTag | src/pages/AddStoryPage.tsx:168-170 | the tag is filtered out |
| StoryDraft.StoryDraftForm.AddPage | src/pages/AddStoryPage.tsx:179-182 | a blank page is appended and its tab made active |
| StoryDraft.StoryDraftForm.RemovePage | src/pages/AddStoryPage.tsx:184-194 | nothing happens on the last page; otherwise that page is removed and the tab adjusted |
| StoryDraft.StoryDraftForm.PageChange | src/pages/AddStoryPage.tsx:196-206 | only that field of that page changes, and that page's message is cleared |
| StoryDraft.StoryDraftForm.DuplicatePage | src/pages/AddStoryPage.tsx:208-214 | a copy is inserted after the page and its tab made active |
| StoryDraft.StoryDraftForm.Submit | src/pages/AddStoryPage.tsx:216-249 | the messages become `FormErrorsOf` the form; the story is added exactly when the form is valid, as `NewStory` under the next id, with loading over; otherwise the store is unchanged |
| LoginPage.CredentialErrorsOf | src/pages/LoginPage.tsx:46-64 | user name required exactly when blank; password required when blank, too short when non-blank with a UTF-16 length below five |
| LoginPage.CredentialErrors.Cleared | src/pages/LoginPage.tsx:86-94 | clears that field's message and no other |
| LoginPage.CredentialsPass | src/pages/LoginPage.tsx:63 | the validator's verdict; `CredentialsPassIffClear` proves it true exactly when both messages are empty |
| LoginPage.CredentialsPassIffClear | src/pages/LoginPage.tsx:63 | the validator's result is true exactly when both messages are empty |
| LoginPage.AcceptedCredentialsPass | src/pages/LoginPage.tsx:46-64 | credentials the store accepts always pass the page's check |
| LoginPage.KnownAccountPasses | src/pages/LoginPage.tsx:46-64 | either account's password with a non-blank name passes the page's check |
| LoginPage.PaddedPasswordPasses | src/pages/LoginPage.tsx:56-59 | for a non-blank password behind any run of spaces, the check passes exactly when spaces and password together have five UTF-16 units |
| LoginPage.AstralCharactersCountTwice | src/pages/LoginPage.tsx:58 | a four-character password with one emoji has length five and passes |
| LoginPage.RedirectTarget | src/pages/LoginPage.tsx:36-44 | signed out: no redirect; signed in: the admin area exactly for an administrator, the dashboard otherwise |
| LoginPage.SignInRedirectsByAccount | src/pages/LoginPage.tsx:36-44 | a successful sign-in lands in the admin area exactly for the administrator's credentials, whichever tab they were typed into |
| LoginPage.LoginPage.constructor | src/pages/LoginPage.tsx:15-33 | both tabs start empty with no messages |
| LoginPage.LoginPage.ValidateUserFields | src/pages/LoginPage.tsx:46-64 | records `CredentialErrorsOf` the user tab and reports whether it passes |
| LoginPage.LoginPage.ValidateAdminFields | src/pages/LoginPage.tsx:66-84 | the same rules on the administrator tab |
| LoginPage.LoginPage.HandleUserChange | src/pages/LoginPage.tsx:86-94 | the typed value is stored and only that field's message is cleared |
| LoginPage.LoginPage.HandleAdminChange | src/pages/LoginPage.tsx:96-104 | the same on the administrator tab |
| LoginPage.LoginPage.HandleUserLogin | src/pages/LoginPage.tsx:106-113 | signs in through the store exactly when the tab's check passes: the matched account, loading over, and the error "Invalid username or password" exactly when none matched; the store is left alone otherwise |
| LoginPage.LoginPage.HandleAdminLogin | src/pages/LoginPage.tsx:115-122 | the same on the administrator tab: the matched account, loading over, and the error exactly when none matched |
| PdfImporter.FileTooLargeIffOverLimit | src/components/PdfImporter.tsx:33-36 | a file is refused exactly when it is larger than 10 MiB |
| PdfImporter.FileTooLarge | src/components/PdfImporter.tsx:33-36 | the megabyte test; `FileTooLargeIffOverLimit` proves it is the byte limit of 10 MiB |
| PdfImporter.LastIndexOf | src/components/PdfImporter.tsx:49 | the position of the last occurrence, or -1 when there is none |
| PdfImporter.StripExtension | src/components/PdfImporter.tsx:49 | the last dot and what follows go when a non-empty extension without '/' follows it; otherwise the name is kept |
| PdfImporter.StripExtensionOfNamed | src/components/PdfImporter.tsx:49 | a name ending in "." and an extension loses exactly that ending |
| PdfImporter.StripExtensionWithoutDot | src/components/PdfImporter.tsx:49 | a name with no dot is kept whole |
| PdfImporter.DeriveTitle | src/components/PdfImporter.tsx:49 | the proposed title is as long as the name without its extension and has no dash or underscore |
| PdfImporter.DeriveTitleOfPdfName | src/components/PdfImporter.tsx:49 | "x.pdf" proposes `x` with dashes and underscores turned into spaces |
| PdfImporter.PagesPerPageAsWritten | src/components/PdfImporter.tsx:239 | `parseInt(v) \|\| 1` as written: 1 for no number or zero, the parsed number otherwise |
| PdfImporter.PagesPerPageAsWrittenTakesNegative | src/components/PdfImporter.tsx:239 | typing "-3" gives a batch size of -3 |
| PdfImporter.BatchLoopNeverEndsBelowOne | src/lib/pdfImporter.ts:122 | with a batch size below one, the batching loop index never reaches the end of a non-empty list |
| PdfImporter.PagesPerPage | src/components/PdfImporter.tsx:239 | the corrected batch size is always at least one, and is the typed number when that is positive |
| PdfImporter.PlaceholderTexts | src/components/PdfImporter.tsx:121 | one text per page, "Page i+1" for position i |
| PdfImporter.PlaceholderTextsDistinct | src/components/PdfImporter.tsx:161 | no two pages get the same placeholder |
| PdfImporter.PdfImportForm.constructor | src/components/PdfImporter.tsx:16-25 | no file, no preview, batch size 1 |
| PdfImporter.PdfImportForm.HandleFileChange | src/components/PdfImporter.tsx:28-61 | an oversized file is refused and clears name and title; an accepted file proposes its derived title and drops the preview; no file clears the selection |
| PdfImporter.PdfImportForm.HandleTitleChange | src/components/PdfImporter.tsx:224 | the typed title becomes the title |
| PdfImporter.PdfImportForm.HandlePagesPerPageChange | src/components/PdfImporter.tsx:238-246 | the batch size becomes the corrected parse, and an extracted preview is dropped |
| PdfImporter.PdfImportForm.HandlePreview | src/components/PdfImporter.tsx:63-109 | without a file it asks for one; a failed or empty extraction shows why; otherwise the images are kept and the preview shown |
| PdfImporter.PdfImportForm.HandleImport | src/components/PdfImporter.tsx:111-181 | preview images are reused when present, touching nothing else; otherwise the file is extracted; the batched images go out with one placeholder text each, or nothing goes out, the reason is shown and the selection and preview flag are kept |
| PdfBatching.CombinePageImages | src/lib/pdfImporter.ts:112-132 | ceil(n/k) images, the j-th being image j*k; k = 1 and an empty list give the input back |
| PdfBatching.GetDefaultPageImages | src/lib/pdfImporter.ts:140-159 | one Unsplash address with the sizing query per page |
| PdfBatching.DefaultImagesAreUnsplash | src/lib/pdfImporter.ts:142-149 | each of the six stock photographs is an Unsplash address |
| PdfBatching.DefaultImagesRepeatEverySix | src/lib/pdfImporter.ts:142-158 | the list has period six |
| PdfBatching.DefaultImagesPrefixStable | src/lib/pdfImporter.ts:142-158 | asking for more pages extends the list without changing earlier entries |
| PdfBatching.FirstSixDefaultImagesDiffer | src/lib/pdfImporter.ts:142-158 | within six consecutive pages no photo repeats |
| AdminPdfImport.StoryPages | src/pages/AdminPdfImportPage.tsx:62-65 | one page per image, with that image and the text "Page i+1" |
| AdminPdfImport.Images | src/pages/AdminPdfImportPage.tsx:62-65 | the images of the pages that have one, in order |
| AdminPdfImport.ImagesOfStoryPages | src/pages/AdminPdfImportPage.tsx:62-65 | the stored pages give back exactly the extracted images |
| AdminPdfImport.StoryPagesNeedOnlyImages | src/pages/AdminPdfImportPage.tsx:62-65 | the story form accepts the stored pages exactly when every image address is valid |
| AdminPdfImport.AdminPdfImportPage.constructor | src/pages/AdminPdfImportPage.tsx:13-24 | nothing extracted, importer shown, both stored entries removed |
| AdminPdfImport.AdminPdfImportPage.HandlePagesExtracted | src/pages/AdminPdfImportPage.tsx:26-36 | the texts are kept; the title and images are replaced only by non-empty ones; the importer is hidden |
| AdminPdfImport.AdminPdfImportPage.CreateStory | src/pages/AdminPdfImportPage.tsx:38-79 | ignored while processing; a blank title is refused; otherwise the trimmed title and the page records are stored |
| AdminPdfImport.AdminPdfImportPage.HandleStartOver | src/pages/AdminPdfImportPage.tsx:81-86 | extraction, images and title are cleared and the importer shown again |
| FlipbookLayout.ClampPage | src/components/FlipbookLayout.tsx:212-222 | the page lands in 1..N, is the request when that is in range, the last page above it, and 1 exactly for requests at most 1 or stories of at most one page |
| FlipbookLayout.ClampPageIdempotent | src/components/FlipbookLayout.tsx:212-222 | clamping twice is clamping once |
| FlipbookLayout.AutoFlipNext | src/components/FlipbookLayout.tsx:340 | the next page, or page 1 after the last |
| FlipbookLayout.AutoFlipIsRotation | src/components/FlipbookLayout.tsx:340 | after k ticks from page p the page is ((p - 1 + k) mod N) + 1 |
| FlipbookLayout.AutoFlipFullCircle | src/components/FlipbookLayout.tsx:340 | N ticks return to the starting page |
| FlipbookLayout.Insert | src/components/FlipbookLayout.tsx:294-298 | push then numeric sort: the result holds the old entries and the value, each as often as before |
| FlipbookLayout.InsertAbove | src/components/FlipbookLayout.tsx:294-298 | inserting keeps a lower bound that both the list and the value respect |
| FlipbookLayout.InsertKeepsSorted | src/components/FlipbookLayout.tsx:294-298 | inserting an absent value keeps the list strictly ascending |
| FlipbookLayout.InsertMembership | src/components/FlipbookLayout.tsx:294-298 | the inserted list holds exactly the old entries and the value |
| FlipbookLayout.IndexOf | src/components/FlipbookLayout.tsx:289 | `indexOf`: -1 exactly when absent, otherwise the first position holding the value |
| FlipbookLayout.SpliceIsWithout | src/components/FlipbookLayout.tsx:289-293 | on a duplicate-free list, splicing out position i is filtering out its value |
| FlipbookLayout.SortedByElements | src/components/FlipbookLayout.tsx:294-298 | two ascending lists with the same elements are equal |
| FlipbookLayout.WithoutKeepsSorted | src/components/FlipbookLayout.tsx:289-293 | removing an entry keeps the list ascending |
| FlipbookLayout.Toggled | src/components/FlipbookLayout.tsx:286-305 | the page is removed when bookmarked and added otherwise; the list stays strictly ascending |
| FlipbookLayout.ToggleInCopy | src/components/FlipbookLayout.tsx:286-305 | the `indexOf`/`splice`/`push`/`sort` body computes `Toggled` |
| FlipbookLayout.ToggleRemovesOnlyThatEntry | src/components/FlipbookLayout.tsx:289-293 | removing a bookmark takes out exactly that entry; the rest keep their order |
| FlipbookLayout.ToggleAddsInOrder | src/components/FlipbookLayout.tsx:294-298 | adding gives the ascending list of the old entries and the page |
| FlipbookLayout.ToggleTwiceRestores | src/components/FlipbookLayout.tsx:286-305 | toggling a page twice restores the list |
| FlipbookLayout.ClampZoom | src/components/FlipbookLayout.tsx:271-274 | zoom lands in [0.5, 1.7] and is the request when that is in range |
| FlipbookLayout.PrevDisabled | src/components/FlipbookLayout.tsx:544 | the previous arrow's `disabled` test; `ArrowsDisabledExactlyWhenStuck` proves it holds exactly when its request would not move |
| FlipbookLayout.NextDisabledAsWritten | src/components/FlipbookLayout.tsx:582 | the next arrow's test as written; `NextArrowAsWrittenBlocksLastPage` exhibits it blocking a move to the last page |
| FlipbookLayout.NextDisabled | src/components/FlipbookLayout.tsx:582 | the corrected next-arrow test; `ArrowsDisabledExactlyWhenStuck` proves it holds exactly on the last page |
| FlipbookLayout.ArrowsDisabledExactlyWhenStuck | src/components/FlipbookLayout.tsx:544-582 | the previous arrow is disabled exactly on page 1, the corrected next arrow exactly on the last page: exactly when its request would not move |
| FlipbookLayout.NextArrowAsWrittenBlocksLastPage | src/components/FlipbookLayout.tsx:582 | on the second-to-last page the arrow as written is disabled although its request would move to the last page |
| FlipbookLayout.InitialSession | src/components/FlipbookLayout.tsx:115-135 | the first render's session satisfies the invariant |
| FlipbookLayout.PageChanged | src/components/FlipbookLayout.tsx:212-222 | the session after `handlePageChange`; `PageChangedKeepsRest` and `NavigationPreservesValid` state it |
| FlipbookLayout.AutoFlipToggled | src/components/FlipbookLayout.tsx:225-236 | the session after `toggleAutoFlip`; `AutoFlipToggleFlipsOnlyAutoFlip` and `AutoFlipToggleTwiceRestoresSettings` state it |
| FlipbookLayout.SettingToggled | src/components/FlipbookLayout.tsx:239-253 | the session after `toggleSetting`; `ZoomKeyIsNoOp`, `SoundToggleFlipsOnlySound` and `ToggleSettingTwiceRestores` state it |
| FlipbookLayout.ZoomUpdated | src/components/FlipbookLayout.tsx:271-274 | the session after `updateZoomLevel`; `ClampZoom` and `ZoomKeepsValid` state it |
| FlipbookLayout.BookmarkToggled | src/components/FlipbookLayout.tsx:286-305 | the session after `toggleBookmark`; `Toggled`, `ToggleTwiceRestores` and `BookmarkTogglePreservesValid` state it |
| FlipbookLayout.BookmarkVisited | src/components/FlipbookLayout.tsx:307-310 | the session after `goToBookmark`: a clamped page change with the list closed |
| FlipbookLayout.AutoFlipTicked | src/components/FlipbookLayout.tsx:339-341 | the session after one auto-flip tick; `AutoFlipIsRotation` states where ticks lead |
| FlipbookLayout.ClosesHelp | src/components/FlipbookLayout.tsx:354 | the help-closing key test; `ClosesHelpKeys` proves it is exactly Escape, h and H |
| FlipbookLayout.CommandOf | src/components/FlipbookLayout.tsx:359-413 | the `switch` on the key; `NavigationCommandKeys` proves only the four navigation keys give navigation commands |
| FlipbookLayout.CommandDone | src/components/FlipbookLayout.tsx:359-413 | each command's effect; `CommandPreservesValid` and `CommandKeepsPage` state it |
| FlipbookLayout.KeyHandled | src/components/FlipbookLayout.tsx:352-417 | the session after a key press; `HelpOpenOnlyClosesHelp`, `NavigationKeysClamp` and `KeyHandlingPreservesValid` state it |
| FlipbookLayout.ClosesHelpKeys | src/components/FlipbookLayout.tsx:354 | exactly Escape, "h" and "H" close the help |
| FlipbookLayout.NavigationPreservesValid | src/components/FlipbookLayout.tsx:212-222 | page changes keep the page in range and the bookmarks sorted |
| FlipbookLayout.SettingsPreserveValid | src/components/FlipbookLayout.tsx:239-274 | toggles and zoom changes keep the invariant |
| FlipbookLayout.ToggleKeepsValid | src/components/FlipbookLayout.tsx:239-253 | a settings toggle keeps the invariant |
| FlipbookLayout.ZoomKeepsValid | src/components/FlipbookLayout.tsx:271-274 | a zoom change keeps the invariant |
| FlipbookLayout.BookmarkTogglePreservesValid | src/components/FlipbookLayout.tsx:286-305 | toggling a bookmark keeps the invariant |
| FlipbookLayout.CommandPreservesValid | src/components/FlipbookLayout.tsx:359-413 | every shortcut keeps the invariant |
| FlipbookLayout.ValidIgnoresPanels | src/components/FlipbookLayout.tsx:115-135 | the invariant depends on the page and settings only |
| FlipbookLayout.KeyHandlingPreservesValid | src/components/FlipbookLayout.tsx:352-417 | every key press keeps the invariant |
| FlipbookLayout.HelpOpenOnlyClosesHelp | src/components/FlipbookLayout.tsx:353-358 | with the help open a key changes nothing but the help flag, and closes it exactly for Escape or h |
| FlipbookLayout.NavigationKeysClamp | src/components/FlipbookLayout.tsx:359-371 | ArrowRight, ArrowLeft, Home and End request p+1, p-1, 1 and N, clamped |
| FlipbookLayout.PageChangedKeepsRest | src/components/FlipbookLayout.tsx:212-222 | a page change touches only the page |
| FlipbookLayout.OtherKeysKeepThePage | src/components/FlipbookLayout.tsx:372-413 | keys other than the four navigation keys keep the page |
| FlipbookLayout.NavigationCommandKeys | src/components/FlipbookLayout.tsx:359-371 | the four navigation commands come from their four keys only |
| FlipbookLayout.CommandKeepsPage | src/components/FlipbookLayout.tsx:372-413 | the non-navigation commands keep the page |
| FlipbookLayout.ZoomKeyIsNoOp | src/components/FlipbookLayout.tsx:240-243 | `toggleSetting('zoomLevel')` changes nothing |
| FlipbookLayout.ToggleSettingTwiceRestores | src/components/FlipbookLayout.tsx:239-253 | toggling sound or thumbnails twice restores the session |
| FlipbookLayout.AutoFlipToggleTwiceRestoresSettings | src/components/FlipbookLayout.tsx:225-236 | toggling auto-flip twice restores the settings |
| FlipbookLayout.SoundToggleFlipsOnlySound | src/components/FlipbookLayout.tsx:239-253 | the sound toggle flips the sound flag and no other setting |
| FlipbookLayout.AutoFlipToggleFlipsOnlyAutoFlip | src/components/FlipbookLayout.tsx:225-236 | the auto-flip toggle flips that flag and no other setting |
| FlipbookLayout.ViewerSession.constructor | src/components/FlipbookLayout.tsx:115-135 | the session is the initial one |
| FlipbookLayout.ViewerSession.HandlePageChange | src/components/FlipbookLayout.tsx:212-222 | the page becomes the clamped request; the invariant is kept |
| FlipbookLayout.ViewerSession.ToggleAutoFlip | src/components/FlipbookLayout.tsx:225-236 | auto-flip is flipped, and switching it on opens its settings |
| FlipbookLayout.ViewerSession.ToggleSetting | src/components/FlipbookLayout.tsx:239-253 | that setting is negated; the zoom key does nothing |
| FlipbookLayout.ViewerSession.UpdateZoomLevel | src/components/FlipbookLayout.tsx:271-274 | the zoom becomes the clamped request |
| FlipbookLayout.ViewerSession.ToggleBookmark | src/components/FlipbookLayout.tsx:286-305 | the bookmarks become `Toggled` at the current page |
| FlipbookLayout.ViewerSession.GoToBookmark | src/components/FlipbookLayout.tsx:307-310 | navigates to the bookmark, clamped, and closes the list |
| FlipbookLayout.ViewerSession.AutoFlipTick | src/components/FlipbookLayout.tsx:339-341 | the page becomes `AutoFlipNext` |
| FlipbookLayout.ViewerSession.HandleKeyDown | src/components/FlipbookLayout.tsx:352-417 | the session becomes `KeyHandled` and keeps the invariant |
| FlipbookLayout.ViewerSession.RunNavigation | src/components/FlipbookLayout.tsx:359-371 | a navigation shortcut's effect |
| FlipbookLayout.ViewerSession.RunZoom | src/components/FlipbookLayout.tsx:372-381 | a zoom shortcut's effect |
| FlipbookLayout.ViewerSession.RunToggle | src/components/FlipbookLayout.tsx:382-413 | a toggle, help or Escape shortcut's effect |
| FlipbookViewer.GetDisplayedPages | src/components/FlipbookViewer.tsx:176-224 | each slot is -1 or a page in range, and the label names the shown pages |
| FlipbookViewer.DisplayPlanCases | src/components/FlipbookViewer.tsx:187-223 | narrow: one page; page 1 and the last page alone; even p with p+1; odd p with p-1 |
| FlipbookViewer.LabelNamesDisplayedPages | src/components/FlipbookViewer.tsx:207-221 | the label names exactly the pages in the two slots |
| FlipbookViewer.SpreadPartnersShareAPlan | src/components/FlipbookViewer.tsx:199-223 | the two pages of a spread give the same plan |
| FlipbookViewer.SpanTextHasDash | src/components/FlipbookViewer.tsx:207-221 | a label is a range exactly when its text holds a dash |
| FlipbookViewer.PageLabel.Text | src/components/FlipbookViewer.tsx:183-221 | the "p/N" or "a-b/N" text; `SpanTextHasDash` and `LabelNamesDisplayedPages` state it |
| FlipbookViewer.SingleViewIffNoLeftPage | src/components/FlipbookViewer.tsx:161-172 | the single-page layout is used exactly when the plan leaves the left slot empty, that is narrow, page 1 or the last page |
| FlipbookViewer.IsSinglePageView | src/components/FlipbookViewer.tsx:161-172 | narrow, page 1 or the last page; `SingleViewIffNoLeftPage` proves it agrees with the display plan |
| FlipbookViewer.DragProgress | src/components/FlipbookViewer.tsx:491 | the partial flip is between 0 and 40 percent, 40 exactly from 120 pixels on and 0 exactly for no offset |
| FlipbookViewer.DragProgressMonotone | src/components/FlipbookViewer.tsx:491 | a longer drag never shows less progress |
| FlipbookViewer.ReleaseOf | src/components/FlipbookViewer.tsx:495-517 | a drag over 100 pixels turns back on pages after 1 and forward on pages before N; anything else snaps back |
| FlipbookViewer.SwipeTarget | src/components/FlipbookViewer.tsx:652-672 | a horizontal swipe over 50 pixels in under 500 ms asks for the neighbouring page, never outside 1..N |
| FlipbookViewer.Gestures.constructor | src/components/FlipbookViewer.tsx:346-353 | idle, nothing dragged, dragging allowed |
| FlipbookViewer.Gestures.DragStart | src/components/FlipbookViewer.tsx:468-477 | ignored while flipping or while dragging is disabled; otherwise a drag starts at the pointer |
| FlipbookViewer.Gestures.DragMove | src/components/FlipbookViewer.tsx:479-493 | the offset from the start, backward exactly for a positive offset, and `DragProgress` |
| FlipbookViewer.Gestures.DragEnd | src/components/FlipbookViewer.tsx:495-517 | the release requests `ReleaseOf`; dragging is disabled only when a page is requested |
| FlipbookViewer.Gestures.DragEndAsWritten | src/components/FlipbookViewer.tsx:495-517 | as written: dragging is disabled for every release past 100 pixels, including a snap-back |
| FlipbookViewer.Gestures.MouseDown | src/components/FlipbookViewer.tsx:519-525 | zoomed in: starts a pan; otherwise starts a drag |
| FlipbookViewer.Gestures.MouseMove | src/components/FlipbookViewer.tsx:527-541 | pans by the movement while zoomed and panning; otherwise moves the drag |
| FlipbookViewer.Gestures.MouseUp | src/components/FlipbookViewer.tsx:543-549 | ends a pan when zoomed, keeping the drag and flip state; otherwise releases the drag as `DragEnd` does: a requested turn keeps the drag and disables dragging, a snap-back resets offset, progress and direction |
| FlipbookViewer.Gestures.TouchStart | src/components/FlipbookViewer.tsx:551-574 | records where and when the touch began, starts a drag, notes a pinch |
| FlipbookViewer.Gestures.TouchMove | src/components/FlipbookViewer.tsx:576-625 | moves the drag, then a pinch or a zoomed pan takes over |
| FlipbookViewer.Gestures.TouchEnd | src/components/FlipbookViewer.tsx:627-675 | releases the drag as `DragEnd` does, stating the drag state after it, then an unzoomed swipe requests `SwipeTarget` |
| FlipbookViewer.Gestures.OnPageChange | src/components/FlipbookViewer.tsx:399-415 | a page change starts a flip toward the new page; no change starts none |
| FlipbookViewer.Gestures.FinishFlip | src/components/FlipbookViewer.tsx:388-396 | the flip ends: idle, offset 0, dragging allowed |
| FlipbookViewer.DragLockOnFirstPage | src/components/FlipbookViewer.tsx:498-510 | as written, a long backward drag on page 1 snaps back and the next drag is refused |
| FlipbookViewer.DragAfterSnapBackOnFirstPage | src/components/FlipbookViewer.tsx:498-510 | with the corrected release the next drag starts |

## Left out

- Flip animation: the eased `animatePageFlip` curve, `requestAnimationFrame` and the flip sound are left out. They are timing and floating point. `FinishFlip` models only the last frame.
- Sound and voice-over: `FlipbookViewer.tsx` 239-344 and `FlipbookLayout.tsx` 155-203 use browser audio and speech APIs.
- Timers: the `isFlipping` timeout in `FlipbookLayout.tsx` and the auto-flip `setInterval` are not modelled. One tick is `AutoFlipTick`.
- Pinch zoom: the `Math.hypot` distances and zoom ratios are left out. A pinch is only a flag that ends the touch handlers early.
- Zoom values are exact reals, so floating-point rounding is not modelled.
- `extractPdfAsImages` and `getPlaceholderImageDataUrl` are not part of this model. They wrap pdf.js and canvas. An extraction is a parameter: a list of image strings and an error text.
- Storage and loading:
  - zustand persistence and `localStorage` are not modelled beyond the two entries the import page writes.
  - `fetchStories` and `getInitialStories` in `store.ts` are not part of this model.
  - The store's `await` delays are dropped. Every store operation is atomic.
  - The `catch` branches only a failing delay could reach are left out, and so is the storage-quota `catch` of `handleCreateStory`.
  - A stored value that is not valid JSON is read as absent.
- Side effects outside the state are left out: `navigate`, `alert`, `window.scrollTo`, focus changes, the fullscreen request and the image upload through `FileReader`. These are `EditStoryPage.tsx` 236-258 and `AddStoryPage.tsx` 251-290. The full-screen flag becomes the negation of the document's current state.
- The thumbnail strip uses `page.id` as the page number. It is not modelled, and pages are 1-based positions.
- The viewport test is a boolean parameter. The 768-pixel `isMobile` breakpoint only changes animation durations and is not modelled.
- Common.ToLower: lower-cases only the ASCII letters and the Latin-1 capitals `À` to `Þ`. This is exact for the comparisons with "user", "admin" and "h". Tags also go through `toLowerCase`: a tag with another capital, such as Greek or Cyrillic ones, keeps that capital here while the app lower-cases it.
- Common.ParseInt: reads base ten only. The hexadecimal prefix and the radix argument of `parseInt` are not modelled.
- FlipbookViewer.Gestures.MouseUp and FlipbookViewer.Gestures.TouchEnd: they release the drag with the corrected `DragEnd`. The app's `handleMouseUp` and `handleTouchEnd` run the release as written, which also disables dragging after a snap-back past 100 pixels on the first or last page (see Findings).
- PdfImporter.PdfImportForm.HandleFileChange: keeps the size in bytes instead of the megabyte float shown on the card. The limit test is the same.
- The edit page reads the story id with `Number(id)`. Here it is an `Option<int>`, and a non-numeric id is `None`. StoryEditor.StoryEditor.Submit therefore returns before validating for a non-numeric id, while the app validates the form and then calls `updateStory(NaN)`, which matches no story.
- StoryDraft.StoryDraftForm.RemovePage, PageChange and DuplicatePage: they require an index of an existing page, because the form only calls them for rendered tabs. JavaScript's behaviour for other indices is not modelled.
- PdfImporter.PdfImportForm.HandlePagesPerPageChange and PdfImporter.PdfImportForm.HandleImport: the batching with the as-written batch size below one is not modelled. `HandlePagesPerPageChange` stores the corrected `PagesPerPage`, and `HandleImport` batches with it, so the batching loop always ends.
- `showPreview` toggling by the preview buttons is not modelled. It only affects rendering.

## Findings

| source | as written | input that shows it | evidently intended | confidence | as-written member | corrected member |
|---|---|---|---|---|---|---|
| src/components/PdfImporter.tsx:239 | `parseInt(v) \|\| 1` keeps negative numbers, and `combinePageImages` then loops with `i += k` for k < 1 | typing "-3" gives k = -3; with any PDF the batching loop never ends | a batch size of at least 1 (the input's `min="1"`) | not executed | PdfImporter.PagesPerPageAsWrittenTakesNegative | PdfImporter.PagesPerPage |
| src/components/FlipbookViewer.tsx:498-510 | `setCanDrag(false)` runs for every release over 100 px, including the snap-back on the first and last page, where no flip follows to re-enable it | on page 1, drag right by 150 px and release, then start a new drag | dragging is disabled only when a page turn is requested | not executed | FlipbookViewer.DragLockOnFirstPage | FlipbookViewer.DragAfterSnapBackOnFirstPage |
| src/components/FlipbookLayout.tsx:582 | the next arrow is disabled when `currentPage >= totalPages - 1` | narrow viewport with 5 pages, on page 4: the arrow is disabled although `handlePageChange(5)` would move to page 5 | disabled only on the last page, like the previous arrow on page 1 | not executed | FlipbookLayout.NextArrowAsWrittenBlocksLastPage | FlipbookLayout.ArrowsDisabledExactlyWhenStuck |
