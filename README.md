# JF-Accessories earrings site — a Dafny model of its page logic

JF-Accessories sells earrings through a small static web site. Four of its
scripts hold the logic this project models:

- `earings.js`, the catalog page. It cuts the built-in 24-item catalog into
  pages of 12. It also draws a pagination bar: prev and next buttons, a
  window of at most five numbered buttons around the current page, a "1"
  shortcut and a last-page shortcut, and ellipses for skipped pages.
- `admin-form.js`, the admin form. It validates the form and gives a new
  entry the next id (largest id + 1, or 1 for an empty list). It generates
  the five photo paths `assets/earings/<base>a.jpg` … `<base>e.jpg`. It
  appends and deletes entries, keeps the list in local storage under
  `jfEarings`, and exports it as `{ earings: [...] }`.
- `script.js`, the site-wide script. It turns a photo reference into a URL,
  marks the navigation link of the current page, and picks the first three
  entries for the home page.
- `admin-simple.js`, the JSON editor page. It validates the edited
  document, copies or downloads it only when it is valid, appends a sample
  entry with the next id, and previews the first four entries.

Files:

- `options.dfy`: the `Option` type.
- `js_builtins.dfy`: the JavaScript built-ins the scripts rely on, with
  their contracts. These are `slice`, `startsWith`, `indexOf`, `replace`
  with a string pattern (first occurrence only), `split(c).pop()`, `trim`,
  `Math.min`/`Math.max` and number-to-string.
- `catalog.dfy`: the catalog entry and the `{ earings }` document shared by
  the admin pages and the home page, and the next-id and delete-by-id rules.
- `earings.dfy`: pagination, with the catalog page as a class whose
  current page changes.
- `admin_form.dfy`: the admin form, as a class holding the list, the
  storage and the form.
- `script.dfy`: image URLs, the active link, and the featured entries.
- `admin_simple.dfy`: the JSON editor, as a class holding the parsed editor
  content and the preview.

Some inputs come from outside the scripts and become parameters:

- local storage is a `map` from key to list;
- a fetched `earings-data.json` is an `Option` (`None` when the request
  fails);
- the answer to `confirm` is a `bool`;
- the editor text is seen through its parse (`None` when it is not JSON).

## Model

| member | source | states |
|---|---|---|
| Pagination.TotalPages | earings.js:93 | the page count is `ceil(n / 12)`: it holds `n` items, one page fewer does not, and it is 0 exactly for an empty catalog |
| Pagination.PageItems | earings.js:54-56 | page `p` is `earings.slice((p-1)*12, (p-1)*12 + 12)`; its contents are stated by `PageItemsSpec` |
| Pagination.PageItemsSpec | earings.js:52-56 | page `p` shows the items at `[(p-1)*12, p*12)` clipped to the list, in order, never more than 12, and nothing past the last page |
| Pagination.ItemOnItsPage | earings.js:54-56 | item `i` is on page `i/12 + 1`, which is a real page, in slot `i % 12` |
| Pagination.PagesCoverCatalog | earings.js:52-56 | reading pages 1..totalPages in turn gives back the whole catalog, each item once, in order |
| Pagination.Window | earings.js:107-114 | the numbered window lies in `[1, totalPages]`; for a valid page it contains the page and is `min(5, totalPages)` wide |
| Pagination.PaginationButton | earings.js:159-170 | an arrow or shortcut button is never active, and it has a click handler, to its target page, exactly when it is enabled |
| Pagination.PaginationBar | earings.js:96-155 | the bar as one value: prev, the leading shortcuts, the numbered window, the trailing shortcuts, next; `BarLayout` and the lemmas after it state its properties |
| Pagination.UpdatePagination | earings.js:90-156 | the controls the page appends are exactly the bar: prev, shortcuts, numbered window, shortcuts, next |
| Pagination.AppendLeading | earings.js:116-126 | the "1" shortcut is pushed iff the window starts after page 1, and the ellipsis after it iff the window starts after page 2 |
| Pagination.AppendNumberButtons | earings.js:128-133 | the loop pushes the buttons `start..end` in order, each going to its own page and active only for the current page |
| Pagination.AppendTrailing | earings.js:135-145 | the last-page shortcut is pushed iff the window ends before the last page, and the ellipsis before it iff the window ends before the page before last |
| Pagination.NumberButtonsAt | earings.js:129-133 | the window has `end - start + 1` buttons, and the `k`-th is page `start + k` |
| Pagination.NumberButtonsMembers | earings.js:129-133 | every window button is an enabled page in `[start, end]` whose handler goes to that page, and it is active iff it is the current page |
| Pagination.BarLayout | earings.js:96-155 | the position of every part of the bar: prev first, then the leading shortcuts, the window, the trailing shortcuts, and next last |
| Pagination.ExactlyOneActive | earings.js:129-133 | exactly one control of the bar is active, and it is the current page's button |
| Pagination.HandlersStayInRange | earings.js:159-170 | a button has a click handler iff it is enabled, and every handler goes to a page in `[1, totalPages]` |
| Pagination.BarEnds | earings.js:97-154 | prev is enabled iff `page > 1` and goes to `page - 1`; next is enabled iff `page < totalPages` and goes to `page + 1`; the first and last numbered buttons are pages 1 and `totalPages` |
| Pagination.EllipsisMarksGap | earings.js:116-145 | adjacent numbered buttons are consecutive pages, and an ellipsis always sits between two numbered buttons with a page missing between them |
| Pagination.BuiltInCatalogPages | earings.js:12-37 | the built-in 24-item catalog makes 2 pages of 12, and page 1's bar is prev (disabled), 1 (active), 2, next (to page 2) |
| Pagination.EaringsPage.constructor | earings.js:44-48 | the page starts on page 1 and shows page 1 and its bar |
| Pagination.EaringsPage.DisplayEarings | earings.js:52-69 | the cards shown are the page's slice and the bar is the page's bar |
| Pagination.EaringsPage.GoToPage | earings.js:173-177 | the current page becomes `pageNum`, and what is shown is that page and its bar |
| Pagination.EaringsPage.Click | earings.js:97-154 | a click on a button with a handler makes its target page current, and a disabled button or an ellipsis changes nothing; the current page stays a page of the catalog |
| Catalog.MaxId | admin-form.js:151 | `Math.max` of the ids is at least every id and is some entry's id |
| Catalog.NextId | admin-form.js:151 | the new id is above every existing id; it is 1 for an empty list, and otherwise one more than some entry's id |
| Catalog.AppendNextIdKeepsUnique | admin-form.js:151 | appending an entry with the next id keeps all ids distinct |
| Catalog.NextIdOfSequentialIds | admin-form.js:151 | when the ids are 1..n, the next id is n + 1 |
| Catalog.RemoveId | admin-form.js:274 | an entry is kept iff it was there and has a different id; an absent id changes nothing |
| Catalog.RemoveIdAppend | admin-form.js:274 | filtering works piece by piece, so the kept entries stay in their original order |
| Catalog.RemoveIdKeepsUnique | admin-form.js:274 | deleting never creates duplicate ids |
| Catalog.DeleteNewestThenNextIdReuses | admin-form.js:151 | deleting the entry with the newest id and then adding one gives the new entry that same id again: ids are reused, since the next id comes from the list after the delete (admin-form.js:274) |
| Catalog.FindById | admin-form.js:238 | `find` gives nothing iff no entry has the id, and otherwise the first entry carrying it |
| JsBuiltins.TrimSpec | admin-form.js:122-132 | a trimmed field is the input with its leading and trailing whitespace removed; it is empty iff the input is all whitespace |
| JsBuiltins.TrimIdempotent | admin-form.js:122-132 | trimming a trimmed field changes nothing |
| AdminForm.ImagePaths | admin-form.js:141-147 | there are exactly five photo paths, `assets/earings/<base><letter>.jpg` for letters a..e in order |
| AdminForm.GenerateImages | admin-form.js:141-147 | the loop pushing one path per letter builds exactly those five paths |
| AdminForm.RequiredFilled | admin-form.js:135 | a save goes ahead iff the trimmed name, price, description, material, size and base name and the untrimmed category are all non-empty |
| AdminForm.NewEaring | admin-form.js:150-168 | the new entry: trimmed text fields, closure, hypoallergenic and category as chosen, popularity 3, in stock, and the five photo paths of the trimmed base name; `NewEaringSpec` states its properties |
| AdminForm.NewEaringSpec | admin-form.js:150-168 | a saved entry has an id no existing entry has, the five photo paths of its trimmed base name, popularity 3, in stock, and a non-empty name, price and description |
| AdminForm.ExtractBaseName | admin-form.js:256 | the base name read back from a photo path: the first `assets/earings/` and then the first `a.jpg` removed, as two first-occurrence `replace` calls |
| AdminForm.BaseNameRoundTrip | admin-form.js:256 | for a base name without `a.jpg`, reading the base name back from its first photo path gives that base name |
| AdminForm.EarlyJpgRemoved | admin-form.js:256 | when `a.jpg` follows the first letter of the base name, `replace` removes that occurrence instead of the appended one |
| AdminForm.BaseNameRoundTripCounterexample | admin-form.js:256 | the base name `xa.jpgy` does not come back from its first photo path |
| AdminForm.FormFor | admin-form.js:242-257 | the form an edit fills in: every field from the entry, and the base name read from its first photo, or the previous base name when it has none |
| AdminForm.EditRecoversSavedForm | admin-form.js:237-259 | editing an entry the form saved fills the form with the saved, trimmed fields and base name |
| AdminForm.LoadEarings | admin-form.js:310-319 | the stored `jfEarings` list when there is one, otherwise the fetched list |
| AdminForm.SaveEarings | admin-form.js:334-337 | after saving, `jfEarings` holds the list, no other key is added, and every other key keeps its value |
| AdminForm.SaveThenLoad | admin-form.js:310-319 | a saved list is what a later load returns, whatever the bundled file holds |
| AdminForm.ExportDocument | admin-form.js:282-287 | the export is the list wrapped as `{ earings: list }` |
| AdminForm.AdminFormPage.constructor | admin-form.js:47 | the list is the stored one if there is one, otherwise the list the fetch produces (the Promise the source holds instead is described under "Left out") |
| AdminForm.AdminFormPage.UpdateJSONOutput | admin-form.js:282-287 | the export shows `{ earings: list }` for the current list |
| AdminForm.AdminFormPage.SaveEaringsToStorage | admin-form.js:334-337 | the list is stored under `jfEarings` and the export refreshed, so storage and list agree |
| AdminForm.AdminFormPage.SaveEaring | admin-form.js:120-185 | with a required field blank nothing changes; otherwise exactly one new entry with the next id is appended after the unchanged others, then stored and exported, and the form is reset; ids stay distinct |
| AdminForm.AdminFormPage.AddEaring | admin-form.js:170-174 | the entry is appended at the end, the list stored and exported, and distinct ids stay distinct |
| AdminForm.AdminFormPage.DeleteEaring | admin-form.js:271-280 | a cancelled confirmation changes nothing; otherwise exactly the entries with that id are removed, the list is stored and exported, and the form is untouched |
| AdminForm.AdminFormPage.EditEaring | admin-form.js:237-269 | an unknown id leaves the form alone; otherwise the form gets the first matching entry's fields and the base name of its first photo |
| AdminForm.AdminFormPage.DownloadJSON | admin-form.js:295-308 | the download is named `earings-data.json` and holds `{ earings: list }` |
| AdminForm.EditThenSave | admin-form.js:237-262 | "editing" then saving adds a new entry with a fresh id and leaves the edited entry and all others as they were |
| SiteScript.GetDefaultImage | script.js:242-244 | the placeholder is an `http` URL, so resolving it again keeps it |
| SiteScript.CleanName | script.js:230 | the clean name is the text after the last `/` or `\`: a suffix of the name that holds neither, and the character just before it, if any, is one of them |
| SiteScript.CleanNameInBackslashDirectory | script.js:230 | a `\`-separated path without `/` has the clean name of its last part |
| SiteScript.GetImageUrl | script.js:219-239 | no name or an empty one gives the placeholder; an `http` or `data:` name is returned as it is; otherwise a clean name `default.jpg` gives the placeholder and any other gives `assets/earings/<clean name>`; the result is never empty |
| SiteScript.LocalFileName | script.js:237-238 | a bare file name that is neither a URL nor `default.jpg` resolves to `assets/earings/<name>` |
| SiteScript.DefaultInAnyDirectory | script.js:230-235 | `<dir>/default.jpg` gives the placeholder, as `default.jpg` does |
| SiteScript.NestedDefaultIsPlaceholder | script.js:233-235 | `x/y/default.jpg` gives the placeholder |
| SiteScript.GetImageUrlIdempotent | script.js:219-239 | resolving an already resolved URL gives it back unchanged |
| SiteScript.CurrentPage | script.js:57 | the current page is the last segment of the path and holds no `/` |
| SiteScript.IsActiveLink | script.js:62-64 | a link is active when its href is the current page, or the current page is empty or `index.html` and the href is `index.html` |
| SiteScript.IsActiveLinkReduced | script.js:62-64 | a link is active iff its href is the current page, or the current page is empty and the href is `index.html` |
| SiteScript.ActiveLinks | script.js:56-70 | every navigation link gets one mark, set exactly by that rule |
| SiteScript.AtMostOneActiveLink | script.js:60-69 | with distinct non-empty hrefs at most one link is active |
| SiteScript.FeaturedEarrings | script.js:151-169 | a failed fetch or a missing or empty list takes the error path; otherwise the first `min(3, n)` entries are featured, in order |
| SiteScript.FeaturedOfLargeCatalog | script.js:165-167 | a catalog of three or more entries features exactly its first three |
| SiteScript.CardImage | script.js:193 | a card with no photo (or an empty first one) shows the placeholder, and a URL photo is shown as it is |
| AdminSimple.HasRequiredFields | admin-simple.js:85-88 | an entry passes when its id is non-zero and its name and price are non-empty |
| AdminSimple.ValidDocument | admin-simple.js:79-88 | a document passes when it has an `earings` array and every entry in it passes |
| AdminSimple.LastId | admin-simple.js:127-129 | `lastId` is 0 for an empty list and otherwise the largest id |
| AdminSimple.SampleIdIsNextId | admin-simple.js:127-132 | `lastId + 1` is the same next id the admin form hands out |
| AdminSimple.SampleEaring | admin-simple.js:131-148 | the sample carries the given id, is named `New Earring <id>`, has a non-empty price and one photo |
| AdminSimple.WithSample | admin-simple.js:150 | exactly one entry, the sample numbered with the next id, is appended after the unchanged others, with an id above all of theirs |
| AdminSimple.SampleKeepsDocumentValid | admin-simple.js:124-158 | adding a sample to a valid document with non-negative ids keeps it valid |
| AdminSimple.PreviewOf | admin-simple.js:162-163 | with an `earings` array the preview is its first `min(4, n)` entries; otherwise it shows the error (entries are complete records, see "Left out") |
| AdminSimple.DefaultDocumentIsValid | admin-simple.js:19-41 | the built-in document passes validation |
| AdminSimple.JsonEditor.constructor | admin-simple.js:2-6 | the editor as the page's markup leaves it when `DOMContentLoaded` starts it, before the first load: nothing parsed and no entries previewed |
| AdminSimple.JsonEditor.ValidateJSON | admin-simple.js:76-96 | valid iff the text is JSON with an `earings` array whose every entry has a non-zero id and non-empty name and price; otherwise the outcome says which check failed, with the 1-based number of the first bad entry |
| AdminSimple.JsonEditor.CopyJSON | admin-simple.js:98-106 | the text is copied iff it validates |
| AdminSimple.JsonEditor.DownloadJSON | admin-simple.js:108-122 | a download of `earings-data.json` holding the document happens iff it validates |
| AdminSimple.JsonEditor.UpdatePreview | admin-simple.js:160-176 | the preview becomes the preview of the current content |
| AdminSimple.JsonEditor.AddSampleEaring | admin-simple.js:124-158 | with an `earings` array, exactly one sample with the next id is appended and the preview refreshed; otherwise the editor is unchanged |
| AdminSimple.JsonEditor.LoadCurrentData | admin-simple.js:56-74 | the editor gets the fetched document, or the built-in one when the fetch fails, and the preview is refreshed |
| AdminSimple.LoadFallbackIsValid | admin-simple.js:68-72 | when the fetch fails, the editor ends up holding a document that validates |

## Left out

- DOM work is not modelled: markup, `innerHTML` templates, CSS, modals,
  scrolling, tabs, the mobile menu, the chat widget and notifications. They
  only present the state the model computes.
- Network fetches (`header.html`, `footer.html`, `earings-data.json`) are
  parameters: the fetched document, or `None` when the request fails.
- `loadEaringsFromStorage` (admin-form.js:310-319) falls back to an `async`
  function when `jfEarings` is absent, so `earings` is then a Promise, not a
  list. As written, the admin form is then broken on a browser with nothing
  stored: `earings.map` in `loadEaringsList` (admin-form.js:197) throws during
  start-up, and later `earings.push` (171), `earings.find` (238) and
  `earings.filter` (274) throw, so saving, editing and deleting all fail and
  `jfEarings` is never written. The model describes the evidently intended
  form instead: it takes the list the fetch would produce as a parameter and
  works on it. The Promise path and asynchronous behaviour are not modelled.
- Timers are not modelled: `setTimeout` notifications, the debounced
  preview and the chat bot's delayed reply.
- JSON text is not modelled. `JSON.parse`/`JSON.stringify` become an
  `Option<Document>`, and top-level keys other than `earings` are not
  kept. An `earings` value that is not an array counts as missing.
- "Truthy" fields in the JSON editor are modelled as a non-zero id and a
  non-empty name and price. Other falsy JSON values (null, NaN, false) have
  no counterpart, because ids are integers and names and prices are
  strings.
- `encodeURIComponent` and the `data:` URI of a download are not modelled.
  A download is its file name and the document it holds.
- Clipboard `execCommand` is not modelled. A copy is the document placed on
  the clipboard.
- `confirm` is modelled as a boolean argument.
- The photo previews and `Image` probing in the admin form are not
  modelled, and neither are the Unsplash URL numbering in the catalog
  page's cards and gallery or the click that stores `openProductModal` for
  a featured card. They are cosmetic.
- AdminForm.AdminFormPage.SaveEaring: `form.reset()` restores the form's
  HTML defaults, and the model resets every field to the empty string
  instead, because those defaults live in the HTML.
- Catalog.NextId: ids are unbounded integers, while JavaScript numbers are
  doubles that hold integers exactly only below 2^53. For a list holding the
  id 2^53, `Math.max(...ids) + 1` gives that same id again, so the source can
  create a duplicate; the results that ids stay distinct
  (`Catalog.AppendNextIdKeepsUnique`, `AdminSimple.WithSample`,
  `AdminForm.AdminFormPage.SaveEaring`) hold only for ids below 2^53.
  The next id is also computed from the list as it is now, so deleting the
  entry with the largest id and then saving hands that id out again
  (`Catalog.DeleteNewestThenNextIdReuses`): ids are reused and do not only
  increase.
  Likewise `JsBuiltins.IntToString` writes every integer in plain decimal,
  not in the exponent form JavaScript uses from 1e21 on.
- AdminSimple.PreviewOf: every catalog entry is modelled as a complete
  record holding all fourteen keys with their types. The JSON editor accepts
  an entry that has only a truthy id, name and price (admin-simple.js:85),
  and `updatePreview` then reads `earing.images[0]` unguarded
  (admin-simple.js:167): an entry without `images` among the first four
  makes the preview show "Invalid JSON format" instead of the entries. That
  error has no counterpart here, and neither have `null` entries, which make
  `validateJSON` and `addSampleEaring` throw a TypeError instead of reporting
  a missing field. A missing id, name or price exists only as `0` or `""`.
- Math.max over ids in the JSON editor: the model takes ids as integers,
  so the NaN that `Math.max` gives for a non-numeric id has no
  counterpart.
