# Picture gallery page: paging, popup, loader and thumbnail locators

The gallery page loads pages of picture records from the picsum.photos
catalog. It shows each record as a card with a scaled-down thumbnail. A
"load more" control requests the next page until the page cap (34) is
reached. Clicking a card opens a popup with a larger preview, and a loader
shows while requests are in flight. This project models the parts of
`src/scripts/index.js` whose behaviour can be stated:

- `cropImage`, which rewrites a picture locator
  `https://<domain>/<key>/<id>/<width>/<height>` to scaled dimensions
  (module `Locator`, with string helpers in `Text`).
- The two request URLs (module `Catalog`).
- The card and popup fields written for a record (module `Views`).
- The page state and its event handlers. `PageModel` gives them as
  functions on a state value, with lemmas about runs of them. `Gallery.Page`
  is a class whose fields the handlers update in place; each method is
  specified by the matching `PageModel` step.

Network fetches are represented by a log of issued requests. A response
enters the model as the record list passed to `RenderPictures` or
`RenderPopupPicture`. The loader's 700 ms timer is an event (`TimerFires`)
that may occur once per armed hide.

Where the intent of the code and the code itself differ, the model keeps
both. One version is as written and one is corrected, and the rest of the
model uses the corrected one (see "## Findings"). Three behaviours that a
cleaner design would avoid are kept exactly as the code has them:
- A later `showLoader` does not cancel an armed hide.
- The page counter advances on every click, before any request is made.
- An empty record list raises an error.

## Model

| member | source | states |
|---|---|---|
| Text.JoinSplit | src/scripts/index.js:77 | joining the pieces of `split('/')` with '/' gives back the original text |
| Text.SplitJoin | src/scripts/index.js:77-81 | splitting a '/'-joined list of pieces that contain no '/' gives back exactly those pieces |
| Text.ValueDigits | src/scripts/index.js:78-81 | a number printed by a template literal reads back (unary `+`) as the same number |
| Text.DigitsValue | src/scripts/index.js:78-81 | a digit string without leading zeros, read as a number and printed again, is unchanged |
| Locator.CropImage | src/scripts/index.js:76-82 | the rewritten locator splits into "https:", "", the domain, key and id of the input unchanged, then the width and height divided by `size` rounded down, printed in decimal; `size` defaults to 2 |
| Locator.CropImageDims | src/scripts/index.js:76-81 | the result is again a rewritable locator whose width and height read back as floor(width/size) and floor(height/size), never more than the originals |
| Locator.FloorDivIsDiv | src/scripts/index.js:78-79 | the floor division used for the new dimensions equals `n / size` and is at most `n` |
| Locator.CropTwice | src/scripts/index.js:76-81 | cropping by `a` and then by `b` gives the same locator as cropping once by `a * b` |
| Locator.CropByOne | src/scripts/index.js:76-81 | cropping by 1 a locator already in printed form (https, seven pieces, no leading zeros) returns it unchanged |
| Catalog.ListUrlParams | src/scripts/index.js:31-33 | with '&' as separator, the list URL's query holds exactly `page` and `limit`, in that order, whose values read back as the requested numbers |
| Catalog.ListUrlAsWrittenParams | src/scripts/index.js:31-33 | the list URL as written has one query parameter, `page`, whose value also carries ";limit=N"; no `limit` parameter is found |
| Catalog.InfoUrlId | src/scripts/index.js:43-45 | the detail URL's '/'-separated pieces are https, picsum.photos, "id", the requested id and "info" |
| Views.Cards | src/scripts/index.js:97-108 | one card per record, in list order: card `i` holds the fields of record `i` |
| Views.CardFields | src/scripts/index.js:100-105 | a card's href is the record's `url`, data-id its `id`, alt its `author`; its src is the same picture (domain, key, id) at floor(dimension / 5) |
| Views.PopupFields | src/scripts/index.js:125-129 | the popup's link is `download_url`; alt and caption are the author; its src is the card's picture at floor(dimension / 2), never smaller than the card's thumbnail |
| Views.FillCards | src/scripts/index.js:97-108 | the card loop, with a fresh template copy per record, yields exactly `Cards(list)` |
| Views.CardsAsWritten | src/scripts/index.js:89-108 | as written: empty list → EmptyList error; one record → its card; two or more → the second `querySelector('a')` finds no link, an error at index 1; succeeds iff the list has one record |
| Views.FillCardsAsWritten | src/scripts/index.js:89-108 | the loop with one template copy taken before it yields exactly `CardsAsWritten(list)` |
| Views.AsWrittenAgreesOnSingletons | src/scripts/index.js:94-107 | the loop as written gives the same cards as the loop with a copy per record iff the list has exactly one record |
| PageModel.ShowLoader | src/scripts/index.js:54-56 | the loader becomes visible; armed hides stay armed; nothing else changes |
| PageModel.HideLoader | src/scripts/index.js:62-67 | one more hide is armed; visibility does not change yet; nothing else changes |
| PageModel.TimerFires | src/scripts/index.js:63-65 | an armed timer fires: the loader is hidden and one fewer hide is pending; nothing else changes |
| PageModel.GetPictures | src/scripts/index.js:31-33 | shows the loader and appends exactly one list request for (page, limit); nothing else changes |
| PageModel.GetPictureInfo | src/scripts/index.js:43-45 | shows the loader and appends exactly one detail request for the id; nothing else changes |
| PageModel.TogglePopup | src/scripts/index.js:140-142 | the popup's open state flips; nothing else changes |
| PageModel.ToggleTwice | src/scripts/index.js:140-142 | two toggles restore the original state |
| PageModel.Init | src/scripts/index.js:20-23 | after `initialState` the control is enabled, the counter is the markup's, and the only request is page 1 with limit 10; loader visible; nothing rendered; popup closed and empty; no timer armed |
| PageModel.Click | src/scripts/index.js:152-163 | every click advances the counter by one; if the page read exceeds 34 the control is disabled and no request is made; otherwise exactly one request for the page read (limit 10) is made, the loader is shown and `disabled` is unchanged; nothing else changes |
| PageModel.RenderPictures | src/scripts/index.js:89-112 | an empty list is an EmptyList error; otherwise the records' cards are appended after the existing ones and one hide is armed, nothing else changes |
| PageModel.RenderPopupPicture | src/scripts/index.js:119-135 | the popup shows the record's popup fields, one hide is armed, and the open state flips (rendering while open closes the popup) |
| PageModel.ClicksRun | src/scripts/index.js:152-163 | after n clicks the counter has advanced by n; the requests added are every page from the start counter up to 34, in order, and nothing else; disabled iff already disabled or some click read a page past 34; the loader is shown iff it was or some request was made; nothing else changes |
| PageModel.ClicksStayUnderCap | src/scripts/index.js:157-161 | every request added by clicks is a list request for a page ≤ 34 |
| PageModel.PagingFromTwo | src/scripts/index.js:20-23 | from counter 2 after `initialState`, 33 clicks request pages 2..34 after page 1 and leave the control enabled; the 34th click requests nothing and disables it |
| PageModel.FireAllHides | src/scripts/index.js:62-67 | once all armed timers fire, the loader is hidden iff some hide was armed (otherwise unchanged); nothing else changes |
| PageModel.ShowDoesNotCancelHide | src/scripts/index.js:54-67 | after a hide is armed, any later shows and hides end with the loader hidden once the timers fire, even when the last call was `showLoader` |
| PageModel.RenderPicturesAsWritten | src/scripts/index.js:89-112 | as written: only a list of one record renders (its card appended, one hide armed, the same state as the corrected render); an empty list is EmptyList and every longer list a null link at index 1, with nothing appended and no hide armed |
| PageModel.LoaderAfterRender | src/scripts/index.js:89-112 | from a visible loader with no timer armed: the corrected render of any non-empty list hides it once the timers fire; as written, every list except one of a single record is an error and the loader stays visible |
| PageModel.ClickAsWritten | src/scripts/index.js:152-163 | with the counter kept as text, a click makes the counter's value 10·v+1; it disables iff v > 34, and otherwise requests the text it read |
| PageModel.CounterSkipsPages | src/scripts/index.js:154-155 | for every text counter of 1 or more, a click moves it past v+1 |
| PageModel.CounterFromTwo | src/scripts/index.js:152-163 | text counter "2": the clicks request "2", then "21", and the third click disables; numeric counting requests pages 2, 3, 4 |
| Gallery.Page.constructor | src/scripts/index.js:183 | the page after `initialState()` runs is `PageModel.Init(firstPage)` |
| Gallery.Page.InitialState | src/scripts/index.js:20-23 | enables the control, then does `getPictures()` with the defaults 1 and 10 |
| Gallery.Page.GetPictures | src/scripts/index.js:31-36 | new state is `PageModel.GetPictures` of the old one, with defaults 1 and 10 |
| Gallery.Page.GetPictureInfo | src/scripts/index.js:43-48 | new state is `PageModel.GetPictureInfo` of the old one, with default id "0" |
| Gallery.Page.ShowLoader | src/scripts/index.js:54-56 | new state is `PageModel.ShowLoader` of the old one |
| Gallery.Page.HideLoader | src/scripts/index.js:62-67 | new state is `PageModel.HideLoader` of the old one |
| Gallery.Page.TimerFires | src/scripts/index.js:63-65 | new state is `PageModel.TimerFires` of the old one |
| Gallery.Page.RenderPictures | src/scripts/index.js:89-112 | empty list: returns EmptyList and changes nothing; otherwise the state is `PageModel.RenderPictures`'s |
| Gallery.Page.RenderPicturesAsWritten | src/scripts/index.js:89-112 | with the one template copy: on an error returns it and changes nothing; otherwise the state is `PageModel.RenderPicturesAsWritten`'s |
| Gallery.Page.RenderPopupPicture | src/scripts/index.js:119-135 | new state is `PageModel.RenderPopupPicture` of the old one |
| Gallery.Page.TogglePopup | src/scripts/index.js:140-142 | new state is `PageModel.TogglePopup` of the old one |
| Gallery.Page.ActionHandler | src/scripts/index.js:152-163 | new state is `PageModel.Click` of the old one |

## Left out

- The `fetch` calls and their promise chains (src/scripts/index.js:33-35, 45-47) are network I/O. Each is recorded as an issued `Request`. Responses enter as the records passed to the render operations. No transport or parse failure is modelled, and the script handles none.
- DOM lookups, template cloning, fragments, class lists and listener wiring (src/scripts/index.js:3-11, 94-110, 120-132, 179-181) are browser plumbing. A card and the popup are represented by the values their fields receive.
- `imageHandler` (src/scripts/index.js:171-177) is left out: which element's `data-id` it reads depends on the click target and the card markup, and the markup is not part of this model. The request it makes is `GetPictureInfo`.
- `img.width = picture.width / 10` (src/scripts/index.js:128) is floating-point division and is left out.
- The 700 ms delay is not modelled: a timer firing is an event with no clock. `loaderTimeout.clearTimeout()` (src/scripts/index.js:65) calls something that is not a function on the timer handle. It throws after the loader is already hidden. The model keeps the hiding and drops the exception, which cancels nothing.
- `console.warn` (src/scripts/index.js:158) is output only.
- Gallery.Page.ActionHandler: uses a whole-number counter. The script keeps the counter as text in `data-page`, so `nextPage + 1` concatenates. `PageModel.ClickAsWritten` models that text counter on its own (see Findings).
- Locator.CropImage: requires a locator with at least seven '/'-separated pieces and decimal width and height, and a whole `size` of at least 1. For other inputs the pieces go through JavaScript's number conversion (an empty piece reads as 0, "0x10" as 16, "1e2" as 100, "-5" as -5, a missing piece as NaN, and a size of 0 gives Infinity), and those results are not modelled. Numbers beyond the 2^53 precision of JavaScript numbers are not modelled either.
- Catalog.ListUrlParams: the query parser splits on '&' and at the first '='. It skips empty pieces and does no percent-decoding or '+' handling: every value the script sends is digits.
- The initial `data-page` value and the initial state of the popup and loader come from the page markup, which is not part of this model. The counter is a constructor parameter. The popup is taken to start closed. The loader's initial visibility does not matter, because `initialState` shows it.
- A browser delivers no clicks to a disabled control. This is not modelled: `ActionHandler` describes what the handler does whenever it runs.
- A thrown error (an empty list, or the null link below) ends the promise chain as an unhandled rejection. `PageModel.RenderPicturesAsWritten` and `Gallery.Page.RenderPicturesAsWritten` return the error and leave the page state unchanged: nothing is appended and no hide is armed. The rejection itself is not modelled.
- PageModel.RenderPictures: models the corrected card loop, with a fresh template copy per record, so every non-empty list renders. The script as written renders only a list of one record; `PageModel.RenderPicturesAsWritten` models that (see Findings).
- Gallery.Page.RenderPictures: as `PageModel.RenderPictures`, the corrected loop; `Gallery.Page.RenderPicturesAsWritten` is the method as the script has it.

## Findings

| source | as written | input that shows it | evidently intended | confidence | as-written member | corrected member |
|---|---|---|---|---|---|---|
| src/scripts/index.js:154-155 | `data-page` holds text, so `nextPage + 1` appends "1". Only the `>` test reads the counter as a number | counter "2": the first click requests page 2, the second page 21, and the third reads "211" and disables the control | the counter advances by one per click, so pages 2..34 are requested in turn | high; not executed | PageModel.CounterFromTwo | PageModel.ClicksRun |
| src/scripts/index.js:94-107 | one template copy is taken before the loop. The first `appendChild` moves its content into the fragment, so `querySelector('a')` returns null for the second record and setting `href` throws | a list of two records: nothing is appended to the container and no hide is armed | every record gets its own card, in order, and the loader's hide is armed | high; not executed | PageModel.LoaderAfterRender | Views.FillCards |
| src/scripts/index.js:33 | the query separates `page` and `limit` with ';' | page 1, limit 10: form-urlencoded parsing of the query finds one parameter `page` = "1;limit=10" and no `limit` | `?page=1&limit=10` | medium (the catalog server's own query parsing is not visible); not executed | Catalog.ListUrlAsWrittenParams | Catalog.ListUrlParams |
