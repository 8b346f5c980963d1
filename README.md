# Product catalogue search page and product form — verified model

This project models the two pieces of logic in a small React product catalogue
front end: the search page (`day-41-react/src/pages/Search/index.jsx`) and
the product creation form (`day-41-react/src/components/ProductForm/index.jsx`).

- **Pagination window** (`Pagination`). `handleRenderPages` computes the list of
  page buttons and "..." markers. It takes the current page and the page count,
  with a run of at most five consecutive pages. `RenderPages` builds the list
  item by item, as the source does, and is proved equal to the specification
  function `Window`. Lemmas then prove what the window means. Page numbers
  ascend strictly. Only the current page is marked active. The current page
  has a button iff it lies in `[1, totalPages]`. With at least one page, every
  number is in range. For a current page in `[1, totalPages]`, the window opens
  with page 1 and closes with the last page, neighbouring buttons are
  consecutive pages, and each "..." stands for at least one hidden page. The
  page is never clamped, so a current page beyond the page count can leave a
  window that ends in a "..." with no button after it (`OutOfRangeWindow`).
- **Search state** (`Search`). This covers seeding `page`, `per_page` and `q`
  from the query string, the search-mode threshold, and the three effects.
  It also covers the module-global debounce slot, the timer firing, and
  responses that settle in any order. `SearchPage` is a class whose fields are
  the component's state. The URLSearchParams object is its own class,
  `Params`, because the scheduled callback keeps a reference to the object of
  the render that scheduled it. The later effects of that render change the
  object in place, and the response writes it back to the address bar.
- **Product form** (`ProductForm`). This covers the thirteen empty fields, the
  change handler, and the request body, whose tags are split on commas and
  trimmed. It covers the projection of the server's field errors to one
  message per field, done by a loop as the source's `forEach`, and the submit
  outcomes.
- **JavaScript helpers** (`JsText`, `JsNumber`). These model `trim` (with
  ECMAScript's white-space set), `split` and `join` on one character, and
  `String(n)`/`Number(s)` on decimal integers, exactly rather than as
  doubles, with their round trips. `JsText` also counts a string's `length`
  in UTF-16 code units, as JavaScript does.

In these cases the model follows the code, not what a reader might expect:
- Below three UTF-16 code units the search effect does not call `clearTimeout`. A
  search scheduled earlier still fires. Its results replace the list, and its
  own `q` and page are written back to the address bar. `StaleSearchExample`
  walks through this case.
- A change of page or page size outside search mode does not reschedule
  anything.
- `q` is written to the address bar only when a search succeeds, not when the
  text changes.
- `page` is never clamped to the page count that a response reports.
- A submission whose ok response carries field errors still navigates to
  `/Products`.

## Model

| member | source | states |
|---|---|---|
| `Pagination.RenderPages` | day-41-react/src/pages/Search/index.jsx:60-104 | the list built by pushing items in the source's order equals the window `Window(page, totalPages)`, for every page and page count |
| `Pagination.Run` | day-41-react/src/pages/Search/index.jsx:76-86 | the run from `startPage` to `endPage` holds `endPage - startPage + 1` buttons (none if empty); the k-th is page `startPage + k`, active iff it equals the current page |
| `Pagination.WindowLayout` | day-41-react/src/pages/Search/index.jsx:62-101 | `startPage >= 1`; the run has at most `PageLimit` = 5 buttons; a page-1 button leads iff `startPage > 1`, then "..." iff `startPage > 2`; the run follows them; the last page trails iff `endPage < totalPages`, preceded by "..." iff `endPage < totalPages - 1` |
| `Pagination.WindowAscending` | day-41-react/src/pages/Search/index.jsx:62-101 | for every input, page numbers strictly ascend through the window, so no page number appears twice |
| `Pagination.WindowActiveIsCurrent` | day-41-react/src/pages/Search/index.jsx:65-101 | for every input, a button is marked active iff its number is the current page (the leading and trailing buttons never are) |
| `Pagination.WindowShowsCurrent` | day-41-react/src/pages/Search/index.jsx:62-86 | an active button for the current page exists iff `1 <= page <= totalPages`; outside that range no button has the current page's number |
| `Pagination.WindowInRange` | day-41-react/src/pages/Search/index.jsx:62-101 | with at least one page, every button's number lies in `[1, totalPages]` |
| `Pagination.WindowEnds` | day-41-react/src/pages/Search/index.jsx:62-101 | for a current page in range, the window is non-empty, starts with page 1 and ends with page `totalPages` |
| `Pagination.WindowNeighbours` | day-41-react/src/pages/Search/index.jsx:65-101 | for a current page in range, two adjacent buttons are consecutive pages: no page is skipped without a "..." |
| `Pagination.WindowEllipses` | day-41-react/src/pages/Search/index.jsx:72-91 | for a current page in range, every "..." stands between two buttons whose numbers differ by at least two |
| `Pagination.SinglePageWindow` | day-41-react/src/pages/Search/index.jsx:60-104 | page 1 of 1 gives a single active button 1 and no "..." |
| `Pagination.MiddleWindow` | day-41-react/src/pages/Search/index.jsx:60-104 | page 5 of 20 gives 1, "...", 3 to 7 with 5 active, "...", 20 |
| `Pagination.FirstPageWindow` | day-41-react/src/pages/Search/index.jsx:60-104 | page 1 of 20 gives 1 (active) to 5, "...", 20 |
| `Pagination.LastPageWindow` | day-41-react/src/pages/Search/index.jsx:60-104 | page 20 of 20 gives 1, "...", 18, 19, 20 (active): the run is not shifted left near the end |
| `Pagination.OutOfRangeWindow` | day-41-react/src/pages/Search/index.jsx:60-104 | page 7 of 3, reachable because the page is never clamped, gives only 1 and a dangling "...": the run from 5 to 3 is empty and no last-page button follows |
| `JsText.Utf16Length` | day-41-react/src/pages/Search/index.jsx:19 | a string's `length` counts UTF-16 code units, at least one and at most two per character |
| `JsText.Utf16LengthAppend` | day-41-react/src/pages/Search/index.jsx:19 | the code-unit length of a concatenation is the sum of the lengths of its parts |
| `Search.SearchModeIff` | day-41-react/src/pages/Search/index.jsx:19 | search mode (`trim().length >= 3`, the length in UTF-16 code units) holds iff some stretch of the text that starts and ends with non-white-space is at least 3 code units long |
| `Search.EmojiSearchMode` | day-41-react/src/pages/Search/index.jsx:19 | "a😀" (two characters, three code units) is in search mode |
| `Search.ShortTextIsNotSearch` | day-41-react/src/pages/Search/index.jsx:19 | a text shorter than 3 code units is never in search mode, whatever its white space |
| `Search.InitialText` | day-41-react/src/pages/Search/index.jsx:17 | the seeded search text is the `q` parameter, or empty when there is none |
| `Search.InitialPage` | day-41-react/src/pages/Search/index.jsx:14 | the seeded page is the number of the `page` parameter when that is a nonzero number; a missing, zero or non-numeric one gives 1, so the page is never 0 |
| `Search.InitialPerPage` | day-41-react/src/pages/Search/index.jsx:15 | the seeded page size is the `per_page` parameter when that is present and non-empty; a missing or empty one gives "10", so it is never empty |
| `Search.PageParamRoundTrip` | day-41-react/src/pages/Search/index.jsx:14-53 | after the page effect writes page p into `page`, seeding reads p back (1 when p is 0) |
| `Search.PerPageParamRoundTrip` | day-41-react/src/pages/Search/index.jsx:15-58 | after the page-size effect writes `per_page`, seeding reads it back (the default when it is empty) |
| `Search.SearchPage.constructor` | day-41-react/src/pages/Search/index.jsx:10-58 | mounting seeds `q`, `page` and `per_page` from the address bar, sets totalPages 1, empty results, not loading; then it runs the three effects: `q` dropped below the threshold, `page` and `per_page` written, one search waiting in search mode |
| `Search.SearchPage.Render` | day-41-react/src/pages/Search/index.jsx:10 | a render builds a fresh params object equal to the address bar's query and changes nothing else |
| `Search.SearchPage.SearchEffect` | day-41-react/src/pages/Search/index.jsx:20-48 | in search mode the slot holds exactly the new search (the previous one is replaced); below the threshold results are emptied, `q` is deleted from the params and the address bar, and the waiting search is left in place |
| `Search.SearchPage.PageEffect` | day-41-react/src/pages/Search/index.jsx:50-53 | only the `page` key of the params is set, to the page's decimal text, and the address bar takes the params |
| `Search.SearchPage.PerPageEffect` | day-41-react/src/pages/Search/index.jsx:55-58 | only the `per_page` key is set, and the address bar takes the params |
| `Search.SearchPage.ChangeSearchInput` | day-41-react/src/pages/Search/index.jsx:19-48 | an unchanged text changes nothing; otherwise a fresh render runs the search effect with the new text |
| `Search.SearchPage.ChangePage` | day-41-react/src/pages/Search/index.jsx:20-53 | a new page runs the search effect then sets only `page` (other keys unchanged, `q` also dropped below the threshold); seeding from the new address bar gives the page back |
| `Search.SearchPage.ChangePerPage` | day-41-react/src/pages/Search/index.jsx:20-58 | a new page size runs the search effect then sets only `per_page`; seeding from the new address bar gives it back |
| `Search.SearchPage.Fire` | day-41-react/src/pages/Search/index.jsx:23-27 | the waiting search, if any, is sent (appended to the searches in flight), the slot empties and the loading screen goes up |
| `Search.SearchPage.Settle` | day-41-react/src/pages/Search/index.jsx:28-41 | a search in flight settles in any order: on success its data and last page replace the results and page count and its own params, with `q` set to its text, become the address bar; on failure neither changes; loading ends either way |
| `JsText.Trim` | day-41-react/src/pages/Search/index.jsx:19 | `trim` returns the slice of the text that starts and ends with non-white-space, all outside it being white space |
| `JsText.TrimIdempotent` | day-41-react/src/components/ProductForm/index.jsx:47 | trimming an already trimmed text changes nothing |
| `JsText.Split` | day-41-react/src/components/ProductForm/index.jsx:47 | `split(",")` gives one more piece than there are commas, and no piece holds a comma |
| `JsText.JoinSplit` | day-41-react/src/components/ProductForm/index.jsx:47 | joining the pieces of a split with the separator gives the text back |
| `JsText.SplitJoin` | day-41-react/src/components/ProductForm/index.jsx:47 | splitting the join of separator-free pieces gives the pieces back |
| `JsNumber.NumberOfIntToString` | day-41-react/src/pages/Search/index.jsx:14 | `Number(String(p)) === p` for every integer page p, as used when the page written to the address bar is read back |
| `ProductForm.InitialFormValues` | day-41-react/src/components/ProductForm/index.jsx:13-27 | the initial form has exactly the thirteen listed fields, all empty |
| `ProductForm.InitialFieldCount` | day-41-react/src/components/ProductForm/index.jsx:13-27 | the thirteen field names are distinct, so the initial form has thirteen entries |
| `ProductForm.SetFormValue` | day-41-react/src/components/ProductForm/index.jsx:29-34 | the field named by the event takes the event's value and every other field is unchanged |
| `ProductForm.ApplyEditsValues` | day-41-react/src/components/ProductForm/index.jsx:29-34 | after any series of edits to existing fields, the form keeps exactly its fields and each holds its last edited value, or its value before the edits |
| `ProductForm.SplitTags` | day-41-react/src/components/ProductForm/index.jsx:47 | the tag list has one more tag than the text has commas, and every tag is trimmed at both ends |
| `ProductForm.TagsArePieces` | day-41-react/src/components/ProductForm/index.jsx:47 | each tag is the trimmed text between two commas, and no tag holds a comma |
| `ProductForm.EmptyTags` | day-41-react/src/components/ProductForm/index.jsx:47 | an empty tag field is sent as `[""]` |
| `ProductForm.TagsOfJoined` | day-41-react/src/components/ProductForm/index.jsx:47 | trimmed, comma-free tags come back unchanged from their comma-joined text |
| `ProductForm.BuildPayload` | day-41-react/src/components/ProductForm/index.jsx:45-48 | the body has the form's keys; every field but `tags` is sent as its text unchanged, and `tags` as the split, trimmed list |
| `ProductForm.ProjectErrors` | day-41-react/src/components/ProductForm/index.jsx:57-62 | the error map has the same keys as the response's `errors`, each holding that field's first message (nothing for an empty list) |
| `ProductForm.Form.constructor` | day-41-react/src/components/ProductForm/index.jsx:10-27 | the form starts with the initial fields, not loading, no message, no errors, nothing sent, no navigation |
| `ProductForm.Form.OnChange` | day-41-react/src/components/ProductForm/index.jsx:29-34 | a change event replaces the form by `SetFormValue` of it and changes nothing else |
| `ProductForm.Form.HandleSubmit` | day-41-react/src/components/ProductForm/index.jsx:36-49 | submitting sets loading and posts exactly `BuildPayload` of the current form |
| `ProductForm.Form.Settle` | day-41-react/src/components/ProductForm/index.jsx:50-70 | a response settles a submission in flight; loading ends in every outcome; a failure sets the failure message and does not navigate; an ok response navigates to `/Products` even with field errors, recording their projection |

## Left out

- JSX rendering, CSS, the `Loading` and `ProductList` components, `PropTypes` and the route table in `day-41-react/src/App.jsx`: they are presentation. The window is a list of abstract items.
- `fetch`, JSON parsing, `history.replaceState`, `navigate` and `console.log`: these are foreign calls. Responses are inputs of `Settle`, the address bar is the `url` field, and navigation is the `navigatedTo` field.
- The text of the search request URL (`q` is interpolated without encoding): a request records its text, page and page size instead.
- URLSearchParams serialisation, which follows the WHATWG URL Standard: the query is a map from names to values, so parameter order and repeated names are not modelled.
- The 500 ms quiet period and all timing: the timer firing is the `Fire` event.
- The interleaving of a timer or response callback between a render and its effects: each commit runs its effects at once.
- JS `Number` on text that is not a decimal integer (fractions, exponents, hexadecimal, `Infinity`): `NumberOf` reads it as NaN, so the seeded page falls back to 1 where JavaScript would give another number.
- JS number precision: integers are exact here. JavaScript rounds decimal integers above 2^53 to the nearest double, so `?page=9007199254740993` seeds 9007199254740992 there, and `String` writes numbers from 1e21 up in exponent form; `NumberOfIntToString` holds only within that safe range in JavaScript.
- `Search.SearchPage.ChangePerPage`: the page size is a string (default "10"). A change from the number 10 to the string "10" counts as a change in React. Here it counts as no change, so that re-render is not modelled.
- `Search.SearchPage.constructor`: the module-global debounce slot starts empty. A timer left by an earlier mount of the page, which outlives the component, is not modelled.
- Response shapes the code does not check (`data` missing, an error entry that is not a list): responses are typed.
- `ProductForm.Form.Settle`: which submission a response belongs to is not tracked. The loading screen replaces the form, so a second submission cannot start while one is in flight.
- Browser form validation (`required`, `type="number"`): every field value is a string, as the code reads it.
