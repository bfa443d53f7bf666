# Employee, product and blog tables: a Dafny model

This project models the data core of a small React admin frontend. The frontend manages three entities, employees, products and blog posts. The model covers three parts:

- **The data hooks.** `useDataEmployee`, `useDataProduct` and `useDataBlog` become one class, `DataHooks.Hook`, parameterised by the entity. Each hook holds a record list, a `loading` flag and an `error` slot. It fetches the list on mount and offers fetch, refresh, add, update and delete against a REST endpoint.
  - The server's answer is an input, of type `Rest.Reply`.
  - A log of the requests sent (`sent`) records each request. It also records the `loading` and `error` values in force when the request left.
- **The employee table.** Its reconciliation maps a backend record with Spanish or English keys onto one field set, using JavaScript `||` precedence. It also holds:
  - the two write payloads, which carry every field under both names;
  - the search filter and the age column;
  - the handlers that drive the hook and the table's own modal state.
- **The product and blog tables.** Each keeps a local seeded list in memory. The product table searches, creates, edits and deletes products. The blog table only searches and creates posts, and shows each post's content as a 40-character preview.

JavaScript values are modelled by `Js.Value`, and records by maps from `Fields.Key` to values. `Fields.Key` has one constructor per property name the components use, plus `Other(name)` for any other property.

Modules:

| module | role |
|---|---|
| `Fields` | property names |
| `Js` | values, truthiness, `String()`, ASCII `toLowerCase`, `includes`, decimal printing |
| `RecordLists` | the `map`/`filter` updaters applied to record lists |
| `Rest` | requests, replies, URLs, error messages |
| `DataHooks` | the hooks |
| `Employees` | the employee table |
| `Products` | the product table |
| `Blogs` | the blog table |

Modelling choices that follow the code:

- Mutations never touch `loading`.
- The hooks post the payload they are given. They append the server's record unmapped.
- There is no zero-value fallback for unparsable numbers: the product table's `parseFloat`/`parseInt` are inputs.
- The employee hook's create POSTs to the misspelt `hhttp:` URL, as written, so it never reaches the server. The hook also has an add to the intended URL, kept as a separate member. Both are listed under Findings.

## Model

| member | source | states |
|---|---|---|
| Js.Or | frontend/components/EmployeTable.jsx:150-155 | `a \|\| b` is truthy iff either operand is, and is one of the two operands |
| Js.Truthy | frontend/components/EmployeTable.jsx:150-155 | the falsy values are `undefined`, `null`, `false`, `0`, `NaN` and `''`; everything else is truthy |
| Js.JsString | frontend/components/ProductTable.jsx:44-45 | the text `String(v)` and a template literal give for each kind of value |
| Js.OrDefaultStable | frontend/components/EmployeTable.jsx:150-155 | re-applying `a \|\| b \|\| d` to its own result, with a falsy default `d`, gives the same value |
| Js.Lower | frontend/components/EmployeTable.jsx:82-84 | lowercasing keeps the length, maps each character, and leaves no upper-case ASCII letter |
| Js.LowerIdempotent | frontend/components/EmployeTable.jsx:82-84 | lowercasing twice is lowercasing once |
| Js.ContainsIffOccurs | frontend/components/EmployeTable.jsx:82-85 | `s.includes(t)` holds iff `t` occurs in `s` at some index |
| Js.Contains | frontend/components/EmployeTable.jsx:82-85 | `s.includes(t)`, characterised by the lemma above |
| Js.LowerContainsPart | frontend/components/ProductTable.jsx:43-47 | a term found in the lowercased part of a string is found in the lowercased whole |
| Js.ContainsEmpty | frontend/components/ProductTable.jsx:43-47 | every string includes the empty string |
| Js.DecimalString | frontend/components/UseDataEmployees.jsx:16 | a status prints as a non-empty digit string with no leading zero |
| Js.DecimalRoundTrip | frontend/components/UseDataEmployees.jsx:16 | reading the printed number back gives the number |
| Js.DecimalInjective | frontend/components/UseDataEmployees.jsx:16 | distinct numbers print differently |
| RecordLists.Count | frontend/components/UseDataEmployees.jsx:101 | the number of entries carrying an id is at most the list length |
| RecordLists.CountAppend | frontend/components/UseDataEmployees.jsx:51 | counts add up over concatenation |
| RecordLists.CountZeroIffAbsent | frontend/components/UseDataEmployees.jsx:101 | the count of an id is zero iff no entry carries it |
| RecordLists.RemoveByKey | frontend/components/UseDataEmployees.jsx:101 | `prev.filter(x => x._id !== id)`, characterised by the `Remove*` lemmas below |
| RecordLists.ReplaceByKey | frontend/components/UseDataEmployees.jsx:78-80 | the updated list has the same length, each matching entry becomes the server record and every other entry stays in place |
| RecordLists.ReplaceUnmatched | frontend/components/UseDataEmployees.jsx:78-80 | an id no entry carries leaves the list unchanged |
| RecordLists.ReplaceIdempotent | frontend/components/UseDataEmployees.jsx:78-80 | updating twice with the same record is updating once |
| RecordLists.ReplaceKeepsCount | frontend/components/UseDataEmployees.jsx:78-80 | a replacement that keeps its id leaves the number of entries with that id unchanged |
| RecordLists.ReplaceBySelf | frontend/components/ProductTable.jsx:66-72 | replacing with a record every matching entry already equals changes nothing |
| RecordLists.RemoveDropsMatches | frontend/components/UseDataEmployees.jsx:101 | removal shortens the list by exactly the count of the id, and every survivor is an original entry without the id |
| RecordLists.RemoveKeepsOthers | frontend/components/UseDataEmployees.jsx:101 | every entry without the id survives removal |
| RecordLists.RemoveAppend | frontend/components/UseDataProducts.jsx:96 | removal works piecewise over concatenation, so survivors keep their relative order |
| RecordLists.RemoveUnmatched | frontend/components/UseDataBlogs.jsx:96 | removing an id no entry carries leaves the list unchanged |
| RecordLists.RemoveIdempotent | frontend/components/UseDataEmployees.jsx:101 | after removal no entry carries the id, so removing it again changes nothing |
| RecordLists.RemoveUniqueAt | frontend/components/UseDataEmployees.jsx:101 | with one matching entry at index `i`, removal is the list without that index |
| RecordLists.AppendCount | frontend/components/UseDataEmployees.jsx:51 | appending a record raises the count of its own id by one |
| RecordLists.Filter | frontend/components/ProductTable.jsx:43-47 | a filter keeps entries of the list that pass the test and is no longer than the list |
| RecordLists.FilterKeeps | frontend/components/ProductTable.jsx:43-47 | every entry passing the test survives the filter |
| RecordLists.FilterSame | frontend/components/ProductTable.jsx:43-47 | tests that agree on every entry filter alike |
| RecordLists.FilterAll | frontend/components/ProductTable.jsx:43-47 | a filter that passes every entry returns the list itself |
| RecordLists.FilterAppend | frontend/components/ProductTable.jsx:43-47 | filtering works piecewise over concatenation, so the kept entries stay in list order |
| Rest.CollectionUrl | frontend/components/UseDataEmployees.jsx:14 | the collection endpoint is an `http://` URL |
| Rest.ItemUrl | frontend/components/UseDataEmployees.jsx:64 | the item endpoint is the collection endpoint followed by `/` and the id |
| Rest.CreateUrlAsWritten | frontend/components/UseDataEmployees.jsx:37 | the URL each hook's create names: `hhttp://` for employees, the collection endpoint otherwise |
| Rest.CreateUrl | frontend/components/UseDataProducts.jsx:35 | the URL every create is meant to name: the collection endpoint |
| Rest.Transmit | frontend/components/UseDataEmployees.jsx:37 | `fetch` passes the server's answer through for an `http://` URL and rejects any other before a request leaves |
| Rest.StatusOk | frontend/components/UseDataEmployees.jsx:97-101 | a 2xx status, whether or not the body parsed: the only thing a DELETE checks |
| Rest.EmployeeCreateAsWrittenAlwaysRejected | frontend/components/UseDataEmployees.jsx:37 | the employee create URL as written is rejected by `fetch` whatever the server would answer |
| Rest.CreateReachesServer | frontend/components/UseDataProducts.jsx:35 | the corrected create URL passes the server's answer through, and for products and blogs it equals the URL as written |
| Rest.StatusMessage | frontend/components/UseDataEmployees.jsx:16 | the status message starts `Error: ` |
| Rest.FirstSpaceAfterStatus | frontend/components/UseDataEmployees.jsx:16 | in a status message the digits run up to the first space after `Error: ` |
| Rest.StatusMessageInjective | frontend/components/UseDataEmployees.jsx:16 | different statuses or status texts give different messages |
| Rest.FetchErrorMessage | frontend/components/UseDataEmployees.jsx:15-22 | a failed fetch reports the status line for an HTTP failure, else the rejection's own message |
| Rest.MutationErrorMessage | frontend/components/UseDataEmployees.jsx:45-48 | `errorData.message \|\| statusLine` for an HTTP failure, the rejection's own message otherwise; its cases are the next lemma |
| Rest.MutationErrorMessageCases | frontend/components/UseDataEmployees.jsx:45-48 | a truthy `message` in the error body wins; a missing, empty or unparsable one falls back to the status line |
| Rest.MutationMessageAgreesWithFetch | frontend/components/UseDataProducts.jsx:43-46 | the mutation and fetch messages differ only when the error body carries a truthy message |
| DataHooks.Hook.constructor | frontend/components/UseDataEmployees.jsx:4-6 | the hook starts empty with `loading` true and `error` null; mounting (lines 111-113) sends exactly one fetch and ends with `loading` false |
| DataHooks.Hook.Fetch | frontend/components/UseDataEmployees.jsx:8-27 | one GET is sent with `loading` true and `error` cleared; success replaces the list, failure keeps it and records the message; `loading` ends false |
| DataHooks.Hook.Refresh | frontend/components/UseDataProducts.jsx:28-30 | refresh is exactly a fetch |
| DataHooks.Hook.Add | frontend/components/UseDataEmployees.jsx:33-59 | one POST is sent, to the URL as written, with `error` cleared; the employee add is always rejected with `Failed to fetch` and keeps the list; for products and blogs success appends the server's record and resolves with it, and failure keeps the list, records and rejects with the message; `loading` untouched |
| DataHooks.Hook.AddCorrected | frontend/components/UseDataProducts.jsx:33-53 | the add as every hook means it: one POST to the collection endpoint; success appends the server's record and resolves, failure keeps the list, records and rejects with the message |
| DataHooks.Hook.Post | frontend/components/UseDataEmployees.jsx:33-59 | the steps of an add for a given URL: the outcome, list and error follow what `fetch` settles with for that URL |
| DataHooks.Hook.Update | frontend/components/UseDataProducts.jsx:58-82 | one PUT to the item URL; success replaces every entry with that `_id` by the server's record in place, failure keeps the list and rejects |
| DataHooks.Hook.Delete | frontend/components/UseDataBlogs.jsx:84-102 | one DELETE to the item URL; any 2xx status removes exactly the entries with that `_id` without reading the body, any other outcome keeps the list and rejects |
| DataHooks.AddThenDeleteTwice | frontend/components/UseDataEmployees.jsx:90-109 | after an add (which leaves the employee list as it was), a successful delete of the new `_id` leaves no entry with it, and a second delete changes nothing further |
| Employees.EnglishOf | frontend/components/EmployeTable.jsx:150-155 | each dual field's backend name is an English key that the payload maps back to it |
| Employees.FallbackOf | frontend/components/EmployeTable.jsx:150-155 | the fallback of a dual field is falsy and defined (`null` for dates, `''` otherwise) |
| Employees.DetailView | frontend/components/EmployeTable.jsx:147-158 | the detail modal's record, characterised by the `DetailView*` lemmas below |
| Employees.DetailViewKeys | frontend/components/EmployeTable.jsx:147-158 | the detail view holds every key of the record plus the eight rewritten ones |
| Employees.DetailViewKeepsOthers | frontend/components/EmployeTable.jsx:148 | every key the mapping does not rewrite keeps its value, and an absent one stays absent |
| Employees.DetailViewPrecedence | frontend/components/EmployeTable.jsx:150-155 | a dual field shows the Spanish value if truthy, else the English one if truthy, else its fallback |
| Employees.DetailViewIssnumber | frontend/components/EmployeTable.jsx:156 | `issnumber` shows its value if truthy, else `''` |
| Employees.DetailViewIsVerified | frontend/components/EmployeTable.jsx:157 | `isVerified` is kept whenever it is defined, even when falsy, else `false` |
| Employees.DetailViewDefined | frontend/components/EmployeTable.jsx:147-158 | no rewritten field of the detail view is `undefined` |
| Employees.DetailViewIdempotent | frontend/components/EmployeTable.jsx:147-158 | mapping an already mapped record changes nothing |
| Employees.EditFormOf | frontend/components/EmployeTable.jsx:64-76 | the edit form filled from an employee, characterised by the `EditForm*` lemmas below |
| Employees.EditFormKeysExact | frontend/components/EmployeTable.jsx:64-76 | the edit form has exactly the eleven listed fields |
| Employees.EditFormPrecedence | frontend/components/EmployeTable.jsx:65-73 | a dual field is filled Spanish-then-English-then-fallback |
| Employees.EditFormText | frontend/components/EmployeTable.jsx:68-74 | `email`, `password`, `dui` and `issnumber` fall back to `''` |
| Employees.EditFormIsVerified | frontend/components/EmployeTable.jsx:75 | `isVerified` is its value if truthy, else `false` |
| Employees.EditFormAgreesWithDetail | frontend/components/EmployeTable.jsx:62-78 | the edit form and the detail view agree on every dual field and on `issnumber` |
| Employees.EditFormIsVerifiedAgrees | frontend/components/EmployeTable.jsx:75 | on `isVerified` the two agree iff the value is truthy, undefined or `false` |
| Employees.CreatePayload | frontend/components/EmployeTable.jsx:100-120 | the create payload, characterised by the `Payload*` lemmas below |
| Employees.UpdatePayload | frontend/components/EmployeTable.jsx:208-230 | the update payload, characterised by the `Payload*` lemmas below |
| Employees.PayloadKeysExact | frontend/components/EmployeTable.jsx:100-120 | both payloads carry exactly the seventeen listed keys |
| Employees.PayloadDualFields | frontend/components/EmployeTable.jsx:100-120 | each dual field's form value goes out under both its Spanish and its English name |
| Employees.PayloadSharedFields | frontend/components/EmployeTable.jsx:105-109 | `email`, `password` and `dui` go out once, as the form holds them |
| Employees.PayloadFlags | frontend/components/EmployeTable.jsx:111-112 | the create payload defaults `issnumber` to `''` and `isVerified` to `false`; the update payload copies both |
| Employees.CreateIsUpdateWithDefaults | frontend/components/EmployeTable.jsx:208-230 | the create payload is the update payload with the two defaults applied, and equal to it when both flags are truthy |
| Employees.CreatePayloadFalsyFlags | frontend/components/EmployeTable.jsx:111-112 | any falsy `issnumber`/`isVerified` submits as `''`/`false` would |
| Employees.InitialAndResetFormsSubmitAlike | frontend/components/EmployeTable.jsx:124-136 | the initial create form and the reset one differ, yet submit the same payload |
| Employees.PayloadReadsBack | frontend/components/EmployeTable.jsx:100-120 | reading a create payload back through the detail view yields each dual field's form value or its fallback |
| Employees.EditFormRoundTrip | frontend/components/EmployeTable.jsx:62-78 | refilling the edit form from the update payload it produced gives the same edit form |
| Employees.LowerMatch | frontend/components/EmployeTable.jsx:82-84 | `v?.toLowerCase().includes(term.toLowerCase())`: false when absent, throwing on a non-string |
| Employees.RawMatch | frontend/components/EmployeTable.jsx:85 | `v?.includes(term)`, without lowercasing |
| Employees.EmployeeMatches | frontend/components/EmployeTable.jsx:81-86 | the four tests joined by a short-circuit `\|\|`, so a later field is read only when the earlier ones gave false |
| Employees.EmployeeMatchesSearchable | frontend/components/EmployeTable.jsx:81-86 | on string-or-absent fields the search keeps an employee iff the lowercased term is in the lowercased `nombre`, `apellido` or `email`, or the raw term is in `dui` |
| Employees.EnglishKeysAreNotSearched | frontend/components/EmployeTable.jsx:81-86 | an employee with none of the four Spanish-named fields matches no term |
| Employees.EmptyTermKeepsStringFields | frontend/components/EmployeTable.jsx:81-86 | the empty term keeps an employee iff one of the four fields is a string |
| Employees.SearchCaseExamples | frontend/components/EmployeTable.jsx:82-85 | an illustration on fixed records: the name test ignores case, the `dui` test does not |
| Employees.FilterEmployees | frontend/components/EmployeTable.jsx:81-86 | the filter throws iff the test throws on some employee; otherwise it keeps only employees that match |
| Employees.FilterEmployeesKeeps | frontend/components/EmployeTable.jsx:81-86 | when the test throws on no employee, every matching employee survives the filter |
| Employees.FilterEmployeesAppend | frontend/components/EmployeTable.jsx:81-86 | the filter works piecewise over concatenation: it throws iff either part throws, and otherwise keeps the matches in list order |
| Employees.CalculateAge | frontend/components/EmployeTable.jsx:185-197 | 'N/A' iff there is no birthday; otherwise the age's anniversary is on or before today and the next one is after it |
| Employees.AgeIsUnique | frontend/components/EmployeTable.jsx:185-197 | any number of years with that property is the computed age |
| Employees.DeleteMapping | frontend/components/EmployeTable.jsx:331-338 | the record put up for confirmation, characterised by the next lemma |
| Employees.DeleteMappingFields | frontend/components/EmployeTable.jsx:331-338 | the confirmation record shows the detail view's name and surname and keeps every other field, `_id` included |
| Employees.EmployeeTable.constructor | frontend/components/EmployeTable.jsx:27-58 | the table starts with both forms blank, no modal open, and its hook's single mount fetch done: `loading` false, the fetched list and no error on success, an empty list and the status or network message otherwise |
| Employees.EmployeeTable.OpenDetailModal | frontend/components/EmployeTable.jsx:142-164 | the detail modal shows the record's detail view |
| Employees.EmployeeTable.EditEmployeeChanged | frontend/components/EmployeTable.jsx:62-78 | the edit form is refilled from the employee under edit, and left alone when there is none |
| Employees.EmployeeTable.OpenEditModal | frontend/components/EmployeTable.jsx:200-202 | the employee goes under edit and the edit form is filled from it |
| Employees.EmployeeTable.HandleInputChange | frontend/components/EmployeTable.jsx:88-91 | one field of the create form takes the new value |
| Employees.EmployeeTable.HandleEditInputChange | frontend/components/EmployeTable.jsx:93-96 | one field of the edit form takes the new value |
| Employees.EmployeeTable.OpenDeleteConfirm | frontend/components/EmployeTable.jsx:331-338 | the confirmation holds the row's delete mapping |
| Employees.EmployeeTable.HandleCreate | frontend/components/EmployeTable.jsx:98-140 | the create payload is posted to the misspelt URL; whatever the server would answer, the list stays, the hook shows `Failed to fetch`, and the modal and the form stay as they were |
| Employees.EmployeeTable.HandleCreateCorrected | frontend/components/EmployeTable.jsx:98-140 | over the corrected add: a resolved add appends the server's record, clears the error, closes the modal and resets the form; a rejection keeps all of them and records the message |
| Employees.EmployeeTable.AfterAdd | frontend/components/EmployeTable.jsx:123-139 | a resolved add closes the modal and resets the form; a rejection leaves both |
| Employees.EmployeeTable.HandleUpdate | frontend/components/EmployeTable.jsx:205-235 | without an employee under edit nothing is sent; otherwise the update payload goes to its `_id`; only a resolved update replaces the entries in place, clears the error and closes the editor, a rejection records the message |
| Employees.EmployeeTable.HandleDeleteConfirm | frontend/components/EmployeTable.jsx:237-245 | without a confirmation nothing happens; otherwise its `_id` is deleted; a 2xx status removes the entries, clears the error and closes the confirmation, anything else records the message and keeps it open |
| Employees.DeleteRow | frontend/components/EmployeTable.jsx:329-341 | the delete button and then the confirmation delete the row's own `_id`: a 2xx status drops it and clears the error, anything else keeps the list and records the message |
| Employees.EmployeeTable.Filtered | frontend/components/EmployeTable.jsx:81-86 | the rows on show: the hook's list filtered by the search term |
| Products.InitialProductIds | frontend/components/ProductTable.jsx:4-26 | the seed holds three products with ids 1, 2 and 3, one each |
| Products.RowText | frontend/components/ProductTable.jsx:44 | the searched text `${nombre} ${precio} ${stock}` |
| Products.ProductMatches | frontend/components/ProductTable.jsx:43-47 | the lowercased row text includes the lowercased term |
| Products.FilterProducts | frontend/components/ProductTable.jsx:43-47 | `filteredProducts`, characterised by the next lemmas |
| Products.FilterProductsExact | frontend/components/ProductTable.jsx:43-47 | the search keeps a product iff the lowercased `nombre precio stock` includes the lowercased term |
| Products.EmptyTermKeepsAllProducts | frontend/components/ProductTable.jsx:43-47 | the empty term shows every product, in order |
| Products.ProductSearchIgnoresCase | frontend/components/ProductTable.jsx:43-47 | lowercasing the term first changes nothing |
| Products.FieldHitFindsProduct | frontend/components/ProductTable.jsx:43-47 | a term found in the name, the price or the stock finds the product |
| Products.NewProduct | frontend/components/ProductTable.jsx:54-60 | the created product, characterised by the next two lemmas |
| Products.NewProductFields | frontend/components/ProductTable.jsx:54-60 | the new product has the form's fields, the clock reading as id and the parsed price and stock |
| Products.CreateGivesFreshId | frontend/components/ProductTable.jsx:57-61 | a clock reading no product carries becomes the id of exactly one product |
| Products.Overlay | frontend/components/ProductTable.jsx:68 | `{...editProduct, ...form}`, characterised by the next lemma |
| Products.OverlayFormWins | frontend/components/ProductTable.jsx:68 | in the overlay every form field wins, unparsed, and the rest come from the product under edit |
| Products.UpdateKeepsIdCount | frontend/components/ProductTable.jsx:66-72 | when the form keeps the product's id, an update keeps the number of products with that id |
| Products.UntouchedEditWritesBack | frontend/components/ProductTable.jsx:132-135 | saving an untouched edit form leaves the list unchanged when every product with that id is that product |
| Products.ProductTable.constructor | frontend/components/ProductTable.jsx:29-41 | the table starts with the seeded products, an empty search and an empty form |
| Products.ProductTable.Filtered | frontend/components/ProductTable.jsx:43-47 | the rows on show: the list filtered by the search term |
| Products.ProductTable.HandleInputChange | frontend/components/ProductTable.jsx:49-52 | one form field takes the typed text |
| Products.ProductTable.HandleCreate | frontend/components/ProductTable.jsx:54-64 | exactly one product is appended after the prior ones; the modal closes and the form empties |
| Products.ProductTable.OpenEdit | frontend/components/ProductTable.jsx:132-135 | the product goes under edit and becomes the form |
| Products.ProductTable.CancelEdit | frontend/components/ProductTable.jsx:232 | cancelling closes the editor and leaves the form as it is |
| Products.ProductTable.HandleUpdate | frontend/components/ProductTable.jsx:66-72 | every product with the edited id becomes the overlay, in place; the editor closes and the form empties |
| Products.ProductTable.OpenDelete | frontend/components/ProductTable.jsx:141 | the product awaits confirmation |
| Products.ProductTable.HandleDelete | frontend/components/ProductTable.jsx:74-77 | exactly the products with the confirmed id are removed; the confirmation closes |
| Products.EditAndSave | frontend/components/ProductTable.jsx:132-135 | opening the editor and saving at once writes the product itself back under its id |
| Blogs.InitialBlogIds | frontend/components/BlogTable.jsx:4-17 | the seed holds two posts with ids 1 and 2, one each |
| Blogs.RowText | frontend/components/BlogTable.jsx:32 | the searched text `${titulo} ${contenido}` |
| Blogs.BlogMatches | frontend/components/BlogTable.jsx:31-33 | the lowercased row text includes the lowercased term |
| Blogs.FilterBlogs | frontend/components/BlogTable.jsx:31-33 | `filteredBlogs`, characterised by the next lemmas |
| Blogs.FilterBlogsExact | frontend/components/BlogTable.jsx:31-33 | the search keeps a post iff the lowercased `titulo contenido` includes the lowercased term |
| Blogs.EmptyTermKeepsAllBlogs | frontend/components/BlogTable.jsx:31-33 | the empty term shows every post, in order |
| Blogs.BlogSearchIgnoresCase | frontend/components/BlogTable.jsx:31-33 | lowercasing the term first changes nothing |
| Blogs.FieldHitFindsBlog | frontend/components/BlogTable.jsx:31-33 | a term found in the title or the content finds the post |
| Blogs.NewBlog | frontend/components/BlogTable.jsx:41 | the created post, characterised by the next lemma |
| Blogs.NewBlogFields | frontend/components/BlogTable.jsx:40-42 | the new post is the form plus the clock reading as id, which no earlier post then shares |
| Blogs.Preview | frontend/components/BlogTable.jsx:93 | the preview is the first `min(n, 40)` characters followed by `...` |
| Blogs.PreviewCases | frontend/components/BlogTable.jsx:93 | a short text shows whole with `...` appended anyway; a long one shows its first 40 characters |
| Blogs.PreviewSeesOnlyFirst40 | frontend/components/BlogTable.jsx:93 | texts agreeing on their first 40 characters preview alike |
| Blogs.RowPreview | frontend/components/BlogTable.jsx:93 | the preview cell throws iff the content is not a string |
| Blogs.BlogTable.constructor | frontend/components/BlogTable.jsx:20-29 | the table starts with the seeded posts, an empty search and an empty form |
| Blogs.BlogTable.Filtered | frontend/components/BlogTable.jsx:31-33 | the rows on show: the list filtered by the search term |
| Blogs.BlogTable.HandleInputChange | frontend/components/BlogTable.jsx:35-38 | one form field takes the typed text |
| Blogs.BlogTable.ChooseImage | frontend/components/BlogTable.jsx:157-162 | a chosen file's object URL becomes the form's image; no file changes nothing |
| Blogs.BlogTable.HandleCreate | frontend/components/BlogTable.jsx:40-45 | exactly one post is appended after the prior ones; the modal closes and the form empties |

## Left out

- HTTP transport, JSON parsing and headers: the server's answer is an input (`Rest.Reply`). `Transmit` models only the browser's refusal of a non-`http` URL, with the message `Failed to fetch`.
- A non-object JSON error body: the error body is a parsed object or nothing, so a body that parses to a primitive or an array is not modelled.
- Asynchrony and overlapping requests: each operation runs to completion before the next starts.
- React's batching and re-rendering: each handler's state updates and the effect it triggers are applied in order.
- `console.log` and `console.error` calls.
- Dates and locales: `formatDate`, `new Date`, the date pickers and `toLocaleDateString`. `calculateAge` takes the parsed birth date and today's date as (year, month, day) inputs; an invalid date (`NaN`) is not modelled.
- Floating point: `parseFloat`, `parseInt` and `toFixed`. Numbers are held as the text JavaScript prints for them. The product parsers are function inputs.
- `Date.now()` ids: a parameter of each create.
- `URL.createObjectURL`: its result is a parameter of `ChooseImage`.
- Unicode case mapping: `toLowerCase` is modelled on ASCII letters only.
- Blogs.Preview: counts 40 Unicode scalar values, where `slice(0, 40)` counts UTF-16 code units. For content with characters outside the Basic Multilingual Plane (emoji), the source's preview is shorter and can split a surrogate pair; the model does not capture this.
- Rest.Transmit: the network rejection carries Chromium's message, `Failed to fetch`. Firefox and Safari word it differently (`NetworkError when attempting to fetch resource.`, `Load failed`), and the model fixes the one text.
- `===` on values is structural equality. `NaN !== NaN` and object identity are not modelled; the ids compared are strings or numbers.
- JSX rendering, modal markup and the duplicated edit modal. The undefined `resetForm` call in the create modal's cancel button is a crash, not behaviour.
- `NavBar.jsx`, `Navegation.jsx`, `PrivateRoute.jsx` and `DashBoard.jsx`: routing, menus and display, with no list logic.
- Property names: `Fields.Key` does not capture that an unknown name is never written as `Other` of a known one.
- Products.ProductTable.HandleUpdate: requires a product under edit. The source would throw on `editProduct.id`, but only the edit form calls it, and that form renders only while a product is under edit.
- Products.ProductTable.HandleDelete: requires a product awaiting deletion, for the same reason, since the confirmation renders only then.

## Findings

| source | as written | input that shows it | evidently intended | confidence | as-written member | corrected member |
|---|---|---|---|---|---|---|
| frontend/components/UseDataEmployees.jsx:37 | the employee create POSTs to `hhttp://localhost:4000/api/employee` | any employee create, whatever the server would answer: `fetch` rejects the URL and the add fails with `Failed to fetch` | POST to `http://localhost:4000/api/employee`, as the other hooks do for their entities | not executed | DataHooks.Hook.Add | DataHooks.Hook.AddCorrected |
