# projet-web: a verified model of the CRUD core

projet-web is a small resource manager. An Express back end keeps users, resources and categories in a Prisma database and guards requests with a JWT check. A React front end lists the resources, filters them, shows them as a to-do list and on a month calendar, and edits them in a form.

This project models the logic of both tiers in Dafny and proves what each piece promises.

- **Back-end controllers.** These are classes over maps:
  - `ResourceController.ResourceTable`, keyed by id;
  - `AuthController.UserTable`, keyed by e-mail;
  - `CategoryController.CategoryTable`, keyed by id with unique names.
  Each HTTP answer is a `Reply`: a status with a value, or a status with an error message.
- **Authentication guard.** `AuthMiddleware` models the header split, the verifier call, and the choice between `next()` and the 401 answer.
- **Client request builder.** `ResourceService` models the multipart form that `createResource` and `updateResource` fill through conditional appends, and the JSON body of an update without a file.
- **Client pages.**
  - `ResourceListPage`: file links, the image test, the tag list and the combined filter.
  - `TodoListPage`: the completion filter, the flag toggles and the delete guard.
  - `CalendarPage`: the 42-cell grid, day keys, grouping by day and the cell summary.
  - `ResourceFormPage`: tag parsing, form loading and the two payloads.
- **Shared modules.**
  - `Js` models the JavaScript values the client reads: truthiness, `?.` access, spread, `||` and `Number(...)`.
  - `Text`, `Seqs` and `Sorting` hold the string, sequence and ordering helpers that the pages and controllers share.

Functions the code calls but does not define are parameters of the model:
- `bcrypt.hash` and `bcrypt.compare`;
- `jwt.sign` and `jwt.verify`;
- the database clock;
- the server's answer to a delete.

## Model

| member | source | states |
|---|---|---|
| ResourceController.ResourceTable.CreateResource | backend/controllers/resourceController.js:5-25 | answers 201 with a row holding exactly the body's title, type, content and userId, under a fresh id and the current time; the table gains that row and no other |
| ResourceController.ResourceTable.GetAllResources | backend/controllers/resourceController.js:28-39 | returns every row of the table exactly once, with no owner filter, by descending creation time |
| ResourceController.InsertGrowsListing | backend/controllers/resourceController.js:30-34 | inserting one more row into a sorted partial listing keeps it sorted by descending creation time and makes it list one more id |
| ResourceController.ResourceTable.GetResourceById | backend/controllers/resourceController.js:42-57 | answers 200 with the row of that id exactly when the id is stored, and otherwise 404 "Ressource non trouvée" |
| ResourceController.Updated | backend/controllers/resourceController.js:63-68 | the fields the body carries replace title, type and content; a field the body leaves out keeps its old value; id, owner and creation time never change |
| ResourceController.UpdatedEmptyBody | backend/controllers/resourceController.js:63-68 | an update body with no field leaves the row as it was |
| ResourceController.UpdatedIdempotent | backend/controllers/resourceController.js:63-68 | applying the same update twice gives the same row as applying it once |
| ResourceController.ResourceTable.UpdateResource | backend/controllers/resourceController.js:60-78 | for a stored id, rewrites only that row and answers 200 with it; for a missing id (P2025), answers 404 and leaves the table unchanged |
| ResourceController.ResourceTable.DeleteResource | backend/controllers/resourceController.js:81-94 | for a stored id, removes exactly that row and answers the success message; for a missing id, answers 404 and leaves the table unchanged |
| AuthController.UserTable.Register | backend/controllers/authController.js:8-26 | a missing or empty e-mail or password gives 400 and no user; a stored e-mail gives 400 "Email déjà utilisé" and no change; otherwise stores the hash of the password under a fresh id and answers 201 with only id and e-mail; at most one user per e-mail and per id |
| AuthController.UserTable.Login | backend/controllers/authController.js:28-43 | succeeds exactly when the e-mail is stored and its hash matches the password, answering the signed token for that user's id with id and e-mail; an unknown e-mail and a wrong password give the same 401 |
| AuthController.UserTable.GetMe | backend/controllers/authController.js:45-56 | returns id, e-mail and creation time of the user with that id, and nothing when no user has it |
| CategoryController.CategoryTable.GetAllCategories | backend/controllers/categoryController.js:4-13 | returns every category exactly once, by ascending name |
| CategoryController.InsertGrowsListing | backend/controllers/categoryController.js:6-8 | inserting one more category into a sorted partial listing keeps it sorted by ascending name and makes it list one more id |
| CategoryController.CategoryTable.CreateCategory | backend/controllers/categoryController.js:15-30 | a missing or empty name gives 400 "Le nom est requis" and no change; an existing name (P2002) gives 400 "Cette catégorie existe déjà" and no change; otherwise answers 201 with the new row; names stay unique |
| CategoryController.ListingNamesDistinct | backend/controllers/categoryController.js:6-8 | with unique names, two positions of the listing that show the same name hold the same category |
| AuthMiddleware.BearerToken | backend/middleware/auth.js:8-12 | no header gives no token; a token found is non-empty and holds no space |
| AuthMiddleware.Decide | backend/middleware/auth.js:5-24 | passes on exactly when a token is found and the verifier accepts it, attaching `{ userId }` from the payload; every failure, including a missing header, is the same 401 body |
| AuthMiddleware.TokenBetweenSpaces | backend/middleware/auth.js:8 | the token is the text between the first and the second space, and there is none when that text is empty |
| AuthMiddleware.SchemeIgnored | backend/middleware/auth.js:8 | the first word is not checked: any space-free word before the first space gives the same token |
| AuthMiddleware.NoSpaceRejected | backend/middleware/auth.js:8-12 | a header without a space is rejected with 401 |
| AuthMiddleware.ValidTokenProceeds | backend/middleware/auth.js:15-20 | a header whose token the verifier accepts with `{ userId: n }` attaches `{ userId: n }` |
| AuthMiddleware.Authenticate | backend/middleware/auth.js:5-24 | on success sets `req.user`, calls `next` once and leaves the response alone; on failure answers 401, leaves `req.user` alone and does not call `next` |
| ResourceService.MultipartHas | frontend/src/api/resourceService.js:18-33 | the form holds title and type always, categoryId and content when truthy, tags when an array, and the file when truthy or always on the update path |
| ResourceService.MultipartCarries | frontend/src/api/resourceService.js:18-33 | each entry carries its field's value; type falls back to 'note'; content and tags go as JSON text |
| ResourceService.MultipartOrder | frontend/src/api/resourceService.js:18-33 | fields come in the fixed order title, type, categoryId, content, tags, file, each at most once |
| ResourceService.MultipartFileLast | frontend/src/api/resourceService.js:31-33 | a file, when sent, is the last entry |
| ResourceService.MultipartHead | frontend/src/api/resourceService.js:18-19 | title is the first entry and type the second |
| ResourceService.UpdateWithFileLikeCreate | frontend/src/api/resourceService.js:45-62 | with a file present, the update's form is exactly the form a create builds |
| ResourceService.JsonUpdateBody | frontend/src/api/resourceService.js:72-78 | the JSON body has exactly the keys title, type, content, categoryId and tags, each copied as given with no type default |
| ResourceService.AppendFields | frontend/src/api/resourceService.js:15-33 | the sequence of conditional appends leaves the form holding exactly the multipart fields |
| ResourceService.CreateResource | frontend/src/api/resourceService.js:14-41 | builds a fresh form holding exactly the create fields |
| ResourceService.UpdateResource | frontend/src/api/resourceService.js:43-81 | with a truthy file, sends a fresh multipart form with the file always appended; otherwise sends the JSON body |
| ClientModel.TagNames | frontend/src/pages/TodoListPage.jsx:62 | the tag names as a JSON array in order, and the empty array without a tag list |
| ClientModel.Find | frontend/src/pages/TodoListPage.jsx:47-48 | none exactly when no resource has the id; otherwise a listed resource with that id |
| ClientModel.FindIsFirst | frontend/src/pages/TodoListPage.jsx:47 | the resource found is the one at the first position with that id |
| ResourceListPage.BaseUrl | frontend/src/pages/ResourceListPage.jsx:10 | the configured URL when set and non-empty, else "http://localhost:3000" |
| ResourceListPage.GetFileUrl | frontend/src/pages/ResourceListPage.jsx:8-16 | null for a missing or empty path; an http:// or https:// URL unchanged; any other path after the base with exactly one '/' between |
| ResourceListPage.GetFileUrlIdempotent | frontend/src/pages/ResourceListPage.jsx:8-16 | with an absolute base, a built link built again is unchanged |
| ResourceListPage.IsImageFile | frontend/src/pages/ResourceListPage.jsx:18-22 | false for a missing or empty name, else true exactly when the lower-cased name ends with one of the six image extensions |
| ResourceListPage.IsImageFileIgnoresCase | frontend/src/pages/ResourceListPage.jsx:21 | a name and its lower-case form get the same answer |
| ResourceListPage.AllTags | frontend/src/pages/ResourceListPage.jsx:159-165 | exactly the tag names occurring on some resource, without duplicates, sorted |
| ResourceListPage.FilteredResources | frontend/src/pages/ResourceListPage.jsx:167-213 | an order-preserving subsequence holding exactly the resources that pass the category, tag, day-range and search tests, each as often as in the input |
| ResourceListPage.NoFiltersKeepAll | frontend/src/pages/ResourceListPage.jsx:167-213 | with no category, tag or days set and a blank query, every resource is kept in order |
| ResourceListPage.NarrowingHidesMore | frontend/src/pages/ResourceListPage.jsx:168-198 | setting a category, a tag or a day bound gives a subsequence of the result without it |
| ResourceListPage.SingleDayRange | frontend/src/pages/ResourceListPage.jsx:178-198 | a range starting and ending on the same day keeps exactly the resources of that day |
| ResourceListPage.TrailingBlankMisses | frontend/src/pages/ResourceListPage.jsx:200-203 | the query is matched untrimmed: a title "ab" is found by "ab" and not by "ab " |
| TodoListPage.GetCompleted | frontend/src/pages/TodoListPage.jsx:42-44 | truthy exactly when the content's completed flag is truthy, otherwise false |
| TodoListPage.FilteredResources | frontend/src/pages/TodoListPage.jsx:133-139 | an order-preserving subsequence holding the title matches that are completed for 'completed', not completed for 'active', and all of them otherwise, each as often as in the input |
| TodoListPage.ActiveCompletedPartition | frontend/src/pages/TodoListPage.jsx:133-139 | the active and completed results share nothing and together give the 'all' result, counting repeats |
| TodoListPage.EmptyQueryShowsAll | frontend/src/pages/TodoListPage.jsx:134 | the empty query with 'all' keeps every resource |
| TodoListPage.Toggled | frontend/src/pages/TodoListPage.jsx:50-54 | the flag becomes the negation of its old truthiness; every other field the spread of the content copies is kept as it was, and no other field appears |
| Js.Spread | frontend/src/pages/TodoListPage.jsx:51-54 | `{...v}` copies an object's fields, a string's characters and an array's items under the keys "0", "1", …, with no other key, and nothing from any other value |
| TodoListPage.ToggleStringContent | frontend/src/pages/TodoListPage.jsx:50-54 | toggling `completed` on the string content "ab" sends the characters under "0" and "1" beside `completed: true` |
| TodoListPage.ToggleArrayContent | frontend/src/pages/TodoListPage.jsx:74-78 | toggling `favorite` on the array content [7] sends the item under "0" beside `favorite: true` |
| TodoListPage.ToggleTwice | frontend/src/pages/TodoListPage.jsx:50-54 | toggling twice gives the spread of the content with the flag's truthiness restored as a boolean |
| TodoListPage.TogglePayload | frontend/src/pages/TodoListPage.jsx:46-92 | nothing for an unknown id; otherwise the title, type, category and tag names copied, and the content with that one flag flipped |
| TodoListPage.ToggleSendsJson | frontend/src/pages/TodoListPage.jsx:56-63 | a toggle carries no file, so it goes out as the JSON body with the flipped content and the other fields as they were |
| TodoListPage.ToggleTodoFlipsCompleted | frontend/src/pages/TodoListPage.jsx:50-53 | the completed flag sent is the negation of what GetCompleted said |
| TodoListPage.TodoListState.BeginDelete | frontend/src/pages/TodoListPage.jsx:99-101 | an id already being deleted is ignored and nothing changes; otherwise the id is appended to the marks and a request goes out |
| TodoListPage.TodoListState.FinishDelete | frontend/src/pages/TodoListPage.jsx:103-112 | the id is unmarked, every other mark stays; a success removes exactly that id's resources, a failure shows the server's message or the fallback |
| TodoListPage.TodoListState.HandleDelete | frontend/src/pages/TodoListPage.jsx:99-113 | with no click in between, a delete of an unmarked id leaves the marks as before, removes that id's resources on success and shows the error on failure; a marked id changes nothing |
| TodoListPage.DoubleClickDeletesOnce | frontend/src/pages/TodoListPage.jsx:99-108 | a second click before the answer sends no request; after the success the resource is gone and nothing is marked |
| TodoListPage.DeleteRemovesExactlyThatId | frontend/src/pages/TodoListPage.jsx:106 | after a delete no resource with that id remains, and every other resource stays in order |
| CalendarPage.LeadingCount | frontend/src/pages/CalendarPage.jsx:47-50 | 6 leading cells for a month starting on Sunday, otherwise the weekday minus one |
| CalendarPage.GetDaysInMonth | frontend/src/pages/CalendarPage.jsx:41-82 | the leading cells count up to the given previous-month length, then days 1 … daysInMonth, then the next month's days from 1, up to 42 cells |
| CalendarPage.CurrentMonthCells | frontend/src/pages/CalendarPage.jsx:64-70 | the cells flagged as current month are exactly the positions of days 1 … daysInMonth |
| CalendarPage.DateFrom | frontend/src/pages/CalendarPage.jsx:57-62 | `new Date(y, m, d)` is a valid date: day d of month m, or, past the month's end, the day that many days into the next month |
| CalendarPage.GridAsWritten | frontend/src/pages/CalendarPage.jsx:55-70 | the grid as written has 42 cells, counts its leading cells down from the length of the month two before, and then lists the month's days |
| CalendarPage.GridAsWrittenSkipsMay31 | frontend/src/pages/CalendarPage.jsx:55-62 | for June 2024 the grid as written shows May 26 … 30 and then June 1, so May 31 is missing |
| CalendarPage.GridAsWrittenRepeatsMarch1And2 | frontend/src/pages/CalendarPage.jsx:55-70 | for March 2024 the grid as written has cells for February 30 and 31, which are the dates March 1 and 2 shown again right after |
| CalendarPage.Grid | frontend/src/pages/CalendarPage.jsx:55-70 | the corrected grid's leading cells are consecutive days of the previous month ending on its last day, followed by the month's days |
| CalendarPage.GridShowsMay31 | frontend/src/pages/CalendarPage.jsx:55-62 | the corrected grid for June 2024 ends its leading cells on May 31 |
| CalendarPage.GridEndsFebruaryOn29 | frontend/src/pages/CalendarPage.jsx:55-62 | the corrected grid for March 2024 leads with February 26 … 29, each a date of February |
| CalendarPage.DateKeyShape | frontend/src/pages/CalendarPage.jsx:84-89 | a key is the year's digits, '-', two month digits, '-', two day digits |
| CalendarPage.DateKeyRoundTrip | frontend/src/pages/CalendarPage.jsx:84-89 | reading a key back gives the date it was made from |
| CalendarPage.DateKeyInjective | frontend/src/pages/CalendarPage.jsx:84-89 | two valid dates never share a key |
| CalendarPage.GroupBy | frontend/src/pages/CalendarPage.jsx:132-139 | one entry per key that occurs, each holding exactly that key's resources in input order |
| CalendarPage.GroupingStep | frontend/src/pages/CalendarPage.jsx:135-138 | pushing one resource onto its key's entry, created empty when missing, keeps the grouping exact |
| CalendarPage.ResourcesByDate | frontend/src/pages/CalendarPage.jsx:131-141 | the resources grouped by their creation day's key |
| CalendarPage.EntryIsThatKey | frontend/src/pages/CalendarPage.jsx:297 | a day's list, empty for a missing key, is that day's resources in order, each as often as in the input |
| CalendarPage.DaySummary | frontend/src/pages/CalendarPage.jsx:341-364 | shows at most the first three resources, and beyond three "+N autre" with N the rest and 's' exactly when N > 1 |
| CalendarPage.DaySummaryCounts | frontend/src/pages/CalendarPage.jsx:341-364 | the shown resources and the number in the "+N" line add up to the day's count |
| ResourceFormPage.ParsedTagsAreClean | frontend/src/pages/ResourceFormPage.jsx:59-62 | every parsed tag is non-empty, trimmed and comma-free |
| ResourceFormPage.ParsedTagsInOrder | frontend/src/pages/ResourceFormPage.jsx:59-62 | the parsed tags are a subsequence of the trimmed pieces, in typed order |
| ResourceFormPage.ParsedTagsKeepEveryName | frontend/src/pages/ResourceFormPage.jsx:59-62 | every non-blank piece appears, trimmed, among the parsed tags |
| ResourceFormPage.TagsRoundTrip | frontend/src/pages/ResourceFormPage.jsx:45-62 | names joined with ', ' and parsed back are the same names when each is non-empty, trimmed and comma-free |
| ResourceFormPage.BlankTagBox | frontend/src/pages/ResourceFormPage.jsx:59-62 | a box of blanks and commas gives no tag |
| ResourceFormPage.CategoryPayload | frontend/src/pages/ResourceFormPage.jsx:70 | no selection ('') gives null; a non-zero number stays; a digit string becomes its value |
| ResourceFormPage.LoadForm | frontend/src/pages/ResourceFormPage.jsx:37-51 | title and type from the resource, the description or '', the category or '', the tag names joined by ', ' or ''; the chosen file stays |
| ResourceFormPage.CommonFields | frontend/src/pages/ResourceFormPage.jsx:64-71 | exactly title, type, content {description}, the normalised category and the tags |
| ResourceFormPage.CreatePayload | frontend/src/pages/ResourceFormPage.jsx:64-73 | the shared fields plus the file |
| ResourceFormPage.EditPayload | frontend/src/pages/ResourceFormPage.jsx:76-84 | the shared fields and never a file |
| ResourceFormPage.HandleSubmit | frontend/src/pages/ResourceFormPage.jsx:53-95 | both paths send content {description}, the normalised category and the parsed tags; only the create path carries the file |
| ResourceFormPage.EditGoesAsJson | frontend/src/pages/ResourceFormPage.jsx:76-84 | an edit carries no file, so it goes out as JSON, and the body is exactly the payload |
| ResourceFormPage.CreateSendsFields | frontend/src/pages/ResourceFormPage.jsx:64-86 | the create form holds title, type, content and tags always, the category when one is selected, and the file when one is chosen |
| ResourceFormPage.EditKeepsTags | frontend/src/pages/ResourceFormPage.jsx:45-83 | loading and then submitting an edit sends the resource's own tag names back, when each is non-empty, trimmed and comma-free |
| ResourceFormPage.EditKeepsCategory | frontend/src/pages/ResourceFormPage.jsx:44-82 | loading and then submitting an edit sends the resource's category back, or null without one |
| ResourceFormPage.EditDropsOtherContent | frontend/src/pages/ResourceFormPage.jsx:42-79 | the edit sends content holding only the description, so a completed or favorite flag is dropped |

## Left out

- Prisma's own validation and every 500 catch-all answer. The model stores whatever the body carries, and a database failure other than "not found" or "duplicate" is not modelled.
- `parseInt` of the ids and of `userId`. Ids are integers in the model, and a NaN id cannot occur.
- JavaScript `Date`.
  - Time zones, `setHours` and `toISOString` are not modelled.
  - The grid takes the weekday of the first and the month lengths as inputs.
  - `Weekday` and `DaysIn` compute them by calendar arithmetic.
  - `DateFrom` rolls a day up to 28 past the end of its month into the next month. Other overflow inside the `Date` constructor is not modelled.
- The French date formatters `formatDate` and `formatDateShort`, and all rendering.
- Unicode case mapping and whitespace. `Lower` maps ASCII letters only, and `Trim` strips ASCII blanks.
- The string order of `sort()` and of the database. Both are modelled as the order of characters; UTF-16 surrogate pairs are not.
- JSON.stringify is an opaque wrapper (`Json`), and FormData's conversion of values to strings is not modelled.
- ResourceListPage.SearchHit: a searched field that holds something other than a string counts as no match. The source would throw on such a field.
- ResourceFormPage.CategoryPayload: `Number(...)` of a string is modelled for decimal digit strings only. There is no whitespace trimming, no sign, no fraction and no hexadecimal. Other strings give NaN.
- Token expiry and the signing secret. The verifier and the signer are parameters.
- Async behaviour.
  - Each handler is one atomic step, except `handleDelete` on the to-do page. Its start (`BeginDelete`) and its end after the answer (`FinishDelete`) are two steps, so other clicks can come in between.
  - The 200 ms timer of `handleDelete` is not modelled: its two state changes happen at once, right after the answer.
  - Reloading after a toggle (`loadData`) is not modelled.
- The toggles' error messages are not modelled.
- Js.Prop: `v?.[key]` reads own fields of objects only. An index key or `length` of a string or an array reads as undefined. The pages read only named fields such as `completed`, `favorite`, `description`, `file` and `title`.
- Loading categories and resources from the server is not modelled.
- CalendarPage's `handleDelete`, which tracks one id, is not modelled.
- CalendarPage's and ResourceListPage's copies of `getFileUrl`, `isImageFile`, `toggleFavorite` and `handleDelete` are identical to the ones modelled and are modelled once.
- `server.js` never mounts the category routes, and the resource routes carry no guard. Routing is not part of this model.
- frontend/src/api/axios.js, the one-line service wrappers, the auth context, the login and signup pages and the dashboard are not part of this model.

## Findings

| source | as written | input that shows it | evidently intended | confidence | as-written member | corrected member |
|---|---|---|---|---|---|---|
| frontend/src/pages/CalendarPage.jsx:55-56 | the previous-month cells count down from the length of `new Date(year, month - 1, 0)`, the last day of the month two before | June 2024 starts on a Saturday, so five May cells lead; April has 30 days, so they show 26 … 30 and May 31 never appears. March 2024 starts on a Friday, so four February cells lead; January has 31 days, so they are built as `new Date(2024, 1, 30)` and `new Date(2024, 1, 31)`, which are March 1 and 2, and those days appear twice | count down from `new Date(year, month, 0)`, the last day of the previous month, so the last leading cell is the day before the 1st | not executed | CalendarPage.GridAsWritten, CalendarPage.GridAsWrittenSkipsMay31, CalendarPage.GridAsWrittenRepeatsMarch1And2 | CalendarPage.Grid, CalendarPage.GridShowsMay31, CalendarPage.GridEndsFebruaryOn29 |
