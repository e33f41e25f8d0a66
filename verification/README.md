# CMSmall page model in Dafny

CMSmall is a small content-management web application. Users write pages made of ordered blocks (headers, paragraphs, images), give each page a creation date and an optional publication date, and publish them to a front office that anonymous visitors can read. This project models the page and block rules of the application and proves properties of the model:

- the REST server's validation of a page body, its authorship checks and the order in which its handlers apply them (`server/index.js`);
- the pages table and its data-access functions, including what an anonymous caller may see (`server/DAOs/dao-pages.js`);
- the block editor: move up, move down, delete, change type, change content, pick an image, and rendering (`client/src/components/Blocks.jsx`);
- the page form: the Draft/Scheduled/Published label, the defaults of a new page, the submit rules and "add block" (`client/src/components/Page.jsx`);
- the client API: wrapping the block list on send, unwrapping it on read, normalising the publication date, and the request targets (`client/src/API.js`);
- the front-office and back-office lists: the in-place newest-first sort, the published filter, the my-pages/other-pages split, the card controls and the website-name form (`client/src/components/PageLayouts.jsx`).

Dates are `YYYY-MM-DD` strings. The client and the database compare them as strings; the server compares them as calendar dates. `Dates.StringOrderIsChronological` proves that the two orders agree on well-formed dates. "Today" and the caller are parameters everywhere.

Modules, one file each:

- `Wrappers`: `Option` and `Result`.
- `Strings`: JavaScript's string order, `trim`, `join` and decimal numerals.
- `Dates`: calendar dates and their order.
- `Seqs`: `Array.prototype.filter` and what it keeps.
- `Blocks`: the block editor.
- `PageDao`: the pages table, a class holding a map from id to row and the next id.
- `Server`: the validators, authorisation decisions and handler verdicts, plus a `Server` class whose methods run the handlers against the table.
- `Api`: the client API.
- `PageForm`: the page form.
- `PageLayouts`: the page lists. The sort works in place on an array.

Where the code's evident intent and its behaviour part ways, the model follows the behaviour:

- The page form disables the author field for non-admins (`client/src/components/Page.jsx:197`), so a non-admin is evidently not meant to change a page's author. The update handler judges ownership against the stored author only (`server/index.js:310`), so an owner who sends the request directly may put any name in the author field (`Server.OwnerMayRenameAuthor`).
- The comment on the block structure says an image block's content is an image file name (`client/src/components/Blocks.jsx:90-97`). The server does not check image content; only the editor offers the four files (`Blocks.ChooseImage`).
- The comments on the listing route and the front office say anonymous callers get the published pages only (`server/index.js:156-157`, `client/src/components/PageLayouts.jsx:38-42`). The query as written, `publication_date <= today`, also lets through drafts saved with the empty string as their date (see Findings). The store and the handlers run the query as written (`PageDao.SqlDateFilter`), so an anonymous visitor is sent those drafts. The intended filter, `PageDao.Published`, is the one the front office applies on the client, and the model proves that the two differ exactly on the empty-dated drafts.
- The create handler answers a non-admin non-owner with the message "Unauthorized for updating: not admin nor author.", the same text as the update handler. The model keeps that text.

## Model

| member | source | states |
|---|---|---|
| Dates.StringOrderIsChronological | server/index.js:202-204 | on well-formed dates, string order equals calendar order, and equal strings are equal calendar days |
| Strings.TrimIsCore | client/src/components/Page.jsx:157 | `trim` returns a slice of its input with only white space cut away on both sides, and no white space at either end |
| Strings.TrimEmptyIffAllSpace | client/src/components/PageLayouts.jsx:132-133 | a string trims to empty exactly when it is all white space |
| Strings.TrimIdempotent | client/src/components/Page.jsx:157 | trimming twice is trimming once |
| Strings.JoinContainsEachPart | server/index.js:229 | every part appears in the joined string |
| Seqs.Filter | client/src/components/PageLayouts.jsx:43 | the result is no longer than the input, and holds exactly the elements of the input that pass the test |
| Seqs.FilterIsSubsequence | client/src/components/PageLayouts.jsx:112-113 | the filter keeps input order: its result is a subsequence of the input |
| Seqs.FilterKeepsOrder | client/src/components/PageLayouts.jsx:43 | filtering an ordered sequence leaves it ordered |
| Seqs.FilterPartition | client/src/components/PageLayouts.jsx:112-113 | two complementary filters are disjoint, and together they hold every element as often as the input does |
| Blocks.HeaderAndOtherNeedTwoBlocks | server/index.js:212-222 | a list with a header and a non-header has at least two blocks |
| Blocks.RenderBlock | client/src/components/Blocks.jsx:22-31 | header gives h5, paragraph gives p, image gives img under the images path; the placeholder appears exactly for an unknown type |
| Blocks.Render | client/src/components/Blocks.jsx:21-32 | one element per block, in block order |
| Blocks.KnownKindsRenderWithoutPlaceholder | client/src/components/Blocks.jsx:29-30 | a list of known types never renders through the fallback branch |
| Blocks.MovedUp | client/src/components/Blocks.jsx:185-195 | moving up swaps the block with its predecessor, keeps the length and the other positions, and does nothing at index 0 |
| Blocks.MovedDown | client/src/components/Blocks.jsx:206-216 | moving down swaps the block with its successor, keeps the length and the other positions, and does nothing at the last index |
| Blocks.MoveUpPermutes | client/src/components/Blocks.jsx:189-193 | moving up keeps the multiset of blocks |
| Blocks.MoveDownPermutes | client/src/components/Blocks.jsx:210-214 | moving down keeps the multiset of blocks |
| Blocks.SwapPermutes | client/src/components/Blocks.jsx:190-192 | swapping two positions keeps the multiset |
| Blocks.UpThenDownRestores | client/src/components/Blocks.jsx:185-216 | moving block i up and then down at i-1 restores the list |
| Blocks.DownThenUpRestores | client/src/components/Blocks.jsx:185-216 | moving block i down and then up at i+1 restores the list |
| Blocks.RenderFollowsMoveUp | client/src/components/Blocks.jsx:21-32 | the rendered page after a move up is the old rendering with the two elements swapped |
| Blocks.DropPosition | client/src/components/Blocks.jsx:172 | dropping the position equal to the index removes exactly that element; an index outside the list changes nothing |
| Blocks.DeleteRemovesExactlyOne | client/src/components/Blocks.jsx:171-174 | delete shortens the list by one, keeps the blocks before and after in order, and removes exactly the indexed block |
| Blocks.MoveBlockUp | client/src/components/Blocks.jsx:187-195 | the handler, copying into an array and swapping through a temporary, yields `MovedUp` |
| Blocks.MoveBlockDown | client/src/components/Blocks.jsx:208-216 | the handler yields `MovedDown` |
| Blocks.ChangeType | client/src/components/Blocks.jsx:44-53 | the indexed block gets the new type and empty content; every other block is unchanged |
| Blocks.ChangeContent | client/src/components/Blocks.jsx:104-109 | only the indexed block's content changes; its type and the other blocks stay |
| Blocks.ImageFile | client/src/components/Blocks.jsx:129-132 | every image option is one of img1.png to img4.png |
| Blocks.ChooseImage | client/src/components/Blocks.jsx:148-150 | picking an image sets the block's content to that file, one of the four, and changes nothing else |
| PageDao.RowMappingIsLossless | server/DAOs/dao-pages.js:36-41 | the row mapping renames the two date columns, keeps every other field, and is undone by storing the page back |
| PageDao.EmptyDraftPassesAnonymousFilter | server/DAOs/dao-pages.js:23-26 | a draft stored as the empty string passes `publication_date <= today` for every today, yet is not published |
| PageDao.PublishedIsFilterWithoutDrafts | server/DAOs/dao-pages.js:62-65 | the intended filter is the written one minus the empty-string drafts; NULL and empty dates are hidden |
| PageDao.PublishedOnDates | server/DAOs/dao-pages.js:24 | a dated page is public exactly when its date is today or earlier |
| PageDao.PageStore.ListFrom | server/DAOs/dao-pages.js:17-46 | the rows from an id upwards that the caller may see under the filter as written, mapped to pages, in strictly increasing id order |
| PageDao.PageStore.GetAllPages | server/DAOs/dao-pages.js:17-46 | an authenticated caller gets every row and an anonymous one exactly the rows whose date passes `publication_date <= today`, mapped and in id order |
| PageDao.PageStore.GetPageById | server/DAOs/dao-pages.js:56-85 | the page is found exactly when the id exists and the caller is logged in or the date passes the filter as written; a found page is the mapped row, otherwise the result is "Page not found." |
| PageDao.PageStore.LookupAgreesWithListing | server/DAOs/dao-pages.js:56-85 | a lookup by id finds a page exactly when the same caller's listing holds it; otherwise it yields "Page not found." |
| PageDao.PageStore.AnonymousLookupHidesUnpublished | server/DAOs/dao-pages.js:59-71 | an anonymous lookup of a page with a NULL date or a date after today gives the not-found object; an authenticated lookup finds it |
| PageDao.PageStore.AnonymousLookupShowsEmptyDraft | server/DAOs/dao-pages.js:62-65 | an anonymous lookup of a draft stored with the empty date finds it, whatever today is, although it is not published |
| PageDao.PageStore.AnonymousListingLeaksOnlyEmptyDrafts | server/DAOs/dao-pages.js:23-29 | the anonymous listing holds the published pages plus exactly the drafts stored with the empty date |
| PageDao.PageStore.constructor | server/DAOs/dao-pages.js:93-110 | an empty table whose first insert gets id 1 |
| PageDao.PageStore.CreatePage | server/DAOs/dao-pages.js:93-110 | adds exactly one row under a fresh id, advances the next id, and returns that row read back anonymously (so an empty-dated draft comes back as the page, a NULL or future one as not found) |
| PageDao.PageStore.UpdatePage | server/DAOs/dao-pages.js:119-140 | replaces the row when the id exists and returns it read back anonymously; otherwise changes nothing and returns "No page updated." |
| PageDao.PageStore.DeletePage | server/DAOs/dao-pages.js:149-164 | removes the id and no other; returns null exactly when a row was removed, else "No page deleted." |
| Server.PublicationDateRule | server/index.js:196-209 | a well-formed publication date passes exactly when it is not before the creation date; equal dates pass |
| Server.KindErrors | server/index.js:211 | one error per block of unknown type and no other: each names its block as `blocks.blocks[i].type` and carries that validator's message, every unknown block has its error, and the count is the number of unknown blocks |
| Server.FieldErrors | server/index.js:193-209 | no error exactly when title and author have a counted length of 1..160, the creation date is a date and the publication date passes; each failed check contributes its own error |
| Server.BlockErrors | server/index.js:210-222 | no error exactly when there are two or more blocks, all known, with a header and a non-header; a missing header is reported in place of a missing other block |
| Server.ValidatePage | server/index.js:263-292 | the collected error list is empty exactly when the body satisfies every rule of the chain |
| Server.ValidationReportsEachRule | server/index.js:193-209 | each failed field rule is in the list, and a rule that holds is not |
| Server.ValidationReportsEachBlockRule | server/index.js:210-222 | each failed block rule is in the list, and a rule that holds is not |
| Server.ErrorFormatter | server/index.js:72-74 | the text is the location, then the parameter in brackets, then `: ` and the message, so the reader learns which field failed |
| Server.ErrorTextReportsEveryFailure | server/index.js:227-229 | the 422 text is non-empty and contains every formatted error |
| Server.OwnerOrAdmin | server/index.js:236-245 | allow the owner; otherwise 401 for a non-admin, 400 for an admin naming an unknown author, else allow |
| Server.AuthorizeCreate | server/index.js:236-245 | create is allowed when the caller is the body author, or is an admin naming an existing user; otherwise 401 or 400 |
| Server.AuthorizeUpdate | server/index.js:310-319 | update judges ownership against the stored author; otherwise 401 for a non-admin, or 400 for an admin naming an unknown author |
| Server.AuthorizeDelete | server/index.js:362-364 | delete is allowed exactly to an admin or to the stored page's author; otherwise 401 |
| Server.AuthorOf | server/index.js:309-310 | a not-found object has no author |
| Server.CreateVerdict | server/index.js:190-245 | 401 "Not authorized" is sent exactly to anonymous callers; a logged-in caller with an invalid body gets 422 with the joined errors; with a valid body the answer is the author decision itself (go on, 401 not admin nor author, or 400 unknown author) |
| Server.UpdateVerdict | server/index.js:260-324 | 401 "Not authorized" exactly to anonymous callers, then 422 for an invalid body; with a valid body a denied author check is answered with its own 401/400, and only an allowed one reaches the creation-date check, which gives 400 when the page is missing or its date changed; a missing page never gives 404 |
| Server.DeleteVerdict | server/index.js:345-364 | 401 "Not authorized" exactly to anonymous callers; goes on exactly for an admin or the stored author; a logged-in non-admin non-author gets 401 with the deletion message |
| Server.SiteNameVerdict | server/index.js:399-413 | 401 "Not authorized" for an anonymous caller; goes on exactly for a logged-in admin with a name of counted length 1..160; a bad name gives 422 before the admin check, and a non-admin gets 401 |
| Server.CountedLength | server/index.js:193-194 | the length the length check measures is at most the number of characters, and equals it when the string has no variation selector |
| Server.SelectorAddsNoLength | server/index.js:193-194 | appending U+FE0E or U+FE0F leaves the counted length, and so the length verdict, unchanged |
| Server.AdminWithGoodNameProceeds | server/index.js:399-418 | an admin's name of at most 160 characters that is not all variation selectors is let through |
| Server.ValidationPrecedesAuthorship | server/index.js:227-245 | an invalid body from any logged-in caller (author, admin or neither) gets 422 on create and update, before authorship is looked at; an anonymous caller is refused with 401 earlier, as the verdicts state |
| Server.OwnerMayRenameAuthor | server/index.js:310 | the owner's valid update with the same creation date goes on, whatever author it names |
| Server.CreationDateIsImmutable | server/index.js:321-324 | an authorised valid update that changes the creation date gets 400 "Creation date cannot be changed." |
| Server.ExamplePageIsAccepted | server/index.js:190-245 | a one-header, one-paragraph page dated the same day, sent by its author, passes validation and is created |
| Server.ExampleDateIsWellFormed | server/index.js:195 | "2024-01-01" is a calendar date |
| Server.ExampleNamesHaveGoodLength | server/index.js:193-194 | "Hi" and "alice" pass the length check |
| Server.ResultJson | server/index.js:176-181 | a found page is sent as the page, a missing one as its error object |
| Server.StoredRow | server/index.js:248 | the stored row keeps every body field, and the block document reads back unchanged |
| Server.UsersResponse | server/index.js:131-140 | 401 for a non-admin, else 200 with the names |
| Server.Server.constructor | server/index.js:152 | the server starts over a valid page table |
| Server.Server.ListPages | server/index.js:158-168 | 200 with every row for a logged-in caller, and for an anonymous one exactly the rows passing `publication_date <= today` |
| Server.Server.ShowPage | server/index.js:172-186 | 200 with the page exactly when the store selects it for the caller, else 404 with "Page not found." |
| Server.Server.AnonymousCallerSeesEmptyDraft | server/index.js:172-186 | an anonymous GET of a draft stored with the empty date answers 200 with the page |
| Server.Server.CreatePage | server/index.js:190-256 | a rejected request leaves the table alone; an accepted one adds one row under the next id, advances it, and answers 201, with the page when its date passes the anonymous filter as written (an empty-dated draft included) and with the not-found object otherwise |
| Server.Server.UpdatePage | server/index.js:260-341 | a rejected request leaves the table alone; an accepted one replaces the row and answers 200 with the page when its date passes the anonymous filter as written (an empty-dated draft included), else 404 |
| Server.Server.DeletePage | server/index.js:345-377 | a rejected request leaves the table alone; an accepted one removes the id and answers 200 `{}` when a row was removed, else 404 "No page deleted." |
| Server.Server.SetSiteName | server/index.js:399-423 | an accepted request stores and echoes the name; a rejected one keeps the old name |
| Api.NormalizeDate | client/src/API.js:112-115 | a falsy date becomes the empty string, and any other date is kept |
| Api.GetPages | client/src/API.js:102-120 | one summary per page, same length and order, with id, title, author and creation date kept and the date normalised |
| Api.GetPageById | client/src/API.js:127-148 | the block list is unwrapped, the date normalised and the other fields kept |
| Api.WrapBlocks | client/src/API.js:158 | only the block field changes: it becomes `{blocks: list}` |
| Api.CreatePage | client/src/API.js:155-170 | POST to `pages` carrying the wrapped blocks |
| Api.IdSegment | client/src/API.js:181 | the id printed in decimal, or `undefined` when absent |
| Api.UpdatePage | client/src/API.js:175-190 | PUT to `pages/` followed by exactly the id segment of the object passed, carrying the wrapped blocks |
| Api.UpdateTargetsItsOwnId | client/src/API.js:181 | two updates go to the same URL only when they carry the same id |
| Api.Received | client/src/API.js:158 | the server receives every field, the date as a present string |
| Api.SaveThenReadRoundTrip | client/src/API.js:134 | saving a page and reading it back yields the same blocks in the same order and the same fields |
| Api.ClientDraftIsStoredAsEmptyText | client/src/components/Page.jsx:146 | a draft is stored with the empty string as its date, which the query as written lets through |
| PageForm.StatusOf | client/src/components/Page.jsx:34 | Draft exactly for the empty date, Scheduled exactly for a date after today, Published exactly for a non-empty date not after today |
| PageForm.StatusLabel | client/src/components/Page.jsx:34-35 | a draft reads "Draft"; a scheduled page reads "Scheduled: " and a published one "Published: ", each followed by the date |
| PageForm.StatusFollowsCalendar | client/src/components/Page.jsx:121 | on calendar dates, Scheduled means a later day than today and Published means not later |
| PageForm.InitialForm | client/src/components/Page.jsx:138-147 | a new page starts with an empty title, the user as author, today as creation date, no publication date, and a header plus a paragraph; an edited page starts with its own fields |
| PageForm.HandleSubmit | client/src/components/Page.jsx:154-181 | accepted exactly when there is a header and a non-header and, for an admin, the trimmed author is a user; title and author are trimmed; only an edit carries the id |
| PageForm.SubmittedPageIsWellShaped | client/src/components/Page.jsx:157-162 | an accepted page has at least two blocks, and trimmed title and author |
| PageForm.NonAdminSkipsAuthorLookup | client/src/components/Page.jsx:165-169 | a non-admin's submit does not depend on the user names |
| PageForm.DefaultsPassSubmit | client/src/components/Page.jsx:138-147 | a new page's default blocks pass the submit rule |
| PageForm.AddBlock | client/src/components/Page.jsx:219 | an empty header is appended and the earlier blocks are unchanged |
| PageForm.AddThenDeleteRestores | client/src/components/Page.jsx:219 | deleting the added block restores the list; adding keeps a non-header present |
| PageLayouts.Insert | client/src/components/PageLayouts.jsx:33-37 | inserting adds one element |
| PageLayouts.InsertPermutes | client/src/components/PageLayouts.jsx:33-37 | inserting adds exactly the new element to the multiset |
| PageLayouts.SortDesc | client/src/components/PageLayouts.jsx:33-37 | the sorted list has the input's length |
| PageLayouts.InsertKeepsDescending | client/src/components/PageLayouts.jsx:33-37 | inserting into a newest-first list keeps it newest first |
| PageLayouts.SortDescIsDescending | client/src/components/PageLayouts.jsx:33-37 | the sorted list is newest first |
| PageLayouts.SortDescPermutes | client/src/components/PageLayouts.jsx:95-99 | the sorted list is a permutation of the input |
| PageLayouts.SortDescending | client/src/components/PageLayouts.jsx:95-99 | the in-place sort leaves exactly `SortDesc` of the old contents: newest first, and a permutation |
| PageLayouts.SortStep | client/src/components/PageLayouts.jsx:33-37 | one insertion extends the sorted prefix by one page |
| PageLayouts.InsertNext | client/src/components/PageLayouts.jsx:33-37 | one in-place insertion yields `Insert` of the next page into the sorted prefix, and leaves the rest of the array alone |
| PageLayouts.ShiftGreater | client/src/components/PageLayouts.jsx:33-37 | the pages that sort below the next one each move one place right, and the gap is where it belongs |
| PageLayouts.InsertAt | client/src/components/PageLayouts.jsx:33-37 | a page lands after the last earlier page that does not sort below it |
| PageLayouts.Assemble | client/src/components/PageLayouts.jsx:33-37 | the array after the shift is the sorted prefix with the page in the gap |
| PageLayouts.FilterMatchesStatusLabel | client/src/components/PageLayouts.jsx:43 | the front-office filter keeps exactly the pages labelled Published |
| PageLayouts.StoreFilterMatchesFrontOffice | server/DAOs/dao-pages.js:23-26 | the intended anonymous filter agrees with the front-office filter after normalisation; the written one differs only on the empty draft |
| PageLayouts.FrontOffice | client/src/components/PageLayouts.jsx:28-45 | sorts in place newest first by publication date, then shows exactly the published pages of the input, still newest first |
| PageLayouts.FilterKeepsDescending | client/src/components/PageLayouts.jsx:43 | filtering keeps a list newest first |
| PageLayouts.BackOffice | client/src/components/PageLayouts.jsx:90-113 | sorts in place by creation date, then splits into own and others' pages: disjoint, covering every page, each newest first |
| PageLayouts.CardFor | client/src/components/PageLayouts.jsx:169-185 | the card with edit and delete appears exactly on own pages, or on any page when isAdmin is 1 |
| PageLayouts.DeleteControlMatchesServer | client/src/components/PageLayouts.jsx:182-185 | for a 0/1 admin flag, the delete control is shown exactly when the server would accept the delete |
| PageLayouts.TrimmedName | client/src/components/PageLayouts.jsx:132-133 | the trimmed name is empty exactly when the input is all white space, and trimming it again changes nothing |
| PageLayouts.SiteNameSubmit | client/src/components/PageLayouts.jsx:129-139 | refused with "Website name cannot be empty" exactly when the input is all white space; otherwise the trimmed, non-empty name |
| PageLayouts.SiteNameAcceptedByServer | client/src/components/PageLayouts.jsx:132-136 | an input that is not all white space is sent as its trimmed text; when that is at most 160 characters and not all variation selectors, the server stores it for an admin |
| PageLayouts.LoneSelectorNameIsRefused | client/src/components/PageLayouts.jsx:132-135 | the form sends a name made of a lone U+FE0F, and the server's length check refuses it with 422 |

## Left out

- HTTP, Express, CORS, sessions and passport login and logout are not modelled. The caller is a parameter: `Anonymous`, or a user with a name and an admin flag.
- Password checking with `crypto.scrypt` is not part of this model.
- The database is not modelled. The users table is a list of names, and the website name is one field.
- Database and server errors (the 500 answers and `reject` paths) are not modelled.
- `JSON.stringify` and `JSON.parse` of the block document are treated as lossless. The stored block column is the document itself.
- Date well-formedness is `YYYY-MM-DD` with a real calendar day. The library's `isDate` also accepts `/` separators, and JavaScript's `Date` parses other formats; neither is modelled.
- The calendar comparison of the publication-date validator is modelled on well-formed dates only. For any other string the comparison counts as false, as it is for an invalid `Date`.
- The error shape is that of express-validator 6: the `param` field, the default message "Invalid value", and the location `body`.
- `check('id').isInt()` and non-numeric path ids are not modelled. Ids are integers.
- GET `/api/users` for an anonymous caller fails inside the framework; only the admin check is modelled.
- SQLite may reuse the largest rowid after it is deleted. The model never reuses an id.
- Listings come out in ascending id order, which SQLite's scan order gives for a query without ORDER BY.
- `dayjs()` and the clock are replaced by a `today` parameter.
- `fetch`, `getJson` and the promise plumbing are not modelled. A response is the JSON value the server sent.
- React rendering, hooks, routing and messages are not modelled, except the element kinds of the block renderer and the card kind of the lists.
- Blocks.ChangeType: the copy of the list is shallow, so the source also changes the block object the old list shares. The model changes only the new list. The old list is dropped right away by `setBlocks`.
- Blocks.ChangeContent: the same shared-object change is not modelled, for the same reason.
- Api.WrapBlocks: the source overwrites the `blocks` field of the object passed in. The model builds a new record. The form builds a fresh object for every save, so the change is not seen again.
- Server.StoredRow: the handler also overwrites `pageData.blocks` in place. It is modelled as building the stored row.
- Blocks.RenderBlock: the fallback for an unknown type is a paragraph reading "Unknown block type" in the source; the model keeps it a separate element, so a paragraph block with that text is not identified with it.
- PageLayouts.SortDesc: sort stability is fixed by the definition but not stated as a lemma of its own.
- A page summary in the lists keeps no blocks, as `getPages` drops them; the lists' rendering of cards is left out.

## Findings

| source | as written | input that shows it | evidently intended | confidence | as-written member | corrected member |
|---|---|---|---|---|---|---|
| server/DAOs/dao-pages.js:23-26 | the anonymous filter is `publication_date <= today`, and the client saves a draft with the empty string as its date, which sorts below every date | a draft saved from the form (publication date `''`), listed or fetched by id by an anonymous visitor: `'' <= '2024-05-01'` holds, so the draft is sent | anonymous callers get only pages with a non-empty date not after today, the pages the client labels "Published" | high (not executed) | PageDao.EmptyDraftPassesAnonymousFilter | PageDao.Published |

The store and the server handlers keep the filter as written, so they compute what the code computes; `PageDao.PageStore.AnonymousLookupShowsEmptyDraft`, `PageDao.PageStore.AnonymousListingLeaksOnlyEmptyDrafts` and `Server.Server.AnonymousCallerSeesEmptyDraft` state the leak on them. The corrected filter `PageDao.Published` is the one the front office applies (`PageLayouts.StoreFilterMatchesFrontOffice`), and `PageDao.PublishedIsFilterWithoutDrafts` proves it removes exactly the empty-dated drafts.
