# Money Super Hero — a verified model of its core

Money Super Hero is a personal-finance web application. Its Express server keeps users,
transactions, categories and sub-categories in PostgreSQL. Its React client lists and
edits them in MUI data grids. This project models the server's route handlers and the
client's data hooks and helpers in Dafny, and proves what they promise.

- **Server tables** are classes (`UserStore`, `TransactionStore`, `CategoryStore`,
  `SubCategoryStore`). Their `users`, `transactions`, `categories` and `subCategories`
  fields are sequences that the writing handlers reassign. Reading handlers are functions
  over those sequences. Every handler returns a `Reply`: status, code, message and details,
  as the JSON the handler sends.
- **SQL** is modelled by `Sql`. `LIMIT ... OFFSET ...` is a slice. `ORDER BY` is a stable
  insertion sort under an ordering the caller supplies. The database's refusal of a
  negative limit or offset becomes an error reply.
- **bcrypt** is a salted digest of a password's first 72 characters (`Schema.Hash`),
  checked with `Schema.Compare`.
- **The session** is the `session` field of `UserStore`: the e-mail a sign-in stores.
  `SessionUserId` is the "get user id by e-mail" query every transaction route makes first.
- **Client state** is modelled as follows:
  - The CRUD data grid is the class `DataTable.CrudGrid`. It holds rows, row modes and the
    row awaiting delete confirmation.
  - The settings hooks are classes holding the last successful reply.
  - The query-string builders are methods that push `key=value` strings.
  - The server's reading of those query strings is `GridQuery.ParseQuery`. It is proved to
    give back what the builders put in.
- The remaining helpers are pure functions: route lookup, the e-mail check, the form
  guards and the transaction merges.

The `/myself` handler appears twice in the source, in `backend/routes/users/users.ts:20-50`
and in `backend/routes/users/actions/myself.ts:20-50`. The two copies are identical, and
`MyselfAction.Myself` models both. The sign-up and sign-in handlers also appear twice, once
in `users.ts` and once under `actions/`. Those copies differ in their status codes, so
each has its own model (`UsersRoute` and `SignupAction`/`SigninAction`).

## Model

| member | source | states |
|---|---|---|
| Common.Trim | backend/routes/users/users.ts:164 | `String.prototype.trim`: the result neither starts nor ends with JavaScript whitespace |
| Common.TrimSplit | backend/routes/users/users.ts:164 | trimming removes only whitespace: the result is a slice of the input with whitespace on both sides of it |
| Common.TrimIdempotent | backend/routes/users/actions/signin.ts:26 | trimming an already trimmed e-mail changes nothing |
| Common.ToUpperAscii | backend/routes/categories/categories.ts:65 | `toUpperCase` maps exactly the letters a–z to A–Z and keeps the length |
| Common.NatToStringRoundTrip | frontend/src/pages/settings/hooks/useCategoriesData/useCategoriesData.ts:41-42 | a page number rendered with `${page}` reads back as the same number |
| Common.SplitJoin | frontend/src/hooks/useTransactions/useTransactions.tsx:34 | splitting `parameters.join('&')` on '&' gives the parameters back when none contains '&' |
| Sql.LimitOffset | backend/routes/categories/categories.ts:66 | `LIMIT l OFFSET o` returns at most `l` rows, exactly `min(l, n - o)` of them, each the row at `o + i` |
| Sql.LimitOffsetChecked | backend/routes/categories/categories.ts:66-71 | the query fails exactly when the limit or offset is negative, and otherwise returns the window |
| Sql.LimitOffsetMember | backend/routes/categories/categories.ts:66 | every row of a window is a row of the table |
| Sql.OrderBy | backend/routes/categories/categories.ts:65 | the spliced clause is `"col" ASC` for "asc" and `"col" DESC` for "desc" |
| Sql.PagesArePrefix | backend/routes/categories/categories.ts:21 | walking pages 1..n with offset `(page-1)*limit` yields the first `n*limit` rows in order, none skipped or repeated |
| Sql.NextPage | backend/routes/categories/categories.ts:66 | the rows before an offset followed by the window at it are the rows before offset+limit |
| Sql.SortBy | backend/routes/categories/categories.ts:65 | `ORDER BY` returns a permutation (same multiset) of the rows |
| Sql.SortBySorted | backend/routes/categories/categories.ts:65 | under a total preorder the `ORDER BY` result is sorted |
| Sql.NullsLastPreorder | backend/routes/categories/categories.ts:27 | ordering rows by a nullable text column, NULLs last as PostgreSQL does for `ASC`, is a total preorder whenever the collation is one |
| Sql.InsertSorted | backend/routes/categories/categories.ts:65 | inserting into a sorted list keeps it sorted |
| Sql.LimitOffsetSorted | backend/routes/categories/categories.ts:65-66 | a `LIMIT/OFFSET` window of a sorted result is sorted |
| Sql.SortByMember | backend/routes/categories/categories.ts:65 | sorting adds no rows |
| Sql.SortedUnique | backend/routes/transactions/transactions.ts:209 | when the ordering ties no two different rows of the list, two sorted arrangements of those rows are equal, so any database sort agrees with the modelled one |
| Sql.NoTiesOnSameRows | backend/routes/transactions/transactions.ts:209 | whether an ordering ties two different rows depends only on which rows there are, not on their arrangement |
| Schema.ParseDirection | backend/migrations/1740179385382_create-table-transactions.js:12 | the `direction` enum accepts exactly "IN" and "OUT", and stores what it accepted |
| Schema.DirectionRoundTrip | backend/migrations/1740179385382_create-table-transactions.js:12 | a stored direction reads back as itself |
| Schema.CompareHash | backend/routes/users/users.ts:171-178 | `bcrypt.compare` accepts the hashed password; another password is accepted exactly when it agrees with it on the first 72 characters, so among passwords of at most 72 characters only the password itself |
| Schema.Key | backend/routes/users/users.ts:120 | bcrypt hashes at most 72 characters of a password: a prefix of it, the whole of a short one |
| Schema.LongPasswordsCollide | backend/routes/users/users.ts:171-178 | two passwords that differ only after the 72nd character match each other's digest |
| UserTable.UserStore.constructor | backend/migrations/1736802031461_my-first-migration.js:7-12 | an empty users table whose serial id starts at 1, with no one signed in |
| UserTable.WithEmail | backend/routes/users/users.ts:163 | `WHERE "email" = $1` keeps exactly the users with that e-mail |
| UserTable.WithEmailAppend | backend/routes/users/users.ts:129 | a user inserted later is found after the earlier ones with the same e-mail |
| UserTable.EmailTakenIffRows | backend/routes/users/users.ts:103-107 | `SELECT EXISTS(...)` is true exactly when the lookup returns a row |
| UserTable.SessionUserId | backend/routes/transactions/transactions.ts:120-134 | the session user id exists exactly when the session holds an e-mail of a stored user, and is that user's id |
| UserTable.SignUpOutcomeOf | backend/routes/users/users.ts:96-145 | sign-up reports an existing user exactly when the trimmed e-mail is taken, a failure exactly when the hash fails, and otherwise inserts the untrimmed e-mail with the hashed password |
| UserTable.SignInOutcomeOf | backend/routes/users/users.ts:157-189 | sign-in finds no user unless exactly one row has the trimmed e-mail, rejects a password that does not compare, and otherwise signs in that user |
| UserTable.SetPassword | backend/routes/users/actions/password.ts:29-34 | `UPDATE ... WHERE "email" = session` replaces the digest of exactly the session's rows |
| UserTable.WithEmailSetPassword | backend/routes/users/actions/password.ts:29-34 | updating passwords commutes with looking a user up by e-mail |
| MyselfAction.Myself | backend/routes/users/actions/myself.ts:20-50 | a query error gives 422 LOGIN_ERROR; otherwise success (200) exactly when the session e-mail belongs to a stored user, whose profile is returned, and 422 GET_USER_ERROR otherwise |
| SigninAction.SignIn | backend/routes/users/actions/signin.ts:19-57 | every reply is 200; USER_NOT_FOUND, WRONG_PASSWORD and LOGIN_ERROR leave the session alone; LOGIN_SUCCESSFUL stores the user's e-mail in the session and returns the profile |
| SignupAction.SignUp | backend/routes/users/actions/signup.ts:19-68 | 200 USER_EXISTS when the trimmed e-mail is taken, 500 REGISTRATION_ERROR when hashing fails, otherwise exactly one user appended with the next id |
| PasswordAction.UpdatePassword | backend/routes/users/actions/password.ts:21-50 | a hash failure changes nothing (500); otherwise the update runs, and the reply is 200 only when exactly one row was affected |
| PasswordAction.UpdateThenSignIn | backend/routes/users/actions/password.ts:29-42 | after a successful password update the signed-in user can sign in with the new password |
| UsersRoute.SignUp | backend/routes/users/users.ts:96-145 | as `SignupAction.SignUp` but USER_EXISTS and REGISTRATION_ERROR are 422 |
| UsersRoute.SignIn | backend/routes/users/users.ts:157-195 | 422 USER_NOT_FOUND unless one row has the trimmed e-mail, 422 WRONG_PASSWORD, 422 LOGIN_ERROR on a query error, else 200 with the session set; success exactly when the credentials sign in |
| UsersRoute.Logout | backend/routes/users/users.ts:75-84 | destroying the session clears it and answers LOGGED_OUT; a failure answers 422 and keeps it |
| UsersRoute.SignInThenMyself | backend/routes/users/users.ts:179 | after a successful sign-in, `/myself` returns that user's profile |
| UsersRoute.PaddedSignUpNeverSignsIn | backend/routes/users/users.ts:130 | a sign-up whose e-mail has surrounding whitespace stores it untrimmed, and signing in with it then finds no user |
| UsersRoute.PaddedSignUpExample | backend/routes/users/users.ts:104-130 | " a@b.c" registers and cannot sign in |
| UsersRoute.SignUpOutcomeTrimmed | backend/routes/users/users.ts:104 | corrected sign-up: stores the trimmed e-mail it checked |
| UsersRoute.TrimmedSignUpThenSignIn | backend/routes/users/users.ts:164 | with the corrected sign-up, signing in with the same e-mail and password always succeeds |
| TransactionsRoute.Owned | backend/routes/transactions/transactions.ts:208 | `WHERE transactions.user_id = $1` keeps exactly the user's transactions |
| TransactionsRoute.InDateRange | backend/routes/transactions/transactions.ts:178-181 | the date filter applies only when both `from` and `to` are given, and keeps exactly the rows between them |
| TransactionsRoute.InDateRangeOpen | backend/routes/transactions/transactions.ts:178-181 | without both bounds no row is filtered out |
| TransactionsRoute.FindOwned | backend/routes/transactions/transactions.ts:283-285 | the row found belongs to the user and has the id; none means no such row |
| TransactionsRoute.FindCategory | backend/routes/transactions/transactions.ts:206 | the `LEFT JOIN categories` partner has the referenced id; none when no category has it |
| TransactionsRoute.FindSubCategory | backend/routes/transactions/transactions.ts:207 | the same for the `LEFT JOIN sub_categories` partner |
| TransactionsRoute.Views | backend/routes/transactions/transactions.ts:195-207 | one joined view per transaction, in order |
| TransactionsRoute.OrderByClause | backend/routes/transactions/transactions.ts:110-111 | with no sort parameters the order is `"id" ASC` |
| TransactionsRoute.Window | backend/routes/transactions/transactions.ts:137-165 | without both `page` and `limit` the whole list is returned; otherwise the window holds only listed rows |
| TransactionsRoute.ListTransactions | backend/routes/transactions/transactions.ts:104-242 | a successful list is never empty, and its `count` is the number of the session user's transactions |
| TransactionsRoute.ListRefusals | backend/routes/transactions/transactions.ts:126-176 | each refusal under its condition, in the order of the checks: no user, page or limit below 1, limit above 100, `from` after `to`; then a 500 when the `ORDER BY` text is not valid |
| TransactionsRoute.EmptyAnswerExactly | backend/routes/transactions/transactions.ts:217-232 | once the checks pass, "No transactions found" comes back exactly when the offset is at or past the number of matching rows (without pagination: when none match), and a success otherwise |
| TransactionsRoute.PageIsSliceOfWhole | backend/routes/transactions/transactions.ts:137-165 | in the model, where both queries break ties the same way, a paginated answer is `LIMIT limit OFFSET (page-1)*limit` of the unpaginated answer, with the same count |
| TransactionsRoute.PageOfAnyDatabaseOrder | backend/routes/transactions/transactions.ts:137-210 | in a table with unique ids, when the ordering ties only rows with the same id (as `"id" ASC` and `"id" DESC`), a page is that slice of ANY sorted arrangement of the matching rows, whatever order the database picks |
| TransactionsRoute.IdOrdersTieOnlyOnSameId | backend/routes/transactions/transactions.ts:110-111 | the orderings of `"id" ASC` (the default) and `"id" DESC` are total and tie only rows with the same id |
| TransactionsRoute.UniqueIdsLeaveNoTies | backend/routes/transactions/transactions.ts:178-209 | with increasing ids, such an ordering ties no two different rows of a user's list |
| TransactionsRoute.PageWithinLimit | backend/routes/transactions/transactions.ts:140-155 | a paginated answer has at most `limit` rows and `limit` is at most 100 |
| TransactionsRoute.OffsetCheckUnreachable | backend/routes/transactions/transactions.ts:156-163 | the "Invalid offset value" reply can never be sent, since page and limit are already at least 1 |
| TransactionsRoute.ResultsAreOwnedAndInRange | backend/routes/transactions/transactions.ts:178-208 | every listed row is the view of one of the session user's transactions, within the date range when one is given |
| TransactionsRoute.UnpaginatedAnswerIsWholeWindow | backend/routes/transactions/transactions.ts:178-208 | without pagination the answer is every transaction of the user inside the date window (as a multiset), the whole window included |
| TransactionsRoute.WholeAnswerIsAllOwned | backend/routes/transactions/transactions.ts:184-232 | with no pagination and no date range the answer is every transaction of the user (as a multiset), and `count` is its length |
| TransactionsRoute.CountIgnoresQuery | backend/routes/transactions/transactions.ts:184-189 | `count` counts all of the user's transactions whatever the page, sort and dates |
| TransactionsRoute.ResultsSorted | backend/routes/transactions/transactions.ts:209 | the listed rows are sorted by the requested column and direction |
| TransactionsRoute.GetTransaction | backend/routes/transactions/transactions.ts:256-314 | GET /:id succeeds exactly when the session user owns a transaction with that id, returns that row as the success reply, and otherwise gives the source's two error replies |
| TransactionsRoute.InsertedRow | backend/routes/transactions/transactions.ts:49-61 | the insert succeeds exactly when the amount is given and the direction is IN or OUT, and stores the request's fields for the session user |
| TransactionsRoute.AddTransaction | backend/routes/transactions/transactions.ts:26-84 | unknown user or a refused row adds no row; otherwise exactly one row is appended and returned; the id serial advances unless the user is unknown or the direction is not an enum label, so a NOT NULL refusal uses an id up |
| TransactionsRoute.AddThenGet | backend/routes/transactions/transactions.ts:283-303 | a transaction just added is what GET /:id returns |
| TransactionsRoute.Merge | backend/routes/transactions/transactions.ts:360-372 | each editable column takes the request's value when one is given and keeps its own otherwise; id, owner and timestamp never change |
| TransactionsRoute.MergeIdempotent | backend/routes/transactions/transactions.ts:360-372 | applying the same edit twice equals applying it once |
| TransactionsRoute.MergeEmpty | backend/routes/transactions/transactions.ts:360-372 | an edit with every field null changes nothing |
| TransactionsRoute.EditRows | backend/routes/transactions/transactions.ts:358-373 | only the user's row with that id is edited; every other row is unchanged |
| TransactionsRoute.EditOf | backend/routes/transactions/transactions.ts:364 | an edit is accepted exactly when its direction is absent or IN/OUT |
| TransactionsRoute.EditTransaction | backend/routes/transactions/transactions.ts:333-398 | unknown user and a bad direction change nothing; otherwise the rows become `EditRows` and the reply is the merged row or "not found" |
| TransactionsRoute.EditThenGet | backend/routes/transactions/transactions.ts:358-373 | after an edit, the transaction read back is the merged one |
| TransactionsRoute.RemoveRows | backend/routes/transactions/transactions.ts:436-445 | `DELETE ... WHERE user_id AND id` removes exactly the matching rows |
| TransactionsRoute.DeleteTransaction | backend/routes/transactions/transactions.ts:412-470 | unknown user changes nothing; otherwise the matching rows are removed and the deleted row is returned, or "not found" |
| TransactionsRoute.RemoveKeepsOrder | backend/routes/transactions/transactions.ts:436-445 | deleting keeps serial ids increasing and below the next id |
| TransactionsRoute.DeleteThenGet | backend/routes/transactions/transactions.ts:436-445 | after a delete, GET /:id fails, and every other row is still there |
| CategoriesRoute.ListCategories | backend/routes/categories/categories.ts:14-96 | a successful list is non-empty and no longer than the table |
| CategoriesRoute.FullListIsEveryCategory | backend/routes/categories/categories.ts:23-45 | without both `page` and `limit` the answer is every category (as a multiset) and `count` is their number; under a total collation the names come in collation order, NULL names last (`ORDER BY name ASC`) |
| CategoriesRoute.NameOrderIsPreorder | backend/routes/categories/categories.ts:27 | `ORDER BY name ASC` on categories is a total preorder whenever the text collation is one |
| CategoriesRoute.PagedListIsSortedWindow | backend/routes/categories/categories.ts:56-88 | a paginated answer is the window at `(page-1)*limit` of the table in the requested order, sorted by it, and is only given for page and limit of at least 1 |
| CategoriesRoute.PagedListBounds | backend/routes/categories/categories.ts:56-88 | a paginated answer has at most `limit` rows, all from the table, and `count` is the table size |
| CategoriesRoute.NegativeWindowIsServerError | backend/routes/categories/categories.ts:21-95 | a negative limit, or a page below 1 with a positive limit, makes the query fail with the 500 GET_CATEGORIES_ERROR reply |
| CategoriesRoute.ListRepliesExactly | backend/routes/categories/categories.ts:21-95 | each reply of GET / under its condition: unpaginated, "No results retrieving categories" exactly when the table is empty; paginated, the 500 reply for an invalid ORDER BY or a negative window, else "No results" exactly when the offset is past the end or the limit is 0, and a success otherwise |
| CategoriesRoute.Rename | backend/routes/categories/categories.ts:107 | the UPDATE sets name and notes of exactly the rows with that id |
| CategoriesRoute.CountId | backend/routes/categories/categories.ts:112 | the affected row count is zero exactly when no row has the id |
| CategoriesRoute.UpdateCategory | backend/routes/categories/categories.ts:101-136 | the table becomes `Rename(...)`; the reply is UPDATE_CATEGORY_ERROR when no row had the id, else the echo of id, name and notes |
| CategoriesRoute.RenameKeepsOrder | backend/routes/categories/categories.ts:107 | updating keeps serial ids increasing and below the next id |
| CategoriesRoute.UpdateReplacesBoth | backend/routes/categories/categories.ts:107 | an UPDATE without a name clears the name (no COALESCE here) |
| CategoriesRoute.DropId | backend/routes/categories/categories.ts:146 | the DELETE removes exactly the rows with that id |
| CategoriesRoute.DeleteCategory | backend/routes/categories/categories.ts:141-173 | the table becomes `DropId(...)`; the reply is DELETE_CATEGORY_ERROR when no row had the id, else success with the id |
| CategoriesRoute.DropKeepsOrder | backend/routes/categories/categories.ts:146 | deleting keeps serial ids increasing and below the next id |
| CategoriesRoute.DeleteRemovesOnlyThatId | backend/routes/categories/categories.ts:146 | a category survives a delete exactly when its id differs, and none with the id remains |
| CategoriesRoute.AddCategory | backend/routes/categories/categories.ts:178-208 | exactly one row with the next id is appended and returned |
| SubCategoriesRoute.Joined | backend/routes/sub-categories/sub-categories.ts:26-30 | the inner join yields only sub-categories paired with their parent category |
| SubCategoriesRoute.ParentOf | backend/routes/sub-categories/sub-categories.ts:30 | the join partner is the category with the referenced id, or none |
| SubCategoriesRoute.ListSubCategories | backend/routes/sub-categories/sub-categories.ts:11-63 | a successful list is non-empty and `count` is the size of the whole table |
| SubCategoriesRoute.ListRepliesExactly | backend/routes/sub-categories/sub-categories.ts:14-63 | each reply of GET / under its condition: the 500 reply for an invalid ORDER BY or a negative window, else "No results retrieving sub-categories" exactly when the offset is past the end of the joined rows or the limit is 0, and a success otherwise |
| SubCategoriesRoute.ListIsSortedWindow | backend/routes/sub-categories/sub-categories.ts:14-63 | a successful answer is the window at `(page-1)*limit` of the joined rows in the requested order, sorted by it, and is only given for page and limit of at least 1 |
| SubCategoriesRoute.ListedRowsAreJoined | backend/routes/sub-categories/sub-categories.ts:22-37 | every listed row is a sub-category joined with its parent, and at most `limit` (default 10) are listed |
| SubCategoriesRoute.OrphanNeverListed | backend/routes/sub-categories/sub-categories.ts:30 | a sub-category whose parent is missing is never listed |
| SubCategoriesRoute.OfCategory | backend/routes/sub-categories/sub-categories.ts:73-77 | `WHERE category_id = $1` keeps exactly that category's sub-categories |
| SubCategoriesRoute.ListOfCategory | backend/routes/sub-categories/sub-categories.ts:68-107 | success returns exactly that category's sub-categories (as a multiset), with `count` their number; failure means there are none |
| SubCategoriesRoute.ListOfCategoryInNameOrder | backend/routes/sub-categories/sub-categories.ts:74-78 | one category's sub-categories come back with their names in collation order, NULL names last (`ORDER BY name ASC`) |
| SubCategoriesRoute.NameOrderIsPreorder | backend/routes/sub-categories/sub-categories.ts:77 | `ORDER BY name ASC` on sub-categories is a total preorder whenever the text collation is one |
| SubCategoriesRoute.AddSubCategory | backend/routes/sub-categories/sub-categories.ts:112-146 | without a category the insert fails with 500 and adds no row; otherwise one row is appended and 201 returns its id; either way the id serial advances |
| SubCategoriesRoute.Replace | backend/routes/sub-categories/sub-categories.ts:156-161 | the UPDATE sets name, notes and parent of exactly the rows with that id |
| SubCategoriesRoute.CountSubId | backend/routes/sub-categories/sub-categories.ts:163 | the affected row count is zero exactly when no row has the id |
| SubCategoriesRoute.ReplaceKeepsOrder | backend/routes/sub-categories/sub-categories.ts:156-161 | updating keeps serial ids increasing and below the next id |
| SubCategoriesRoute.UpdateSubCategory | backend/routes/sub-categories/sub-categories.ts:151-188 | no row with the id: 200 "Error updating sub-category" and nothing changes, with or without a parent; a row but no parent: 500 and nothing changes; otherwise the table becomes `Replace(...)` and the echo is returned |
| SubCategoriesRoute.MovedShowsUnderNewParent | backend/routes/sub-categories/sub-categories.ts:156-161 | a moved sub-category is listed under its new parent |
| SubCategoriesRoute.DropSubId | backend/routes/sub-categories/sub-categories.ts:197-201 | the DELETE removes exactly the rows with that id |
| SubCategoriesRoute.DropSubKeepsOrder | backend/routes/sub-categories/sub-categories.ts:197-201 | deleting keeps serial ids increasing and below the next id |
| SubCategoriesRoute.DeleteSubCategory | backend/routes/sub-categories/sub-categories.ts:193-225 | the table becomes `DropSubId(...)`; the reply is an error when no row had the id, else success with the id |
| DataTable.ReplaceById | frontend/src/components/crud-data-grid/data-table/DataTable.tsx:50 | `rows.map(row => row.id === id ? updated : row)` replaces exactly the rows with that id |
| DataTable.RemoveById | frontend/src/components/crud-data-grid/data-table/DataTable.tsx:89 | `rows.filter(row => row.id !== id)` keeps exactly the rows with other ids |
| DataTable.FindById | frontend/src/components/crud-data-grid/data-table/DataTable.tsx:87 | `rows.find` returns a row with that id, or none when there is none |
| DataTable.CrudGrid.constructor | frontend/src/components/crud-data-grid/data-table/DataTable.tsx:35-37 | the grid starts with no rows, no row modes and nothing to delete |
| DataTable.CrudGrid.SetData | frontend/src/components/crud-data-grid/data-table/DataTable.tsx:40-42 | new data replaces the rows |
| DataTable.CrudGrid.ProcessRowUpdate | frontend/src/components/crud-data-grid/data-table/DataTable.tsx:45-61 | a new row with an id is added and others saved; on a truthy result the row is replaced (taking the returned id when added) and no longer new, on a falsy one nothing changes |
| DataTable.CrudGrid.DeleteClick | frontend/src/components/crud-data-grid/data-table/DataTable.tsx:64-66 | the clicked id awaits confirmation |
| DataTable.CrudGrid.EditClick | frontend/src/components/crud-data-grid/data-table/DataTable.tsx:74-76 | only that row enters edit mode |
| DataTable.CrudGrid.SaveClick | frontend/src/components/crud-data-grid/data-table/DataTable.tsx:78-80 | only that row returns to view mode |
| DataTable.CrudGrid.CancelClick | frontend/src/components/crud-data-grid/data-table/DataTable.tsx:82-91 | the row returns to view mode ignoring modifications, and is removed exactly when it was new |
| DataTable.CrudGrid.RowModesModelChange | frontend/src/components/crud-data-grid/data-table/DataTable.tsx:93-95 | the grid's row modes are taken as given |
| DataTable.CrudGrid.ConfirmDialogClose | frontend/src/components/crud-data-grid/data-table/DataTable.tsx:97-105 | delete is called exactly when confirmed with a truthy pending id; the row is removed only on a truthy result; nothing is pending afterwards |
| DataTable.EditStopPrevented | frontend/src/components/crud-data-grid/data-table/DataTable.tsx:68-72 | an edit stop is prevented exactly when focus left the row |
| DataTable.SwapKeepsOthers | frontend/src/components/crud-data-grid/data-table/DataTable.tsx:45-52 | saving a new row swaps in the server id and leaves every other row unchanged |
| DataTable.RemoveAbsent | frontend/src/components/crud-data-grid/data-table/DataTable.tsx:89 | removing an id no row has changes nothing |
| DataTable.RemoveAppend | frontend/src/components/crud-data-grid/data-table/DataTable.tsx:89 | removal distributes over appending a row |
| DataTable.RemoveIdempotent | frontend/src/components/crud-data-grid/data-table/DataTable.tsx:101 | removing the same id twice equals removing it once |
| EditToolbar.BlankRow | frontend/src/components/crud-data-grid/EditToolbar.tsx:12 | the added row has the generated id, is new, and has empty name, age and role |
| EditToolbar.HandleClick | frontend/src/components/crud-data-grid/EditToolbar.tsx:10-17 | one blank row is appended and only it enters edit mode with focus on "name" |
| EditToolbar.AddThenCancelRestores | frontend/src/components/crud-data-grid/EditToolbar.tsx:10-17 | adding a record and cancelling it restores the rows, when the generated id was unused |
| GridQuery.SortText | frontend/src/hooks/useTransactions/useTransactions.tsx:31 | `${sort}` renders "asc", "desc", "null" or "undefined", never containing '&' |
| GridQuery.Rendered | frontend/src/hooks/useTransactions/useTransactions.tsx:16-32 | one `key=value` string per parameter, in push order |
| GridQuery.RenderedAppend | frontend/src/hooks/useTransactions/useTransactions.tsx:16-32 | pushing two groups in turn renders each group in turn |
| GridQuery.PushTwo | frontend/src/hooks/useTransactions/useTransactions.tsx:20-21 | two `parameters.push` calls append the two rendered pairs |
| GridQuery.Lookup | frontend/src/hooks/useTransactions/useTransactions.tsx:16-32 | a key has a value exactly when some pushed pair has that key |
| GridQuery.ReadBack | frontend/src/hooks/useTransactions/useTransactions.tsx:34 | the server reads from the joined query string exactly the first value pushed for each key, and nothing for unused keys |
| GridQuery.BuildPagedParameters | frontend/src/pages/settings/hooks/useCategoriesData/useCategoriesData.ts:40-46 | page and limit are pushed first, then the sort pair when the sort model is non-empty |
| GridQuery.PagedQueryReadBack | frontend/src/pages/settings/hooks/useCategoriesData/useCategoriesData.ts:40-47 | the server reads back the page and the page size as `limit`, and the sort column and direction exactly when the model is non-empty |
| GridQuery.ShownMember | frontend/src/pages/settings/hooks/useCategoriesData/useCategoriesData.ts:35-37 | a column is shown exactly when the visibility model does not map it to false |
| TransactionsHook.BuildListUrl | frontend/src/hooks/useTransactions/useTransactions.tsx:16-34 | the URL is `/transactions?` plus dates, paging and sort parameters joined by '&', each group only when its guard is truthy |
| TransactionsHook.ListEncodable | frontend/src/hooks/useTransactions/useTransactions.tsx:16-32 | the pushed keys and values survive the trip through the query string when dates and sort field contain no '&' |
| TransactionsHook.ListKeyReadBack | frontend/src/hooks/useTransactions/useTransactions.tsx:16-34 | each key reads back as its value in the first group that has it: dates, then paging, then sort |
| TransactionsHook.DatesLookup | frontend/src/hooks/useTransactions/useTransactions.tsx:19-22 | `from` and `to` are pushed exactly when both are non-empty |
| TransactionsHook.PagingLookup | frontend/src/hooks/useTransactions/useTransactions.tsx:24-27 | `page` and `limit` are pushed exactly when both are non-zero |
| TransactionsHook.SortLookup | frontend/src/hooks/useTransactions/useTransactions.tsx:29-32 | `sortColumn` and `sortDirection` are pushed exactly when the sort model is non-empty |
| TransactionsHook.ListQueryDates | frontend/src/hooks/useTransactions/useTransactions.tsx:19-22 | the server sees `from` and `to` exactly when both were given, with their values |
| TransactionsHook.ListQueryPaging | frontend/src/hooks/useTransactions/useTransactions.tsx:24-27 | the server sees `page` and `limit` exactly when both were non-zero, and reads a positive page as itself |
| TransactionsHook.ListQuerySort | frontend/src/hooks/useTransactions/useTransactions.tsx:29-32 | the server sees the first sort entry's column and direction exactly when the model is non-empty |
| TransactionsHook.FindName | frontend/src/hooks/useTransactions/useTransactions.tsx:84 | `find(...)?.name` is the name of the first item with that id, and undefined exactly when none has it |
| TransactionsHook.Merge | frontend/src/hooks/useTransactions/useTransactions.tsx:79-89 | the merge as written is empty unless all three queries have data, and otherwise maps each transaction in order through the as-written row merge |
| TransactionsHook.MergeAll | frontend/src/hooks/useTransactions/useTransactions.tsx:82-86 | one as-written merged row per transaction, in order |
| TransactionsHook.MergedRowsKeepTheirTransaction | frontend/src/hooks/useTransactions/useTransactions.tsx:79-89 | a row of the hook keeps its transaction's fields, names a category exactly when a loaded category has its id (and names that one), and as written never names a sub-category |
| TransactionsHook.NamedIffLoaded | frontend/src/hooks/useTransactions/useTransactions.tsx:84-85 | `find(...)?.name` gives a name exactly when a loaded item has the id, and it is that item's name |
| TransactionsHook.IntendedMergeNamesBoth | frontend/src/hooks/useTransactions/useTransactions.tsx:82-86 | with the lookup by `subCategory`, a row names a category and a sub-category each exactly when a loaded one has the transaction's id, and names that one |
| TransactionsHook.AsWrittenLosesSubcategory | frontend/src/hooks/useTransactions/useTransactions.tsx:85 | as written, the sub-category name is always undefined |
| TransactionsHook.SubcategoryNameExample | frontend/src/hooks/useTransactions/useTransactions.tsx:85 | a transaction with sub-category 3 and subcategory "Rent" gets no name as written, and "Rent" when corrected |
| TransactionsHook.DependentQueriesEnabled | frontend/src/hooks/useTransactions/useTransactions.tsx:57 | the category queries run exactly when transactions were loaded and there is at least one |
| TransactionsHook.UseTransactions | frontend/src/hooks/useTransactions/useTransactions.tsx:91-95 | the hook returns the merge as written, is fetching when any query is, and counts 0 without data |
| TransactionsParse.ParseTransactionsApiResults | frontend/src/pages/transactions/hooks/useTransactions/useTransactions.lib.ts:13-24 | one client transaction per API row, in order |
| TransactionsParse.ParseIsLossless | frontend/src/pages/transactions/hooks/useTransactions/useTransactions.lib.ts:13-24 | parsing loses nothing: each API row can be rebuilt from its parsed transaction when amount and timestamp conversions invert |
| TransactionsPageHook.ShownColumns | frontend/src/pages/transactions/hooks/useTransactions/useTransactions.tsx:18-64 | the table shows amount, direction, category, subCategory, timestamp and notes, hiding id |
| TransactionsPageHook.ShownAllVisible | frontend/src/pages/transactions/hooks/useTransactions/useTransactions.tsx:18-20 | columns the visibility model does not mention are all shown |
| TransactionsPageHook.MergeAll | frontend/src/pages/transactions/hooks/useTransactions/useTransactions.tsx:117-121 | one table row per transaction, in order |
| TransactionsPageHook.Merge | frontend/src/pages/transactions/hooks/useTransactions/useTransactions.tsx:114-124 | empty unless all three queries have data, otherwise each transaction merged in order |
| TransactionsPageHook.ParseThenMerge | frontend/src/pages/transactions/hooks/useTransactions/useTransactions.tsx:114-124 | parsing then merging keeps each API row's fields, and names a category or sub-category exactly when one with the referenced id exists, giving that one's name |
| TransactionsPageHook.UseTransactions | frontend/src/pages/transactions/hooks/useTransactions/useTransactions.tsx:126-131 | the hook returns its columns, the merge, and is fetching when any query is |
| CategoriesData.CategoriesData.Effect | frontend/src/pages/settings/hooks/useCategoriesData/useCategoriesData.ts:39-52 | the effect requests `/categories?` with the paged query, and keeps a successful reply, leaving the state alone otherwise |
| CategoriesData.CategoriesData.Categories | frontend/src/pages/settings/hooks/useCategoriesData/useCategoriesData.ts:55 | the categories are the last reply's results, or none |
| CategoriesData.CategoriesData.Count | frontend/src/pages/settings/hooks/useCategoriesData/useCategoriesData.ts:56 | the count is the last reply's count, or 0 |
| CategoriesData.ShownColumns | frontend/src/pages/settings/hooks/useCategoriesData/useCategoriesData.ts:11-37 | the grid shows name and notes, hiding id |
| SubcategoriesData.SubcategoriesData.Effect | frontend/src/pages/settings/hooks/useSubcategoriesData/useSubcategoriesData.ts:56-69 | the effect requests `/subcategories?` with the paged query, and keeps a successful reply |
| SubcategoriesData.SubcategoriesData.Subcategories | frontend/src/pages/settings/hooks/useSubcategoriesData/useSubcategoriesData.ts:71 | the sub-categories are the last reply's results, or none |
| SubcategoriesData.SubcategoriesData.Count | frontend/src/pages/settings/hooks/useSubcategoriesData/useSubcategoriesData.ts:72 | the count is the last reply's count, or 0 |
| SubcategoriesData.ShownColumns | frontend/src/pages/settings/hooks/useSubcategoriesData/useSubcategoriesData.ts:11-54 | the grid shows name, category_name and notes, hiding id and category_id |
| RoutesLib.FindIndex | frontend/src/routing/routes/routes.lib.ts:25 | `find` stops at the first route whose field equals the value |
| RoutesLib.Find | frontend/src/routing/routes/routes.lib.ts:25-27 | the route found is the first match, and none exactly when nothing matches |
| RoutesLib.GetRouteByField | frontend/src/routing/routes/routes.lib.ts:18-31 | a found route comes from the table the type names and matches the field; an unknown type finds nothing; a match in the named table is always found |
| RoutesLib.KeysAreDistinct | frontend/src/routing/routes/routes-indoor.ts:9-25 | no two routes share an id, and no two routes of one table share a path |
| RoutesLib.IndoorRouteByOwnKey | frontend/src/routing/routes/routes.lib.ts:24-25 | every indoor route is found by its own path and by its own id |
| RoutesLib.OutdoorPathNotIndoor | frontend/src/routing/routes/routes.lib.ts:24-25 | an outdoor path is not found among the indoor routes |
| EmailCheck.IndexOf | frontend/src/utils/string.ts:10 | the first position of a character, or none when absent |
| EmailCheck.MatchesIsPattern | frontend/src/utils/string.ts:10 | the executable check holds exactly when `^[^\s@]+@[^\s@]+\.[^\s@]+$` matches |
| EmailCheck.IsValidEmailAddressAsWritten | frontend/src/utils/string.ts:10 | as written, the function is true exactly when the pattern does NOT match |
| EmailCheck.IsValidEmailAddress | frontend/src/utils/string.ts:1-10 | corrected, true exactly when the pattern matches, as documented |
| EmailCheck.MalformedIsRejected | frontend/src/utils/string.ts:10 | an address with whitespace or without '@' is rejected by the documented check and accepted as written |
| EmailCheck.TwoAtsAreRejected | frontend/src/utils/string.ts:10 | an address with two '@' is rejected by the documented check and accepted as written |
| EmailCheck.ValidExamples | frontend/src/utils/string.ts:10 | "a@b.c" and "a@b.c.d" are valid as documented and invalid as written |
| EmailCheck.InvalidExample | frontend/src/utils/string.ts:10 | "plainaddress" is invalid as documented and valid as written |
| RegisterForm.IsFormFilled | frontend/src/pages/authentication/register/Register.lib.ts:10-12 | the form is filled exactly when names and e-mail are non-empty and the password is valid |
| RegisterForm.PresenceOnly | frontend/src/pages/authentication/register/Register.lib.ts:10-12 | the guard checks presence only: " " passes it though it is no e-mail address |
| SigninForm.IsFormFilled | frontend/src/pages/authentication/signin/Signin.lib.ts:8-10 | the form is filled exactly when e-mail and password are non-empty |
| SigninForm.SignupThenSignin | frontend/src/pages/authentication/signin/Signin.lib.ts:8-10 | an e-mail that filled the registration form fills the sign-in form with any non-empty password |

## Left out

- Express, `pg` and `express-session` plumbing is not modelled: connections, `client.end()`, cookies and `authenticationMiddleware`. The route models receive the session as a value.
- Foreign keys and other database constraints are not modelled, except where a handler relies on them: the `direction` enum and `amount NOT NULL` on transactions, and a missing sub-category parent.
- CategoriesRoute.DeleteCategory and SubCategoriesRoute.DeleteSubCategory always drop the row. In the source `transactions.category` and `transactions.sub_category` are foreign keys, so deleting a row a transaction references fails with the 500 reply.
- SignupAction.SignUp and UsersRoute.SignUp: a success's details are the insert's row count (1), where the source sends the driver's whole result object.
- The sub-categories migration is not part of this model.
- A missing `category_id` is refused by the column's NOT NULL (500): always on a sub-category insert, and on an update only when a row has the id, since an update that matches no row writes nothing. A `category_id` that names no category is accepted.
- Query-string values that are not numbers (`Number("x")` is NaN) are not modelled. Numeric parameters are `Option<int>`, and a present parameter is its number.
- Path parameters (`/:id`, `/:category_id`) reach `pg` as text, and one that is not an integer fails the database's cast, so the handler sends its 500 catch reply. The models take the id as an `int`, so that path is not modelled, and replies that echo the id (`details: { id }`, "No transaction found with ID: ...") echo its decimal rendering rather than the raw text.
- `users.firstName` and `users.lastName` may be NULL in the table. `Schema.User` holds them as `string`.
- `count(*)` arrives as a string from `pg`. The model keeps it as a number.
- Amounts are decimals and timestamps are dates in the source. Both are integers here; the client's `Number` and `new Date` conversions are function parameters.
- Server clocks (`current_timestamp`) are passed in as `now`.
- Row order that `ORDER BY` leaves open between equal keys is fixed by a stable insertion sort. The ordering for a column name is a parameter (`order`), and `None` models a column the database cannot sort by. For `ORDER BY name ASC` only the text collation is a parameter (`collate`); the NULLs-last rule is modelled.
- TransactionsRoute.PageIsSliceOfWhole: the equality rests on both queries breaking ties the same way, which PostgreSQL does not promise for a column with repeated values such as `amount`. `TransactionsRoute.PageOfAnyDatabaseOrder` states it without that assumption for orderings that tie only rows with the same id, such as the default `"id" ASC`; for other columns the page is not tied to a separate unpaginated query.
- `ListCategories` and `ListSubCategories` need the ordering to be valid on the query's column and direction, and otherwise fail. Which strings PostgreSQL accepts there is not modelled.
- `TransactionsRoute.AddTransaction` does not model the first reply's aftermath. With an unknown user, the handler sends 200 ADD_TRANSACTION_ERROR without returning, then fails reading `rows[0].id` and tries a second reply. Only the first reply is modelled, and nothing is inserted.
- Schema.Hash: the digest is represented by the key it was computed from and its salt, so the model does not capture that bcrypt is one-way. The key is the first 72 characters, where bcrypt counts 72 bytes of UTF-8.
- GridQuery.ParseQuery: Express's query parser turns a repeated key into an array and decodes '+' and `%xx` escapes. The model keeps a key's first value and decodes nothing. The hooks push each key once, and the values they push are assumed free of '&', '+' and '%'.
- CategoriesData.CategoriesData.Effect and SubcategoriesData.SubcategoriesData.Effect apply replies in the order they are given. In the source a slow reply to an earlier request can land after a newer one and overwrite the newer page; that race is not modelled.
- `bcrypt.compare` errors are thrown inside its callback, outside the `try`, and would crash the request. They are not modelled.
- `SignupAction.SignUp` and `UsersRoute.SignUp` model the insert-time failure (`hashFails`) but not a failure of the existence check itself. That path is the same error reply with nothing inserted.
- The sign-up existence check and the insert are separate queries. Concurrent sign-ups racing between them are not modelled.
- The `/check` route only answers LOGGED_IN after the middleware and is not modelled.
- `ToUpperAscii` upper-cases ASCII letters only. `toUpperCase` on other letters is not modelled, since the directions are "asc" and "desc".
- React Query caching, refetching, `placeholderData` and the timing of `enabled` are not modelled. The hooks are functions of the data the queries hold.
- `DataTable.CrudGrid.CancelClick` on an id with no row (the source's `editedRow!` throws) only resets the mode in the model.
- Stale `rows` closures in the grid's asynchronous handlers are not modelled. Each handler works on the current rows.
- `randomId()` is a parameter of `EditToolbar.HandleClick`.
- `parseCategoriesApiResults` and `parseSubCategoriesApiResults` are not part of this model. Their output is taken as id/name pairs (`Named`).
- Route `element` and `icon` components, the menus and the pages' rendering are not modelled. `GetRouteByField` returns no value for the `element` and `index` fields, which are never strings.
- The Signup page's passing of a string where `passwordIsValid` expects a boolean is not modelled. `RegisterForm.IsFormFilled` takes a boolean.

## Findings

| source | as written | input that shows it | evidently intended | confidence | as-written member | corrected member |
|---|---|---|---|---|---|---|
| frontend/src/utils/string.ts:10 | `isValidEmailAddress` returns the negation of the regular-expression test | "a@b.c" gives false and "plainaddress" gives true | true exactly for addresses matching the pattern, as its doc comment says | high (not executed) | EmailCheck.IsValidEmailAddressAsWritten | EmailCheck.IsValidEmailAddress |
| backend/routes/users/users.ts:130 | sign-up checks the trimmed e-mail for existence but inserts the untrimmed `req.body.email` (also actions/signup.ts:53) | sign up with " a@b.c", then sign in with " a@b.c" and the same password: USER_NOT_FOUND | store the trimmed e-mail that was checked, so the account can sign in | high (not executed) | UsersRoute.PaddedSignUpNeverSignsIn | UsersRoute.TrimmedSignUpThenSignIn |
| frontend/src/hooks/useTransactions/useTransactions.tsx:85 | the sub-category name is looked up with `transaction.subcategory`, a field the parsed transaction does not have (it has `subCategory`) | a transaction with subCategory 3 and sub-categories [{id: 3, name: "Rent"}] gets an undefined `subcategory` | look up `transaction.subCategory`, as the page-level hook does at line 120 | medium (not executed) | TransactionsHook.AsWrittenLosesSubcategory | TransactionsHook.IntendedMergeNamesBoth |
