# Warehouse monitoring: a verified model of the stock ledger, table handlers and client logic

The system is a small warehouse inventory. A PHP backend keeps four tables: categories, devices, users and an append-only transaction log. It serves them through JSON handlers. A React front end shows dashboards, a searchable inventory list and a profile form. This project models:

- **Stock ledger** (`TransactionsApi`, `transactions.dfy`). Recording a transaction inserts a row and then moves the referenced device's quantity by the signed amount: "in" adds, every other type subtracts. There is no lower bound and no rollback. Also modelled: the listing's decode step and the method dispatch.
- **Table handlers** (`CategoriesApi`, `DevicesApi`, `UsersApi`). They create, update and delete rows, fill in defaults, report uniqueness clashes as 409, and refuse to delete a category that devices still use.
- **Login** (`AuthApi`). A read-only lookup over the users table. The digest function is a parameter.
- **Security helpers** (`Security`):
  - the sliding-window rate limiter over stored timestamp logs;
  - string sanitising and input validation;
  - the hexadecimal CSRF token;
  - the in-memory IP blocklist.
- **CORS origin check** (`Cors`). A list of origins plus a scheme-and-host prefix rule in development.
- **Dashboard statistics** (`DashboardStats`). Sums and counts over devices and transactions with a 30-day cutoff.
- **Client-side list logic**:
  - the per-category totals and the five-item recent list (`DashboardPage`);
  - the search filter, delete and edit list updates, and the category-id lookup (`Inventory`);
  - the profile-update handler (`Profile`).

## How the backend is modelled

`Store.Database` is a class whose fields are the tables. Each table changes in place. `Store.Tables` is a value snapshot of them, and `Store.Integrity` states the schema's constraints:

- auto-increment keys;
- unique category names and user e-mails;
- unique transaction ids;
- the foreign keys device → category and transaction → device.

Each PHP handler has two parts:

- a method that updates `db` in place and returns the HTTP status;
- a pure function `...Outcome(tables, ...)` that gives the status and the resulting tables.

The method's postcondition ties the two together: `Outcome(code, db.Snapshot()) == XOutcome(old(db.Snapshot()), ...)`. It also keeps `db.Valid()`. The properties themselves are stated on the outcome function.

Whether a statement runs, has `execute()` return false, or throws is an input of type `Common.Exec`. `Common.Plan` holds two of these for handlers that run two statements. A constraint violation is decided from the tables themselves.

Library calls are fields of `Common.Runtime`, so nothing is assumed about them:

- `htmlspecialchars(strip_tags(..))`;
- `md5`;
- JSON encoding and decoding.

PHP's `empty` is `Common.Blank` for strings (absent, `""` or `"0"`) and `Common.BlankInt` for numbers (absent or 0).

## Model

| member | source | states |
|---|---|---|
| Common.CleanOpt | backend/api/transactions.php:80-83 | an optional member is stored as null exactly when it is absent |
| Store.CountInCategory | backend/api/categories.php:138-143 | the device count of a category is zero iff no device has that category id |
| TransactionsApi.Record | backend/api/transactions.php:74-84 | the inserted row carries the sent quantity (never 0); each of destination, recipient, source, sender and registration numbers is null iff absent |
| TransactionsApi.ApplyTransaction | backend/api/transactions.php:103-110 | only the named device changes, and only its quantity, by +quantity for "in" and −quantity for any other type; a missing device changes nothing |
| TransactionsApi.CreateTransactionOutcome | backend/api/transactions.php:65-122 | 400 iff the body is incomplete (quantity 0 counts as missing), with no change; a complete body whose insert fails gives 500 with no change and no update; the row is appended iff the insert runs and passes the key constraints; 201 iff also the update does not throw; the quantity moves only after a stored row; a throwing update leaves the row stored (no rollback) and answers 500; integrity is kept |
| TransactionsApi.CreateTransaction | backend/api/transactions.php:65-122 | the in-place insert and update end in exactly the state and status of CreateTransactionOutcome, keeping integrity |
| TransactionsApi.ReplayNet | backend/api/transactions.php:103-105 | replaying a log leaves a device at initial + Σin − Σout, its other columns untouched, with no lower bound |
| TransactionsApi.ReplayUntouched | backend/api/transactions.php:103-109 | a device that no row references keeps its row through the whole log |
| TransactionsApi.ApplyCommutes | backend/api/transactions.php:103-105 | two quantity adjustments give the same table in either order |
| TransactionsApi.ListTransactions | backend/api/transactions.php:48-55 | one listed row per stored transaction, in order, carrying that transaction |
| TransactionsApi.ListedNumbersRoundTrip | backend/api/transactions.php:51-53 | registration numbers stored by create are listed back as the same list when the JSON codec round-trips |
| TransactionsApi.GetTransactions | backend/api/transactions.php:38-63 | a throwing query answers 500 with nothing; a query that returns false answers 200 with nothing; otherwise 200 with ListTransactions of the stored log: every row, its registration numbers decoded when truthy |
| TransactionsApi.HandleTransactions | backend/api/transactions.php:25-36 | GET answers the listing of the stored log (empty when the query does not run) and POST creates; every other method but OPTIONS answers 405; only POST changes the database |
| CategoriesApi.CreateCategoryOutcome | backend/api/categories.php:66-97 | an empty name gives 400 and no change; 409 iff the cleaned name is taken; 201 iff it is free and the insert runs, adding exactly one row under the next id; any other status changes nothing |
| CategoriesApi.UpdateCategoryOutcome | backend/api/categories.php:99-133 | a missing id or name gives 400; 409 iff another category holds the name; 200 iff id and name are given, the statement runs and the name is not held by another category; only the named row's name can change; an unknown id changes nothing |
| CategoriesApi.DeleteCategoryOutcome | backend/api/categories.php:135-164 | 409 and no change when a device is in the category; 200 iff the count ran, no device is in it and the delete ran, removing exactly that row; a used category is never removed |
| CategoriesApi.CreateCategory | backend/api/categories.php:66-97 | the insert ends in the state and status of CreateCategoryOutcome |
| CategoriesApi.UpdateCategory | backend/api/categories.php:99-133 | the update ends in the state and status of UpdateCategoryOutcome |
| CategoriesApi.DeleteCategory | backend/api/categories.php:135-164 | the guarded delete ends in the state and status of DeleteCategoryOutcome |
| CategoriesApi.HandleCategories | backend/api/categories.php:25-47 | GET answers ListCategories when the query runs (no rows otherwise) and changes nothing; POST, PUT and DELETE are routed to their handlers; DELETE without an id gives 400 and no change; any other method gives 405 and no change; only GET returns rows |
| CategoriesApi.ListCategories | backend/api/categories.php:49-64 | one row per category, holding its id and name, and no other row |
| CategoriesApi.ListedNamesUnique | backend/api/categories.php:49-64 | under the unique key no name is listed twice, and the listing has exactly as many rows as there are categories |
| CategoriesApi.GetCategories | backend/api/categories.php:49-64 | a throwing query answers 500 with nothing; a query that returns false answers 200 with nothing; otherwise 200 with ListCategories of the stored table |
| DevicesApi.Columns | backend/api/devices.php:79-86 | the defaults for absent members: quantity 0, status 'In Stock', condition 'Normal', description null |
| DevicesApi.CreateDeviceOutcome | backend/api/devices.php:70-112 | a missing id, name, category id or brand gives 400 and no change; 200 iff the statement runs, the id is new and the category exists; it then inserts exactly that row with the defaults |
| DevicesApi.ReservedConditionRefused | backend/api/devices.php:75-76 | for a complete input with a new id in an existing category, the failing statements answer 500 to both create and update with no change, where running statements would create the row (200) and then update it (200) |
| DevicesApi.UpdateDeviceOutcome | backend/api/devices.php:114-163 | a missing id gives 400; 200 iff the id is given, the statement runs and the update does not point an existing row at an unknown category; that foreign-key violation answers 500 with no change; only the row with that id changes; every column is overwritten, and an absent quantity resets to 0 |
| DevicesApi.DeleteDeviceOutcome | backend/api/devices.php:165-183 | 200 iff the statement runs and no transaction references the device; it then removes exactly that row |
| DevicesApi.CreateDevice | backend/api/devices.php:70-112 | the insert ends in the state and status of CreateDeviceOutcome |
| DevicesApi.UpdateDevice | backend/api/devices.php:114-163 | the overwrite ends in the state and status of UpdateDeviceOutcome |
| DevicesApi.DeleteDevice | backend/api/devices.php:165-183 | the delete ends in the state and status of DeleteDeviceOutcome |
| DevicesApi.HandleDevices | backend/api/devices.php:25-47 | GET answers ListDevices when the query runs (no rows otherwise) and changes nothing; POST, PUT and DELETE are routed to their handlers; DELETE without an id gives 400 and no change; any other method gives 405 and no change; only GET returns rows |
| DevicesApi.JoinedName | backend/api/devices.php:51-52 | the LEFT JOIN gives a name iff a category has the device's category id |
| DevicesApi.ListDevices | backend/api/devices.php:49-68 | one row per device, holding its key, its columns and its category's name, and no other row |
| DevicesApi.GetDevices | backend/api/devices.php:49-68 | a throwing query answers 500 with nothing; a query that returns false answers 200 with nothing; otherwise 200 with ListDevices of the stored tables |
| UsersApi.ListUsers | backend/api/users.php:49-58 | the listing holds exactly the users' id, name, e-mail and role, never the password digest |
| UsersApi.NewUser | backend/api/users.php:76-79 | the stored row holds the digest of the password and the role as sent, or 'view_only' when absent |
| UsersApi.CreateUserOutcome | backend/api/users.php:68-106 | a missing name, e-mail or password gives 400; 409 iff the e-mail is taken; 201 iff free and the insert runs, adding exactly one row under the next id whose password is a digest |
| UsersApi.UpdatedUser | backend/api/users.php:113-134 | an empty password keeps the stored digest, a non-empty one stores its digest; name, e-mail and role are overwritten |
| UsersApi.UpdateUserOutcome | backend/api/users.php:108-156 | a missing id gives 400; 409 iff another user holds the e-mail; 200 iff the id is given, the statement runs and the e-mail is not held by another user; only the named row changes; without a password the digest is kept |
| UsersApi.DeleteUserOutcome | backend/api/users.php:158-176 | 200 iff the statement runs, removing exactly that row |
| UsersApi.GetUsers | backend/api/users.php:49-66 | 500 on a throwing query; otherwise 200 with the listing, whose every row is a user's public columns |
| UsersApi.CreateUser | backend/api/users.php:68-106 | the insert ends in the state and status of CreateUserOutcome |
| UsersApi.UpdateUser | backend/api/users.php:108-156 | the update ends in the state and status of UpdateUserOutcome |
| UsersApi.DeleteUser | backend/api/users.php:158-176 | the delete ends in the state and status of DeleteUserOutcome |
| UsersApi.HandleUsers | backend/api/users.php:25-47 | routes the methods; only GET returns rows; DELETE without an id gives 400 and no change; other methods give 405 |
| AuthApi.Login | backend/api/auth.php:31-67 | 400 iff the e-mail or password is blank; 500 iff otherwise the query throws (no try/catch, errors raise exceptions); 200 iff the query runs and some user has the cleaned e-mail and the digest of the password, answering that user's id, name, e-mail and role only; otherwise 401 |
| AuthApi.LoginIdentifiesUser | backend/api/auth.php:35-57 | with unique e-mails a successful login names the one user with that e-mail |
| AuthApi.LoginAfterPasswordChange | backend/api/auth.php:35-46 | after a user's digest is replaced, the new password logs that user in and any password with another digest gets 401 |
| AuthApi.HandleAuth | backend/api/auth.php:8-29 | OPTIONS and a POST without `action=login` produce no answer; a login POST answers Login's reply; any other method answers 405 |
| Security.RateKey | backend/config/security.php:76 | the key is "rate_limit_" + type + "_" + identifier |
| Security.Above | backend/config/security.php:89-92 | the kept entries are all later than the window start and no more than the log |
| Security.AboveKeeps | backend/config/security.php:89-92 | an entry survives the clean-up iff it is later than the window start |
| Security.AboveTwice | backend/config/security.php:87-92 | cleaning with an earlier and then a later window start is cleaning once with the later one |
| Security.AboveSnoc | backend/config/security.php:89-100 | cleaning distributes over appending one entry |
| Security.Step | backend/config/security.php:86-103 | allowed iff fewer than `requests` entries remain after the clean-up; an allowed call stores a log of at most `requests` entries ending in now; a refused one leaves the log as it was |
| Security.ReplayStep | backend/config/security.php:86-103 | one more call in time order keeps the stored log equal to the granted calls inside the last granted call's window |
| Security.ReplayStored | backend/config/security.php:70-104 | after calls in time order the stored log is exactly the granted calls later than the last granted call's window start |
| Security.GrantedLogBound | backend/config/security.php:95-100 | once a call was granted, the stored log never holds more than `requests` entries |
| Security.SlidingWindowBound | backend/config/security.php:70-104 | for calls in time order, at most `requests` calls are granted in the window ending at the last granted call |
| Security.StripControls | backend/config/security.php:61 | the result holds no NUL or vertical tab |
| Security.StripControlsKeeps | backend/config/security.php:61 | a character survives iff it is in the input and is not NUL or vertical tab |
| Security.TrimStart | backend/config/security.php:64 | the result is the suffix after the leading trimmed characters |
| Security.TrimEnd | backend/config/security.php:64 | the result is the prefix before the trailing trimmed characters |
| Security.Trim | backend/config/security.php:64 | the result is a segment of the input with only white space, NUL or vertical tab before and after it, and it neither starts nor ends with one of them |
| Security.TrimUnique | backend/config/security.php:64 | that specification determines the result: any such segment is Trim's |
| Security.TrimKeeps | backend/config/security.php:64 | every character that is not one of the trimmed ones survives |
| Security.TrimIdempotent | backend/config/security.php:64 | trimming twice is trimming once |
| Security.SanitizeEscapes | backend/config/security.php:59-67 | what reaches the HTML escape is the one text that is the control-free input trimmed at both ends; it holds no NUL or vertical tab, and every input character that is neither stripped nor trimmed reaches it |
| Security.Sanitize | backend/config/security.php:59-68 | the result is the escape of exactly that text |
| Security.ValidateInput | backend/config/security.php:40-57 | arrays are sanitised element by element with their length kept, each element the escape of its control-free, trimmed text; a result is filtered iff the input is a scalar and the type is 'email', 'int', 'float' or 'url', each through its validating filter; any other scalar, including the default type 'general', is sanitised the same way |
| Security.HexDigit | backend/config/security.php:113 | a value below 16 maps to a lower-case hexadecimal digit |
| Security.BinToHex | backend/config/security.php:113 | two hexadecimal digits per byte |
| Security.HexValue | backend/config/security.php:113 | the value of a hexadecimal digit, whose digit is that character again |
| Security.HexToBin | backend/config/security.php:113 | one byte per two digits |
| Security.HexRoundTrip | backend/config/security.php:113 | a token decodes back to the random bytes it was made from |
| Security.SecurityHandler.constructor | backend/config/security.php:7-17 | limits api 100 per 3600 s and auth 5 per 300 s, session timeout 3600, and a fresh handler blocks nobody |
| Security.SecurityHandler.CheckRateLimit | backend/config/security.php:70-104 | the type defaults to 'api'; an unknown type is allowed and touches no log; otherwise the decision and the stored log are Step's, a refused call leaves the store as it was, and an allowed call leaves at most `requests` entries |
| Security.SecurityHandler.ValidateCsrf | backend/config/security.php:106-109 | true iff a session token is set and equals the given one |
| Security.SecurityHandler.GenerateCsrf | backend/config/security.php:111-116 | an existing token is returned unchanged; otherwise the hex of the 32 random bytes, 64 digits that decode back to them, becomes the token; the returned token validates |
| Security.SecurityHandler.IsBlocked | backend/config/security.php:118-120 | true iff the address is on the blocklist |
| Security.SecurityHandler.BlockIP | backend/config/security.php:122-128 | the duration defaults to 3600 and is unused; the address is appended and then blocked, and every other address keeps its verdict |
| Cors.StartsWithConcat | backend/config/cors.php:65 | starting with a + b is starting with a and then b |
| Cors.AfterScheme | backend/config/cors.php:65 | a rest exists iff the origin starts with `http://` or `https://` |
| Cors.IsDomainAllowed | backend/config/cors.php:62-69 | only in development and only for an origin with an http or https scheme; DomainAllowedMeansPrefix gives the exact condition |
| Cors.PrefixMatches | backend/config/cors.php:65 | a scheme followed by a local host prefix matches the pattern |
| Cors.MatchHasPrefix | backend/config/cors.php:65 | a matching origin starts with some scheme followed by some host prefix |
| Cors.DomainAllowedMeansPrefix | backend/config/cors.php:62-69 | the development rule allows an origin iff APP_ENV is 'development' and the origin starts with a scheme followed by one of localhost, 127.0.0.1, 192.168., 10., 172. |
| Cors.CorsHandler.constructor | backend/config/cors.php:8-31 | the default origins (three localhost origins and the request's host), the five methods and a max age of 86400 |
| Cors.CorsHandler.IsOriginAllowed | backend/config/cors.php:53-60 | an empty origin never; every listed origin; outside development exactly the listed ones |
| Cors.CorsHandler.HandleCors | backend/config/cors.php:33-51 | the origin is echoed iff it is allowed; a preflight is answered 204 |
| Cors.CorsHandler.AddAllowedOrigin | backend/config/cors.php:71-75 | the origin is appended unless listed: the list only grows, a second call changes nothing, no duplicate appears |
| Cors.DevelopmentAllowsLocal | backend/config/cors.php:64-66 | in development a local origin is allowed whatever the list holds |
| Cors.DevelopmentAllowsLookalikeHosts | backend/config/cors.php:65 | the host is anchored only at its start, so in development `http://localhost.example.com` and `http://10.example.com` are allowed |
| Ui.TotalAppend | utils/api.ts:156 | the quantity total of a concatenation is the sum of the totals |
| Ui.Total | utils/api.ts:156 | no devices total zero, and non-negative quantities give a non-negative total |
| Ui.Received | utils/api.ts:61-63 | a listing row reaches the pages unchanged: same id, name and quantity, its `category_name` read as the category name, and no `category` member |
| Ui.ReceivedRows | utils/api.ts:61-63 | the listing reaches the pages row for row |
| Ui.ReceivedListing | utils/api.ts:61-63 | on every listing the devices endpoint sends, no row has a `category` member and every row carries the name of the category its device references |
| DashboardStats.WithStatus | utils/api.ts:157-158 | every kept device has exactly that status |
| DashboardStats.WithStatusKeeps | utils/api.ts:157-158 | a device is counted under a status iff its status is exactly that string |
| DashboardStats.WithStatusCount | utils/api.ts:157-158 | the status filter keeps every copy of a device with that status and no other device |
| DashboardStats.WithCondition | utils/api.ts:159-160 | every kept device has exactly that condition |
| DashboardStats.WithConditionCount | utils/api.ts:159-160 | the condition filter keeps every copy of a device with that condition and no other device |
| DashboardStats.Recent | utils/api.ts:165 | every kept transaction is recent |
| DashboardStats.RecentKeeps | utils/api.ts:165 | a transaction is kept iff it is recent |
| DashboardStats.RecentCount | utils/api.ts:165 | the recent filter keeps every copy of a recent transaction and no other |
| DashboardStats.RecentAll | utils/api.ts:165 | when every transaction is recent the filter keeps them all |
| DashboardStats.RecentNone | utils/api.ts:165 | when none is recent the filter keeps none |
| DashboardStats.OfKind | utils/api.ts:167-168 | every kept transaction has that type and comes from the input |
| DashboardStats.OfKindCount | utils/api.ts:167-168 | the type filter keeps every copy of a transaction of that type and no other |
| DashboardStats.OfKindAll | utils/api.ts:167-168 | when every transaction has the type, the filter keeps them all |
| DashboardStats.SumQuantity | utils/api.ts:167-168 | non-negative quantities sum to a non-negative total |
| DashboardStats.SumQuantityAppend | utils/api.ts:167-168 | the sum over a concatenation is the sum of the sums |
| DashboardStats.QuantityOfKind | utils/api.ts:167-168 | the summed quantity of the transactions of that type: non-negative for non-negative quantities, zero when none has the type, the whole sum when all have it |
| DashboardStats.QuantityOfKindSnoc | utils/api.ts:167-168 | one more transaction adds its quantity to its own type's sum and leaves every other type's sum unchanged |
| DashboardStats.InOutPartition | utils/api.ts:167-168 | with only 'in' and 'out' types, itemsIn plus itemsOut is the total quantity |
| DashboardStats.StatsOf | utils/api.ts:156-179 | totalItems is the device total; lowStockItems and outOfStockItems count the devices with exactly that status, normalItems and damagedItems total those with exactly that condition, recentTransactions counts the recent transactions, and itemsIn and itemsOut sum the recent ones of each type (what each filter keeps is in the *Count lemmas); low-stock plus out-of-stock never exceeds the device count; the recent count never exceeds the transaction count; empty inputs give all zeros; non-negative quantities give non-negative in and out sums; with only 'in' and 'out' types the two sums add up to the quantity of the recent transactions; with only 'Normal' and 'Rusak' conditions normalItems + damagedItems == totalItems |
| DashboardStats.StatusCountsBound | utils/api.ts:157-158 | no device is counted as both low stock and out of stock |
| DashboardStats.ConditionsPartitionTotal | utils/api.ts:159-160 | the 'Normal' and 'Rusak' totals add up to the total when every condition is one of them |
| DashboardStats.RecentIff | utils/api.ts:163-165 | a transaction is recent iff its date is at or after now minus thirty days; there is no upper bound |
| DashboardStats.GetDashboardStats | utils/api.ts:148-180 | the statistics reading `transaction_date`: totalItems is the device total; the status counts and condition sums as in StatsOf; recentTransactions counts, and itemsIn and itemsOut sum by type, the transactions dated at or after now minus thirty days, for any mix of dates; the condition sums split it under 'Normal'/'Rusak'; when every transaction is dated within the last thirty days (or later) all are recent, and when none is, the recent count and the in and out sums are 0 |
| DashboardStats.RecentByTransactionDate | utils/api.ts:163-165 | reading `transaction_date`, all dated from the cutoff on are all kept, and none dated so means none is kept |
| DashboardStats.GetDashboardStatsAsWritten | utils/api.ts:148-180 | as written, reading `t.date`: the device fields as in StatsOf; on the backend's rows the recent count and the in and out sums are always 0 |
| DashboardStats.AsWrittenNeverRecent | utils/api.ts:165 | reading `t.date`, no row shaped like the backend's is ever recent |
| DashboardStats.RecentDateCounterexample | utils/api.ts:165 | one 'in' row of 3 dated now: as written 0 recent and 0 in; reading `transaction_date` 1 recent and 3 in |
| DashboardStats.MixedRecencyExample | utils/api.ts:163-168 | an 'in' of 3 dated now beside an 'in' of 5 dated 31 days ago: 1 recent, 3 in and 0 out |
| DashboardPage.NamesDistinct | pages/Dashboard.tsx:65-73 | no category name gets two entries |
| DashboardPage.NamesCover | pages/Dashboard.tsx:65-73 | a category name gets an entry iff some device has it |
| DashboardPage.NamesPrefix | pages/Dashboard.tsx:65-73 | entries are in order of first occurrence |
| DashboardPage.SumForAbsent | pages/Dashboard.tsx:67-71 | a category no device has sums to zero |
| DashboardPage.StepFound | pages/Dashboard.tsx:66-68 | a device of a listed category adds its quantity to that entry |
| DashboardPage.StepNew | pages/Dashboard.tsx:69-70 | a device of a new category appends an entry with its quantity |
| DashboardPage.ComputeCategoryData | pages/Dashboard.tsx:65-73 | the reduce, grouping by the rows' category name, yields one entry per distinct category, in first-occurrence order, holding that category's summed quantity |
| DashboardPage.TotalOfUpdate | pages/Dashboard.tsx:68 | adding to one entry changes the entries' total by that amount |
| DashboardPage.TotalOfSnoc | pages/Dashboard.tsx:70 | appending an entry adds its quantity to the total |
| DashboardPage.CategoryTotalsSum | pages/Dashboard.tsx:65-73 | the entries add up to the total quantity of all devices; no devices give no entries |
| DashboardPage.FindEntry | pages/Dashboard.tsx:66 | the index of the first entry with that name, or the length when none has it |
| DashboardPage.CategoryDataAsWritten | pages/Dashboard.tsx:65-73 | the reduce as written, keyed by `category`: no more entries than devices, at least one for some devices, and no key twice |
| DashboardPage.ListingChartsOneEntry | pages/Dashboard.tsx:65-73 | on any device listing the backend sends, the chart as written is one entry named undefined holding the total quantity |
| DashboardPage.AsWrittenSingleEntry | pages/Dashboard.tsx:65-73 | as written, on rows without a `category` member the chart is one entry named undefined holding the total quantity (none for no devices) |
| DashboardPage.CategoryChartCounterexample | pages/Dashboard.tsx:65-73 | a laptop of 2 and a printer of 3 chart as one entry of 5 as written, and as two entries grouped by category name |
| DashboardPage.RecentList | pages/Dashboard.tsx:143 | at most the first five transactions, in their order |
| Inventory.LowerChar | pages/Inventory.tsx:44-46 | upper-case ASCII letters are lowered, other characters kept |
| Inventory.Lower | pages/Inventory.tsx:44-46 | lowering keeps the length and works character by character |
| Inventory.FilterDevices | pages/Inventory.tsx:42-48 | every kept device matches the search |
| Inventory.FilterDevicesSpec | pages/Inventory.tsx:42-48 | the result is an order-preserving subsequence, and a device is kept iff its lower-cased name, category name or brand contains the lower-cased term |
| Inventory.EmptySearchKeepsAll | pages/Inventory.tsx:42-48 | an empty search keeps every device |
| Inventory.MatchesAsWritten | pages/Inventory.tsx:43-47 | as written, a device throws exactly when its name does not match and it has no `category` member |
| Inventory.FilterDevicesAsWritten | pages/Inventory.tsx:42-48 | as written, the search throws iff some device throws, and otherwise keeps only devices of the input that match |
| Inventory.ListingSearchThrows | pages/Inventory.tsx:42-48 | on any device listing the backend sends, a search that some device's name does not contain throws |
| Inventory.AsWrittenSearchThrows | pages/Inventory.tsx:42-48 | as written, on the backend's rows any search that some device's name does not contain throws |
| Inventory.RemoveById | pages/Inventory.tsx:69 | no kept device has the deleted id |
| Inventory.RemoveByIdSpec | pages/Inventory.tsx:69 | the result is an order-preserving subsequence, and a device is kept iff its id differs |
| Inventory.ReplaceById | pages/Inventory.tsx:90 | the list keeps its length |
| Inventory.ReplaceByIdSpec | pages/Inventory.tsx:90 | positions with the saved id hold the saved device and every other position is unchanged |
| Inventory.ResolveCategoryId | pages/Inventory.tsx:82-86 | the id of the first category with that exact name, or 1 when none matches or the first match's id is 0; never 0 |
| Profile.Payload | pages/Profile.tsx:56-71 | no payload iff a typed new password is not confirmed; id and role from the user; no password unless one is typed, and a sent one equals its confirmation |
| Profile.Renamed | pages/Profile.tsx:76 | the stored user takes the form's name and e-mail and keeps id and role |
| Profile.ProfilePage.constructor | pages/Profile.tsx:24-38 | the form starts from the stored user's name and e-mail with empty password fields |
| Profile.ProfilePage.HandleUpdateProfile | pages/Profile.tsx:48-95 | with no user nothing changes; a mismatch sends nothing and shows the error; otherwise it sends Payload; on success it stores the renamed user and clears the password fields; on failure it shows the error and keeps the rest |

## Left out

- HTTP plumbing is left out: headers, reading the request body, encoding the response, and the early `exit` on OPTIONS. Each handler's result is its status code. A response body is modelled only where a property needs it: the category, device, user and transaction listings, the login user and the CORS origin.
- The database connection and its failure check at the top of each endpoint are left out. backend/config/database.php is not part of this model.
- `htmlspecialchars`, `strip_tags`, `md5`, `random_bytes`, `filter_var`, `json_encode` and `json_decode` are left uninterpreted. They are parameters: `Common.Runtime`, `escape`, `filterVar` and the byte sequence. So the model does not capture what they compute.
- `time()` and the current date are parameters. The rate limiter's files in the temporary directory are the `rateStore` map, and `$_SESSION['csrf_token']` is the `csrfToken` field.
- Security.SecurityHandler: `initSession`, `validateJWT`, `hashPassword`, `verifyPassword` and `logSecurityEvent` are left out. They are session configuration, a stub that returns false, library hashing and logging. None of the modelled handlers calls them.
- The module-level 403 check in security.php and the module-level `handleCors` call in cors.php are left out. A fresh handler blocks nobody, as its constructor states, so that 403 never fires.
- Security.SecurityHandler.ValidateCsrf compares strings for equality. This stands in for `hash_equals`; its constant-time behaviour is not modelled.
- Security.SecurityHandler.IsBlocked, Cors.CorsHandler.IsOriginAllowed and Cors.CorsHandler.AddAllowedOrigin use exact string membership. PHP's loose `in_array` comparison is not modelled.
- The `duration` of `blockIP` only feeds a log line and is unused.
- Security.Sanitize's HTML escaping is the parameter `escape`. The allowed-headers list and the other CORS response headers are left out.
- Concurrency is left out: two requests racing on one quantity, and the race between a category's device count and its delete. TransactionsApi.ApplyCommutes states the sequential part only.
- SQL `ORDER BY` is left out, and so is the JOIN that adds device and category names to the transaction listing. The transaction listing keeps storage order. The user, category and device listings are sets, so their order (`ORDER BY name`, `ORDER BY d.created_at DESC`) is not modelled. Ui.ReceivedListing and the lemmas built on it hold for the device rows in any order. The `created_at` column is not modelled.
- The database schema is not in the source. The model assumes the foreign keys devices.category_id → categories and transactions.device_id → devices, with MySQL's default RESTRICT. It also assumes unique keys on categories.name and users.email, and auto-increment ids for categories and users.
- Store.UniqueNames, Store.UniqueEmails, Store.NameHeldByOther, Store.EmailHeldByOther and AuthApi.Matches compare keys as exact strings. The connection uses the case-insensitive collation utf8mb4_unicode_ci (backend/config/database.php:23), so the database also ignores letter case and trailing spaces. As a result, CategoriesApi.CreateCategoryOutcome, CategoriesApi.UpdateCategoryOutcome, UsersApi.CreateUserOutcome and UsersApi.UpdateUserOutcome answer 201 or 200 where the database reports a clash for names differing only in case: creating "laptop" beside "Laptop" is 409 in the database. Likewise AuthApi.Login answers 401 where the database matches an e-mail typed in another case. The same holds for device ids, which are strings under that collation. DevicesApi.CreateDeviceOutcome answers 200 and adds a second row for "dev001" beside "DEV001", where the primary key answers 500. DevicesApi.UpdateDeviceOutcome changes nothing for "dev001" where `WHERE id = :id` updates DEV001. DevicesApi.DeleteDeviceOutcome answers 200 for "dev001" while transactions reference DEV001, where the restricting foreign key answers 500. TransactionsApi.InsertAccepted and TransactionsApi.CreateTransactionOutcome answer 500 with no change for a transaction naming "dev001", where the database stores it and moves DEV001's quantity (201). Conversely, TransactionsApi.InsertAccepted admits a transaction id "trx001" beside a stored "TRX001", where the primary key answers 500. The collation's equality is not modelled.
- The device statements name the column `condition` unquoted (backend/api/devices.php:75, 125), and MySQL reserves CONDITION. With native prepares (backend/config/database.php:21) such a statement would fail to prepare, throw and answer 500. The model leaves statement failure to the `Exec` input: Throws gives that 500, and Runs describes the statements as their authors meant them (see Findings).
- The connection raises exceptions on every error (backend/config/database.php:19), so `execute()` never returns false there. The handlers still have branches for it, and the model keeps them as the ReturnsFalse case.
- A category-name clash is a 409 only through the unique key's SQLSTATE 23000. The model reads it that way. Other violations answer 500, as the code does.
- Input types are simplified. JSON numbers are integers, so PHP's `(int)` casts of strings and floats are not modelled. The id of a user DELETE is taken as an integer, although the code passes it through `htmlspecialchars(strip_tags(..))` first.
- AuthApi.Login requires unique e-mails (the schema's unique key). Then the row the code fetches first is the only matching row. Without the key, the code would answer with whichever row comes first, and the model does not choose.
- Dates in the dashboard are integer milliseconds. `setDate(getDate() - 30)` is modelled as exactly 30 × 86,400,000 ms; daylight-saving shifts and JavaScript date parsing are not modelled.
- Ui.Received reads a null `category_name` as "", where JavaScript would see null. Under the foreign key the device listing has no such row (Ui.ReceivedListing), so the pages never meet one.
- Inventory.LowerChar lowers ASCII letters only. JavaScript's full Unicode `toLowerCase` is not modelled.
- DashboardPage.ComputeCategoryData keeps its entries as values. The page mutates the found entry object in place (`category.quantity +=`), but no other reference to an entry exists, so aliasing is not modelled.
- Adding a device in the inventory page reloads the list from the server (`loadData`), so there is no list logic to model there.
- The profile form's `currentPassword` is never checked or sent by the code, and the model does the same.
- Profile.ProfilePage.HandleUpdateProfile: the request is the parameter `apiSucceeds`, and the intermediate loading and message states between the awaits are not modelled.

Where the code and the design description differ, the model follows the code:

- the damaged condition is the literal 'Rusak';
- the 30-day filter has no upper bound;
- createTransaction does not roll back the insert;
- every transaction type other than "in" subtracts;
- create and update in devices.php report constraint violations as 500, because they have no 409 branch.

## Findings

| source | as written | input that shows it | evidently intended | confidence | as-written member | corrected member |
|---|---|---|---|---|---|---|
| utils/api.ts:165 | the recent filter reads `t.date`, but the rows from getTransactions (backend/api/transactions.php:40-44, `SELECT t.*`) carry `transaction_date` and no `date`, so `new Date(undefined)` is an invalid date and nothing is ever recent; recentTransactions, itemsIn and itemsOut are always 0 | one 'in' transaction of 3 items whose `transaction_date` is now | filter on `transaction_date`, giving 1 recent transaction and itemsIn 3 | not executed | DashboardStats.AsWrittenNeverRecent | DashboardStats.RecentIff |
| pages/Dashboard.tsx:65-73 | the chart groups devices by `device.category`, and the search at pages/Inventory.tsx:45 lowers it, but the rows from getDevices (backend/api/devices.php:51, `SELECT d.*, c.name as category_name`, passed on unchanged by utils/api.ts:61-63) carry `category_id` and `category_name` and no `category`; the chart shows one entry named undefined holding every device's quantity, and any search that a device's name does not contain throws a TypeError | a laptop of 2 and a printer of 3 in categories Laptop and Printer; a search for "hp" over a device named ThinkPad | group and search by `category_name`, giving entries Laptop 2 and Printer 3, and a search that matches category names | not executed | DashboardPage.AsWrittenSingleEntry | DashboardPage.ComputeCategoryData |
| backend/api/devices.php:75-76 | the INSERT of createDevice and the UPDATE of updateDevice (:125) name the column `condition` unquoted; MySQL reserves CONDITION, so with native prepares (backend/config/database.php:21) each statement fails to prepare and throws, and both endpoints always answer 500 | a create of a new device "D1" in an existing category | quote the column as `` `condition` ``, so the create answers 200 and inserts the row | not executed | DevicesApi.ReservedConditionRefused | DevicesApi.CreateDeviceOutcome |
