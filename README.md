# EasyCat model

EasyCat is a terminal application for categorizing bank transactions that were imported from
QuickBooks Online. It pulls the company's expense accounts (the categories) and purchases (the
transactions) into a local SQLite ledger. It suggests categories from user-defined rules and lets
the user assign a category to each transaction, singly or in batches of look-alikes. It posts the
categorized transactions back to QuickBooks.

This project models the deterministic core of the application. Each source file is one Dafny
module, in the same form as the source: records become datatypes, objects whose fields change
become classes, loops become methods with invariants, and expressions become functions.

- `Models`: the status and pattern-type enumerations, the records with their defaults, and the
  enum value round-trips.
- `Migrations`: the migration table, the selection of the scripts between two versions, reading
  back the schema version, and the outcome of running the scripts.
- `Repository` (over `Tables`): the SQLite ledger as a class with one map-valued table per SQL
  table. It has per-table AUTOINCREMENT counters; the connection's last inserted row id is not
  state of the store, only a parameter of the as-written vendor-mapping read-back (see Findings).
  It models every save, get, delete, search and update, with the `ON CONFLICT` upserts that keep
  the locally chosen fields.
- `Rules`: the rules engine as a class holding its rule list and its compiled-pattern map, with
  the matching loops, the amount filter and the pattern checks. Rule creation from a transaction
  is included.
- `Sync`: category and transaction import, pre-assignment from the remote line item, the rebuild
  of expense lines for posting, and the posting loop with per-transaction failure isolation.
- `Api`: the QuickBooks records and their JSON parsers (`Json` is the JSON value), URL and query
  building, the request payloads, and the client's context enter/exit.
- `Auth`: token expiry, the no-key path of token encryption, the callback capture and reset, the
  check order of `authorize`, and realm defaulting.
- `Config`: the environment-over-file-over-default resolution of every setting, config file
  discovery, and database path resolution.
- `Categories`: the depth-first category tree, list filtering, the visibility editor's recorded
  changes, and the decisions of the save and text-input screens.
- `TransactionTable`: the table widget's cells and its row bookkeeping.
- `Transactions`: the transactions screen's category map, visible categories, account list and
  account filter, status counts, assignment and batch categorization, and the visibility save.
- Shared helper modules: `Wrappers` (Option and Result), `Seqs` (filters and searches),
  `Strings` (substring search, join, Python's whitespace `strip`, number formatting) and
  `Sorting` (a stable insertion sort).

Conventions:

- Amounts are whole cents.
- A category's `parent_id` is the parent's `qbo_id` (a string), because every lookup in the
  application compares `str(parent_id)` with `qbo_id`.
- Clocks, uuids, regular expressions, case mapping, the cipher and the remote service are
  parameters of the operations that use them.

Two facts about the code that the model keeps:

- Posting returns the list of transactions that were posted. It does not return counts of
  posted, skipped and failed transactions, and it records no skip reason
  (easycat/api/sync.py:60-95).
- A store-wide rule that statuses only move forward is not enforced by the code
  (easycat/db/repository.py:433-453, 521-529), so the model does not assert one.

## Model

| member | source | states |
|---|---|---|
| Models.DateTrichotomy | easycat/db/models.py:89 | transaction dates are totally ordered: exactly one of before, equal and after |
| Models.TransactionStatus.Value | easycat/db/models.py:9-14 | every status has a non-empty stored value |
| Models.StatusFromValue | easycat/db/models.py:9-14 | a value parses back only to the status that has it; unknown text is the `ValueError` (None) |
| Models.StatusValueRoundTrip | easycat/db/models.py:9-14 | every status round-trips through its value, and distinct statuses have distinct values |
| Models.PatternType.Value | easycat/db/models.py:17-22 | every pattern type has a non-empty stored value |
| Models.PatternTypeFromValue | easycat/db/models.py:17-22 | a value parses back only to the pattern type that has it |
| Models.PatternTypeValueRoundTrip | easycat/db/models.py:17-22 | every pattern type round-trips through its value; distinct types have distinct values |
| Models.NewCategory | easycat/db/models.py:38-50 | a category built without the defaulted fields is visible, display order 0, synced now, other fields as given |
| Models.NewRule | easycat/db/models.py:53-66 | a rule built without the defaulted fields has no amount bounds, priority 0 and is active |
| Models.NewTransaction | easycat/db/models.py:81-95 | a transaction built without status and category is pending and uncategorised |
| Models.NewSplit | easycat/db/models.py:98-106 | a split built without a memo has none |
| Models.Abs | easycat/rules/__init__.py:85 | the absolute amount is the amount or its negation, never negative |
| Migrations.MigrationsCoverSchema | easycat/db/migrations.py:3-101 | the script table has exactly the versions 1 .. SCHEMA_VERSION, each script under its own version |
| Migrations.GetMigrationSql | easycat/db/migrations.py:104-110 | the loop returns exactly the scripts for versions from+1 .. to that exist, in ascending order |
| Migrations.NoMigrationsWhenCurrent | easycat/db/migrations.py:104-110 | nothing is selected when from >= to (the empty `range`) |
| Migrations.MigrationsBetweenConcat | easycat/db/migrations.py:104-110 | selecting a..b then b..c is selecting a..c |
| Migrations.MigrationsBetweenExactly | easycat/db/migrations.py:104-110 | a script is selected iff it is the table's entry for a version in range; selected versions strictly ascend and lie in range |
| Migrations.AllMigrationsFromZero | easycat/db/migrations.py:104-110 | migrating a fresh database selects scripts 1 and 2, one per version |
| Migrations.SchemaVersion | easycat/db/repository.py:50-59 | the stored version is the largest row, and 0 for a missing (`OperationalError`) or empty table |
| Migrations.MaxOf | easycat/db/repository.py:54 | `ORDER BY version DESC LIMIT 1` picks a member no smaller than any other |
| Migrations.RunScript | easycat/db/migrations.py:7-9 | a script that succeeds leaves a `schema_version` table |
| Migrations.AppliedScripts | easycat/db/repository.py:46-47 | when every script succeeds, the table is what running them in order gives |
| Migrations.PendingMigrations | easycat/db/repository.py:43-45 | no script is pending once the stored version is current |
| Migrations.RunMigrations | easycat/db/repository.py:41-48 | a database at or past SCHEMA_VERSION is left unchanged |
| Migrations.RunMigrationsReachesSchemaVersion | easycat/db/repository.py:41-48 | from no table, an empty table or one version row, migrating succeeds and the stored version becomes SCHEMA_VERSION when it was behind |
| Config.QuickBooksConfig.IsSandbox | easycat/config.py:27-30 | the client is in the sandbox exactly when the environment is `sandbox`, so never in `production` |
| Config.GetOr | easycat/config.py:89 | `d.get(key, default)`: the stored value when the key is present, the default otherwise |
| Config.SplitSlash | easycat/config.py:106 | a path text splits into at least one piece, none containing `/` |
| Config.Components | easycat/config.py:106 | the kept components are non-empty, not `.`, and come from the pieces |
| Config.PathOf | easycat/config.py:106-107 | `Path(s)` is absolute exactly when the text starts with `/` |
| Config.Parent | easycat/config.py:108 | `p.parent` drops the last component and keeps absoluteness; the root is its own parent |
| Config.JoinPath | easycat/config.py:108 | `a / b` is `b` when `b` is absolute, else `a`'s components followed by `b`'s |
| Config.DefaultConfigPaths | easycat/config.py:9-12 | the candidates are `config.toml`, then `~/.config/easycat/config.toml` |
| Config.FindConfigFile | easycat/config.py:56-61 | the first existing candidate in list order, or None exactly when none exists |
| Config.Setting | easycat/config.py:89-94 | a setting is the environment variable when set, else the TOML value, else the default |
| Config.BuildQuickBooksConfig | easycat/config.py:87-100 | each QuickBooks field follows that precedence with defaults "", "", "sandbox" and the local redirect URI |
| Config.QuickBooksDefaults | easycat/config.py:87-100 | with neither environment nor file the configuration is empty credentials on the sandbox |
| Config.BuildDatabaseConfig | easycat/config.py:103-109 | an absolute path, or any path when no configuration path was given explicitly to `load_config`, is kept; a relative one is joined onto the directory of the given configuration path |
| Config.DatabaseBesideConfigFile | easycat/config.py:103-109 | by default, with a configuration path given explicitly, the database is `easycat.db` beside that file |
| Config.SplitSlashWithoutSlash | easycat/config.py:15 | a text without `/` is a single component |
| Config.BuildSecurityConfig | easycat/config.py:112-117 | the key is the environment variable when set, else the TOML value, an empty or missing one being None |
| Config.BuildConfig | easycat/config.py:79-84 | each section is built from its TOML table, a missing table read as empty |
| Auth.TokenExpiryWindow | easycat/auth/__init__.py:265-268 | a token is expired iff at most 300 s remain; a past expiry is expired, one an hour out is not |
| Auth.TokenExpiryMonotone | easycat/auth/__init__.py:265-268 | once expired, a token stays expired at every later instant |
| Auth.IsTokenExpired | easycat/auth/__init__.py:264-267 | a token is expired exactly when at most the 300-second buffer remains before its expiry, so a past expiry is expired |
| Auth.TokenEncryption.Encrypt | easycat/auth/__init__.py:39-43 | without a cipher the value is returned unchanged |
| Auth.TokenEncryption.Decrypt | easycat/auth/__init__.py:45-49 | without a cipher the value is returned unchanged |
| Auth.NewTokenEncryption | easycat/auth/__init__.py:36-37 | a cipher exists exactly for a non-empty key, and is that key's |
| Auth.NoKeyIsIdentity | easycat/auth/__init__.py:36-49 | with no key or the empty key, encrypt and decrypt are both the identity |
| Auth.EncryptionRoundTrip | easycat/auth/__init__.py:39-49 | decrypt undoes encrypt, with or without a key, given an inverse cipher |
| Auth.FirstValue | easycat/auth/__init__.py:68-71 | `params.get(key, [None])[0]`: None exactly for an absent key, else the first value |
| Auth.CallbackServer.constructor | easycat/auth/__init__.py:55-58 | no callback values are held and nothing listens |
| Auth.CallbackServer.Start | easycat/auth/__init__.py:144-152 | the four callback values are cleared before listening |
| Auth.CallbackServer.HandleRequest | easycat/auth/__init__.py:64-71 | code, realm, state and error are each the first value of their parameter, or None |
| Auth.CallbackServer.Stop | easycat/auth/__init__.py:159-164 | the listener is down |
| Auth.OrEmpty | easycat/auth/__init__.py:237 | `x or ""` for an optional string |
| Auth.ExchangeCode | easycat/auth/__init__.py:230-241 | the result carries the granted tokens, expiry now + expires_in, and the callback's realm or "" |
| Auth.RefreshToken | easycat/auth/__init__.py:243-255 | the decrypted refresh token is sent; the result carries the new tokens and the provider's realm or "" |
| Auth.CallbackCheck | easycat/auth/__init__.py:220-226 | an error fails first, then a missing code, then a state mismatch; only when all pass is the code returned |
| Auth.OAuthClient.constructor | easycat/auth/__init__.py:190-201 | no state token is held yet |
| Auth.OAuthClient.GetAuthorizationUrl | easycat/auth/__init__.py:203-206 | the fresh state token is remembered and is the one the URL carries |
| Auth.OAuthClient.Authorize | easycat/auth/__init__.py:208-228 | the server is reset, the callback captured, the outcome is the checked exchange, and the server is stopped whatever happens |
| Auth.AuthorizeOutcome | easycat/auth/__init__.py:220-226 | authorize succeeds iff the callback checks pass |
| Auth.AuthorizeExchangesOnlyChecked | easycat/auth/__init__.py:220-237 | a success implies no error, a non-empty code and the sent state, with the callback's realm or ""; no callback fails for lack of a code |
| Tables.RowsMembers | easycat/db/repository.py:205-211 | a table scan returns a row iff some id in the scanned range holds it |
| Tables.FindKey | easycat/db/repository.py:197-203 | `SELECT ... WHERE` on a column finds the first id whose row matches, and reports none only when no row in range matches |
| Tables.RemoveWhere | easycat/db/repository.py:536-540 | `DELETE ... WHERE` keeps exactly the rows that do not match, unchanged |
| Tables.KeysWhere | easycat/db/repository.py:536-540 | the ids selected are exactly those of the matching rows |
| Tables.RemoveWhereSplits | easycat/db/repository.py:536-540 | the kept ids and the deleted ids partition the table, so the deleted count is the size difference |
| Tables.Upsert | easycat/db/repository.py:146-167 | `INSERT ... ON CONFLICT DO UPDATE` inserts under the next id exactly when no row has the key, and otherwise refreshes that row in place without using an id |
| Repository.DateFirstIsStrictWeakOrder | easycat/db/repository.py:475 | `ORDER BY date ASC` is a strict weak order |
| Repository.DisplayOrderFirstIsStrictWeakOrder | easycat/db/repository.py:208 | `ORDER BY display_order, full_name` is a strict weak order |
| Repository.PriorityThenNameFirstIsStrictWeakOrder | easycat/db/repository.py:304 | `ORDER BY priority DESC, name` is a strict weak order |
| Repository.VendorNameFirstIsStrictWeakOrder | easycat/db/repository.py:381 | `ORDER BY vendor_name` is a strict weak order |
| Repository.ById | easycat/db/repository.py:103-107 | a lookup by id finds the row exactly when the id is stored |
| Repository.RefreshToken | easycat/db/repository.py:66-79 | the conflict path of `save_token` replaces both tokens, the expiry and `updated_at`, and keeps the id, realm and `created_at` |
| Repository.TokenByRealm | easycat/db/repository.py:109-115 | a realm lookup returns a stored token of that realm, and none only when no token has it |
| Repository.TokenUpsertOneRowPerRealm | easycat/db/repository.py:63-101 | saving a new token keeps the table well formed with one row per realm; the realm's row then holds the new tokens and expiry, and every other row is unchanged |
| Repository.LatestTokenIsLatest | easycat/db/repository.py:117-123 | the latest token is a stored token that none was updated after; there is none only for an empty table |
| Repository.RefreshCategory | easycat/db/repository.py:146-167 | a re-synced category takes name, full name, parent, type and sync time from QuickBooks, and keeps the user's visibility and display order |
| Repository.CategoryByQboId | easycat/db/repository.py:197-203 | a `qbo_id` lookup returns a stored category with that id, and none only when none has it |
| Repository.CategoryUpdate | easycat/db/repository.py:168-186 | an update by id raises exactly when the row exists and another row has the new `qbo_id`; otherwise it overwrites that row, or changes nothing for an unknown id |
| Repository.CategoryUpsertKeepsUserColumns | easycat/db/repository.py:144-187 | saving without an id keeps the table well formed; a known `qbo_id` refreshes its own row (no new row) and every other row is unchanged |
| Repository.CategoryListings | easycat/db/repository.py:205-219 | the listings are ordered by display order then full name and hold exactly the stored categories (the visible ones for the second) |
| Repository.SetCategoryVisibility | easycat/db/repository.py:221-226 | only the given row's visibility changes; an unknown id changes nothing |
| Repository.RuleUpdate | easycat/db/repository.py:266-284 | an update by id overwrites every column of that rule but `created_at`, and no other row |
| Repository.RuleListings | easycat/db/repository.py:294-306 | active rules come highest priority first and are exactly the stored active rules; all rules are ordered by priority then name and are exactly the stored rules |
| Repository.RefreshVendorMapping | easycat/db/repository.py:334-343 | the conflict path of `save_vendor_mapping` replaces vendor id, default category and `updated_at`, and keeps the name, id and `created_at` |
| Repository.VendorMappingByName | easycat/db/repository.py:370-376 | a name lookup returns a stored mapping of that vendor, and none only when none has it |
| Repository.VendorMappingUpdate | easycat/db/repository.py:346-359 | an update by id raises exactly when the row exists and another row has the new vendor name; an unknown id changes nothing; otherwise the keys are kept, the row gets the new vendor name, vendor id, default category and `updated_at` while keeping its id and `created_at`, and every other row is unchanged |
| Repository.VendorMappingSavedIsTheVendorsRow | easycat/db/repository.py:330-360 | the row returned after saving without an id is the vendor's own row with the new vendor id and default category, and the table stays well formed |
| Repository.VendorMappingSavedAsWrittenReturnsOtherRow | easycat/db/repository.py:345 | as written, saving A, then B, then A again returns B's row, since the last inserted rowid is still B's |
| Repository.VendorMappingListing | easycat/db/repository.py:378-384 | the listing is ordered by vendor name and holds exactly the stored mappings |
| Repository.RefreshTransaction | easycat/db/repository.py:407-431 | a re-fetched transaction takes account, date, amount, description, vendor and fetch time from QuickBooks, and keeps its status and assigned category |
| Repository.TransactionByQboId | easycat/db/repository.py:464-470 | a `qbo_id` lookup returns a stored transaction with that id, and none only when none has it |
| Repository.TransactionUpdate | easycat/db/repository.py:433-453 | an update by id raises exactly on a `qbo_id` clash with another row; otherwise that row alone becomes the transaction, status included |
| Repository.TransactionUpdateKeepsTable | easycat/db/repository.py:433-453 | an update that succeeds keeps ids as keys and `qbo_id` unique |
| Repository.TransactionUpsertKeepsReviewState | easycat/db/repository.py:404-431 | saving without an id never changes a stored status or assigned category; a known `qbo_id` refreshes its own row and adds none; other rows are unchanged |
| Repository.SearchTransactionsExact | easycat/db/repository.py:484-519 | a search returns exactly the stored rows meeting every given filter, each once, oldest date first; with no filters it returns every row |
| Repository.TransactionsByStatusIsSearch | easycat/db/repository.py:472-482 | listing by status is the search by that status alone |
| Repository.SetTransactionStatus | easycat/db/repository.py:521-529 | that row alone gets the status and category, with the category cleared when none is given; an unknown id changes nothing |
| Repository.ClearPostedExact | easycat/db/repository.py:536-540 | clearing deletes exactly the posted rows, keeps the rest unchanged, and returns the number deleted |
| Repository.SplitUpdate | easycat/db/repository.py:570-577 | an update by id overwrites that split alone |
| Repository.DeleteSplitsForExact | easycat/db/repository.py:588-601 | after deleting a transaction's splits none of it is listed and the other splits are unchanged; a listed split is a stored split of that transaction |
| Repository.Store.constructor | easycat/db/repository.py:23-25 | a new database has empty tables, every counter at 1, and no version table |
| Repository.Store.GetSchemaVersion | easycat/db/repository.py:50-59 | the version read is the stored schema version |
| Repository.Store.RunMigrations | easycat/db/repository.py:41-48 | the pending scripts run in order; success leaves the migrated table, and a failing script stops the run with the earlier scripts applied |
| Repository.Store.SaveToken | easycat/db/repository.py:63-101 | without an id the realm's row is inserted or refreshed and read back; with an id that row is refreshed; every table stays well formed |
| Repository.Store.GetTokenById | easycat/db/repository.py:103-107 | returns the token stored under the id |
| Repository.Store.GetTokenByRealm | easycat/db/repository.py:109-115 | returns the realm's token |
| Repository.Store.GetLatestToken | easycat/db/repository.py:117-123 | returns the token updated last |
| Repository.Store.DeleteToken | easycat/db/repository.py:125-128 | removes exactly that id |
| Repository.Store.SaveCategory | easycat/db/repository.py:144-187 | inserts or refreshes by `qbo_id` without an id; with an id it overwrites that row or raises on a clash and changes nothing |
| Repository.Store.InsertCategory | easycat/db/repository.py:146-167 | the upsert path, with the row read back by `qbo_id` |
| Repository.Store.UpdateCategory | easycat/db/repository.py:168-186 | the update path, with the row read back by id |
| Repository.Store.GetCategoryById | easycat/db/repository.py:189-195 | returns the category stored under the id |
| Repository.Store.GetCategoryByQboId | easycat/db/repository.py:197-203 | returns the category with the `qbo_id` |
| Repository.Store.GetAllCategories | easycat/db/repository.py:205-211 | the ordered listing of all categories |
| Repository.Store.GetVisibleCategories | easycat/db/repository.py:213-219 | the ordered listing of the visible categories |
| Repository.Store.UpdateCategoryVisibility | easycat/db/repository.py:221-226 | sets one row's visibility |
| Repository.Store.SaveRule | easycat/db/repository.py:244-286 | without an id the rule is stored under the next id; with one that row is overwritten but `created_at`; the row is read back |
| Repository.Store.GetRuleById | easycat/db/repository.py:288-292 | returns the rule stored under the id |
| Repository.Store.GetActiveRules | easycat/db/repository.py:294-300 | the active rules, highest priority first |
| Repository.Store.GetAllRules | easycat/db/repository.py:302-306 | all rules by priority then name |
| Repository.Store.DeleteRule | easycat/db/repository.py:308-311 | removes exactly that id |
| Repository.Store.SaveVendorMapping | easycat/db/repository.py:330-360 | inserts or refreshes by vendor name and returns that vendor's row; with an id it overwrites that row or raises on a name clash |
| Repository.Store.GetVendorMappingById | easycat/db/repository.py:362-368 | returns the mapping stored under the id |
| Repository.Store.GetVendorMappingByName | easycat/db/repository.py:370-376 | returns the vendor's mapping |
| Repository.Store.GetAllVendorMappings | easycat/db/repository.py:378-384 | all mappings by vendor name |
| Repository.Store.DeleteVendorMapping | easycat/db/repository.py:386-389 | removes exactly that id |
| Repository.Store.SaveTransaction | easycat/db/repository.py:404-454 | inserts or refreshes by `qbo_id` keeping the review state; with an id it overwrites that row or raises on a clash and changes nothing |
| Repository.Store.InsertTransaction | easycat/db/repository.py:407-431 | the upsert path, read back by `qbo_id` |
| Repository.Store.UpdateTransaction | easycat/db/repository.py:433-453 | the update path, read back by id |
| Repository.Store.GetTransactionById | easycat/db/repository.py:456-462 | returns the transaction stored under the id |
| Repository.Store.GetTransactionByQboId | easycat/db/repository.py:464-470 | returns the transaction with the `qbo_id` |
| Repository.Store.GetTransactionsByStatus | easycat/db/repository.py:472-478 | the transactions with the status, oldest first |
| Repository.Store.GetPendingTransactions | easycat/db/repository.py:480-482 | the pending transactions, oldest first |
| Repository.Store.Search | easycat/db/repository.py:484-519 | the filtered search |
| Repository.Store.UpdateTransactionStatus | easycat/db/repository.py:521-529 | sets one row's status and category |
| Repository.Store.DeleteTransaction | easycat/db/repository.py:531-534 | removes exactly that id and leaves the splits |
| Repository.Store.ClearPostedTransactions | easycat/db/repository.py:536-540 | removes the posted rows and returns how many |
| Repository.Store.SaveTransactionSplit | easycat/db/repository.py:560-578 | without an id the split is stored under the next id; with one that row is overwritten; the row is read back |
| Repository.Store.GetSplitById | easycat/db/repository.py:580-586 | returns the split stored under the id |
| Repository.Store.GetSplitsForTransaction | easycat/db/repository.py:588-594 | the transaction's splits in id order |
| Repository.Store.DeleteSplitsForTransaction | easycat/db/repository.py:596-601 | removes exactly the transaction's splits |
| Repository.Store.GetSetting | easycat/db/repository.py:615-621 | returns the value exactly when the key is stored |
| Repository.Store.SaveSetting | easycat/db/repository.py:623-630 | sets the key's value, inserting or replacing |
| Repository.Store.DeleteSetting | easycat/db/repository.py:632-635 | removes the key |
| Rules.PriorityFirstIsStrictWeakOrder | easycat/rules/__init__.py:23 | the sort key `priority`, reversed, is a strict weak order |
| Rules.SortByPriority | easycat/rules/__init__.py:23 | the sorted rules are as many as the input |
| Rules.SortByPriorityCorrect | easycat/rules/__init__.py:23 | the sort gives non-increasing priority, is a permutation, and keeps rules of equal priority in input order (Python's sort is stable) |
| Rules.CompileRule | easycat/rules/__init__.py:29-36 | a rule gets a compiled pattern exactly when it is a regex rule whose pattern compiles |
| Rules.CompileAllSlots | easycat/rules/__init__.py:27-36 | compiling adds one slot per rule id, a rule whose id no later rule shares gets its own compilation, and slots of other ids are untouched |
| Rules.AmountInRange | easycat/rules/__init__.py:83-88 | the absolute amount lies within the bounds, both inclusive, with an absent bound not constraining |
| Rules.CheckPattern | easycat/rules/__init__.py:106-120 | exact matches the whole text case-insensitively and returns the text; contains finds the pattern case-insensitively and returns the pattern; regex returns the search result of the rule's compiled slot, and nothing without one |
| Rules.TextsToCheck | easycat/rules/__init__.py:97-99 | the description is tried first, and the vendor second exactly when it is present and non-empty |
| Rules.MatchPattern | easycat/rules/__init__.py:90-104 | the description's match wins; otherwise the vendor's match, if tried |
| Rules.FirstSome | easycat/rules/__init__.py:100-104 | the first present value is one of the options, and there is none exactly when all are absent |
| Rules.MatchOf | easycat/rules/__init__.py:45-56 | a rule matches exactly when it is active, the amount is in range and the pattern matches; the match carries the rule, its category and the matched text |
| Rules.AllMatches | easycat/rules/__init__.py:59-81 | there are at most as many matches as rules |
| Rules.AllMatchesStep | easycat/rules/__init__.py:67-80 | one loop step adds rule i's match, if any, in front of the matches of the later rules |
| Rules.AllMatchesExactly | easycat/rules/__init__.py:59-81 | all matches are the per-rule matches in rule order with the non-matches dropped |
| Rules.Somes | easycat/rules/__init__.py:73-80 | the kept values are exactly the present ones |
| Rules.FirstMatchIsHeadOfAll | easycat/rules/__init__.py:38-81 | skipping rules that do not match leaves all matches unchanged, and the first matching rule's match heads them |
| Rules.NoMatchIffAllEmpty | easycat/rules/__init__.py:38-81 | `find_all_matches` is empty exactly when no rule matches |
| Rules.RulesEngine.constructor | easycat/rules/__init__.py:22-25 | the engine holds the rules sorted by priority and one compiled slot per rule |
| Rules.RulesEngine.CompilePatterns | easycat/rules/__init__.py:27-36 | the loop fills the slots as the compilation of every rule in order |
| Rules.RulesEngine.FindMatch | easycat/rules/__init__.py:38-57 | the result is the match of the first rule that matches, none exactly when no rule matches, and the head of all matches |
| Rules.RulesEngine.FindAllMatches | easycat/rules/__init__.py:59-81 | the loop returns every match, in rule order |
| Rules.RulesEngine.TryRule | easycat/rules/__init__.py:68-80 | one iteration skips inactive and out-of-range rules and otherwise reports the pattern's match |
| Rules.RulesEngine.AddRule | easycat/rules/__init__.py:122-132 | the rule is appended and the list re-sorted, and its slot holds its own compilation |
| Rules.RulesEngine.RemoveRule | easycat/rules/__init__.py:134-137 | every rule with the id is dropped, the others keep their order, and the slot is evicted |
| Rules.RulesEngine.UpdateRules | easycat/rules/__init__.py:139-143 | the rules are replaced and sorted, and the slots rebuilt from nothing |
| Rules.RulesEngine.Rules | easycat/rules/__init__.py:145-148 | the property returns the rules in priority order |
| Rules.FilterKeepsPriorityOrder | easycat/rules/__init__.py:136 | removing rules keeps the priority order |
| Rules.AddedRuleFollowsEqualPriority | easycat/rules/__init__.py:124-125 | an added rule goes after the existing rules of its priority, which keep their order |
| Rules.UncompiledRegexNeverMatches | easycat/rules/__init__.py:33-34 | a regex rule without a compiled pattern never matches |
| Rules.DistinctIdsCompileOwnPattern | easycat/rules/__init__.py:27-36 | with distinct ids every rule's slot is its own compilation |
| Rules.CreateRuleFromTransaction | easycat/rules/__init__.py:151-174 | the helper makes an unsaved, active rule with the given fields, created now |
| Sync.AccountToCategory | easycat/api/sync.py:15-25 | a fetched account becomes an unsaved, visible category of display order 0 with the account's id, names, parent and type |
| Sync.SavedCategoriesFollowAccounts | easycat/api/sync.py:14-28 | one saved category per fetched account, in fetch order, with that account's columns; no accounts leaves the table as it was |
| Sync.SavedCategoriesKeepTable | easycat/api/sync.py:26 | saving the fetched categories keeps ids as keys and `qbo_id` unique |
| Sync.SyncCategories | easycat/api/sync.py:10-28 | a failed fetch raises before anything is saved; otherwise the categories table is the fold of the saves and the saved rows are returned |
| Sync.CategoryLookup | easycat/api/sync.py:52 | the lookup has a key for every stored category and maps each key to a category with that `qbo_id` |
| Sync.Description | easycat/api/sync.py:108-114 | the first line's description if truthy, else the memo if truthy, else "Purchase " and the document number or the id; never empty |
| Sync.PreAssigned | easycat/api/sync.py:116-121 | the category of the first line's account when that account is a known category, and none otherwise |
| Sync.ToCandidate | easycat/api/sync.py:99-135 | a fetched purchase becomes an unsaved, pending transaction with the purchase's columns, the negated total, the chosen description and the pre-assigned category |
| Sync.PreAssignedFromStore | easycat/api/sync.py:51-52 | a category is pre-assigned exactly when the first line names a known account, and it is the local id of the stored category with that `qbo_id` |
| Sync.SyncKeepsReviewState | easycat/api/sync.py:37-41 | re-syncing keeps every stored row with its status and assigned category, and keeps the table well formed |
| Sync.SavedTransactionsFollowCandidates | easycat/api/sync.py:54-57 | one saved row per candidate, in order, with that candidate's fetched columns |
| Sync.Candidates | easycat/api/sync.py:54-55 | one candidate per fetched purchase, in order |
| Sync.SyncTransactions | easycat/api/sync.py:31-58 | a failed fetch raises before anything is saved; otherwise each purchase is saved as a candidate, and no stored status or category changes |
| Sync.SaveCandidates | easycat/api/sync.py:54-58 | the loop ends with the table and saved list the fold of the saves gives |
| Sync.SavedTransactionsStep | easycat/api/sync.py:56-57 | one more save extends the fold by that candidate's upsert |
| Sync.AccountRefOf | easycat/api/sync.py:146-149 | the account reference holds the category's `qbo_id` and full name |
| Sync.CategorizedLine | easycat/api/sync.py:144-152 | an expense line gets its detail's account reference set to the category, any other line is copied; a line that is not an object, or an expense line without an object detail, fails |
| Sync.CategorizedLineKeepsOtherKeys | easycat/api/sync.py:145-149 | the rebuilt line keeps every other key of the line and of its detail, and adds only `AccountRef` |
| Sync.LinesOf | easycat/api/sync.py:141-143 | a purchase without `Line`, or whose `Line` is an empty object or empty text, has no lines; one with a list has those; any other `Line` value, or a purchase that is not an object, fails |
| Sync.CategorizeEach | easycat/api/sync.py:143-153 | when no line fails, line i of the result is line i rebuilt; the rebuild fails exactly when some line fails |
| Sync.CategorizedLines | easycat/api/sync.py:138-153 | the rebuild of the purchase's lines (none for an empty `Line` object or text), failing when its lines cannot be read |
| Sync.CategorizeEachStopsAtFailure | easycat/api/sync.py:143-152 | a failing line makes the whole rebuild fail with that line's error |
| Sync.BuildCategorizedLineItems | easycat/api/sync.py:138-153 | the loop computes the rebuild of the purchase's lines, none for an empty `Line` object or text |
| Sync.MarkPosted | easycat/api/sync.py:90 | a posted transaction has status posted |
| Sync.ListedRowsAreStored | easycat/api/sync.py:69 | a listed categorized transaction is the stored row of its id, with that status |
| Sync.PostCategorized | easycat/api/sync.py:61-96 | a purchase is fetched exactly for the listed transactions with a stored category; the posted list is the listed transactions whose fetch, rebuild and update succeed (a purchase whose `Line` is an empty object or text is rebuilt with no lines and posted), marked posted; exactly those rows become posted and all other rows are unchanged |
| Sync.PostListed | easycat/api/sync.py:72-95 | one iteration keeps the invariant: the rows processed so far are posted exactly when their posting succeeded |
| Sync.PostOne | easycat/api/sync.py:73-95 | the purchase is fetched exactly when the transaction has a stored category; only a transaction whose posting succeeds changes, to posted with its category |
| Sync.PostListsStep | easycat/api/sync.py:72-91 | the sent and posted lists grow by the transaction exactly when it is eligible and when it succeeds |
| Sync.PostTableStep | easycat/api/sync.py:87-89 | after one more transaction only its row can change, and it becomes posted when the posting succeeds |
| Strings.StripLeft | easycat/screens/categories.py:77 | the left strip removes exactly the leading whitespace |
| Strings.StripRight | easycat/screens/categories.py:77 | the right strip removes exactly the trailing whitespace |
| Strings.Strip | easycat/screens/categories.py:77 | a stripped value neither starts nor ends with whitespace |
| Strings.StripIsInfix | easycat/screens/categories.py:77 | `strip()` keeps a contiguous piece of the text and removes only whitespace around it |
| Strings.StripEmptyIff | easycat/screens/categories.py:77-79 | the stripped value is empty exactly when the text is all whitespace |
| Strings.StripIdempotent | easycat/screens/categories.py:433 | stripping twice is stripping once |
| Strings.ContainsEmpty | easycat/rules/__init__.py:112 | the empty pattern is contained in every text |
| Strings.ContainsSelf | easycat/rules/__init__.py:112 | every text contains itself |
| Strings.Join | easycat/api/__init__.py:180 | joining one part gives it back; joining more is the join of all but the last, the separator and the last |
| Strings.AsciiLower | easycat/db/repository.py:500 | `LIKE` compares with each character lower-cased as ASCII, keeping the length |
| Strings.StrLessIrreflexive | easycat/db/repository.py:208 | no name sorts before itself |
| Strings.StrLessTransitive | easycat/db/repository.py:208 | name order is transitive |
| Strings.StrLessTotal | easycat/db/repository.py:208 | of two different names one sorts first |
| Strings.StrLessStrictTotal | easycat/db/repository.py:208 | text order is a strict total order |
| Strings.NatToString | easycat/widgets/transaction_table.py:182 | the decimal form of a number is digits only, without a leading zero unless the number is 0 |
| Strings.NatToStringRoundTrip | easycat/widgets/transaction_table.py:182 | reading the digits back gives the number |
| Strings.IntToString | easycat/widgets/transaction_table.py:182 | a negative number is the minus sign and its magnitude |
| Sorting.InsertPos | easycat/rules/__init__.py:125 | a stable insertion goes after everything not above the element and before the first element above it |
| Sorting.InsertSorted | easycat/rules/__init__.py:125 | inserting into a sorted list keeps it sorted |
| Sorting.InsertPermutes | easycat/rules/__init__.py:124-125 | inserting adds exactly the element |
| Sorting.SortBySorted | easycat/db/repository.py:208 | the result is sorted by the `ORDER BY` or sort key |
| Sorting.SortByPermutation | easycat/db/repository.py:208 | sorting is a permutation |
| Sorting.SortByStable | easycat/rules/__init__.py:23 | elements with equal keys keep their input order |
| Sorting.SortByMembers | easycat/db/repository.py:208 | sorting keeps exactly the given elements |
| Sorting.SortByHeadIsLeast | easycat/db/repository.py:120 | the first row of a sort is one no row sorts before (`LIMIT 1`) |
| Json.Get | easycat/api/__init__.py:269-279 | `dict.get` finds a value exactly when the key is present, and it is that key's value |
| Json.ObjectsIn | easycat/api/sync.py:141-143 | iterating a list gives its items and an empty object or text gives nothing; any other value fails, a non-empty object or text because its keys or characters have no `.get` |
| Api.RequiredStr | easycat/api/__init__.py:239-242 | `data[key]` succeeds exactly when the key holds a string, and gives that string |
| Api.OptionalStr | easycat/api/__init__.py:262-263 | an absent or `null` key gives None, a string gives itself, and any other value is an error |
| Api.StrOr | easycat/api/__init__.py:241 | an absent key gives the default, a string gives itself, any other value is an error |
| Api.ObjectOr | easycat/api/__init__.py:253-254 | an absent key gives the empty object, an object gives its members, any other value is an error |
| Api.RefStr | easycat/api/__init__.py:264-265 | a false reference (absent, `null` or empty) gives None; an object reference gives its member |
| Api.BoolOr | easycat/api/__init__.py:245 | an absent key gives the default, a flag gives itself, any other value is an error |
| Api.AmountOr | easycat/api/__init__.py:275 | an absent key gives the default when there is one, a number gives itself, and the rest is an error |
| Api.DaysInMonth | easycat/api/__init__.py:258 | every month has 28 to 31 days |
| Api.Padded | easycat/api/__init__.py:176 | a zero-padded field has exactly its width, all digits |
| Api.PaddedValue | easycat/api/__init__.py:176 | a number below 10^width is read back from its padded digits |
| Api.PaddedIsDigits | easycat/api/__init__.py:258 | a run of digits is the padding of its own value |
| Api.FormatDate | easycat/api/__init__.py:176 | `%Y-%m-%d` is ten characters with dashes at positions 4 and 7 |
| Api.ParseDate | easycat/api/__init__.py:258 | a parsed date is a valid calendar date |
| Api.ParseFormattedDate | easycat/api/__init__.py:176-178 | a formatted date parses back to itself |
| Api.FormatParsedDate | easycat/api/__init__.py:258 | a text that parses as a date is that date's formatting |
| Api.ParseAccountDefaults | easycat/api/__init__.py:236-249 | an account with only id, name and type has its name as full name, no sub-type, parent or balance, and is active, whatever false parent reference it has |
| Api.ParseAccount | easycat/api/__init__.py:236-249 | a non-object or one without `Id`, `Name` or `AccountType` fails; a parsed account carries those three texts, and each optional field left out takes its default: the name as full name, no sub-type, parent or balance, active |
| Api.AccountJson | easycat/api/__init__.py:31-41 | an account's JSON is an object with `Id` and `Name` |
| Api.ParseAccountRoundTrip | easycat/api/__init__.py:236-249 | parsing recovers every account from its JSON |
| Api.ParseLineItemDefaults | easycat/api/__init__.py:269-279 | an empty line is a line of amount 0 with nothing else |
| Api.ParseLineItem | easycat/api/__init__.py:269-279 | a non-object fails; a parsed line without `Id`, `Amount` or `Description` has no id, amount 0 and no description, and one without `AccountBasedExpenseLineDetail` has no account id or name |
| Api.LineItemJson | easycat/api/__init__.py:61-68 | a line's JSON is an object |
| Api.ParseLineItemRoundTrip | easycat/api/__init__.py:269-279 | parsing recovers every line from its JSON |
| Api.ParseLineItems | easycat/api/__init__.py:255 | one line per element, in order, when no element fails; the list fails exactly when some element does |
| Api.ParsePurchaseDefaults | easycat/api/__init__.py:251-267 | a purchase without account or entity reference has an empty account id and name, no entity and no lines |
| Api.ParsePurchase | easycat/api/__init__.py:251-267 | a non-object, or one whose `Line` cannot be iterated, fails; a parsed purchase carries its `Id` and the date its `TxnDate` text reads as; without `AccountRef` the account id and name are empty, without `EntityRef` there is no entity, and a missing, empty-object or empty-text `Line` gives no lines, a list one line per element |
| Api.PurchaseJson | easycat/api/__init__.py:45-57 | a purchase's JSON is an object |
| Api.PurchaseCore | easycat/api/__init__.py:45-57 | the core members include `Id` and `TxnDate` |
| Api.LineItemsJson | easycat/api/__init__.py:255 | one JSON object per line, in order |
| Api.ParsePurchaseRoundTrip | easycat/api/__init__.py:251-267 | parsing recovers every purchase from its JSON, its lines in order |
| Api.PurchaseJsonFields | easycat/api/__init__.py:251-267 | each field reader finds the purchase's own value in its JSON |
| Api.EntityMembersFields | easycat/api/__init__.py:253-265 | the entity reference is empty exactly when both name and id are absent, and reading it back gives both |
| Api.PurchaseCoreFields | easycat/api/__init__.py:253-263 | each field reader but the entity's finds the purchase's own value in the core members |
| Api.ParseLineItemsRoundTrip | easycat/api/__init__.py:255 | parsing the lines' JSON recovers them in order |
| Api.ParseVendor | easycat/api/__init__.py:281-287 | a vendor parses exactly when id and display name are strings and `Active` is absent or a flag; the vendor's id and display name are those strings, and it is active as the `Active` flag says, or when `Active` is absent |
| Api.BuildUrl | easycat/api/__init__.py:113-115 | the URL is the company path of the realm followed by the endpoint |
| Api.PurchaseQuery | easycat/api/__init__.py:173-181 | the query text is the base purchase query followed by one condition per given date |
| Api.PurchaseConditions | easycat/api/__init__.py:174-178 | one condition per date given |
| Api.PurchaseQueryShape | easycat/api/__init__.py:173-181 | the query starts with the purchase select, ends with ordering and page size, and has a `WHERE` clause exactly when a date is given |
| Api.UpdatePurchasePayload | easycat/api/__init__.py:204-211 | the payload exists exactly when the purchase has `Id`, `PaymentType` and `AccountRef`; it is a sparse update of the lines with `SyncToken` defaulting to "0" |
| Api.CreateAccountPayload | easycat/api/__init__.py:307-313 | the payload has name and type, and a sub-account parent reference exactly when a parent is given |
| Api.QuickBooksClient.constructor | easycat/api/__init__.py:83-88 | the client keeps realm and token and uses the sandbox URL exactly when the configuration is a sandbox |
| Api.QuickBooksClient.Headers | easycat/api/__init__.py:105-111 | the headers are the bearer token and JSON in both directions |
| Api.QuickBooksClient.Enter | easycat/api/__init__.py:90-97 | entering opens the session |
| Api.QuickBooksClient.Exit | easycat/api/__init__.py:99-103 | leaving closes the session, open or not |
| Categories.NameOrderIsStrictWeakOrder | easycat/screens/categories.py:385 | sorting siblings by lower-cased name is a strict weak order |
| Categories.UniqueQboIdsDistinct | easycat/screens/categories.py:375 | with unique `qbo_id`s the category list has no duplicates |
| Categories.ChainDistinct | easycat/screens/categories.py:389-393 | a chain of parents never repeats a category and is no longer than the category list |
| Categories.ChainExtends | easycat/screens/categories.py:389-393 | a child of a chain's last category extends the chain, which stays no longer than the list, so `add_children` terminates even on a parent cycle |
| Categories.ChildrenFacts | easycat/screens/categories.py:377-385 | the children grouped under a key are exactly the categories with that parent, without duplicates, sorted by lower-cased name |
| Categories.PlacementsDistinct | easycat/screens/categories.py:389-393 | the recursion lists no placement twice |
| Categories.PlacementsParentsFirst | easycat/screens/categories.py:389-393 | every placement below the top has its parent's placement listed before it |
| Categories.PlacementsComplete | easycat/screens/categories.py:389-393 | every chain below the current one is listed |
| Categories.PlacementsSiblingsOrdered | easycat/screens/categories.py:385-393 | placements sharing their ancestors are listed in name order |
| Categories.ChainDeterminedByLast | easycat/screens/categories.py:375 | two chains ending in the same category are the same chain |
| Categories.CategoryTreeDepths | easycat/screens/categories.py:371-396 | every entry is an input category; an entry has depth 0 exactly when it has no parent, and otherwise its parent is listed before it one level up |
| Categories.BuildCategoryTree | easycat/screens/categories.py:371-396 | every entry is an input category, at depth 0 exactly when it has no parent |
| Categories.PlacementsOnChains | easycat/screens/categories.py:387-396 | each category the walk from the roots places is an input one, with no ancestors exactly when it has no parent |
| Categories.CategoryTreeDepthAt | easycat/screens/categories.py:389-395 | the same three facts for the entry at one index |
| Categories.PlacedOnChain | easycat/screens/categories.py:392-393 | a placement's category is an input one, a root exactly without ancestors, and otherwise a child of its last ancestor |
| Categories.CategoryTreeOnlyReachable | easycat/screens/categories.py:371-396 | each entry is reached from a root through a parent chain one longer than its depth, so a category whose parents never reach a root is not listed |
| Categories.CategoryTreeComplete | easycat/screens/categories.py:371-396 | every category reached from a root is listed, at its chain's depth |
| Categories.CategoryTreeExactlyOnce | easycat/screens/categories.py:371-396 | no category is listed twice |
| Categories.CategoryTreeSiblingsSorted | easycat/screens/categories.py:384-385 | entries with the same parent appear in order of lower-cased name |
| Categories.FilteredTreeSpec | easycat/screens/categories.py:431-442 | a blank query restores the whole tree; any other keeps exactly the entries whose full name or name contains it, lower-cased |
| Categories.FilteredTree | easycat/screens/categories.py:431-442 | a blank query leaves the whole tree, and filtering never adds entries |
| Categories.FilteredTreeKeepsOrder | easycat/screens/categories.py:437-441 | filtering keeps tree order and the depths |
| Categories.CategoryList.constructor | easycat/screens/categories.py:421-425 | the list starts with the built tree, unfiltered |
| Categories.CategoryList.FilterBy | easycat/screens/categories.py:431-442 | the loop leaves the filtered tree of the query |
| Categories.ShownVisibility | easycat/screens/categories.py:305-307 | a recorded change wins over the stored visibility |
| Categories.VisibleCount | easycat/screens/categories.py:276-279 | no more items are checked than exist |
| Categories.MajorityToggle | easycat/screens/categories.py:276-281 | `toggle_all` makes everything visible exactly when at most half the items are visible, so always on an empty list |
| Categories.ToggleAllOutcome | easycat/screens/categories.py:274-282 | after `toggle_all` every item is checked when at most half were, and unchecked otherwise; categories and depths are kept |
| Categories.ToggleAllAlternates | easycat/screens/categories.py:274-282 | on a non-empty list a second `toggle_all` undoes the first |
| Categories.RecordedFlipsSpec | easycat/screens/categories.py:150-153 | handling the `Checkbox.Changed` events of setting every item to one state records exactly the ids of the flipped items, each with that state, and keeps every other recorded change |
| Categories.ToggleAllLeavesChangeToSave | easycat/screens/categories.py:159-163 | a `toggle_all` that flips an item with a category id leaves a change, so saving dismisses with changes rather than None |
| Categories.RecordedChangeShown | easycat/screens/categories.py:252-313 | a recorded change shows on that category's item and on no other |
| Categories.ManageCategoryList.constructor | easycat/screens/categories.py:242-246 | the list keeps the categories, builds their tree and has no changes and no items yet |
| Categories.ManageCategoryList.RecordCheckboxChange | easycat/screens/categories.py:252-256 | a change is recorded under the checkbox's category id, and nothing without one |
| Categories.ManageCategoryList.SetAllVisible | easycat/screens/categories.py:266-272 | every item ends with the given state, other fields kept; each item whose checkbox flips and that has a category id gets its new state recorded as a change, and the other recorded changes are kept |
| Categories.ManageCategoryList.ToggleAll | easycat/screens/categories.py:274-282 | every item gets the majority toggle of the old items, and every flipped item with a category id is recorded as changed to it |
| Categories.ManageCategoryList.ToggleSelected | easycat/screens/categories.py:258-264 | without a highlighted item nothing changes; otherwise that item's state flips and, when it has a category id, the flip is recorded as a change |
| Categories.ManageCategoryList.GetVisibilityChanges | easycat/screens/categories.py:289-291 | returns the recorded changes |
| Categories.ManageCategoryList.RefreshList | easycat/screens/categories.py:301-313 | one item per tree entry, in order, with its category, depth and shown visibility |
| Categories.ManageCategoryList.RefreshCategories | easycat/screens/categories.py:284-287 | the tree is rebuilt and the items shown from it |
| Categories.SaveDecision | easycat/screens/categories.py:159-163 | the screen dismisses with the changes, and with None exactly when there are none |
| Categories.SubmitRefusesBlank | easycat/screens/categories.py:74-81 | an input is refused exactly when it is all whitespace |
| Categories.SubmitDecision | easycat/screens/categories.py:74-81 | the input is refused exactly when stripping leaves nothing; a submitted value is non-empty and neither starts nor ends with whitespace |
| Categories.SubmittedIsTrimmed | easycat/screens/categories.py:77-79 | a submitted value is the input without its surrounding whitespace: a piece of it that neither starts nor ends with whitespace |
| TransactionTable.PlainText | easycat/widgets/transaction_table.py:186-191 | a cell without spans reads as empty text |
| TransactionTable.StatusIconsDistinct | easycat/widgets/transaction_table.py:12-16 | the icon table covers every status, each icon one character, and tells statuses apart by icon and by colour |
| TransactionTable.StatusCell | easycat/widgets/transaction_table.py:145-148 | the cell is the status's icon in its colour |
| TransactionTable.StatusIcon | easycat/widgets/transaction_table.py:12-16 | every status has a one-character icon and a colour |
| TransactionTable.AmountCellSign | easycat/widgets/transaction_table.py:154-159 | the cell starts with `-` and is red exactly for a negative amount, which reads as `-` followed by the cell of its magnitude; a non-negative amount is `$` and its formatting |
| TransactionTable.AmountCell | easycat/widgets/transaction_table.py:154-159 | a negative amount is red and shows `-$` then the formatted magnitude; any other is green and shows `$` then the formatted amount |
| TransactionTable.TruncatedSpec | easycat/widgets/transaction_table.py:161-175 | a text that fits is kept; a longer one becomes exactly the limit: its first limit-3 characters and an ellipsis |
| TransactionTable.Truncated | easycat/widgets/transaction_table.py:161-175 | the text never exceeds the limit: one that fits is kept, a longer one is cut to exactly the limit |
| TransactionTable.DescriptionCell | easycat/widgets/transaction_table.py:161-166 | the description cell is at most 40 characters |
| TransactionTable.VendorCell | easycat/widgets/transaction_table.py:168-175 | a missing or empty vendor shows `-`, any other is truncated to 20 characters |
| TransactionTable.CategoryCellText | easycat/widgets/transaction_table.py:177-191 | "Uncategorized" when nothing is assigned, `#id` for an id without an entry, a name containing "Uncategorized" alone, and otherwise the name, then " < " and the parent when there is a non-empty one |
| TransactionTable.CategoryCell | easycat/widgets/transaction_table.py:177-191 | the cell has one to three spans, led by "Uncategorized" when nothing is assigned, by the category's name when the map knows the id, and is exactly the cyan `#id` otherwise |
| TransactionTable.Rows | easycat/widgets/transaction_table.py:81-92 | one row per transaction |
| TransactionTable.RowOf | easycat/widgets/transaction_table.py:81-90 | a row is keyed by the transaction's `qbo_id`; its date cell has ten characters, its description at most 40 and its vendor at most 20 |
| TransactionTable.LoadStep | easycat/widgets/transaction_table.py:81-92 | loading one more transaction adds its entry to the lookup and its row after the others |
| TransactionTable.LoadedRows | easycat/widgets/transaction_table.py:81-92 | the load loop builds the lookup and the rows of all the transactions |
| TransactionTable.QboMapSpec | easycat/widgets/transaction_table.py:81-83 | the lookup holds exactly the loaded `qbo_id`s, each mapped to its transaction when the ids are distinct |
| TransactionTable.RowsAgreeLoaded | easycat/widgets/transaction_table.py:81-92 | the loaded rows are keyed by the transactions' `qbo_id`s in order and carry their status cells |
| TransactionTable.LoadedSynced | easycat/widgets/transaction_table.py:75-92 | after a load the list, the lookup and the rows describe the same transactions |
| TransactionTable.UpdatedRows | easycat/widgets/transaction_table.py:112-115 | only the row with the key gets new status and category cells |
| TransactionTable.HasQboId | easycat/widgets/transaction_table.py:109 | the search test holds exactly for the transaction with the `qbo_id` |
| TransactionTable.ReplaceFirst | easycat/widgets/transaction_table.py:108-111 | the first entry with the `qbo_id` is replaced, and nothing when there is none |
| TransactionTable.TransactionTable.constructor | easycat/widgets/transaction_table.py:45-53 | a new table is empty and in step, with the given categories or none |
| TransactionTable.TransactionTable.SetCategories | easycat/widgets/transaction_table.py:55-57 | the lookup is replaced |
| TransactionTable.TransactionTable.LoadTransactions | easycat/widgets/transaction_table.py:75-92 | the list, the lookup and the rows become those of the transactions, in step, and the cleared table has its cursor on row 0 |
| TransactionTable.TransactionTable.MoveCursor | easycat/screens/transactions.py:557 | the cursor moves to the row |
| TransactionTable.TransactionTable.GetCurrentTransaction | easycat/widgets/transaction_table.py:94-101 | the transaction under the cursor, and none for an empty table or a cursor out of range |
| TransactionTable.TransactionTable.UpdateTransaction | easycat/widgets/transaction_table.py:103-115 | an unknown `qbo_id` changes nothing; a known one updates the lookup, the first list entry and the row's status and category cells, keeping the table in step |
| TransactionTable.FirstIndexOfKey | easycat/widgets/transaction_table.py:108-111 | the index replaced is the first with the key |
| TransactionTable.ReplaceFirstSynced | easycat/widgets/transaction_table.py:103-115 | replacing a known transaction keeps the list, the lookup and the rows in step |
| TransactionTable.ReplacedIndex | easycat/widgets/transaction_table.py:108-111 | with distinct ids the transaction replaced is the only one with the key |
| TransactionTable.ReplaceKeepsIds | easycat/widgets/transaction_table.py:107-110 | the replacement keeps the ids distinct and the lookup's keys listed |
| TransactionTable.ReplaceKeepsLookup | easycat/widgets/transaction_table.py:107-110 | the lookup still maps each id to its listed transaction |
| TransactionTable.ReplaceKeepsRows | easycat/widgets/transaction_table.py:110-115 | the rows still show the listed transactions |
| Transactions.QboNamesSpec | easycat/screens/transactions.py:403 | the `qbo_id` name map holds exactly the categories' `qbo_id`s, each with the name of the last category carrying it (a dict comprehension keeps the last write) |
| Transactions.ParentName | easycat/screens/transactions.py:408-410 | the parent name is present exactly when the category has a parent id and some category carries it as `qbo_id`, and it is that category's name |
| Transactions.CategoryMapFromSpec | easycat/screens/transactions.py:405-412 | the keys are exactly the local ids of the categories; each holds the name and the parent name of the last category with that id; id-less categories are skipped |
| Transactions.CategoryMapSpec | easycat/screens/transactions.py:397-412 | with unique ids and `qbo_id`s every category with an id maps to its name and to its parent's name, present exactly when a category carries the parent's `qbo_id` |
| Transactions.CategoryMapOf | easycat/screens/transactions.py:397-412 | the category map's keys are exactly the local ids of the categories |
| Transactions.HiddenQboIdsSpec | easycat/screens/transactions.py:596-599 | the hidden set is exactly the `qbo_id`s of the categories that are not visible |
| Transactions.ShownUnder | easycat/screens/transactions.py:602-607 | a category is kept exactly when it is visible and its parent id is not a hidden `qbo_id` |
| Transactions.EffectivelyVisibleSpec | easycat/screens/transactions.py:594-608 | a category is offered exactly when it is one of the categories, visible, and its direct parent is not a hidden category |
| Transactions.OnAccount | easycat/screens/transactions.py:539-541 | the account filter's test holds exactly for the transactions of that account |
| Transactions.AccountListMembers | easycat/screens/transactions.py:514-520 | an account is listed exactly when some transaction belongs to it |
| Transactions.AccountListDistinct | easycat/screens/transactions.py:516-520 | no account id is listed twice |
| Transactions.AccountListFirstSeen | easycat/screens/transactions.py:517-520 | each listed account carries the account name of its first transaction, and the accounts come in the order of their first transactions |
| Transactions.SelectAccountSpec | easycat/screens/transactions.py:529-533 | with no saved id, or with an id no listed account has, the index is kept; otherwise it becomes the first position holding that id |
| Transactions.SelectAccount | easycat/screens/transactions.py:529-533 | without an id the index is kept; with one the result is the current index or a position whose account has that id |
| Transactions.StatusCounts | easycat/screens/transactions.py:560-566 | the status bar gets the length of the list and the numbers of its pending and of its categorized transactions |
| Transactions.StatusCountsPartition | easycat/screens/transactions.py:562-564 | pending, categorized and posted transactions together make up the total |
| Transactions.FirstPendingOrZero | easycat/screens/transactions.py:552-556 | for a non-empty list the row picked is a valid index |
| Transactions.FirstPendingSpec | easycat/screens/transactions.py:550-558 | the row put under the cursor is the first pending transaction, or row 0 when none is pending |
| Transactions.FilterKeepsDistinctQboIds | easycat/screens/transactions.py:539-547 | the account's sub-list of a list with distinct `qbo_id`s still has distinct `qbo_id`s, as the table's load needs |
| Transactions.FilterKeepsValidDates | easycat/screens/transactions.py:539-547 | the account's sub-list of a list of calendar dates still holds only calendar dates |
| Transactions.Retag | easycat/screens/transactions.py:636-637 | after the shared transaction object is changed every list entry with its `qbo_id` reads as the changed transaction and every other entry is unchanged |
| Transactions.RetagFacts | easycat/screens/transactions.py:636-647 | changing the shared object keeps the list's `qbo_id`s distinct and its dates valid, and every entry stays in the list in its changed form |
| Transactions.RetagIsReplaceFirst | easycat/widgets/transaction_table.py:103-114 | with distinct `qbo_id`s the table's replace-the-first-match update agrees with the shared-object update of the screen's lists |
| Transactions.IsBatchCandidate | easycat/screens/transactions.py:651-656 | the batch test holds exactly for pending transactions with the same description and a different id |
| Transactions.BatchCandidatesSpec | easycat/screens/transactions.py:651-656 | the candidates are exactly the transactions of the list that are pending, have an identical description and a different id; the just-categorized transaction is never one |
| Transactions.BatchCandidates | easycat/screens/transactions.py:651-656 | no more candidates than transactions, and each is pending, has the same description and a different id |
| Transactions.BatchLabelMatchesCategoryCell | easycat/screens/transactions.py:657-658 | the corrected confirmation label is the name span the table's category cell starts with: the category's name when known, `#id` otherwise |
| Transactions.BatchLabelAsWritten | easycat/screens/transactions.py:658 | as written, an unknown category is labelled `#` followed by its id |
| Transactions.BatchLabelAsWrittenIsAPair | easycat/screens/transactions.py:658 | as written, for a known category the value passed to the confirmation is the (name, parent) pair, not the name text |
| Transactions.BatchLabel | easycat/screens/transactions.py:658 | the corrected label: the category's name when the map knows the id, otherwise `#` followed by the id |
| Transactions.BatchPromptFor | easycat/screens/transactions.py:657-662 | a confirmation is offered exactly when there are candidates, with their number, the description and the category's label |
| Transactions.BatchApply | easycat/screens/transactions.py:678-683 | marking the batch in turn keeps the list's length |
| Transactions.BatchApplyCategorizes | easycat/screens/transactions.py:671-686 | when the batch is drawn from the list, exactly the entries sharing a batch member's `qbo_id` become Categorized under the category and every other entry is unchanged |
| Transactions.BatchApplyStep | easycat/screens/transactions.py:678-680 | one more batch member changes an entry exactly when it shares that member's `qbo_id` |
| Transactions.StoreBatchSpec | easycat/screens/transactions.py:681-682 | the store's writes keep every key; a row whose id is a batch member's non-zero id becomes Categorized under the category and every other row is unchanged |
| Transactions.ApplyVisibility | easycat/screens/transactions.py:936-938 | the no-repository path keeps the number of categories |
| Transactions.VisibilitySaved | easycat/screens/transactions.py:943-948 | after the keys written so far, the first category with each written id takes its flag and every other category is unchanged |
| Transactions.StoreVisibility | easycat/screens/transactions.py:943-944 | the store's categories keep their keys; each written key's row takes its flag and the others are unchanged |
| Transactions.VisibilitySaveSpec | easycat/screens/transactions.py:932-951 | both save paths change only the visibility of categories whose id is in the change map, give each such category its flag on the no-repository path, and agree when ids are unique |
| Transactions.StoreVisibilityStep | easycat/screens/transactions.py:943-944 | writing one more key of the change map to the store is the store after that key too |
| Transactions.VisibilitySavedStep | easycat/screens/transactions.py:945-948 | updating the first category with one more key's id is the screen's list after that key too |
| Transactions.FullNameFor | easycat/screens/transactions.py:902-908 | with a non-empty parent `qbo_id` that a category carries, the full name is the first such category's full name, `:` and the name; otherwise the name; the name always ends it |
| Transactions.SaveStatus | easycat/screens/transactions.py:639-642 | with a repository and a non-zero id the store's transaction takes the new status and category; otherwise the store is unchanged |
| Transactions.TransactionsScreen.constructor | easycat/screens/transactions.py:387-395 | a new screen has no current transaction, empty lists and an empty category map, account index 0 and an empty table |
| Transactions.TransactionsScreen.BuildCategoryMap | easycat/screens/transactions.py:397-412 | the loop builds the category map of the screen's categories |
| Transactions.TransactionsScreen.EffectivelyVisibleCategories | easycat/screens/transactions.py:594-608 | the two loops return the categories, in order, that the shown-under test keeps for the hidden set |
| Transactions.TransactionsScreen.BuildAccountList | easycat/screens/transactions.py:514-520 | the loop sets the account list to the first-seen accounts of all transactions |
| Transactions.TransactionsScreen.SelectAccountIndex | easycat/screens/transactions.py:846-849 | the index becomes the first position with the account id, or stays when none has it |
| Transactions.TransactionsScreen.LoadSavedAccount | easycat/screens/transactions.py:522-533 | without a repository nothing changes; with one the saved account setting, when present, selects its first position |
| Transactions.TransactionsScreen.UpdateStatusBar | easycat/screens/transactions.py:560-566 | the counts shown are the status counts of the list |
| Transactions.TransactionsScreen.ApplyAccountFilter | easycat/screens/transactions.py:535-558 | an index past the account list raises IndexError and changes nothing; otherwise the screen shows exactly the selected account's transactions, the table's key map matches them, and an empty list leaves the current transaction with the cursor on row 0 |
| Transactions.TransactionsScreen.ShowSelectedAccount | easycat/screens/transactions.py:537-558 | the filtered list, the table and the status bar show the selected account; an empty list leaves the current transaction, and the reloaded table has its cursor on row 0 |
| Transactions.TransactionsScreen.ShowList | easycat/screens/transactions.py:539-558 | the list goes to the filtered list, the table and the counts; a non-empty list gets its first pending (or first) transaction made current and put under the cursor, and an empty one leaves the current transaction with the cursor on row 0 |
| Transactions.TransactionsScreen.LoadList | easycat/screens/transactions.py:539-548 | the list becomes the filtered list and the table's rows, the cursor is on row 0, the account label is set and the counts are the list's |
| Transactions.TransactionsScreen.FocusList | easycat/screens/transactions.py:550-558 | a non-empty list has its first pending (or first) transaction made current and under the cursor; an empty one changes neither |
| Transactions.TransactionsScreen.HandleAccountSelected | easycat/screens/transactions.py:841-859 | no id changes nothing; an id selects its first position (an unknown one keeps the index), the filter is applied, and the id is saved as the selected-account setting when the filter succeeds and there is a repository; when the filter raises `IndexError` the screen and the table are unchanged, and an empty filtered list keeps the current transaction |
| Transactions.TransactionsScreen.Categorize | easycat/screens/transactions.py:636-647 | the changed transaction is seen in every list holding its `qbo_id` and in the current transaction, and is written to the store when there is one and its id is non-zero |
| Transactions.TransactionsScreen.RetagShown | easycat/screens/transactions.py:636-647 | the lists, the current transaction and the table all see the changed transaction |
| Transactions.TransactionsScreen.RetagLists | easycat/screens/transactions.py:636-637 | the screen's own lists see the changed transaction and keep distinct `qbo_id`s and valid dates |
| Transactions.TransactionsScreen.AssignCategory | easycat/screens/transactions.py:627-662 | no current transaction changes nothing; otherwise it becomes Categorized under the category in every list and in the store, the counts are refreshed, and the confirmation offered is that of its pending look-alikes |
| Transactions.TransactionsScreen.AssignCurrent | easycat/screens/transactions.py:634-662 | the current transaction becomes Categorized under the category in every list and in the store, the counts are refreshed, and the confirmation offered is that of its pending look-alikes |
| Transactions.TransactionsScreen.CategorizeAndCount | easycat/screens/transactions.py:636-648 | one transaction is changed everywhere and written to the store, then the counts are those of the filtered list |
| Transactions.TransactionsScreen.BatchCategorize | easycat/screens/transactions.py:671-686 | every batch member's entries become Categorized under the category in both lists and in the current transaction, the store gets the batch's writes, and the counts are refreshed |
| Transactions.TransactionsScreen.SaveVisibilityChanges | easycat/screens/transactions.py:932-951 | without a repository every category whose id is in the change map takes its flag; with one each key is written to the store and to the first category with that id; the category map is rebuilt |
| Transactions.TransactionsScreen.ApplyVisibilityLocally | easycat/screens/transactions.py:935-939 | the no-repository loop gives every category whose id is in the change map its flag |
| Transactions.TransactionsScreen.SaveVisibilityToStore | easycat/screens/transactions.py:943-948 | the repository loop writes every key of the change map to the store and to the first category with that id |
| Transactions.TransactionsScreen.SetFirstVisibility | easycat/screens/transactions.py:945-948 | the first category with the id takes the flag, and the loop stops there |

## Left out

- Floating point: amounts are exact integer cents. The REAL casts and `float` bounds of `search_transactions`, the `Decimal(str(float))` parsing, and the `,.2f` money format are not modelled; the format is a parameter of `TransactionTable.AmountCell`.
- Dates are calendar dates parsed from and formatted as ISO 8601 `YYYY-MM-DD`; timestamps are whole seconds.
- Ties in every SQL ordering are resolved in local id order, an order SQLite leaves unspecified: `ORDER BY date` of the transaction listings, `ORDER BY priority DESC` of `get_active_rules` (easycat/db/repository.py:297), `ORDER BY priority DESC, name` of `get_all_rules`, `ORDER BY display_order, full_name` of the category listings, and the `ORDER BY updated_at DESC LIMIT 1` of `get_latest_token`, which returns the lowest-id token among those updated last.
- SQL itself: the DDL bodies of the migration scripts, aiosqlite connections, commits, and foreign-key enforcement are not modelled. Foreign keys are off in SQLite by default, so deleting a transaction leaves its splits, and the model does the same.
- SQLite `LIKE` is modelled as ASCII-case-insensitive substring search without `%`/`_` wildcards in the search text.
- async/await, worker threads and the OAuth callback server thread: every operation is sequential.
- Textual rendering and event plumbing are not modelled, except the screen's `on_checkbox_changed`, whose recording is part of the list's toggles: `compose`, CSS, key bindings, `notify`, `push_screen`, `dismiss`, `run_worker`, focus, the status bar and the modal widgets, and the `getattr` action dispatch. The effect of `push_screen` for the batch confirmation is the prompt value that `Transactions.TransactionsScreen.AssignCategory` returns.
- The no-cover integration glue of the transactions screen is not modelled: loading data, syncing from QuickBooks, posting, refreshing and logging in, and the HTTP sending and local save in the category-creation callback. Only that callback's full-name building is modelled (`Transactions.FullNameFor`).
- The `int(parent_qbo_id)` conversion in the category-creation callback is not modelled, because parent ids are strings throughout the model.
- HTTP via httpx (`_query`, the fetches, `raise_for_status`) is not modelled in detail: the remote service is a value that returns a result or a failure.
- Fernet encryption is a parameter cipher; only the no-key identity path is fixed.
- The intuitlib authorization client, `webbrowser` and the executor are not modelled.
- The process-wide class fields of the callback handler are modelled as one object's fields.
- Regular expressions (`re.compile`, `re.search`) and `str.upper`/`str.lower` are parameters, because Python's case mapping is not length-preserving.
- TOML reading (`_load_toml_data`, `load_config`) and `Path.exists` are not modelled. The parsed table and an existence predicate are inputs.
- `datetime.now()`, `uuid` and `secrets` are parameters. Logging is left out.
- Application wiring (`easycat/app.py`, `easycat/screens/__init__.py`) is not modelled.
- Python dict iteration order in the visibility save is modelled as the set of the change map's keys. The result does not depend on the order, because each key writes its own row and its own category.
- TransactionTable.TransactionTable.MoveCursor: the row is taken as given; the clamping `DataTable.move_cursor` applies to rows outside the table is not modelled. The scroll actions (`action_scroll_top`, `action_scroll_bottom`) are not modelled either.
- Api.RequiredStr, Api.StrOr, Api.OptionalStr, Api.ObjectOr and Api.BoolOr: a value of the wrong JSON type is an error, because the model's records have typed fields, whereas Python stores it unchecked (a numeric `Id` such as `{"Id": 5, "Name": "x", "AccountType": "Expense"}` parses into the account).
- Api.AmountOr, Api.ParseAccount, Api.ParseLineItem and Api.ParsePurchase: an amount (`Amount`, `TotalAmt`, `CurrentBalance`) given as numeric JSON text such as `"12.34"` is an error, because JSON numbers are kept as whole cents; `Decimal(str(x))` at easycat/api/__init__.py:246, 259 and 275 reads such text as a decimal.
- Api.ParseDate: only the zero-padded ten-character `YYYY-MM-DD` form is accepted; `strptime("%Y-%m-%d")` also accepts unpadded months and days such as `2024-1-5`, which the model rejects.
- Sync.SyncCategories, Sync.AccountToCategory and Sync.SavedCategoriesFollowAccounts: every account of one sync gets the same `now` as its `synced_at`, whereas easycat/api/sync.py:24 reads the clock once per account.
- Categories.ManageCategoryList.SetAllVisible, ToggleAll and ToggleSelected: the `Checkbox.Changed` messages posted by each flipped checkbox are handled at once, in list order, instead of after the method returns; every one of them writes the same state, so the recorded changes are the same.
- TransactionTable.TransactionTable.LoadTransactions: requires distinct `qbo_id`s, because Textual's `DataTable` raises on a duplicate row key and that error is not modelled.
- Transactions.TransactionsScreen.BatchCategorize: states the lists, the current transaction, the store and the counts, but not the table's status and category cells after the batch.
- Transactions.TransactionsScreen.AssignCategory: the confirmation it returns carries the corrected label (`Transactions.BatchLabel`, see Findings), the category's name, not the `(name, parent_name)` pair that easycat/screens/transactions.py:658 passes for a known category.
- Transactions.TransactionsScreen.AssignCurrent: the confirmation it offers carries the corrected label (`Transactions.BatchLabel`, see Findings), not the `(name, parent_name)` pair passed at easycat/screens/transactions.py:658.
- Transactions.BatchPromptFor: the prompt's category name is the corrected label (`Transactions.BatchLabel`, see Findings); the as-written pair is modelled only by `Transactions.BatchLabelAsWritten`.
- Repository.Store.SaveVendorMapping: returns the vendor's own row, the corrected read-back (see Findings), instead of the row of the connection's last inserted id.

## Findings

| source | as written | input that shows it | evidently intended | confidence | as-written member | corrected member |
|---|---|---|---|---|---|---|
| easycat/db/repository.py:345 | `save_vendor_mapping` re-reads the row whose id is `cursor.lastrowid`; on the `ON CONFLICT(vendor_name) DO UPDATE` path no row is inserted, so that id is the previous insert's | save mappings for vendors A, then B, then A again: the third call returns B's row | return the mapping row of the saved vendor | not executed | Repository.VendorMappingSavedAsWrittenReturnsOtherRow | Repository.VendorMappingSavedIsTheVendorsRow |
| easycat/screens/transactions.py:658 | the batch confirmation gets `_category_map.get(category_id, ...)`, which for a known category is the `(name, parent_name)` pair, not a name | any known category, such as `_category_map = {5: ('Office Supplies', None)}` with category 5 | the category's name, as its table cell shows it | not executed | Transactions.BatchLabelAsWrittenIsAPair | Transactions.BatchLabelMatchesCategoryCell |
