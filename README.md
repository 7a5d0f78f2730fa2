# A verified model of the NASA-photo and SMS notification service

The service signs people up for text-message notifications (a daily NASA
Astronomy Picture of the Day, weather, sunset and similar), fetches and archives
the picture of the day, and sends the messages. Around it sit the scripts that
build the `cities` table from a public city dataset, a few front-end helpers for
the signup form, and the script that packages the Lambda functions.

This project models that core in Dafny, one module per source file (or per
group of files that share one piece of logic):

- **City data.** Download caching, the US-state filter, timezone choice by
  coordinates, by state or by default, the 1000-row batch loader with
  `ON CONFLICT DO NOTHING` (`CityDataset`, `CityTimezones`, `CityLoader`,
  `ImportUsCities`, `ImportUsCitiesAdvanced`); the SQL-dump rewriting of
  `create_us_sql.py` and `add_timezone_to_cities.py`; the TypeScript generator
  of `db/import_cities.ts`.
- **Database helpers.** The INSERT builders, the BEGIN/COMMIT/ROLLBACK wrapper
  and the client's life cycle (`InsertStatements`, `Transactions`); the merged
  `requirements.txt` (`CombinedRequirements`).
- **Signup.** Form parsing, IP extraction, the Turnstile check and the response
  codes of the signup Lambdas in TypeScript and Python (`FormParsing`,
  `ClientIp`, `SignupProcessor`, `LambdaSignup`, `SignupPython`).
- **Sending.** Grouping users by notification type, the hourly window, the
  message texts, and both message-sender handlers (`UserGrouping`,
  `NotificationWindow`, `NotificationMessages`, `MessageSenderPooled`,
  `MessageSenderDirect`).
- **Picture of the day.** The `nasa_apod` table, the three fetchers and the
  DynamoDB/S3/Twilio sender (`ApodTable`, `ApodFetcher`, `ApodFetcherPython`,
  `ApodLambdaFetcher`, `ApodSender`).
- **Front end and build.** The toast helpers, both versions of the form
  validation, the checkbox group, auto-advance (`Toast`, `FormValidation`,
  `CheckboxGroup`, `AutoAdvance`); the Lambda build script (`LambdaBuild`).

Code that changes state step by step is written as methods with loops, or as
classes whose methods update their fields. Examples are the database client's
query log, the S3 bucket and tables, the page's submit button, and the
checkboxes. Each such method is proved equal to a specification function, or its new state is
stated directly.
Lemmas then state what the source promises about that function.

Services the code calls are parameters of the model: the NASA API, S3,
DynamoDB, Twilio, Turnstile, `fetch`/`requests`, the time-zone finder,
subprocesses and the clock. Each appears as the answers it may give, failures
included. The error paths the model does not tell apart are listed under
"Left out".

## Model

| member | source | states |
|---|---|---|
| AddTimezoneToCities.SearchInsertHeader | db/etl/add_timezone_to_cities.py:38-39 | the header group of the INSERT pattern's leftmost match starts with `INSERT INTO "cities"`, ends with its only `)` |
| AddTimezoneToCities.ReplaceAtEndOnly | db/etl/add_timezone_to_cities.py:57-60 | in a header whose only `)` is the last character, replacing a `)`-ended pattern changes at most the end of the header |
| AddTimezoneToCities.ModifiedHeader | db/etl/add_timezone_to_cities.py:56-60 | the `"timezone"` column is added after `"wikidata_id"` when the column list ends with it; any other header is left unchanged |
| AddTimezoneToCities.UncloseLast | db/etl/add_timezone_to_cities.py:50-51 | only the last value piece loses its trailing `)`, and only when it has one; the other pieces and their number are kept |
| AddTimezoneToCities.ValuePiecesRoundTrip | db/etl/add_timezone_to_cities.py:47-51 | giving the last piece its `)` back and joining on `"),\n"` restores the stripped values block |
| AddTimezoneToCities.TimezoneRow | db/etl/add_timezone_to_cities.py:70-92 | a row converts exactly when it has at least eight fields, fields 6 and 7 parse to a latitude in [-90, 90] and a longitude in [-180, 180], and the finder answers for them; the converted row is the input row followed by `, '<zone>'` with the finder's zone; a failure names its row |
| AddTimezoneToCities.TimezoneRowsFacts | db/etl/add_timezone_to_cities.py:67-92 | success keeps every row, in order and in number, each extended by its zone; the loop fails exactly when some row fails, and the failure names an input row |
| AddTimezoneToCities.AddTimezones | db/etl/add_timezone_to_cities.py:67-92 | the loop appending to `modified_cities` yields the specified row conversion, stopping at the first failing row |
| AddTimezoneToCities.RowsBlockShape | db/etl/add_timezone_to_cities.py:105-112 | the rows as written are every row closed by `)`, joined by `",\n"` and ended by `";\n"` |
| AddTimezoneToCities.WriteOutput | db/etl/add_timezone_to_cities.py:96-112 | the output file holds the comment line, the header with ` VALUES`, then the rows block |
| AddTimezoneToCities.WriteRows | db/etl/add_timezone_to_cities.py:105-112 | the writes of the rows append exactly the rows block to the file |
| AddTimezoneToCities.AddTimezoneToCities | db/etl/add_timezone_to_cities.py:7-120 | the function's steps, in the script's order, return the outcome and leave the files that `Run` gives for the input file, the patterns, the parser and the zone finder |
| AddTimezoneToCities.RunOutcomes | db/etl/add_timezone_to_cities.py:28-112 | a missing input or no INSERT match returns False and writes nothing; a failing row re-raises before the output is opened; otherwise the output holds the modified header and every converted row |
| CityTimezones.StateTimezone | db/etl/import_us_cities_advanced.py:118 | `STATE_TIMEZONE_MAP.get(code, "America/New_York")`: the table's zone for a listed code, the default otherwise, and in either case a zone the cities table accepts |
| CityTimezones.ValidateTimezone | db/etl/import_us_cities_advanced.py:121-142 | the result is always an accepted zone; a zone is kept exactly when it is accepted, anything else becomes `America/New_York` |
| CityTimezones.ValidateIdempotent | db/etl/import_us_cities_advanced.py:121-142 | validating twice is validating once |
| CityTimezones.GetTimezone | db/etl/import_us_cities_advanced.py:105-118 | a non-empty finder answer is returned as is; a missing, empty or failed answer falls back to the state table, whose zone is always accepted |
| CityTimezones.Classify | db/etl/import_us_cities_advanced.py:225-235 | a city counts "by coordinates" exactly when its zone differs from the state fallback, and "default" exactly when the zone is the default for an unlisted code |
| CityTimezones.FallbackClassification | db/etl/import_us_cities_advanced.py:105-118 | when the finder gives nothing usable, the city is counted by state for a listed code and by default otherwise, never by coordinates |
| CityTimezones.Stats.Count | db/etl/import_us_cities_advanced.py:208-235 | one processed city raises the total and exactly one rule counter by one, so the counters stay balanced |
| CityDataset.DownloadCache.DownloadJson | db/etl/import_us_cities_advanced.py:87-102 | an existing file is read back with no download; otherwise the fetched document is saved under the file name and returned, and one download is counted |
| CityDataset.FindUsCountry | db/etl/import_us_cities_advanced.py:172-180 | the first country whose `iso2` is "US", and nothing exactly when no country has that code |
| CityDataset.FilterUsStates | db/etl/import_us_cities_advanced.py:189-195 | the loop builds the specified `us_states` map |
| CityDataset.UsStatesLookup | db/etl/import_us_cities_advanced.py:189-195 | an id is in `us_states` iff some state with that id belongs to the US, and its entry holds the name and code of the last such state |
| CityLoader.BatchesPartition | db/etl/import_us_cities_advanced.py:266-268 | the 1000-row slices cover the rows exactly once, in order |
| CityLoader.BatchesBounded | db/etl/import_us_cities_advanced.py:266-268 | no batch is empty and none is longer than the batch size |
| CityLoader.BatchesCount | db/etl/import_us_cities_advanced.py:286-288 | the number of batches is the `(len + size - 1) // size` the importer prints as the total |
| CityLoader.InsertAllKeeps | db/etl/import_us_cities_advanced.py:278-282 | `ON CONFLICT (city_name, country_code) DO NOTHING`: rows already in the table are never changed, and every inserted key ends up present |
| CityLoader.InsertAllPresent | db/etl/import_us_cities_advanced.py:278-282 | inserting rows whose keys are all present changes nothing |
| CityLoader.ReloadIdempotent | db/etl/import_us_cities_advanced.py:266-284 | loading the same rows a second time leaves the table as the first load left it |
| CityLoader.CitiesTable.InsertBatch | db/etl/import_us_cities_advanced.py:271-284 | one batch statement inserts each row whose key is not yet present, in order |
| CityLoader.LoadInBatches | db/etl/import_us_cities_advanced.py:266-288 | the statements issued are the 1000-row slices, as many as the printed total, up to the first `execute` that raises; the table ends as inserting the rows of the batches before it leaves it, or every row when none raises |
| ImportUsCities.SimpleRow | db/etl/import_us_cities.py:159-176 | the tuple for a city of a US state: its name, the state's code and name, "US", the country name, the parsed coordinates, and the state table's zone, which is always accepted |
| ImportUsCities.SimpleRowsFacts | db/etl/import_us_cities.py:155-176 | the loop fails exactly when some city of a US state has a coordinate `float()` rejects, and names such a city; on success there is one row per city of a US state, each with "US" and its state's zone |
| ImportUsCities.CountKeptFront | db/etl/import_us_cities.py:156-158 | the cities of US states are counted the same from the front as from the back |
| ImportUsCities.ProcessCities | db/etl/import_us_cities.py:155-176 | the loop appending to `us_cities` yields the specified rows, or stops at the first city whose coordinate does not parse |
| ImportUsCities.RunImport | db/etl/import_us_cities.py:115-200 | no US record exits with status 1 and leaves the table alone; otherwise the first US record is used: a bad coordinate escapes, and a failed connection exits, before the table is touched; the batches up to the first failing `execute` are inserted, all of them when none fails |
| ImportUsCitiesAdvanced.Coordinates | db/etl/import_us_cities_advanced.py:213-220 | both coordinates parsed, or (0.0, 0.0) when either does not parse |
| ImportUsCitiesAdvanced.AdvancedRow | db/etl/import_us_cities_advanced.py:209-251 | the tuple for a city of a US state carries "US", the coordinates as parsed or defaulted, and the validated zone, which is always accepted |
| ImportUsCitiesAdvanced.KeptRowsCount | db/etl/import_us_cities_advanced.py:204-207 | a city contributes a row exactly when its `state_id` is a US state |
| ImportUsCitiesAdvanced.StatsBalanced | db/etl/import_us_cities_advanced.py:158-235 | `total_processed` counts the cities of US states, and the three rule counters add up to it |
| ImportUsCitiesAdvanced.KeptRowsAccepted | db/etl/import_us_cities_advanced.py:237-251 | every row has country code "US" and an accepted zone |
| ImportUsCitiesAdvanced.ProcessCities | db/etl/import_us_cities_advanced.py:204-251 | the loop yields the specified rows and statistics, and the statistics are balanced with one count per row |
| ImportUsCitiesAdvanced.RunImport | db/etl/import_us_cities_advanced.py:156-288 | no US record exits with status 1 and leaves the table alone; otherwise the first US record is used, the statistics are those of the loop, a failed connection leaves the table alone, and the batches up to the first failing `execute` are inserted, all of them when none fails |
| CreateUsSql.Delivered | db/etl/create_us_sql.py:33-36 | the chunks written before the stream ends or breaks off are a prefix of the body's chunks, and all of them when it does not break |
| CreateUsSql.DownloadCached | db/etl/create_us_sql.py:16-19 | an existing file is kept as it is and nothing is fetched |
| CreateUsSql.InterruptedDownloadIsReused | db/etl/create_us_sql.py:16-36 | a stream that breaks off leaves a truncated prefix of the body on disk, which the next run then takes as already downloaded |
| CreateUsSql.DownloadSqlFile | db/etl/create_us_sql.py:10-39 | the request is made exactly when the file is absent, and the file system and outcome are those of the download specification |
| CreateUsSql.ConcatPrefix | db/etl/create_us_sql.py:33-35 | the text of the first k chunks is a prefix of the text of all of them |
| CreateUsSql.FoundAreUsTuples | db/etl/create_us_sql.py:68-71 | everything `findall` returns is one parenthesised tuple without an inner `)` in which `, 233, 'US'` follows at least three `, ` separators (the fifth column or later, since a field may itself contain `, `) |
| CreateUsSql.SkipPlain | db/etl/create_us_sql.py:68-71 | text without `(` contributes no match and is skipped |
| CreateUsSql.SkipGroup | db/etl/create_us_sql.py:68-71 | a parenthesised group contributes itself when it is a US tuple and nothing otherwise, and the scan resumes after it |
| CreateUsSql.FindUsTuplesExact | db/etl/create_us_sql.py:68-71 | on a dump made of plain text and flat groups, `findall` returns exactly the US groups in order |
| CreateUsSql.RemoveFlags | db/etl/create_us_sql.py:88-92 | substitution never lengthens a tuple |
| CreateUsSql.RemoveFlagsKeepsPrefix | db/etl/create_us_sql.py:88-92 | text before the first timestamp pair is copied unchanged |
| CreateUsSql.FlagMatchShape | db/etl/create_us_sql.py:89 | the pattern matches a timestamp pair, a numeric flag and a quoted wikidata id at exactly their boundaries |
| CreateUsSql.RemoveFlagColumn | db/etl/create_us_sql.py:87-92 | in a dump tuple only the `, <flag>` between the second timestamp and the wikidata literal is deleted |
| CreateUsSql.ListingSnoc | db/etl/create_us_sql.py:94-98 | appending a row turns the previous terminator `;` into `,` and ends the listing with the new row and `;` |
| CreateUsSql.WrittenStep | db/etl/create_us_sql.py:94-98 | each row is followed by `,\n` except the last, which is followed by `;\n` |
| CreateUsSql.WriteRows | db/etl/create_us_sql.py:86-98 | the loop appends exactly the listing of the cleaned tuples to the output file and changes nothing else |
| CreateUsSql.WriteHeader | db/etl/create_us_sql.py:76-83 | the output file is replaced by the comment header and the INSERT column list |
| CreateUsSql.ExtractUsCities | db/etl/create_us_sql.py:42-101 | a missing input raises and changes nothing; otherwise the output file holds the header and the cleaned US tuples and the count is the number found |
| CreateUsSql.RunScript | db/etl/create_us_sql.py:104-113 | a failed download propagates and stops the script before extraction; otherwise the US file is extracted from the dump on disk |
| ImportCities.ZoneIndex | db/import_cities.ts:126-139 | the zone is one of the four listed, chosen by longitude alone |
| ImportCities.TimezoneMonotone | db/import_cities.ts:135-138 | a city further east never gets a zone further west: the zone's position is monotone in longitude, whatever the latitude |
| ImportCities.CountryCodesNormalised | db/import_cities.ts:163-165 | one code per comma-separated item, each upper-case with no surrounding whitespace |
| ImportCities.KeepListedMembers | db/import_cities.ts:166-168 | a country survives the filter exactly when its iso2 code is listed, and no country is added |
| ImportCities.BuildStateMap | db/import_cities.ts:175-181 | the loop that creates inner objects on first use builds the specified nested map |
| ImportCities.StateMapLookup | db/import_cities.ts:175-181 | a (country, state) pair is in the map exactly when some state has it, and the entry is the last such state |
| ImportCities.Limited | db/import_cities.ts:192-195 | the cities processed are a prefix-slice of the country's cities, never more |
| ImportCities.LimitedCases | db/import_cities.ts:192-195 | no limit or 0 keeps all; a positive limit keeps that many at most; a negative one drops that many from the end, as `slice(0, n)` does |
| ImportCities.TransformAll | db/import_cities.ts:203-224 | one transformed record per city processed |
| ImportCities.PushCountry | db/import_cities.ts:203-224 | the inner loop appends exactly the transformed records of the country's cities |
| ImportCities.TransformCities | db/import_cities.ts:184-225 | the nested loops build the specified list of transformed cities |
| ImportCities.TransformedFacts | db/import_cities.ts:203-224 | every record carries the zone of its own coordinates and the code and name of a selected country |
| ImportCities.ReadEscaped | db/import_cities.ts:243-247 | text written with `'` doubled is read back by a SQL reader as itself, followed by what comes after |
| ImportCities.QuotedRoundTrip | db/import_cities.ts:245-247 | a literal written as escaped text closed by one quote reads back as exactly the text |
| ImportCities.DoubleClosedLiteral | db/import_cities.ts:243 | the same literal closed by two quotes never reads back as the text |
| ImportCities.StatementTailStart | db/import_cities.ts:243-244 | what follows the city-name literal starts with a comma |
| ImportCities.CityNameColumnAsWritten | db/import_cities.ts:233-251 | in the statement as written, the first value read is not the city name |
| ImportCities.CityNameColumn | db/import_cities.ts:233-251 | in the corrected statement, the first value read is the city name and the rest of the statement follows |
| ImportCities.Statements | db/import_cities.ts:232-252 | one statement per transformed city, each starting with the INSERT head and, as line 243 writes it, a city name that never reads back from the statement |
| ImportCities.RunImportCities | db/import_cities.ts:142-271 | a failed download or parse exits with status 1 and writes nothing; otherwise the output file holds the header and the statements of the transformed cities of the selected countries, written as line 243 writes them |
| CombinedRequirements.NameEnd | scripts/generate_combined_requirements.py:30 | the end of the name group: no operator character before it, and an operator character at it unless the line ends |
| CombinedRequirements.ParseLineWellFormed | scripts/generate_combined_requirements.py:25-34 | whatever the parser takes from a line has a non-empty stripped name without operator characters and an empty or operator-led stripped version |
| CombinedRequirements.ParseLineMatches | scripts/generate_combined_requirements.py:25-34 | a line yields a requirement exactly when, stripped, it is not blank, not a comment and matches the pattern; the requirement is then the two groups, each stripped |
| CombinedRequirements.Reparse | scripts/generate_combined_requirements.py:30-59 | a well-formed requirement written as name followed by version parses back to itself |
| CombinedRequirements.RequirementsSnoc | scripts/generate_combined_requirements.py:24-34 | a further line adds its requirement at the end, or nothing when it yields none |
| CombinedRequirements.MergeSameVersion | scripts/generate_combined_requirements.py:37-50 | a repeated requirement with the same version leaves the dictionary as it is |
| CombinedRequirements.RequirementsWellFormed | scripts/generate_combined_requirements.py:24-34 | every requirement taken from the files is well formed |
| CombinedRequirements.MergeAllLookup | scripts/generate_combined_requirements.py:36-52 | a package is in the dictionary exactly when some line names it; its version is "" only when no line gives one, and otherwise that of the last line that gives one |
| CombinedRequirements.MergedEntriesReparse | scripts/generate_combined_requirements.py:54-59 | every line written to the combined file parses back to its own package and version |
| CombinedRequirements.Least | scripts/generate_combined_requirements.py:58 | the least package name of a non-empty set |
| CombinedRequirements.SortedNames | scripts/generate_combined_requirements.py:58 | `sorted` gives the package names in strictly increasing order, each exactly once |
| CombinedRequirements.SortedUnique | scripts/generate_combined_requirements.py:58 | two strictly sorted lists of the same names are equal, so the order written is determined by the dictionary alone |
| CombinedRequirements.WriteCombined | scripts/generate_combined_requirements.py:55-59 | the combined file is replaced by the header and one `name+version` line per package, in the given order |
| CombinedRequirements.MergeFile | scripts/generate_combined_requirements.py:24-52 | the line loop leaves the dictionary the specification gives for the lines read so far |
| CombinedRequirements.GenerateCombinedRequirements | scripts/generate_combined_requirements.py:6-61 | the dictionary is the merge of the lines of the files that exist, in file order; the combined file lists it sorted by name |
| InsertStatements.Placeholders | shared/src/db.ts:49 | the i-th placeholder is `$(i+1)` |
| InsertStatements.PlaceholderNumberOf | shared/src/db.ts:49 | `$k` reads back as parameter number k |
| InsertStatements.PlaceholdersDistinct | shared/src/db.ts:49 | no two placeholders are the same |
| InsertStatements.AlignedBinds | shared/src/db.ts:48-50 | columns and values in the same order bind every column to its own value |
| InsertStatements.ValuesOf | shared/src/db.ts:50 | one value per field, each the field's value in the data |
| InsertStatements.InsertStatementShape | shared/src/db.ts:44-57 | one parameter per key; the statement inserts into the named table and returns the new row |
| InsertStatements.InsertBinds | backend/functions/shared/db.ts:27-40 | with distinct keys, the parameters are the data's values in key order and each column is bound to its own value |
| InsertStatements.KeptFieldsMembers | shared/db.ts:61-67 | a field is kept exactly when it is a key, is not excluded, is listed when an include list is given, and is neither `id` nor `user_id` |
| InsertStatements.KeptFieldsAppend | shared/db.ts:61-67 | filtering keeps key order |
| InsertStatements.KeptPresent | shared/db.ts:76 | every kept field has a value in the data |
| InsertStatements.FilteredInsertShape | shared/db.ts:50-84 | the filtered statement inserts into the named table and returns the new row |
| InsertStatements.FilteredInsertBinds | shared/db.ts:69-83 | one parameter per kept field, and each kept column is bound to its own value |
| InsertStatements.MappedColumns | shared/db.ts:97-106 | the distinct mapped columns are the five preference columns, in order |
| InsertStatements.AnyTypeSetMeaning | shared/db.ts:115-122 | a column is true exactly when some notification type mapping to it is set |
| InsertStatements.ColumnValues | shared/db.ts:113-124 | with the identity mapping, each column's value is the notification flag of the same name, false when absent |
| InsertStatements.NotificationPreferencesInsert | shared/db.ts:92-131 | the loop gives five parameters, the i-th being the flag of the i-th preference column, and the statement lists those columns with placeholders `$1`..`$5` |
| InsertStatements.PreferencesBinds | shared/db.ts:109-128 | each placeholder of the preferences statement binds its column's flag |
| Transactions.Client.Query | shared/src/db.ts:28-33 | sending a query appends it to the client's log and throws the outcome given |
| Transactions.GetDbClientAwaited | backend/functions/shared/db.ts:4-10 | a failed connect rejects with its error; otherwise a new client has connected |
| Transactions.GetDbClientUnawaited | shared/src/db.ts:8-15 | the client is returned at once, with a connect issued and not awaited |
| Transactions.ExecuteTransaction | shared/src/db.ts:23-36 | the queries sent and the result are those of the transaction specification with BEGIN inside `try` |
| Transactions.ExecuteTransactionBeginOutside | shared/db.ts:23-41 | the same with BEGIN sent before `try`, so a failed BEGIN sends no ROLLBACK |
| Transactions.TransactionCommits | shared/src/db.ts:27-31 | the transaction returns the callback's result exactly when BEGIN, the callback and COMMIT all succeed, having sent BEGIN, run the callback, and sent COMMIT |
| Transactions.TransactionOrder | shared/db.ts:28-40 | BEGIN comes first; the callback runs once when BEGIN succeeds and never otherwise; COMMIT is sent exactly when BEGIN and the callback succeeded |
| Transactions.TransactionRollsBack | shared/db.ts:35-40 | on failure ROLLBACK is the last query, except for a failed BEGIN outside `try`; the error rethrown is the original unless ROLLBACK itself throws |
| Transactions.Client.Close | shared/src/db.ts:63-65 | closing appends the end of the connection to the log |
| FormParsing.FormGet | shared/src/form.ts:14 | `URLSearchParams.get`: `null` exactly when no pair has the name, and otherwise the value of the first pair with it |
| FormParsing.ParseSchemaFields | shared/src/form.ts:7-20 | the result has exactly the schema's keys, in order |
| FormParsing.ParseNotificationPreferences | shared/src/form.ts:28-40 | the result has exactly the schema's keys, in order |
| FormParsing.SchemaFieldValue | shared/src/form.ts:14-15 | a field's value is "" when the name is missing or its first value is empty, and otherwise the first value given for it |
| FormParsing.FormGetIgnores | shared/src/form.ts:14 | a pair with another name does not change what `get` returns |
| FormParsing.SchemaFieldsIgnoreOthers | shared/src/form.ts:11-39 | form fields outside the schema change neither result |
| FormParsing.PreferenceFlag | shared/src/form.ts:35 | a preference is true exactly when the first value given for its name is "true" |
| NotificationGroups.Push | shared/src/notifications.ts:45-58 | the category's list is created when missing, and a new category goes after the existing ones |
| NotificationGroups.PushLookup | shared/src/notifications.ts:45-58 | pushing an item extends only its category's list, by that item at the end |
| NotificationGroups.CategoryList | shared/src/notifications.ts:44-45 | one category per schema entry, in key order |
| NotificationGroups.GroupCategories | shared/src/notifications.ts:65-69 | the categories are the distinct categories of the entries, in order of first appearance |
| NotificationGroups.GroupLookup | shared/src/notifications.ts:40-63 | a category of some entry holds the items of its entries, in key order; any other category is absent |
| NotificationGroups.ItemsOfAbsent | shared/src/notifications.ts:40-63 | a category no entry has holds no items |
| NotificationGroups.ItemsOfMembers | shared/src/notifications.ts:49-58 | an item is in a category's list exactly when it is the item of an entry of that category |
| NotificationGroups.EntryInOneGroup | shared/src/notifications.ts:40-63 | with distinct keys, every group is non-empty and each entry's item is in its own category's group and no other |
| ClientIp.FirstHop | backend/functions/shared/ip-utils.ts:21 | `split(",")[0]`: the header up to its first comma, or all of it when there is none |
| ClientIp.GetClientIp | backend/functions/shared/ip-utils.ts:13-23 | a non-empty source address wins; with none and no header the result is undefined; a result is never empty |
| ClientIp.ForwardedBlank | backend/functions/shared/ip-utils.ts:21-22 | without a source address, the result is undefined exactly when the first hop is all whitespace |
| ClientIp.ForwardedFirstHop | backend/functions/shared/ip-utils.ts:21-22 | without a source address, a result is the first hop with the surrounding whitespace removed, and holds no comma |
| SignupProcessor.ParseFormData | backend/functions/signup-processor/index.ts:99-122 | contact fields, preference fields and notification flags each have exactly their schema's keys |
| SignupProcessor.FlagValues | backend/functions/signup-processor/index.ts:66-69 | the notification flags spread into the row keep their keys, order and values |
| SignupProcessor.NotificationInsertBinds | backend/functions/signup-processor/index.ts:66-81 | `user_id` is the first column and gets the new user's id as `$1`; each flag follows in schema order with its own placeholder, bound to its own value |
| SignupProcessor.RowKeys | backend/functions/signup-processor/index.ts:66-71 | the notification row's columns are `user_id` then the flags' keys |
| SignupProcessor.RowDistinct | backend/functions/signup-processor/index.ts:66-69 | with distinct flag keys other than `user_id`, the row's keys are distinct |
| SignupProcessor.InsertFailure | backend/functions/signup-processor/index.ts:83-96 | a database failure is rethrown as one of two messages: the duplicate-phone message exactly when the error mentions both "unique constraint" and "phone_number" |
| SignupProcessor.ShownMessages | backend/functions/signup-processor/index.ts:318-332 | the page never shows anything but the generic message or one containing a known message |
| SignupProcessor.KnownShownVerbatim | backend/functions/signup-processor/index.ts:318-332 | each of the handler's own messages reaches the page unchanged |
| SignupProcessor.Respond | backend/functions/signup-processor/index.ts:242-397 | HTML headers always; status 200 exactly on success and 400 exactly on failure, and a failure page shows the user message |
| SignupProcessor.TurnstileToken | backend/functions/signup-processor/index.ts:210-216 | a non-empty `cf-turnstile-response` header is the token; otherwise the form field is, when non-empty; the token is missing exactly when both are missing or empty, and is never empty |
| SignupProcessor.TurnstileIp | backend/functions/signup-processor/index.ts:219-221 | a non-empty source address is used; otherwise, exactly when `X-Forwarded-For` is present, its first hop, not trimmed: a comma-free prefix of the header that ends at its first comma or at its end |
| SignupProcessor.Handler | backend/functions/signup-processor/index.ts:178-404 | the response follows the specified processing; a client is opened exactly when the request passes the checks and the connection succeeds, and then its log is connect, the transaction, and close |
| SignupProcessor.EmptyBodyRejected | backend/functions/signup-processor/index.ts:184-186 | a missing or empty body answers 400 with the "No form data" message and never reaches the database |
| SignupProcessor.DecodeFirst | backend/functions/signup-processor/index.ts:189-191 | a base64 body is handled as its decoded text |
| SignupProcessor.SamePrepared | backend/functions/signup-processor/index.ts:233-239 | what happens after the checks depends only on the parsed data |
| SignupProcessor.SameChecks | backend/functions/signup-processor/index.ts:208-231 | the Turnstile check reads only the token header, the source address and the forwarded header of the request |
| SignupProcessor.UnwrappedTextDecides | backend/functions/signup-processor/index.ts:193-205 | two bodies that unwrap to the same form text are processed alike |
| SignupProcessor.TurnstileGate | backend/functions/signup-processor/index.ts:208-231 | outside development a missing token answers 400 with its message, and a token the service rejects answers 400 with the verification-failed message |
| SignupProcessor.DevelopmentSkipsTurnstile | backend/functions/signup-processor/index.ts:136-208 | in development the token header makes no difference |
| SignupProcessor.DatabaseFailureShown | backend/functions/signup-processor/index.ts:83-333 | a failed transaction is shown as the duplicate-phone message exactly when the error names the phone's unique constraint, and as the save-failed message otherwise |
| SignupProcessor.SuccessExactly | backend/functions/signup-processor/index.ts:178-303 | the answer is 200 exactly when the request passes the checks and the connection, BEGIN, both inserts and COMMIT all succeed |
| LambdaSignup.GetAll | functions/signup-processor/index.ts:21 | `getAll` gives exactly the values paired with the name |
| LambdaSignup.LambdaHandler | functions/signup-processor/index.ts:15-80 | JSON headers always; a decoded form answers 200 with the mapped data; a failure answers 500 with the fixed error object |
| LambdaSignup.FlagsFromTokens | functions/signup-processor/index.ts:37-42 | each notification flag is true exactly when some `notifications` value is its token |
| LambdaSignup.FieldsFromNames | functions/signup-processor/index.ts:20-47 | a form field the handler does not read changes nothing in the data |
| LambdaSignup.GetAllIgnores | functions/signup-processor/index.ts:21 | pairs with another name do not change `getAll` |
| SignupPython.GetValue | lambda/notifications/signup-processor/index.py:17-22 | the default when the name has no non-blank value (`parse_qs` drops blank ones), and otherwise the first non-blank value |
| SignupPython.CheckedMeaning | lambda/notifications/signup-processor/index.py:25-26 | a checkbox is checked exactly when its first non-blank value is "on" |
| SignupPython.FirstNonBlankUnique | lambda/notifications/signup-processor/index.py:21-22 | the first non-blank value of a name is unique |
| SignupPython.PreferenceDefaults | lambda/notifications/signup-processor/index.py:30-34 | a missing language, unit or time format becomes "en", "metric" or "24h" |
| SignupPython.CompileStep | lambda/notifications/signup-processor/index.py:50 | a class element not followed by `-` and another element is compiled on its own |
| SignupPython.PhonePatternRejected | lambda/notifications/signup-processor/index.py:48-51 | the pattern as written reads `\s-(` as a range from a category, so compiling it always raises "bad character range" |
| SignupPython.PhoneClassCompiles | lambda/notifications/signup-processor/index.py:50 | the class with the dash escaped compiles to digits, whitespace, `-`, `(` and `)` |
| SignupPython.PhoneItemsMeaning | lambda/notifications/signup-processor/index.py:50 | a character is in the compiled class exactly when it is a digit, whitespace, `-`, `(` or `)` |
| SignupPython.MatchesByChars | lambda/notifications/signup-processor/index.py:50-51 | the pattern matches exactly when, after one optional `+`, at least ten characters follow, all in the class |
| SignupPython.PhoneMeaning | lambda/notifications/signup-processor/index.py:48-51 | the corrected check never raises, and accepts exactly an optional `+` followed by at least ten digits, spaces, dashes or parentheses |
| SignupPython.CreateHtmlResponse | lambda/notifications/signup-processor/index.py:86-117 | the given status, the HTML content type, and the success or failure body as `success` says |
| SignupPython.AsWrittenAlwaysFails | lambda/notifications/signup-processor/index.py:120-143 | as written every request ends in the 500 failure page with nothing stored or published |
| SignupPython.HandlerOutcome | lambda/notifications/signup-processor/index.py:120-143 | the handler answers 200 exactly when the phone is valid, the put succeeds, the topic is set and the publish succeeds, having stored then published; any failure answers 500 with the failure page |
| UserGrouping.GroupUsers | backend/functions/message-sender/index.ts:162-182 | the nested loop builds one list per type holding, in row order, the users whose row enables that type |
| UserGrouping.PushRow | backend/functions/message_sender/index.ts:147-159 | one row pushes its user onto exactly the lists of the types it enables, leaving the others as they were |
| UserGrouping.SubscribersSnoc | backend/functions/message-sender/index.ts:168-180 | one more row adds its user at the end of a type's list exactly when it enables the type |
| UserGrouping.SubscribersMembers | backend/functions/message-sender/index.ts:168-180 | a user is in a type's list exactly when some row of that user enables the type |
| UserGrouping.SubscribersAppend | backend/functions/message-sender/index.ts:168-180 | the lists keep row order |
| UserGrouping.PairsOf | backend/functions/message-sender/index.ts:332-355 | one (type, user) pair per user of the type's list |
| UserGrouping.TotalUsersSnoc | backend/functions/message-sender/index.ts:313-316 | the total adds the length of each type's list |
| UserGrouping.PairsCount | backend/functions/message-sender/index.ts:313-355 | `totalUsers` is the number of (type, user) pairs the send loop visits |
| UserGrouping.SubscriberTotalSnoc | backend/functions/message-sender/index.ts:168-180 | a row contributes to the total once per type it enables |
| UserGrouping.SubscriberTotalIsEnrolments | backend/functions/message-sender/index.ts:168-180 | the sum of the list lengths is the sum over rows of the types each enables |
| UserGrouping.EmptySubscriberTotal | backend/functions/message-sender/index.ts:163-165 | no rows, no users |
| UserGrouping.TotalOfGrouped | backend/functions/message-sender/index.ts:313-316 | the total over the grouped lists is the subscriber total |
| UserGrouping.GroupedTotal | backend/functions/message_sender/index.ts:337-340 | `totalUsers` counts a user once per type enabled, not once per person |
| UserGrouping.EnabledCountZero | backend/functions/message-sender/index.ts:170 | a row contributes nothing exactly when it enables no type |
| UserGrouping.EnrolmentsZero | backend/functions/message-sender/index.ts:168-180 | the enrolment count is zero exactly when no row enables any type |
| UserGrouping.NobodyToNotify | backend/functions/message-sender/index.ts:319-327 | the handler's "No users to notify" branch is taken exactly when no row enables any type |
| NotificationWindow.HourTextSeconds | backend/functions/message_sender/index.ts:109-110 | the text printed for hour h is a clock text denoting h hours after midnight |
| NotificationWindow.ParseTwo | backend/functions/message_sender/index.ts:109-110 | two digits read as a two-digit number |
| NotificationWindow.WindowAsWritten | backend/functions/message_sender/index.ts:102-110 | the window starts at the current hour and ends at the next hour modulo 24, as `setUTCHours` wraps it |
| NotificationWindow.Window | backend/functions/message_sender/index.ts:102-110 | the corrected window ends one hour after it starts, with 24:00:00 for the last hour |
| NotificationWindow.OnlyEarlierRunsSelect | backend/functions/message_sender/index.ts:105-133 | as written, a run selects anybody only when its hour is before 23 |
| NotificationWindow.Hour23SelectsNobody | backend/functions/message_sender/index.ts:106-135 | at 23h UTC the window as written selects no time of day |
| NotificationWindow.Hour0Text | backend/functions/message_sender/index.ts:109 | hour 0 prints as "00:00:00" |
| NotificationWindow.Hour23Text | backend/functions/message_sender/index.ts:109 | hour 23 prints as "23:00:00" |
| NotificationWindow.LastHourNeverSelected | backend/functions/message_sender/index.ts:102-135 | a user whose notification time is in the last hour of the day is selected by no run |
| NotificationWindow.ExactlyOneWindow | backend/functions/message_sender/index.ts:102-135 | with the corrected window, every time of day is selected by exactly the run of its own hour |
| NotificationWindow.WindowsAgree | backend/functions/message_sender/index.ts:102-110 | for every hour but 23 the two windows are the same |
| NotificationMessages.PlaceholderContent | backend/functions/message-sender/index.ts:192-220 | every type without a content source gets fixed placeholder content |
| NotificationMessages.Excerpt | backend/functions/message-sender/index.ts:236 | `substring(0, 200)`: a prefix of the explanation, of 200 characters or all of it |
| NotificationMessages.FormatMessage | backend/functions/message-sender/index.ts:223-243 | only the photo type has a body and the photo's URL as its one medium; every other type gets the empty body and no media |
| NotificationMessages.PhotoBody | backend/functions/message_sender/index.ts:197-217 | the photo body is the greeting, the headline and the title, then the explanation's first 200 characters (or all of it) and "..." |
| MessageSenderPooled.ContentOf | backend/functions/message-sender/index.ts:76-221 | only the photo type gets APOD content, and an empty NASA_APOD table throws "NASA_APOD table is empty" |
| MessageSenderPooled.Handler | backend/functions/message-sender/index.ts:284-448 | the response follows the specified processing; a client exists exactly when connecting succeeded, and it sends the users query and at most one APOD query before being released |
| MessageSenderPooled.Notify | backend/functions/message-sender/index.ts:303-429 | after connecting, the response follows the specification and the client sends exactly the specified queries |
| MessageSenderPooled.NotifyTypes | backend/functions/message-sender/index.ts:332-421 | the type loop gives the specified results, and the APOD query is sent exactly when the photo type's content was fetched |
| MessageSenderPooled.NotifyType | backend/functions/message-sender/index.ts:333-420 | one type's outcome is the specified one, with the APOD query sent for the photo type only |
| MessageSenderPooled.DeliverUsers | backend/functions/message-sender/index.ts:355-420 | the user loop gives the specified per-user results |
| MessageSenderPooled.DeliverAllStops | backend/functions/message-sender/index.ts:355-420 | once a user's delivery throws past its `catch`, later users change nothing |
| MessageSenderPooled.DispatchStops | backend/functions/message-sender/index.ts:332-421 | once a type fails, later types change nothing |
| MessageSenderPooled.FetchedIn | backend/functions/message-sender/index.ts:335-350 | content is fetched only for listed types that have users |
| MessageSenderPooled.NoFetchWithoutUsers | backend/functions/message-sender/index.ts:319-341 | with no users no content is fetched |
| MessageSenderPooled.TotalCountsEach | backend/functions/message-sender/index.ts:313-316 | each type's list is counted in the total |
| MessageSenderPooled.AnswersAppend | backend/functions/message-sender/index.ts:381-418 | results answering two runs of pairs, concatenated, answer the concatenated pairs |
| MessageSenderPooled.DeliverAllAnswers | backend/functions/message-sender/index.ts:355-420 | one result per user, in order, carrying the type, the user's id and phone |
| MessageSenderPooled.DispatchAnswers | backend/functions/message-sender/index.ts:332-421 | one result per (type, user) pair, in type then user order |
| MessageSenderPooled.ResultsPerPair | backend/functions/message-sender/index.ts:423-429 | a results response has one result per enrolment, and its message reports that count for both numbers |
| MessageSenderPooled.NoUsersResponse | backend/functions/message-sender/index.ts:318-327 | "No users to notify" is the answer exactly when no row enables any type |
| MessageSenderPooled.FailureShape | backend/functions/message-sender/index.ts:430-441 | any answer but 200 is a 500 without results whose message starts "Error processing notifications: " |
| MessageSenderPooled.FetchedExactly | backend/functions/message-sender/index.ts:332-350 | on success, content is fetched exactly for the listed types that have users |
| MessageSenderPooled.EmptyApodFails | backend/functions/message-sender/index.ts:86-350 | an empty NASA_APOD table fails the run with its message when the photo type has users |
| MessageSenderDirect.SelectedMembers | backend/functions/message_sender/index.ts:116-136 | a row is selected exactly when some record kept by the filter holds it |
| MessageSenderDirect.DueOnce | backend/functions/message_sender/index.ts:131-133 | with the corrected window, an active user is due in exactly the hour of their notification time |
| MessageSenderDirect.Hour23SelectsNone | backend/functions/message_sender/index.ts:106-135 | at 23h UTC the query as written selects no user |
| MessageSenderDirect.LogRowFor | backend/functions/message_sender/index.ts:278-312 | a log row carries the user, city, type and status; no sent time exactly when pending; the message SID when sent and the error otherwise |
| MessageSenderDirect.NotificationsLog.Log | backend/functions/message_sender/index.ts:278-321 | logging appends the row, or nothing when the insert fails, whose error is swallowed |
| MessageSenderDirect.ContentOf | backend/functions/message_sender/index.ts:45-203 | only the photo type gets APOD content, and it fails exactly when the photo query fails or finds no row |
| MessageSenderDirect.Handler | backend/functions/message_sender/index.ts:323-435 | the handler's answer or rethrown error, and the rows appended to the log, are those of a run over the users the window as written selects |
| MessageSenderDirect.NotifyTypes | backend/functions/message_sender/index.ts:355-421 | the type loop gives the specified results and appends the specified log rows |
| MessageSenderDirect.NotifyType | backend/functions/message_sender/index.ts:356-420 | one type's results and log rows are the specified ones |
| MessageSenderDirect.DeliverUsers | backend/functions/message_sender/index.ts:362-420 | the user loop gives the specified results and log rows |
| MessageSenderDirect.DeliverOne | backend/functions/message_sender/index.ts:363-419 | one user: a pending row, then a sent row on success or a failed row on a send failure, and the matching result |
| MessageSenderDirect.DispatchStops | backend/functions/message_sender/index.ts:355-421 | once a type fails, later types change nothing |
| MessageSenderDirect.DispatchSnoc | backend/functions/message_sender/index.ts:355-421 | one more type appends its own results and log rows |
| MessageSenderDirect.AnswersAppend | backend/functions/message_sender/index.ts:390-418 | results answering two runs of pairs, concatenated, answer the concatenated pairs |
| MessageSenderDirect.DeliverAllAnswers | backend/functions/message_sender/index.ts:362-420 | one result per user, in order, with the type, the user's id and phone |
| MessageSenderDirect.DispatchAnswers | backend/functions/message_sender/index.ts:355-421 | one result per (type, user) pair, in type then user order |
| MessageSenderDirect.ResultsPerPair | backend/functions/message_sender/index.ts:423-429 | a results response has one result per enrolment of the due users, and reports that count |
| MessageSenderDirect.JournalAppend | backend/functions/message_sender/index.ts:365-410 | a journal extended by one result's two rows is the journal of the extended results |
| MessageSenderDirect.DeliverAllJournal | backend/functions/message_sender/index.ts:362-420 | when no log insert fails, each result has two rows in order: pending, then sent or failed |
| MessageSenderDirect.DispatchJournal | backend/functions/message_sender/index.ts:355-421 | when no log insert fails, the log holds two rows per result of the run, in result order |
| MessageSenderDirect.JournalConcat | backend/functions/message_sender/index.ts:355-421 | journals concatenate |
| MessageSenderDirect.RunJournal | backend/functions/message_sender/index.ts:323-429 | when no log insert fails, a successful run logs two rows for each result it reports |
| MessageSenderDirect.WithLogging | backend/functions/message_sender/index.ts:315-317 | changing which log inserts fail changes nothing else outside |
| MessageSenderDirect.DeliverAllIgnoresLogging | backend/functions/message_sender/index.ts:315-420 | a failing log insert never changes a user's result |
| MessageSenderDirect.DispatchIgnoresLogging | backend/functions/message_sender/index.ts:315-421 | a failing log insert never changes the type loop's outcome |
| MessageSenderDirect.LoggingIrrelevant | backend/functions/message_sender/index.ts:278-321 | the handler's answer is the same whichever log inserts fail |
| MessageSenderDirect.DispatchFails | backend/functions/message_sender/index.ts:355-359 | the type loop fails exactly when the photo type is listed and its content is missing, whether or not it has users |
| MessageSenderDirect.RunFails | backend/functions/message_sender/index.ts:333-434 | the handler rethrows exactly when the users query fails, or when some due user is enrolled and the photo type's content is missing |
| MessageSenderDirect.NoUsersResponse | backend/functions/message_sender/index.ts:342-350 | "No users to notify" with no log rows is the answer exactly when no due row enables any type |
| MessageSenderDirect.Hour23NobodyNotified | backend/functions/message_sender/index.ts:102-350 | at 23h UTC a run whose user query succeeds answers "No users to notify" and logs nothing |
| MessageSenderDirect.DueRowsAgree | backend/functions/message_sender/index.ts:102-110 | before 23h UTC the window as written selects exactly the users the corrected window selects |
| ApodTable.FindDate | backend/functions/apod-photo-fetcher/index.ts:109-116 | `WHERE date = $1` finds a row of the table with the date, and none exactly when no row has it |
| ApodTable.NasaApodTable.Select | backend/functions/nasa_photo_fetcher/index.py:50-53 | the select answers the first row with the date, if any |
| ApodTable.NasaApodTable.Insert | backend/functions/apod-photo-fetcher/index.ts:154-173 | an insert appends the row |
| ApodTable.CountDateSnoc | backend/functions/apod-photo-fetcher/index.ts:154-173 | an appended row adds one to the count of its own date only |
| ApodTable.CountDateZero | backend/functions/apod-photo-fetcher/index.ts:115 | no row holds a date exactly when the select finds none |
| ApodTable.UniqueCountsOne | backend/functions/apod-photo-fetcher/index.ts:109-136 | with unique dates a date has at most one row |
| ApodTable.InsertAbsentKeepsUnique | backend/functions/apod-photo-fetcher/index.ts:115-173 | inserting a date the select did not find keeps dates unique |
| ApodFetcher.First10 | backend/functions/apod-photo-fetcher/index.ts:76-77 | `slice(0, 10)`: the first ten characters, or all of a shorter text |
| ApodFetcher.NormalizeDate | backend/functions/apod-photo-fetcher/index.ts:75-79 | a string is cut to ten characters; a valid `Date` gives the date part of its ISO form; anything else throws "Unexpected date value: ..." |
| ApodFetcher.NormalizeIdempotent | backend/functions/apod-photo-fetcher/index.ts:75-79 | normalising a normalised date changes nothing |
| ApodFetcher.NormalizeIsoForm | backend/functions/apod-photo-fetcher/index.ts:75-79 | a `YYYY-MM-DD` date comes back as itself, whether stored as text or as a `Date` |
| ApodFetcher.ObjectKey | backend/functions/apod-photo-fetcher/index.ts:143 | the key lies under `nasa-apod/` and ends with the media type |
| ApodFetcher.ObjectKeyInjective | backend/functions/apod-photo-fetcher/index.ts:143 | for dates of one length, distinct dates or media types never share a key |
| ApodFetcher.Handler | backend/functions/apod-photo-fetcher/index.ts:81-203 | the answer, the uploads and the table are those of the specified run; a client exists exactly when NASA answered and connecting succeeded, and is closed after its queries |
| ApodFetcher.Process | backend/functions/apod-photo-fetcher/index.ts:102-185 | after connecting, the answer, uploads, table and queries are the specified ones |
| ApodFetcher.ExistingUntouched | backend/functions/apod-photo-fetcher/index.ts:114-136 | a known date uploads and inserts nothing, and answers 409 from the database exactly when its stored date normalises |
| ApodFetcher.RunAddsAtMostOne | backend/functions/apod-photo-fetcher/index.ts:138-185 | a run leaves the table alone, or adds exactly the new date's row after uploading its image, answering 200 from the NASA API |
| ApodFetcher.RunKeepsUnique | backend/functions/apod-photo-fetcher/index.ts:109-173 | a run keeps dates unique |
| ApodFetcher.Answers | backend/functions/apod-photo-fetcher/index.ts:121-196 | the answer is 200, 409 or 500, and 500 exactly with status "error" and the error prefix |
| ApodFetcher.TwoRuns | backend/functions/apod-photo-fetcher/index.ts:109-185 | two runs for one date leave exactly one row for it, and the second answers 409 |
| ApodFetcherPython.ReadSettings | backend/functions/nasa_photo_fetcher/index.py:37-39 | the settings are read exactly when the key, the bucket and a database URL are set; an empty test URL falls back to the main one |
| ApodFetcherPython.ObjectKey | backend/functions/nasa_photo_fetcher/index.py:79 | the key is `nasa-apod/` + the date + `.jpg` |
| ApodFetcherPython.ObjectKeyInjective | backend/functions/nasa_photo_fetcher/index.py:79 | distinct dates never share a key |
| ApodFetcherPython.Handler | backend/functions/nasa_photo_fetcher/index.py:36-127 | the answer or escaped error, the uploads and the table are those of the specified run |
| ApodFetcherPython.ExistingUntouched | backend/functions/nasa_photo_fetcher/index.py:55-72 | a known date answers 200 from the database with the stored row and writes nothing |
| ApodFetcherPython.RunAddsAtMostOne | backend/functions/nasa_photo_fetcher/index.py:74-119 | a run leaves the table alone, or adds one row for a new date, always with media type "image" |
| ApodFetcherPython.RunKeepsUnique | backend/functions/nasa_photo_fetcher/index.py:48-108 | a run keeps dates unique |
| ApodFetcherPython.Answers | backend/functions/nasa_photo_fetcher/index.py:37-127 | a missing variable escapes the handler; any answer is 200 or 500, and 500 exactly with status "error" and the error prefix |
| ApodFetcherPython.ApiFailure | backend/functions/nasa_photo_fetcher/index.py:13-127 | a failed NASA request answers 500 with its message and touches nothing |
| ApodLambdaFetcher.ImageUrl | lambda/src/notifications/nasa-photo-fetcher/index.py:58 | the HD URL when offered, the plain one otherwise |
| ApodLambdaFetcher.ReplaceSlashFree | lambda/src/notifications/nasa-photo-fetcher/index.py:63 | replacing `/` leaves a text without one unchanged |
| ApodLambdaFetcher.ReplaceSlashConcat | lambda/src/notifications/nasa-photo-fetcher/index.py:63 | replacing `/` works piece by piece |
| ApodLambdaFetcher.TwoDigits | lambda/src/notifications/nasa-photo-fetcher/index.py:62 | `%m` and `%d` print two digits |
| ApodLambdaFetcher.FourDigits | lambda/src/notifications/nasa-photo-fetcher/index.py:62 | `%Y` of a four-digit year prints four digits |
| ApodLambdaFetcher.TwoDigitsInjective | lambda/src/notifications/nasa-photo-fetcher/index.py:62 | two-digit printing is injective |
| ApodLambdaFetcher.PartsPrinted | lambda/src/notifications/nasa-photo-fetcher/index.py:62 | the year, month and day print as 4, 2 and 2 characters without `/` |
| ApodLambdaFetcher.ReplacePath | lambda/src/notifications/nasa-photo-fetcher/index.py:62-63 | the date path with `/` replaced is the parts joined by `_` |
| ApodLambdaFetcher.KeyLayout | lambda/src/notifications/nasa-photo-fetcher/index.py:62-64 | the key is `nasa_images/nasa_apod_YYYY_MM_DD.jpg` |
| ApodLambdaFetcher.KeyInjective | lambda/src/notifications/nasa-photo-fetcher/index.py:62-64 | distinct dates never share a key |
| ApodLambdaFetcher.StorageHelper.StoreImage | lambda/src/notifications/nasa-photo-fetcher/index.py:15-22 | a successful put stores the content under the key; a failed one changes nothing and throws |
| ApodLambdaFetcher.StorageHelper.SaveMetadata | lambda/src/notifications/nasa-photo-fetcher/index.py:24-26 | a successful put saves the item under its id; a failed one changes nothing and throws |
| ApodLambdaFetcher.MetadataItem | lambda/src/notifications/nasa-photo-fetcher/index.py:70-79 | the item's id is `nasa_apod_` + NASA's date, and it records the URL used and the key |
| ApodLambdaFetcher.Handler | lambda/src/notifications/nasa-photo-fetcher/index.py:50-94 | on the clock's date, the answer and the writes to bucket and table are those of the specified run |
| ApodLambdaFetcher.Archive | lambda/src/notifications/nasa-photo-fetcher/index.py:53-94 | for a date path, the answer and the writes are those of the specified run |
| ApodLambdaFetcher.StoredBeforeSaved | lambda/src/notifications/nasa-photo-fetcher/index.py:66-82 | the item is saved only after the image was stored, under the key of the date path |
| ApodLambdaFetcher.WrittenInOrder | lambda/src/notifications/nasa-photo-fetcher/index.py:66-82 | the writes are nothing, the image alone, or the image then the item |
| ApodLambdaFetcher.SuccessWritesBoth | lambda/src/notifications/nasa-photo-fetcher/index.py:84-90 | a success stored the downloaded image and saved the returned item, which names NASA's date and the URL used |
| ApodLambdaFetcher.FailuresReraised | lambda/src/notifications/nasa-photo-fetcher/index.py:92-94 | the handler raises exactly when the request, the download, the store or the save fails; a failed request writes nothing |
| ApodLambdaFetcher.DaysKeptApart | lambda/src/notifications/nasa-photo-fetcher/index.py:62-67 | runs on different days store under different keys |
| ApodSender.LatestIndex | lambda/src/notifications/nasa-photo-sender/main.py:47 | the position of the photo chosen lies in the list |
| ApodSender.LatestIndexIsFirstLatest | lambda/src/notifications/nasa-photo-sender/main.py:47 | the chosen photo has the greatest date, and is the first of those with it, as a stable reverse sort puts it first |
| ApodSender.FirstLatestUnique | lambda/src/notifications/nasa-photo-sender/main.py:47 | that choice is unique |
| ApodSender.LaterThanEarlier | lambda/src/notifications/nasa-photo-sender/main.py:47 | every photo listed before the chosen one has an earlier date |
| ApodSender.Latest | lambda/src/notifications/nasa-photo-sender/main.py:35-48 | an empty scan raises "No NASA photos found in database", and only then |
| ApodSender.LatestMeaning | lambda/src/notifications/nasa-photo-sender/main.py:41-48 | the photo chosen is scanned, no scanned photo is later, and it is the first latest one |
| ApodSender.BodyOf | lambda/src/notifications/nasa-photo-sender/main.py:19 | the body is the headline followed by the description |
| ApodSender.TwilioHelper.SendMessage | lambda/src/notifications/nasa-photo-sender/main.py:16-24 | one message is requested, with the body, the photo URL and the helper's two numbers, and its SID is returned |
| ApodSender.Handler | lambda/src/notifications/nasa-photo-sender/main.py:51-87 | the helper holds the two numbers; the messages requested and the answer are those of the specified run |
| ApodSender.EmptyScanRaises | lambda/src/notifications/nasa-photo-sender/main.py:43-44 | an empty table raises before any message is requested |
| ApodSender.SendsLatest | lambda/src/notifications/nasa-photo-sender/main.py:62-74 | a message, when requested, is the only one: it carries the latest photo's explanation and the URL presigned for its key with an expiry of 3600 seconds |
| ApodSender.Outcomes | lambda/src/notifications/nasa-photo-sender/main.py:74-87 | the handler answers exactly when the message is accepted, with status 200, the SID and the photo's id |
| Toast.MissingLabels | src/components/utils/toastUtils.ts:37-39 | the filter and map give at most one label per field |
| Toast.MissingLabelsMeaning | src/components/utils/toastUtils.ts:37-41 | the labels are exactly those of the invalid fields, and there are none exactly when every field is valid |
| Toast.MissingLabelsAppend | src/components/utils/toastUtils.js:7-9 | the labels keep the fields' order |
| Toast.ValidationMessage | src/components/utils/toastUtils.ts:43 | the message starts with "Please provide a ", ends with " before submitting." and holds the labels joined by " and " |
| Toast.ValidationMessageJoined | src/components/utils/toastUtils.js:13 | the joined labels are recovered from between the message's prefix and suffix |
| Toast.CreateToast | src/components/utils/toastUtils.ts:57-64 | a `toast-show` event with the message and the type |
| Toast.CreateValidationToast | src/components/utils/toastUtils.ts:34-49 | null exactly when every field is valid; otherwise an error `toast-show` event |
| Toast.TwoFieldLabels | src/components/utils/toastUtils.ts:37-39 | for a two-field state the labels are the first invalid field's, then the second's |
| Toast.OneInvalidNamed | src/components/utils/toastUtils.ts:37-48 | with one invalid field of two, the toast names that field alone |
| Toast.BothInvalidNamed | src/components/utils/toastUtils.js:7-18 | with both invalid, the toast names both in the object's order, joined by " and " |
| Toast.ValidationToastMeaning | src/components/utils/toastUtils.ts:34-49 | a toast is the error toast whose message names exactly the invalid fields' labels |
| Toast.DefaultIsInfo | src/components/utils/toastUtils.js:27-31 | the type defaults to "info" |
| FormValidation.IsFormValid | frontend/src/components/utils/formValidationUtils.ts:94-96 | the form is valid exactly when both fields are |
| FormValidation.GetValidationStatus | frontend/src/components/utils/formValidationUtils.ts:117-131 | the overall flag is `isFormValid`, and each field carries its flag and its fixed label |
| FormValidation.Highlights | frontend/src/components/utils/formValidationUtils.ts:138-149 | one event per invalid field, the phone's first |
| FormValidation.HighlightsExactlyInvalid | src/components/utils/formValidationUtils.ts:118-131 | under either version's names, a field's highlight event is raised exactly when it is invalid, and none for a valid form |
| FormValidation.StatusToast | frontend/src/components/utils/formValidationUtils.ts:117-131 | the status as a validation toast: none for a valid form, else the sentence naming exactly the invalid fields |
| FormValidation.LastValueIsLastHanded | frontend/src/components/utils/formValidationUtils.ts:53-60 | a flag is the last value handed to its setter, false before any |
| FormValidation.OtherEventsIgnored | frontend/src/components/utils/formValidationUtils.ts:69-70 | events of other names leave a flag and its setter alone |
| FormValidation.Page.SetHover | frontend/src/components/utils/formValidationUtils.ts:104-108 | the class list gains or loses the hover class and nothing is dispatched |
| FormValidation.Page.Dispatch | frontend/src/components/utils/formValidationUtils.ts:143-147 | the event is appended to those dispatched |
| FormValidation.HighlightInvalidFields | frontend/src/components/utils/formValidationUtils.ts:138-149 | the dispatched events gain exactly the highlight events, and the button is untouched |
| FormValidation.FormValidation.constructor | frontend/src/components/utils/formValidationUtils.ts:43-44 | both flags start false |
| FormValidation.FormValidation.UpdateSubmitButton | frontend/src/components/utils/formValidationUtils.ts:99-109 | with a button, the hover class is present exactly when both flags are true; without one nothing changes |
| FormValidation.FormValidation.OnEvent | frontend/src/components/utils/formValidationUtils.ts:47-70 | a registered event sets its own flag, hands its value to its setter and refreshes the button; other events change nothing |
| FormValidation.HoverFollowsSetters | frontend/src/components/utils/formValidationUtils.ts:53-104 | the frontend button hovers exactly when the last value handed to each setter was true |
| FormValidation.ButtonHoverAsWritten | src/components/utils/formValidationUtils.ts:83-88 | the src button never hovers |
| FormValidation.ButtonHover | src/components/utils/formValidationUtils.ts:79-89 | the intended button hovers exactly when both fields are valid |
| FormValidation.ValidFormNotHighlighted | src/components/utils/formValidationUtils.ts:83 | a fully valid form loses the hover class as written, and keeps it as intended |
| FormValidation.SignupValidation.UpdateSubmitButtonAsWritten | src/components/utils/formValidationUtils.ts:79-89 | with a button, the hover class is always removed |
| FormValidation.SignupValidation.UpdateSubmitButton | src/components/utils/formValidationUtils.ts:79-89 | with a button, the hover class follows the last values the setters were handed |
| FormValidation.SignupValidation.OnEvent | src/components/utils/formValidationUtils.ts:45-58 | a registered event hands its value to its setter and, as `updateSubmitButton` is written, removes the hover class from an existing button; other events change nothing |
| CheckboxGroup.CheckedStates | src/scripts/checkboxGroup.js:18-23 | the children's `checked` values in order |
| CheckboxGroup.AllChecked | src/scripts/checkboxGroup.js:18-20 | true exactly when every child is checked |
| CheckboxGroup.AnyChecked | src/scripts/checkboxGroup.js:21-23 | true exactly when some child is checked |
| CheckboxGroup.ParentMark | src/scripts/checkboxGroup.js:25-26 | the parent is checked when all children are, indeterminate when some are and some are not, never both |
| CheckboxGroup.UniformMark | src/scripts/checkboxGroup.js:9-26 | once the parent's handler made the children agree, a child's handler gives the parent its own state back, not indeterminate |
| CheckboxGroup.MixedMark | src/scripts/checkboxGroup.js:25-26 | mixed children leave the parent unchecked and indeterminate |
| CheckboxGroup.Group.OnParentChange | src/scripts/checkboxGroup.js:9-13 | every child takes the parent's `checked`; nothing else changes |
| CheckboxGroup.Group.OnChildChange | src/scripts/checkboxGroup.js:16-27 | the parent's mark follows the children's states |
| CheckboxGroup.Initialize | src/scripts/checkboxGroup.js:1-7 | handlers are wired exactly when the parent was found and some child matched |
| AutoAdvance.Filter | frontend/src/components/utils/autoAdvanceUtils.ts:16-24 | the elements kept are exactly the selected and visible ones |
| AutoAdvance.FilterAppend | frontend/src/components/utils/autoAdvanceUtils.ts:16-24 | filtering keeps document order |
| AutoAdvance.FocusableElements | frontend/src/components/utils/autoAdvanceUtils.ts:12-25 | no form gives no elements; otherwise exactly the form's focusable ones |
| AutoAdvance.IndexOf | frontend/src/components/utils/autoAdvanceUtils.ts:32-34 | the first index holding the element, -1 exactly when none does |
| AutoAdvance.FindNext | frontend/src/components/utils/autoAdvanceUtils.ts:28-41 | null exactly when the element is absent or last, else the element after it |
| AutoAdvance.FindNextAt | frontend/src/components/utils/autoAdvanceUtils.ts:36-40 | without repeats, each position but the last is followed by the next, and the last by none |
| AutoAdvance.NextChain | frontend/src/components/utils/autoAdvanceUtils.ts:36-40 | following the next element walks the list in order |
| AutoAdvance.Focus.Give | frontend/src/components/utils/autoAdvanceUtils.ts:56 | the element becomes the focused one |
| AutoAdvance.AdvanceTarget | frontend/src/components/utils/autoAdvanceUtils.ts:49-58 | only a valid phone event on a page with the phone input moves the focus, and only to a focusable element |
| AutoAdvance.OnDocumentEvent | frontend/src/components/utils/autoAdvanceUtils.ts:47-60 | the focus moves to the target when there is one and stays otherwise |
| AutoAdvance.ValidPhoneAdvances | frontend/src/components/utils/autoAdvanceUtils.ts:49-58 | a valid phone number moves the focus to the element right after the phone input |
| LambdaBuild.TypescriptEntries | functions/build.py:134-139 | at most one TypeScript entry per `package.json` |
| LambdaBuild.PythonEntries | functions/build.py:142-144 | at most one Python entry per `requirements.txt` |
| LambdaBuild.FindLambdaFunctions | functions/build.py:129-146 | the TypeScript entries in glob order, then the Python ones |
| LambdaBuild.TypescriptEntriesMembers | functions/build.py:134-139 | a directory is a TypeScript entry exactly when a listed `package.json` lies in it with no `node_modules` or `dist` part |
| LambdaBuild.PythonEntriesMembers | functions/build.py:142-144 | a directory is a Python entry exactly when a listed `requirements.txt` lies in it with no `node_modules` part |
| LambdaBuild.TypescriptFirst | functions/build.py:133-146 | every TypeScript entry comes before every Python one |
| LambdaBuild.BothFilesListedTwice | functions/build.py:133-146 | a directory holding both files is listed once for each language |
| LambdaBuild.DistOnlyPython | functions/build.py:136-143 | under `dist` a `requirements.txt` is listed and a `package.json` is not |
| LambdaBuild.RunInOrder | functions/build.py:44-73 | `check=True` subprocesses run in order, stopping at the first failure, whose text is the error |
| LambdaBuild.BuildTypescript | functions/build.py:31-78 | the result names the Lambda's directory |
| LambdaBuild.BuildPython | functions/build.py:81-126 | the result names the Lambda's directory |
| LambdaBuild.MissingEntryFails | functions/build.py:35-86 | without its entry file a build fails with "No index.ts found" or "No index.py found" and starts nothing |
| LambdaBuild.BuildOutcome | functions/build.py:31-126 | a build succeeds exactly when its entry exists and every subprocess succeeds; a failed one stops the rest and gives the error |
| LambdaBuild.Results | functions/build.py:160-164 | one result per entry, in order, from the builder its language picks |
| LambdaBuild.AllSucceeded | functions/build.py:176 | true exactly when every result succeeded |
| LambdaBuild.BuildAll | functions/build.py:159-176 | each entry is built in order, and the status is 0 exactly when every build succeeded, else 1 |
| LambdaBuild.OneMissingEntryFailsAll | functions/build.py:159-176 | one Lambda without its entry file makes the run exit with 1 |

## Left out

- Time-zone finding from coordinates is an uninterpreted partial function; the polygon geometry behind it is not modelled.
- `float()`, `Number` and JSON decoding are partial parsers given as parameters. Coordinates are reals that are only compared; JavaScript's number printing is a parameter too.
- Base64 and `application/x-www-form-urlencoded` decoding (`URLSearchParams`, `parse_qs`) are not modelled. The model takes the decoded text and the decoded name/value pairs.
- The network and cloud clients are not modelled: the NASA API, image downloads, S3 uploads and presigned URLs, DynamoDB, SNS, Twilio and Cloudflare Turnstile. Each is a parameter that answers with a value or with the error it raises.
- HTTP error texts are carried as opaque strings, so their exact wording is not modelled.
- The Twilio 10-second timeout race in backend/functions/message-sender/index.ts is timer concurrency. The send is modelled as returning a SID or an error.
- Postgres is reduced to the rows a statement reads or appends. The model leaves out:
  - pools, cursors, `mogrify` quoting and `with` blocks;
  - the order in which a real server evaluates a query;
  - the logger's own SQL in backend/functions/message-sender/index.ts. Only its outcome is passed in.
- SQL NULL and JavaScript `undefined` are both `None`. A NULL `title` or `explanation` of the photo row is not modelled: the source would print "null" or throw on `.substring`. Postgres `DATE` values are held as their text, not as `datetime.date`.
- The clock is a parameter of every handler that reads it, read once per run. `strftime` is modelled for four-digit years (1000-9999) only.
- Environment variables are inputs of the handlers. lambda/src/notifications/nasa-photo-fetcher/index.py and nasa-photo-sender/main.py read theirs when the module loads; there they are parameters of the handler, so a variable that is missing at load time is not modelled.
- Console and `print` output is left out: logs, progress messages and the build script's report.
- Regular-expression `\d` is the ASCII digits, in create_us_sql.py and the Python signup handler; Python also matches other Unicode digits.
- Whitespace is the ASCII set. Unicode spaces, case folding beyond ASCII and UTF-16 code units (`substring` counts code units) are not modelled; text is a sequence of code points.
- JavaScript lists integer-like object keys first. The objects modelled here have no such keys, so plain insertion order is used.
- The commented-out window filter of backend/functions/message-sender/index.ts (lines 156-159) is not modelled as a filter. The pooled sender selects every active user, as the code does. The window strings it computes are modelled in `NotificationWindow`.
- Both senders take the list of notification types as a parameter. It is `Object.keys(NOTIFICATION_SCHEMA)`, and the schema files are not part of this model.
- In the browser, the click that toggles a checkbox before its change event fires is outside `initializeCheckboxGroup` and is not modelled.
- Computed styles and the elements of the form are given as values. `onTurnstileCallback`, which only sets a form attribute, is not modelled.
- The subprocess bodies of functions/build.py are not modelled: pnpm, esbuild, pip and zip. So are the directory clean-up, `upgrade_pip`, and `exit(main())`. Only each subprocess's success or failure is an input. The glob's answer is given in the order the file system yields it.
- Write failures of the local file system (permissions, a full disk) are not modelled.
- ApodLambdaFetcher.Handler: NASA's answer is either the fields the handler reads or the error it raises. A reply lacking `url` or `date`, which raises `KeyError` in the source, is not told apart from a failed request.
- ApodFetcher.Handler: a NASA reply that lacks `date`, `url` or `media_type` is not modelled. The metadata is taken as NASA's decoded answer.
- ApodFetcher.Handler: a `fetch` that rejects (backend/functions/apod-photo-fetcher/index.ts:25, :31 and :52) is not told apart from a reply that is not ok. Both are one failed answer of the service parameter.
- CityDataset.DownloadCache.DownloadJson: a `requests.get` or `response.json()` that raises is not modelled; `fetch` always yields a document. The importers start from the downloaded lists.
- ImportUsCities.RunImport: the final `SELECT COUNT(*)`, the commit, closing the connection and their failures are not modelled. A connection and each batch's `execute` are the failures modelled.
- ImportUsCitiesAdvanced.RunImport: the final count, the commit, closing the connection, the index creation and their failures are not modelled, as for the simple importer.
- Transactions.Client.Close: `client.end()` never fails in the model. The handlers close the client in `finally` (backend/functions/signup-processor/index.ts:398-403, backend/functions/message-sender/index.ts:442-447, backend/functions/apod-photo-fetcher/index.ts:197-202); a rejected close, which would replace the computed response by the thrown error, is not modelled.
- MessageSenderPooled.Handler: the Twilio client is built before the `try` (backend/functions/message-sender/index.ts:296-299); a throw there, which escapes without the 500 answer, is not modelled.
- ApodFetcherPython.Handler: a NASA reply lacking `url`, which raises `KeyError` after connecting and selecting (backend/functions/nasa_photo_fetcher/index.py:83), is not told apart from a failed request.
- CheckboxGroup.Initialize: it takes the children the selector found. An empty `childIds`, for which `querySelectorAll("")` throws a SyntaxError, is modelled as finding no child.
- LambdaBuild.BuildAll: a missing `pnpm`, `pip` or `zip` binary raises `FileNotFoundError`, which is not a `CalledProcessError` and escapes `main`; each command's answer is success or a `CalledProcessError` text only.
- SignupProcessor.Handler: the HTML of the success and failure pages (backend/functions/signup-processor/index.ts:300-397) is not modelled; a page is its kind and its message.
- AutoAdvance.AdvanceTarget: `detail?.isValid` is tested for truthiness; the event detail is modelled as a boolean or nothing, so only `true` advances.

## Findings

| source | as written | input that shows it | evidently intended | confidence | as-written member | corrected member |
|---|---|---|---|---|---|---|
| lambda/notifications/signup-processor/index.py:50 | the character class `[\d\s-()]` puts a range after the class escape `\s`, which Python's `re` refuses with "bad character range", so `validate_phone` raises on every call and the handler answers 500 | any body, for example `phone_number=+15551234567` | a phone number is an optional `+` then at least ten digits, spaces, hyphens or parentheses | not executed | SignupPython.PhonePatternRejected, SignupPython.AsWrittenAlwaysFails | SignupPython.PhoneMeaning, SignupPython.HandlerOutcome |
| backend/functions/message_sender/index.ts:105-110 | at UTC hour 23 the window's end is printed as `00:00:00`, so `start <= t < end` holds for no time and nobody is notified in that hour | `now` at 23:30 UTC, a user whose `utc_notification_time` is 23:00:00 | the last hour of the day selects the users whose time lies in [23:00, 24:00) | not executed | NotificationWindow.WindowAsWritten, NotificationWindow.Hour23SelectsNobody, MessageSenderDirect.Handler, MessageSenderDirect.Hour23NobodyNotified | NotificationWindow.Window, NotificationWindow.ExactlyOneWindow, MessageSenderDirect.DueOnce |
| db/import_cities.ts:243 | the city-name literal is closed with two quotes, so the pair reads as a quote inside the literal and the statement's city name never reads back | any city, for example `Boston` | the literal ends with a single quote, as for the other columns | not executed | ImportCities.CityNameColumnAsWritten, ImportCities.DoubleClosedLiteral, ImportCities.Statements | ImportCities.CityNameColumn, ImportCities.QuotedRoundTrip |
| src/components/utils/formValidationUtils.ts:83 | `updateSubmitButton` tests `isFormValid(false, false)`, which is always false, so the hover class is removed whatever the fields hold | a valid phone number and a valid city | the hover class follows the fields' validity, as in frontend/src/components/utils/formValidationUtils.ts:104 | not executed | FormValidation.ButtonHoverAsWritten, FormValidation.ValidFormNotHighlighted, FormValidation.SignupValidation.UpdateSubmitButtonAsWritten, FormValidation.SignupValidation.OnEvent | FormValidation.ButtonHover, FormValidation.SignupValidation.UpdateSubmitButton |
