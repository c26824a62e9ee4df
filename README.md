# Sales analytics dashboard: a verified model of its data path

The application lets a seller upload a CSV or Excel sheet of products.
It validates and cleans the sheet, keeps it in a Redux store slice, and
draws dashboard and per-product charts from it. It also has a canned-reply
chat assistant and a Shopify connect form. This project models these parts
in Dafny and proves what each one promises:

- **Upload** (`file_upload.dfy`, module `FileUpload`):
  - the dispatch on the file extension;
  - the `requiredColumns` check, which compares headers case-insensitively and ignoring surrounding white space;
  - the mapping of spreadsheet rows to objects;
  - the empty-data check;
  - the cleaning of the six numeric fields and the product-name check;
  - the component's `uploadStatus` / `error` / `parsedData` / `fileName` state, as a class.
- **Dashboard** (`dashboard.dfy`, module `Dashboard`):
  - the header resolution, which takes the first header containing a word and otherwise a fixed name;
  - the three column totals;
  - the clamped "Other Costs" remainder;
  - the three-slice pie;
  - the per-record area points, with their fallback names and the alternative spellings of the credit key.
- **Product details** (`product_details.dfy`, module `ProductDetails`):
  - one record's figures, each read from the first truthy of several spellings;
  - the pie, filtered to positive values;
  - the total-expenses card;
  - the five-record comparison, with names truncated to 12 characters plus "...".
- **Store slice** (`csv_data_slice.dfy`, module `CsvDataSlice`): `setCsvData` and `clearCsvData`, as a class over the four fields and as functions on a state value.
- **Chat assistant** (`chat_bot.dfy`, module `ChatBot`):
  - `getRandomResponse`, with the random draw passed in as a parameter;
  - the keyword priority;
  - the greeting;
  - the two steps of sending: the user message is appended and `isTyping` is set, then the delayed bot reply is appended.
- **Shopify form** (`shopify.dfy`, module `Shopify`): `handleInputChange`, `handleSubmit` and `handleDisconnect` on the `formData` record and the `isIntegrated` flag.
- **Supporting modules**:
  - `records.dfy` (`Records`): JavaScript objects as insertion-ordered key/value lists. A missing key reads as `undefined`, and `a || b` follows JavaScript truthiness.
  - `js_number.dfy` (`JsNumber`): `parseFloat` on decimal text.
  - `js_text.dfy` (`JsText`): `toLowerCase`, `trim`, `includes` and `endsWith`.
  - `charts.dfy` (`Charts`): sums and chart records.
  - `seqs.dfy` (`Seqs`): subsequences.
  - `wrappers.dfy` (`Wrappers`): `Option` and `Result`.

How the parts are modelled:

- A cell is `Str`, `Num` (a real) or `Absent` (`undefined` or `null`).
- Errors are values of `UploadError`. `FileUpload.Message` renders each one with the text of the exception that the component would display.
- The parsers are outside the model. PapaParse's result, and SheetJS's `sheet_to_json` grid or its failure, are inputs to `SourceFile`.
- Each imperative routine is a method proved equal to a specification function, and the lemmas are proved about that function. This covers the cleaning loop, the row-to-object loop and the reducers.

Behaviour the code does not have, although the field names might suggest it:

- **String cells:** they are not trimmed, and blank rows are not dropped; `processFile` does neither.
- **Status resets:** there is no reset from `success` or `error` back to `idle`. The status only moves to `uploading` when a file is dropped, and on to `success` or `error`.
- **A lowercase "sales" header:** it passes `validateColumns`. The cleaning loop, however, reads the exact key `"Sales"`, so it adds a `Sales` key holding 0 and leaves `sales` as it was (`FileUpload.ExactKeyQuirk`).
- **An empty dataset in the store:** `setCsvData` with an empty dataset still sets `isDataLoaded` (`CsvDataSlice.EmptySetIsLoaded`).
- **The comparison chart:** it takes the first five records in upload order (`slice(0, 5)`). It does not rank them by profit.

## Model

| member | source | states |
|---|---|---|
| FileUpload.Message | src/components/upload/FileUpload.jsx:45-173 | every upload error renders to a non-empty message |
| FileUpload.FormatCsvExtension | src/components/upload/FileUpload.jsx:112-113 | a name that ends in ".csv", in any letter case, is dispatched to the CSV parser |
| FileUpload.FormatExcelExtension | src/components/upload/FileUpload.jsx:114-115 | a name that ends in ".xlsx" or ".xls", in any letter case, is dispatched to the Excel parser |
| FileUpload.FormatOtherExtension | src/components/upload/FileUpload.jsx:116-120 | names ending in ".txt", ".json", ".pdf" or ".xlsm" are unsupported |
| FileUpload.FormatIgnoresCase | src/components/upload/FileUpload.jsx:112-114 | the dispatch depends only on the lower-cased name |
| FileUpload.MissingOfMembers | src/components/upload/FileUpload.jsx:28-36 | a column is reported missing if and only if it is required and no header matches it after lower-casing and trimming |
| FileUpload.MissingOfOrder | src/components/upload/FileUpload.jsx:29 | the missing columns keep the order of the required list |
| FileUpload.ValidateColumnsEmpty | src/components/upload/FileUpload.jsx:17-36 | nothing is missing if and only if each of the seven required columns has a matching header |
| FileUpload.LowerCaseHeaderMatches | src/components/upload/FileUpload.jsx:32 | a lowercase "sales" header satisfies the "Sales" requirement |
| FileUpload.RecordPrefixUnique | src/components/upload/FileUpload.jsx:85-88 | the object built from a row never holds a key twice |
| FileUpload.RecordPrefixKeys | src/components/upload/FileUpload.jsx:86-87 | the object's keys are exactly the texts of the defined headers |
| FileUpload.RecordPrefixValues | src/components/upload/FileUpload.jsx:86-87 | under a repeated header the last column wins, and every key holds its column's value |
| FileUpload.ExcelValueDefined | src/components/upload/FileUpload.jsx:87 | `row[index] \|\| ""` is never undefined: a short row gives "", and a truthy cell is kept |
| FileUpload.BuildRecord | src/components/upload/FileUpload.jsx:84-90 | the loop builds the specified object, with unique keys, exactly the header keys and the last-wins values |
| FileUpload.ParseExcel | src/components/upload/FileUpload.jsx:73-92 | fewer than two grid rows is the header-and-data-row error; otherwise there is one object per data row, in order |
| FileUpload.CleanFieldsOk | src/components/upload/FileUpload.jsx:150-165 | when every field coerces, the row keeps all other keys and their order, gains no keys besides the fields, and each field holds its number (0 for "" or undefined) |
| FileUpload.CleanFieldsError | src/components/upload/FileUpload.jsx:152-160 | the first field that does not parse gives the invalid-numeric error, with 1-based row, field and value |
| FileUpload.CleanedRowOk | src/components/upload/FileUpload.jsx:138-176 | a row cleans if and only if all six numeric fields coerce and the product name is truthy and not blank |
| FileUpload.CleanedRowNumberError | src/components/upload/FileUpload.jsx:142-160 | a number error names the first failing field in the order Sales, Profit, TE, Credit, Amazon Fee, Profit Percentage |
| FileUpload.CleanedRowNameError | src/components/upload/FileUpload.jsx:168-173 | with valid numbers, a missing or blank name gives the product-name error for that row |
| FileUpload.ExactKeyQuirk | src/components/upload/FileUpload.jsx:150-163 | a row without the exact key "Sales" gets Sales = 0, and its "sales" key stays unchanged |
| FileUpload.MissingFieldBecomesZero | src/components/upload/FileUpload.jsx:162-163 | any numeric field absent from the row is set to 0, and keys outside the numeric fields are untouched |
| FileUpload.CleanedDataOk | src/components/upload/FileUpload.jsx:138-176 | the data cleans if and only if every row does, and then it has one cleaned row per input row |
| FileUpload.CleanedDataFirstError | src/components/upload/FileUpload.jsx:138-176 | the first failing row's error is the one thrown |
| FileUpload.CleanFieldsLoop | src/components/upload/FileUpload.jsx:150-165 | the `forEach` loop computes the specified field cleaning |
| FileUpload.CleanRow | src/components/upload/FileUpload.jsx:139-175 | one row's loop and name check compute the specified cleaned row |
| FileUpload.CleanData | src/components/upload/FileUpload.jsx:138-176 | the `map` fails exactly when some row fails; on success every row is cleaned from its input |
| FileUpload.IngestedOk | src/components/upload/FileUpload.jsx:108-179 | a file is accepted if and only if it parses to at least one row, its first row covers the required columns, and every row cleans; the result then has one cleaned, named row per parsed row |
| FileUpload.IngestedMissingColumns | src/components/upload/FileUpload.jsx:127-135 | missing columns give exactly the missing-columns error, listing them in order |
| FileUpload.ExcelNeverEmpty | src/components/upload/FileUpload.jsx:73-92 | a parsed Excel sheet always has at least one data row |
| FileUpload.IngestedNonEmpty | src/components/upload/FileUpload.jsx:122-125 | accepted data is never empty |
| FileUpload.IngestedEmpty | src/components/upload/FileUpload.jsx:122-125 | a parse with no rows is refused as an empty file, with the message "File is empty or contains no valid data" |
| FileUpload.ParseFile | src/components/upload/FileUpload.jsx:39-120 | the dispatch and the parsers compute the specified parse, including every parser error |
| FileUpload.CheckData | src/components/upload/FileUpload.jsx:122-176 | the emptiness, column and cleaning steps compute the specified check |
| FileUpload.IngestFile | src/components/upload/FileUpload.jsx:108-179 | processing a file computes the specified ingestion, and success is never empty |
| FileUpload.FileUploadState.constructor | src/components/upload/FileUpload.jsx:9-12 | the component starts idle, with no error, no data and no file name |
| FileUpload.FileUploadState.BeginUpload | src/components/upload/FileUpload.jsx:104-106 | the status becomes uploading, the error is cleared, the file name is recorded, and earlier data is kept |
| FileUpload.FileUploadState.FinishUpload | src/components/upload/FileUpload.jsx:178-183 | success stores the data; an error stores its message and keeps the earlier data |
| FileUpload.FileUploadState.ProcessFile | src/components/upload/FileUpload.jsx:103-184 | after processing, the status is success with the cleaned data, or error with the message and the old data |
| FileUpload.FileUploadState.OnDrop | src/components/upload/FileUpload.jsx:193-197 | an empty drop changes nothing; otherwise the first file is processed |
| Dashboard.FirstMention | src/pages/DashboardPage.jsx:68-82 | `find` returns the first header whose lower-case form contains one of the words |
| Dashboard.ResolvedColumn | src/pages/DashboardPage.jsx:68-82 | a resolved column is the first mentioning header; the fallback is taken only when no header mentions the word |
| Dashboard.MentionsIgnoresCase | src/pages/DashboardPage.jsx:69 | whether a header mentions a word does not depend on its letter case |
| Dashboard.RequiredHeadersResolve | src/pages/DashboardPage.jsx:65-82 | on the upload's required headers the columns are Sales, Profit, TE and Product Name |
| Dashboard.ColumnTotalAppend | src/pages/DashboardPage.jsx:85-96 | a column total over two parts of the records is the sum of the parts' totals |
| Dashboard.ColumnTotalSnoc | src/pages/DashboardPage.jsx:85-96 | each record adds its parsed value, or 0 when the value does not parse |
| Dashboard.Remaining | src/pages/DashboardPage.jsx:99 | the remainder is never negative, and it is either 0 or sales minus (profit + expenses) |
| Dashboard.ChartDataShape | src/pages/DashboardPage.jsx:61-168 | no data gives no chart data; otherwise there is one area point per record and the pie is Profit, Expenses, Other Costs with the totals |
| Dashboard.PieCoversSales | src/pages/DashboardPage.jsx:99-106 | the three slices add up to total sales when the parts fit within it, and otherwise to profit plus expenses |
| Dashboard.AreaMatchesTotals | src/pages/DashboardPage.jsx:85-125 | the area points' sales, profit and expenses add up to the totals |
| Dashboard.PointNameFallback | src/pages/DashboardPage.jsx:110 | the point name is the product cell when it is truthy, and otherwise "Product n" with n counted from 1 |
| Dashboard.CreditSpellings | src/pages/DashboardPage.jsx:114 | credit is read from the first truthy of Credit, CREDIT and credit |
| ProductDetails.ExpensesSpellings | src/pages/ProductDetailsPage.jsx:59 | expenses are read from the first truthy of TE and te, and otherwise from Expenses |
| ProductDetails.SalesSpellings | src/pages/ProductDetailsPage.jsx:57 | sales are read from Sales when it is truthy, and otherwise from sales |
| ProductDetails.PositiveKeepsPositive | src/pages/ProductDetailsPage.jsx:69 | the filter keeps exactly the slices with a positive value, in their order |
| ProductDetails.ProductPie | src/pages/ProductDetailsPage.jsx:64-69 | the pie has at most four slices, all positive, and contains every positive figure |
| ProductDetails.TotalExpensesMatchesPie | src/pages/ProductDetailsPage.jsx:91 | when expenses and the Amazon fee are both positive, the total-expenses card equals the Expenses slice plus the Amazon Fee slice |
| ProductDetails.Truncate | src/pages/ProductDetailsPage.jsx:101 | a name longer than 15 characters becomes its first 12 characters plus "..."; other values are unchanged |
| ProductDetails.TruncateIdempotent | src/pages/ProductDetailsPage.jsx:101 | truncating twice is the same as truncating once |
| ProductDetails.TruncateKeepsTruthy | src/pages/ProductDetailsPage.jsx:101 | truncation never empties a name |
| ProductDetails.ComparisonShape | src/pages/ProductDetailsPage.jsx:99-109 | the comparison covers the first min(5, n) records in order, with short, present names |
| ProductDetails.ComparisonNameFallback | src/pages/ProductDetailsPage.jsx:100 | the name is the first truthy of the four name keys, and otherwise "Product n" |
| ProductDetails.ComparisonMatchesFigures | src/pages/ProductDetailsPage.jsx:105-107 | the comparison figures are the ones the record's own page reads |
| ProductDetails.ProductViewCases | src/pages/ProductDetailsPage.jsx:31-115 | no product gives the not-found view; otherwise the view has that record's figures, pie, cards and comparison |
| CsvDataSlice.AfterSet | src/store/csvDataSlice.js:14-19 | storing leaves a consistent state that is loaded and holds exactly the given records, file name and time |
| CsvDataSlice.AfterClear | src/store/csvDataSlice.js:20-25 | clearing leaves a consistent state |
| CsvDataSlice.SetForgetsEarlier | src/store/csvDataSlice.js:14-19 | a second store replaces the first completely, with no merging |
| CsvDataSlice.ClearIdempotent | src/store/csvDataSlice.js:3-8 | clearing returns to the initial state, so clearing twice is clearing once |
| CsvDataSlice.EmptySetIsLoaded | src/store/csvDataSlice.js:15-17 | storing an empty dataset still marks the slice loaded |
| CsvDataSlice.CsvDataStore.constructor | src/store/csvDataSlice.js:3-8 | the slice starts empty and not loaded |
| CsvDataSlice.CsvDataStore.SetCsvData | src/store/csvDataSlice.js:14-19 | the four fields are updated as specified |
| CsvDataSlice.CsvDataStore.ClearCsvData | src/store/csvDataSlice.js:20-25 | the four fields are reset as specified |
| ChatBot.FallbackIndex | src/pages/ChatBotPage.jsx:97 | the floor of the draw times 10 is a valid index into the ten responses |
| ChatBot.GetRandomResponse | src/pages/ChatBotPage.jsx:63-99 | the reply is always one of the four topic replies or one of the ten canned responses |
| ChatBot.SalesTakesPriority | src/pages/ChatBotPage.jsx:79-80 | a message mentioning "sales", in any case, gets the sales reply whatever else it mentions |
| ChatBot.ReplyPriority | src/pages/ChatBotPage.jsx:78-95 | the topics are chosen in the order sales/revenue, profit/margin, product/item, help/assist |
| ChatBot.ReplyIgnoresCase | src/pages/ChatBotPage.jsx:78 | the reply depends only on the lower-cased message |
| ChatBot.KeywordInAnyCase | src/pages/ChatBotPage.jsx:78-79 | a keyword in any letter case is still found after lower-casing |
| ChatBot.FallbackIsCanned | src/pages/ChatBotPage.jsx:96-97 | with no keyword present, the reply is the canned response at the draw's index |
| ChatBot.FallbackReachesEvery | src/pages/ChatBotPage.jsx:64-97 | every canned response is reached by the draws in its tenth of [0, 1) |
| ChatBot.NumberedIdsDistinct | src/pages/ChatBotPage.jsx:106 | messages numbered from 1 have pairwise distinct ids |
| ChatBot.ChatSession.constructor | src/pages/ChatBotPage.jsx:18-30 | the conversation starts with the greeting as message 1, an empty input, and not typing |
| ChatBot.ChatSession.SetInputMessage | src/pages/ChatBotPage.jsx:257 | typing changes only the input |
| ChatBot.ChatSession.CanSend | src/pages/ChatBotPage.jsx:265 | sending is enabled if and only if the bot is not typing and the input is not blank |
| ChatBot.ChatSession.HandleSendMessage | src/pages/ChatBotPage.jsx:101-117 | blank input changes nothing; otherwise the user message is appended with the next id, the input is cleared, typing is set, and the reply id is the size of the conversation before sending plus 2 |
| ChatBot.ChatSession.DeliverReply | src/pages/ChatBotPage.jsx:120-133 | the bot reply to the sent text is appended and typing ends, and the numbering is kept |
| ChatBot.SendThenReply | src/pages/ChatBotPage.jsx:101-133 | a non-blank send adds exactly the user message and the bot's reply, numbered consecutively |
| Shopify.FilledAfterChange | src/pages/ShopifyPage.jsx:48-53 | a change affects only the truthiness of the changed field |
| Shopify.EmptyFormsCannotIntegrate | src/pages/ShopifyPage.jsx:13-17 | neither the initial form nor the disconnected form passes the submit guard, and the disconnected form has no shopDomain |
| Shopify.ShopifyConnection.constructor | src/pages/ShopifyPage.jsx:12-17 | the page starts not integrated, with the three empty fields |
| Shopify.ShopifyConnection.HandleInputChange | src/pages/ShopifyPage.jsx:48-53 | the named field is set and every other key is kept |
| Shopify.ShopifyConnection.HandleSubmit | src/pages/ShopifyPage.jsx:55-60 | the page is integrated if and only if it already was or both email and store name are filled |
| Shopify.ShopifyConnection.HandleDisconnect | src/pages/ShopifyPage.jsx:62-65 | the page is not integrated, and the form is left with only email and storeName |
| Records.Or | src/components/upload/FileUpload.jsx:87 | `a \|\| b` is truthy if and only if one of them is, and it is one of them |
| Records.Set | src/components/upload/FileUpload.jsx:161 | after an assignment the key reads the new value and every other key reads as before |
| Records.SetKeepsKeyOrder | src/components/upload/FileUpload.jsx:139-163 | assignment keeps the existing keys in order at the front |
| Records.LookupFirstTruthy | src/pages/DashboardPage.jsx:114-124 | a chain of `\|\|` yields the first truthy spelling |
| Records.LookupNoneTruthy | src/pages/DashboardPage.jsx:114-124 | with no spelling truthy, the chain yields the last one |
| JsNumber.ParseNatText | src/components/upload/FileUpload.jsx:153 | the text of a whole number parses back to that number |
| JsNumber.ParseSkipsSpace | src/components/upload/FileUpload.jsx:153 | leading white space does not change the parse |
| JsNumber.ParseIgnoresTail | src/components/upload/FileUpload.jsx:153 | text after the number does not change the parse |
| JsNumber.ParseDotsIsNaN | src/components/upload/FileUpload.jsx:153-154 | "", "." and ".." do not parse |
| JsNumber.ParseNegative | src/components/upload/FileUpload.jsx:153 | a leading minus negates what the rest reads as, and NaN stays NaN |
| JsNumber.ParseFraction | src/components/upload/FileUpload.jsx:153 | digits, a point and digits read as the whole part plus the fraction's digits shifted right by their count |
| JsNumber.ParseExponent | src/components/upload/FileUpload.jsx:153 | digits, `e`, an optional minus and digits read as the whole part times ten to the signed exponent |
| JsNumber.ParseSamples | src/components/upload/FileUpload.jsx:153 | "-12.5" reads as -12.5, "5e-1" as 0.5, "1.e+2" as 100 and "+.e1" as NaN |
| JsText.TrimEmptyIffAllSpace | src/components/upload/FileUpload.jsx:170 | a string trims to "" if and only if it is entirely white space |

## Left out

- **Parsing libraries:** PapaParse, SheetJS and `FileReader` are not modelled. Their outcome is an input: the records, or the first parse error's text, or the grid, or a read or parse failure.
- **Numbers:** they are reals with no rounding, not IEEE doubles. `parseFloat` is modelled for signed decimals with an optional fraction and exponent, but not `Infinity`. The `toLocaleString` formatting of the cards is not modelled.
- **Text:** `toLowerCase` covers ASCII letters only, and `trim` uses the ECMAScript white-space and line-terminator set. Lengths count characters, not UTF-16 code units.
- **Cell text:** a numeric cell's text (used in messages, as an object key and in `toString`) is the text of its floor (so -1.5 reads as "-2"), which is exact only for whole numbers. Boolean and date cells are not modelled.
- **Spreadsheet header row:** an empty header cell is a hole that `forEach` skips. `sheet_to_json` filling it with a value is not modelled.
- **Key order of objects:** `Object.keys` lists integer-like keys first; here keys keep insertion order. A header named `__proto__` is stored as an ordinary key (`FileUpload.RecordPrefix`, `Records.Set`), whereas in JavaScript that assignment goes through the prototype setter and creates no own key.
- **Clock and randomness:** the clock (`new Date()`) and `Math.random` are parameters.
- **The reply timer:** the 1500 ms `setTimeout` is the separate `DeliverReply` step.
- **Not modelled:**
  - rendering, styling, icons and navigation;
  - Dropzone's file filter;
  - `handleSave`;
  - authentication and routing;
  - the mock Amazon and Shopify dashboards;
  - the `useCsvData` hook.
- **ProductDetails.ProductViewOf:** a missing `location.state` is modelled as `productData` absent. A page reached with a product but no `allData` would throw in the source; the model takes `allData` as a sequence.
- **ChatBot.ChatSession.DeliverReply:** `Valid` is kept only for a reply that follows its send with nothing in between. A second send while typing is not modelled, because the input and the button are disabled then.
- **FileUpload.FileUploadState.OnDrop:** it requires the component invariant `Valid`, which the constructor establishes and every method keeps.
- **FileUpload.FileUploadState.FinishUpload:** uploads are modelled one at a time, so it requires the upload it finishes to be the one in progress. A second drop while an earlier parse is still running, with the earlier parse finishing afterwards, is not modelled; in the source that would leave status "success" with the later file's name, and the error message of the later file if it had failed.
- **FileUpload.Message:** its contract states only that the message is non-empty; the message texts themselves are in its body.
