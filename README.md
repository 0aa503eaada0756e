# AI Product Analyzer: state store, uploaders, translations and CSV export

This project models the client-side core of the AI Product Analyzer, a React
application. Users upload an Excel file of products, review and edit the
extracted product rows, run an analysis that attaches a price, provider,
origin and type to each product, and download the result as CSV. They can
also upload reference (provider) files, and they can switch the interface
between English and Vietnamese.

The model covers:

- **The file-processing store** (`FileProcessing.FileProcessingStore`). It is a
  class whose fields are the store's state: the file, the sheet names, the
  selected sheet, the extracted products, the analysed products and the
  reference files. Every operation is a method that reassigns those fields,
  and its contract states the whole new state.
  - The pure parts are functions with their own lemmas: deleting a row by
    position (`Products`), the mocked analysis result (`Products`), the
    reference-file records and removal by id (`References`), and the CSV text
    (`Csv`).
  - The extraction and analysis steps are mocks in the source. The model takes
    their outcomes as parameters: `Fetch` says whether the awaited call
    resolved and with what value.
  - The random draws of the mocked analysis are also parameters, and so are
    the clock readings.
  - Notifications are returned as `Toast` values.
- **The translation store** (`Language`):
  - the 83-entry English/Vietnamese table;
  - the lookup `t(key)`, which falls back to the key itself;
  - the default language, Vietnamese;
  - the setter, and the header's language toggle.
- **The single-file uploader** (`FileUploader`): it takes only the first file,
  and checks the text after the last '.', lower-cased, against `xlsx` and
  `xls`.
- **The folder uploader** (`FolderUploader`):
  - It keeps the names ending in `.xlsx` or `.xls` (case-sensitive) as the
    files being processed.
  - It then passes the *unfiltered* list to `uploadFolderFiles`. The file
    context in this repository does not provide `uploadFolderFiles`, so the
    model treats it as an outside callback and records each call.

In these places the code behaves as follows, and the model follows it:

- **Reference file ids.** A reference file's id is `Date.now()` alone, with no
  random suffix. Two uploads in the same millisecond therefore share an id
  (`References.IdsCollideOnSameMillisecond`), and removing by that id removes
  both.
- **The single-file uploader** looks only at the first file and shows one
  error for it. It does not partition a batch.
- **The folder uploader's filter** is case-sensitive, unlike the single-file
  check (`FolderUploader.CaseSensitiveUnlikeSingleUpload`).
- **Editing a row** does not bounds-check. Writing at the list's length appends
  a row. A negative index leaves the rows as they are.
- **The selected sheet** is not always one of the listed sheets:
  - If the sheet read resolves with an empty list, the sheet list is emptied
    but the old selection stays.
  - `setSelectedSheet` accepts any name.

  `SetFile` and `SetSelectedSheet` state when `SelectionValid()` holds
  afterwards.
- **Uploading a new file** leaves the previous analysed products in place.
- **A failed product read** happens after the sheet list and the selection have
  already been replaced. The earlier sheet list is then lost.
- **The CSV export** quotes only the name column. The model's line-based
  reader `Csv.ReadCsv` reads the text back as the products when the id,
  price, provider, origin and type fields contain no ',' and no field
  contains a line break (`Csv.Plain`, `Csv.CsvRoundTrip`). The name is
  quoted, so a reader that honours line breaks inside quoted fields (section
  2 of RFC 4180) would also accept a name holding one; `Csv.ReadCsv` splits
  on every line break and does not. The mocked analysis always meets the
  condition when the extracted ids and names do (`Csv.MockOutputReadsBack`).

## Model

| member | source | states |
|---|---|---|
| Seqs.Filter | src/contexts/FileProcessingContext.tsx:215 | `Array.prototype.filter` is never longer than its input |
| Seqs.FilterCounts | src/contexts/FileProcessingContext.tsx:215 | each value occurs in the filter's result as often as in the input when it passes the test, and not at all otherwise |
| Seqs.FilterIsSubsequence | src/contexts/FileProcessingContext.tsx:215 | the filter keeps the surviving elements in their original order |
| Seqs.FilterMembers | src/contexts/FileProcessingContext.tsx:215 | a value is in the result exactly when it is in the input and passes the test |
| Seqs.FilterConcat | src/contexts/FileProcessingContext.tsx:210-215 | filtering a concatenation filters each part |
| Seqs.FilterKeepsAll | src/contexts/FileProcessingContext.tsx:215 | when every element passes, the filter returns its input |
| Seqs.SubsequenceExtend | src/components/ExcelFolderUploader.tsx:23-25 | an element put in front of the longer sequence keeps the subsequence relation |
| Seqs.SubsequenceDropHead | src/components/ExcelFolderUploader.tsx:23-25 | dropping the head of the shorter sequence keeps the subsequence relation |
| Strings.Split | src/components/FileUploader.tsx:56 | `split('.')` gives at least one piece |
| Strings.SplitPiecesFree | src/components/FileUploader.tsx:56 | no piece of a split contains the separator |
| Strings.SplitAppend | src/components/FileUploader.tsx:56 | appending a separator and a separator-free piece adds exactly that piece |
| Strings.SplitNoSeparator | src/components/FileUploader.tsx:56 | a name without '.' splits into itself alone |
| Strings.SplitCons | src/contexts/FileProcessingContext.tsx:194 | a separator-free head followed by the separator is the first piece |
| Strings.SplitJoin | src/contexts/FileProcessingContext.tsx:175-187 | splitting joined separator-free pieces gives the pieces back |
| Strings.JoinSplit | src/components/FileUploader.tsx:56 | joining the pieces of a split restores the string |
| Strings.Join | src/contexts/FileProcessingContext.tsx:176-187 | `Array.prototype.join`: an empty array gives the empty text; otherwise the text is as long as the pieces together plus one separator between each neighbouring pair |
| Strings.JoinHead | src/contexts/FileProcessingContext.tsx:175-187 | a joined text begins with its first piece, followed by the separator when more pieces come |
| Strings.JoinCons | src/contexts/FileProcessingContext.tsx:178-185 | joining a head to the rest is the head, the separator and the joined rest |
| Strings.JoinExcludes | src/contexts/FileProcessingContext.tsx:175-187 | a non-separator character found in no piece is not in the joined text |
| Strings.EndsWith | src/components/ExcelFolderUploader.tsx:24 | `endsWith`, case-sensitive: the suffix fits and fills the last positions of the text (definition; its one-character step is Strings.EndsWithStep) |
| Strings.Lower | src/components/FileUploader.tsx:56 | the lower-cased character is never an upper-case ASCII letter, and only an upper-case letter is changed, into a lower-case one |
| Strings.ToLower | src/components/FileUploader.tsx:56 | `toLowerCase()` keeps the length and lower-cases each character (ASCII letters) |
| Strings.LastPieceEmpty | src/components/FileUploader.tsx:56-58 | the last piece is empty exactly when the name is empty or ends with '.' |
| Strings.LastPieceStep | src/components/FileUploader.tsx:56 | a non-separator character appended to the name extends the last piece |
| Strings.EndsWithStep | src/components/ExcelFolderUploader.tsx:24 | a suffix test on strings that end in one more character each is the suffix test without them plus equality of those characters |
| Strings.LastPieceIs | src/components/FileUploader.tsx:56 | the text after the last '.' is the word `w` exactly when the name is `w` or ends with '.' followed by `w` |
| Strings.LowerLastPiece | src/components/FileUploader.tsx:56 | lower-casing before or after taking the last piece gives the same extension |
| Strings.DigitChar | src/contexts/FileProcessingContext.tsx:205 | a digit below ten renders as a decimal digit character |
| Strings.DecimalString | src/contexts/FileProcessingContext.tsx:205 | `toString()` of a non-negative integer is a non-empty string of digits with no leading zero |
| Strings.DecimalRoundTrip | src/contexts/FileProcessingContext.tsx:205 | reading the rendered digits back gives the number |
| Strings.DecimalInjective | src/contexts/FileProcessingContext.tsx:205 | two numbers render the same exactly when they are equal |
| Language.Translate | src/contexts/LanguageContext.tsx:364-370 | a key missing from the table comes back unchanged; a present key gives its string for the current language |
| Language.TranslateAsWritten | src/contexts/LanguageContext.tsx:365 | as written, the truthiness test lets an inherited member name through; any other key missing from the table comes back unchanged |
| Language.ConstructorNotInFirstSections | src/contexts/LanguageContext.tsx:18-169 | "constructor" is no key of the navigation, guide or home sections |
| Language.ConstructorNotInLastSections | src/contexts/LanguageContext.tsx:170-357 | "constructor" is no key of the analysis, reference or common sections |
| Language.AsWrittenAgreesElsewhere | src/contexts/LanguageContext.tsx:364-370 | off the inherited member names, the lookup as written returns what the corrected lookup returns |
| Language.ConstructorKeyIsUndefined | src/contexts/LanguageContext.tsx:365-369 | `t("constructor")` as written yields `undefined`, where the fallback promises the key itself |
| Language.MissIgnoresLanguage | src/contexts/LanguageContext.tsx:365-368 | a missing key translates to itself in either language |
| Language.Toggle | src/components/Layout.tsx:16-18 | the toggle always switches to the other language |
| Language.ToggleTwice | src/components/Layout.tsx:16-18 | toggling twice restores the language |
| Language.ProductCountInAnalysis | src/contexts/LanguageContext.tsx:211-214 | the analysis section holds the product-count message in both languages |
| Language.ProductCountNotOverridden | src/contexts/LanguageContext.tsx:219-357 | no later section redefines the product-count key |
| Language.ProductCountEntry | src/contexts/LanguageContext.tsx:211-214 | the whole table maps the product-count key to that message |
| Language.PlaceholderInEnglish | src/contexts/LanguageContext.tsx:212 | the English message holds the `{count}` placeholder |
| Language.PlaceholderInVietnamese | src/contexts/LanguageContext.tsx:213 | the Vietnamese message holds the `{count}` placeholder |
| Language.LookupKeepsPlaceholder | src/contexts/LanguageContext.tsx:364-370 | the lookup substitutes nothing: the product-count message comes back with `{count}` in either language |
| Language.LanguageStore.constructor | src/contexts/LanguageContext.tsx:362 | a new store starts in Vietnamese |
| Language.LanguageStore.SetLanguage | src/contexts/LanguageContext.tsx:362 | the setter makes the given language current |
| Language.LanguageStore.ToggleLanguage | src/components/Layout.tsx:16-18 | the header button makes the other language current |
| Language.LanguageStore.T | src/contexts/LanguageContext.tsx:364-370 | `t(key)` under the current language returns a missing key unchanged and a present key's string for that language; this is the corrected lookup, so an inherited member name such as "constructor" also comes back unchanged |
| FileUploader.Extension | src/components/FileUploader.tsx:56 | the extension is the lower-cased text after the last '.', so it holds no '.' |
| FileUploader.IsAccepted | src/components/FileUploader.tsx:56-58 | the extension is non-empty and on the allow-list (definition; FileUploader.AcceptedIffExcelSuffix states what it decides) |
| FileUploader.AcceptedIffExcelSuffix | src/components/FileUploader.tsx:56-58 | the extension test accepts a name exactly when, ignoring case, it is `xlsx` or `xls` or ends with `.xlsx` or `.xls` |
| FileUploader.ValidateAndProcess | src/components/FileUploader.tsx:55-64 | an Excel name is passed to `onFileSelected` once with no error; any other name gives exactly the invalid-format error and is not passed on |
| FileUploader.FirstFileOnly | src/components/FileUploader.tsx:25-30 | an empty selection does nothing; otherwise exactly one outcome, and a file is passed on only when the first file has an Excel name, and then it is that first file |
| FileUploader.LaterFilesIgnored | src/components/FileUploader.tsx:44-53 | two drops with the same first file have the same outcome |
| FileUploader.UpperCaseAccepted | src/components/FileUploader.tsx:56-58 | "Book.XLSX" is accepted |
| FileUploader.InnerExtensionIgnored | src/components/FileUploader.tsx:56-58 | "report.xlsx.bak" is rejected: only the last segment counts |
| FileUploader.EmptyExtensionRejected | src/components/FileUploader.tsx:56-58 | "report." is rejected because its extension is empty |
| FileUploader.BareExtensionAccepted | src/components/FileUploader.tsx:56-58 | "xls", which has no '.', is its own extension and is accepted |
| FolderUploader.HasExcelSuffix | src/components/ExcelFolderUploader.tsx:24 | the name ends in `.xlsx` or `.xls`, case-sensitive (definition; FolderUploader.KeptFilesAccepted relates it to the single-file check) |
| FolderUploader.KeptFilesAccepted | src/components/ExcelFolderUploader.tsx:24 | every name this filter keeps would also pass the single-file uploader's check |
| FolderUploader.ExcelFiles | src/components/ExcelFolderUploader.tsx:23-25 | the kept files are those of the input whose names end in `.xlsx` or `.xls`, each as often as in the input |
| FolderUploader.ExcelFilesInOrder | src/components/ExcelFolderUploader.tsx:23-25 | the kept files appear in input order |
| FolderUploader.AllExcelKept | src/components/ExcelFolderUploader.tsx:51-53 | a list of Excel files only is kept whole |
| FolderUploader.CaseSensitiveUnlikeSingleUpload | src/components/ExcelFolderUploader.tsx:24 | "A.XLSX" is dropped by this filter but accepted by the single-file uploader |
| FolderUploader.FolderUploaderState.constructor | src/components/ExcelFolderUploader.tsx:17 | no files are shown as processing and nothing has been uploaded |
| FolderUploader.FolderUploaderState.HandleFolderUpload | src/components/ExcelFolderUploader.tsx:19-32 | with no Excel file nothing changes and nothing is uploaded; otherwise the Excel files are shown and the whole unfiltered list is uploaded once |
| FolderUploader.FolderUploaderState.HandleDrop | src/components/ExcelFolderUploader.tsx:44-60 | the drop behaves exactly as the file input: same filter, same upload of the unfiltered list |
| Products.DropIndex | src/contexts/FileProcessingContext.tsx:143-146 | deleting one position shortens the list by one when the index is in range and keeps its length otherwise |
| Products.DropIndexRemovesOne | src/contexts/FileProcessingContext.tsx:144 | deleting keeps everything before and after the index in order; an index out of range changes nothing |
| Products.EditThenDelete | src/contexts/FileProcessingContext.tsx:137-146 | editing a row and then deleting it is the same as deleting it |
| Products.AnalyzeOne | src/contexts/FileProcessingContext.tsx:82-88 | one analysed product keeps the product's id and name, its price is '$' followed by digits, and its provider, origin and type come from the fixed lists |
| Products.AnalyzeMock | src/contexts/FileProcessingContext.tsx:78-92 | one result per product, in order, with the product's own id and name, and the provider, origin and type taken from the fixed lists |
| Products.MockPriceRange | src/contexts/FileProcessingContext.tsx:84 | every mocked price is '$' followed by a number from 100 to 1099 |
| References.NewReferenceFile | src/contexts/FileProcessingContext.tsx:203-208 | the record keeps the file's name and upload time, and its id is the decimal digits of the `Date.now()` reading |
| References.IdsCollideOnSameMillisecond | src/contexts/FileProcessingContext.tsx:205 | two records get the same id exactly when they were made in the same millisecond |
| References.RemoveById | src/contexts/FileProcessingContext.tsx:214-216 | every record with the id is removed and every other record stays, as often as before |
| References.RemoveKeepsOrder | src/contexts/FileProcessingContext.tsx:215 | the remaining records keep their order |
| References.RemoveAbsentId | src/contexts/FileProcessingContext.tsx:215 | removing an id no record has changes nothing |
| References.RemoveUndoesAppend | src/contexts/FileProcessingContext.tsx:203-216 | removing the id of a just-added record with a fresh id restores the list |
| References.RemoveIdempotent | src/contexts/FileProcessingContext.tsx:214-216 | removing the same id twice is removing it once |
| Csv.HeaderLine | src/contexts/FileProcessingContext.tsx:174-176 | `headers.join(',')` (definition; its text is stated by Csv.HeaderLineText) |
| Csv.HeaderSingleLine | src/contexts/FileProcessingContext.tsx:174-176 | the header line holds no line break |
| Csv.HeaderLineText | src/contexts/FileProcessingContext.tsx:174-176 | the header line is `ID,Product Name,Price,Provider,Origin,Type` |
| Csv.EscapeQuotes | src/contexts/FileProcessingContext.tsx:180 | escaping never shortens the name and leaves a name without quotes unchanged |
| Csv.EscapeExcludes | src/contexts/FileProcessingContext.tsx:180 | escaping introduces no character other than '"' |
| Csv.QuoteName | src/contexts/FileProcessingContext.tsx:180 | the name field begins and ends with '"' and is at least two longer than the name; a name without quotes is wrapped as it is |
| Csv.Fields | src/contexts/FileProcessingContext.tsx:178-185 | a row has one field per header, the id first |
| Csv.RowLine | src/contexts/FileProcessingContext.tsx:178-185 | a product's line begins with its id and a ',' |
| Csv.Rows | src/contexts/FileProcessingContext.tsx:177-186 | one line per analysed product, in order |
| Csv.CsvText | src/contexts/FileProcessingContext.tsx:175-187 | the text begins with the header line; with no product it is the header line alone, and otherwise a line break follows the header |
| Csv.Download | src/contexts/FileProcessingContext.tsx:167-187 | there is no text exactly when there is no analysed product |
| Csv.TakeUntil | src/contexts/FileProcessingContext.tsx:178-185 | reading a field up to the first ',' splits the line into a ','-free field, the ',' and the rest |
| Csv.TakeUntilPrefix | src/contexts/FileProcessingContext.tsx:179 | the first field reads back when it holds no ',' |
| Csv.ReadQuotedEscaped | src/contexts/FileProcessingContext.tsx:180 | the quoted name reads back as the original name, whatever quotes or commas it holds |
| Csv.ReadQuotedClose | src/contexts/FileProcessingContext.tsx:180 | a lone quote closes the quoted field |
| Csv.ReadQuotedDoubled | src/contexts/FileProcessingContext.tsx:180 | a doubled quote inside the name reads as one quote |
| Csv.ReadQuotedPlain | src/contexts/FileProcessingContext.tsx:180 | any other character of the name reads as itself |
| Csv.ParseRowLine | src/contexts/FileProcessingContext.tsx:177-186 | a product's line reads back as the product when its unquoted fields hold no ',' and no field holds a line break |
| Csv.RowLineSingleLine | src/contexts/FileProcessingContext.tsx:177-186 | when no field of a product holds a line break, neither does its line |
| Csv.ParseRowsOfRows | src/contexts/FileProcessingContext.tsx:177-186 | the product lines read back as the products, in order |
| Csv.LinesSingle | src/contexts/FileProcessingContext.tsx:175-187 | when no field of any product holds a line break, neither the header nor any product line holds one |
| Csv.CsvLines | src/contexts/FileProcessingContext.tsx:175-187 | when no field holds a line break, the text is the header line followed by one line per product, so n products give n + 1 lines |
| Csv.NoTrailingNewline | src/contexts/FileProcessingContext.tsx:187 | when there is a product and no field holds a line break, the text does not end with a line break |
| Csv.CsvRoundTrip | src/contexts/FileProcessingContext.tsx:173-187 | reading the export back gives the analysed products |
| Csv.MockNamesPlain | src/contexts/FileProcessingContext.tsx:85-87 | the provider, origin and type names hold no ',' and no line break |
| Csv.MockPricePlain | src/contexts/FileProcessingContext.tsx:84 | a mocked price holds no ',' and no line break |
| Csv.MockRowPlain | src/contexts/FileProcessingContext.tsx:82-88 | a mocked row can be read back when its product's id and name can |
| Csv.MockOutputReadsBack | src/contexts/FileProcessingContext.tsx:78-92 | the export of a mocked analysis reads back as that analysis |
| FileProcessing.ReferenceUploadedMessage | src/contexts/FileProcessingContext.tsx:211 | the success message is `Reference file "`, then the file's name, then `" uploaded successfully` |
| FileProcessing.DownloadFileName | src/contexts/FileProcessingContext.tsx:194 | the file name is `product_analysis_`, the text before the first 'T' of the ISO reading, and `.csv` |
| FileProcessing.DownloadFileNameOfReading | src/contexts/FileProcessingContext.tsx:194 | for a reading `<date>T<time>`, the name carries exactly the date |
| FileProcessing.FileProcessingStore.constructor | src/contexts/FileProcessingContext.tsx:95-100 | the store starts with no file, no sheets, no selection and empty lists |
| FileProcessing.FileProcessingStore.SetFile | src/contexts/FileProcessingContext.tsx:104-135 | no file clears sheets, selection and both product lists; a failed sheet read changes nothing else; otherwise the sheets are stored, and if there is one the first is selected and its products are stored unless their read fails; the toast matches each path; reference files are untouched |
| FileProcessing.FileProcessingStore.SetSheetNames | src/contexts/FileProcessingContext.tsx:233 | replaces the sheet list and nothing else |
| FileProcessing.FileProcessingStore.SetSelectedSheet | src/contexts/FileProcessingContext.tsx:234 | replaces the selection and nothing else |
| FileProcessing.FileProcessingStore.SetExtractedProducts | src/contexts/FileProcessingContext.tsx:235 | replaces the product list and nothing else |
| FileProcessing.FileProcessingStore.UpdateProduct | src/contexts/FileProcessingContext.tsx:137-141 | an index in range replaces that row only; the index equal to the length appends; a negative index leaves the rows as they are |
| FileProcessing.FileProcessingStore.DeleteProduct | src/contexts/FileProcessingContext.tsx:143-146 | the row at the index is removed and the rest keep their order; an index out of range changes nothing |
| FileProcessing.FileProcessingStore.AnalyzeProducts | src/contexts/FileProcessingContext.tsx:148-165 | with no products, "No products to analyze" and nothing changes; a failed analysis changes nothing; otherwise the analysed products become the analysis of the current products |
| FileProcessing.FileProcessingStore.DownloadCsv | src/contexts/FileProcessingContext.tsx:167-201 | no download, with the "No analyzed data to download" error, exactly when there is no analysed product; otherwise the CSV text under the dated name and the success message |
| FileProcessing.FileProcessingStore.AddReferenceFile | src/contexts/FileProcessingContext.tsx:203-212 | the new record is appended after the existing ones and the message names the file |
| FileProcessing.FileProcessingStore.RemoveReferenceFile | src/contexts/FileProcessingContext.tsx:214-216 | every record with the id is removed and the others are kept in order |

## Left out

- FileProcessing.FileProcessingStore.UpdateProduct: requires the index to be at most the list's length. A larger index leaves holes (`undefined` slots) in the JavaScript array, and a list of products cannot hold a hole.
- FileProcessing.FileProcessingStore.SetFile: treats the two awaited reads and the state updates as one step. Interleaving with other operations during the awaits is not modelled.
- FileProcessing.FileProcessingStore.AddReferenceFile: the code builds the new list from the `referenceFiles` captured at the last render, not from the latest state. Two calls before a re-render would keep only the last record. The model has each call read the current list. The one caller, the uploader on the reference page (src/pages/Reference.tsx:53), passes one file per event, so it never makes two calls within one render.
- FileProcessing.FileProcessingStore.RemoveReferenceFile: likewise filters the list captured at the last render, and the model filters the current list. Its caller is one button click per record (src/pages/Reference.tsx:105), one call per event.
- `isLoading` and `isAnalyzing`: these flags only drive spinners and are not modelled.
- The mocked extraction steps: `extractSheetsFromExcel` always yields the same four sheet names and `extractProductsFromSheet` the same five products, after a delay. Their outcomes are parameters of `SetFile`.
- The mocked analysis: its timer is not modelled. Its random draws are a parameter of `AnalyzeMock`.
- `console.warn` and `console.error` calls are not modelled.
- Toasts appear only as returned values. Their display and timing are not modelled.
- Products.AnalyzeMock: the mocked analysis never fails. The failure path of `analyzeProducts` is still modelled, with `Fetch.Rejected`.
- FileProcessing.FileProcessingStore.DownloadCsv: the Blob, the object URL and the hidden link click are browser I/O and are not modelled. The method returns the file name and the text instead.
- References.NewReferenceFile: `new Date()` is modelled as a millisecond count passed in by the caller.
- Files: a browser `File` is its name plus an opaque handle. Its contents are never read by the modelled code.
- Strings.ToLower: lower-cases ASCII letters only. No other character lower-cases to one of the letters of `xlsx` or `xls`, nor to '.'. The acceptance decision is therefore the same.
- FolderUploader: the drag-highlight flag is not modelled.
- FolderUploader: the progress bar, and the effect that clears the processing list two seconds after progress reaches 100, are not modelled. Both depend on `isProcessingFolder` and `folderProcessingProgress`, which the file context does not provide.
- FolderUploader.FolderUploaderState.HandleFolderUpload: `uploadFolderFiles` is recorded, not run. The file context does not define it, so what it would do is not part of this model.
- FileUploader: the drag-highlight flag and the button that opens the file dialog are not modelled. The input's `accept` attribute is only a hint to the browser's dialog and is not modelled.
- Language.LanguageStore.T: uses the corrected lookup `Language.Translate`, not the lookup as written. For a name inherited from `Object.prototype`, such as "constructor", the code returns `undefined` and the store returns the key (see "## Findings"; the code's result is `Language.TranslateAsWritten`).
- FileProcessing.FileProcessingStore.AnalyzeProducts: treats the awaited analysis and the state update as one step. The code analyses the product list it read before the await and stores that result afterwards. If a row is edited or deleted while the analysis runs, the analysed products no longer match the current rows; the model cannot express that interleaving.
- Layout: the navigation links and the page chrome are presentation only and are not modelled.

## Findings

| source | as written | input that shows it | evidently intended | confidence | as-written member | corrected member |
|---|---|---|---|---|---|---|
| src/contexts/LanguageContext.tsx:365 | the miss test is `!translations[key]`, which is false for names inherited from `Object.prototype`, so `translations[key][language]` reads `undefined` | `t("constructor")` in either language | a key the table does not define falls back to the key itself, and `t` always returns a string | not executed | Language.ConstructorKeyIsUndefined | Language.Translate |
