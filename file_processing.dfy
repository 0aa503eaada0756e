/** The file-processing store shared by the pages: the uploaded product file
    and its sheets, the extracted and analysed products, and the reference
    files. Each operation updates the store's fields in place. The mocked
    extraction and analysis steps, the clock and the random draws are
    parameters; notifications are returned as a `Toast`. */
module FileProcessing {
  import opened Options
  import opened Files
  import opened Strings
  import opened Products
  import opened References
  import opened Csv

  /** How an awaited call ended: with a value, or by throwing. */
  datatype Fetch<T> = Resolved(value: T) | Rejected

  /** A notification shown to the user. */
  datatype Toast = Success(message: string) | Failure(message: string)

  const FileProcessedMessage: string := "File processed successfully"
  const FileErrorMessage: string := "Error processing file. Please try again."
  const NoProductsMessage: string := "No products to analyze"
  const AnalyzedMessage: string := "Products analyzed successfully"
  const AnalyzeErrorMessage: string := "Error analyzing products. Please try again."
  const NoAnalyzedDataMessage: string := "No analyzed data to download"
  const CsvDownloadedMessage: string := "CSV downloaded successfully"

  /** `Reference file "<name>" uploaded successfully`. */
  function ReferenceUploadedMessage(name: string): (r: string)
    ensures |r| == |name| + 39
    ensures r[16..16 + |name|] == name
    ensures r[..16] == "Reference file \"" && r[16 + |name|..] == "\" uploaded successfully"
  {
    var prefix, suffix := "Reference file \"", "\" uploaded successfully";
    assert |prefix| == 16 && |suffix| == 23;
    var r := prefix + name + suffix;
    assert r[16..16 + |name|] == name;
    r
  }

  /** The name of the downloaded file, from the ISO-8601 clock reading: the
      date part, before the 'T'. */
  function DownloadFileName(isoNow: string): (r: string)
    ensures var date := Split(isoNow, 'T')[0];
      r == "product_analysis_" + date + ".csv" && 'T' !in date
  {
    SplitPiecesFree(isoNow, 'T');
    "product_analysis_" + Split(isoNow, 'T')[0] + ".csv"
  }

  /** The date part of a full reading is the text before its 'T'. */
  lemma DownloadFileNameOfReading(date: string, time: string)
    requires 'T' !in date
    ensures DownloadFileName(date + ['T'] + time) == "product_analysis_" + date + ".csv"
  {
    SplitCons(date, 'T', time);
  }

  class FileProcessingStore {
    var file: Option<File>
    var sheetNames: seq<string>
    var selectedSheet: string
    var extractedProducts: seq<Product>
    var analyzedProducts: seq<AnalyzedProduct>
    var referenceFiles: seq<ReferenceFile>

    /** The selected sheet is either none ("") or one of the listed sheets. */
    predicate SelectionValid()
      reads this
    {
      selectedSheet == "" || selectedSheet in sheetNames
    }

    constructor ()
      ensures file == None && sheetNames == [] && selectedSheet == ""
      ensures extractedProducts == [] && analyzedProducts == [] && referenceFiles == []
      ensures SelectionValid()
    {
      file := None;
      sheetNames := [];
      selectedSheet := "";
      extractedProducts := [];
      analyzedProducts := [];
      referenceFiles := [];
    }

    /** `setFile` followed by `handleFileUpload`. No file clears the sheets, the
        selection and both product lists. A file is read for its sheet names;
        when there is at least one, the first is selected and its products
        are read. `sheets` and `products` are how the two reads ended. */
    method SetFile(f: Option<File>, sheets: Fetch<seq<string>>, products: Fetch<seq<Product>>)
      returns (toast: Option<Toast>)
      modifies this
      ensures file == f && referenceFiles == old(referenceFiles)
      ensures f.None? ==>
        sheetNames == [] && selectedSheet == "" && extractedProducts == [] &&
        analyzedProducts == [] && toast == None && SelectionValid()
      ensures f.Some? ==> analyzedProducts == old(analyzedProducts)
      ensures f.Some? && sheets.Rejected? ==>
        sheetNames == old(sheetNames) && selectedSheet == old(selectedSheet) &&
        extractedProducts == old(extractedProducts) && toast == Some(Failure(FileErrorMessage))
      ensures f.Some? && sheets.Resolved? ==> sheetNames == sheets.value
      ensures f.Some? && sheets.Resolved? && sheets.value == [] ==>
        selectedSheet == old(selectedSheet) && extractedProducts == old(extractedProducts) &&
        toast == Some(Success(FileProcessedMessage))
      ensures f.Some? && sheets.Resolved? && sheets.value != [] ==>
        selectedSheet == sheets.value[0] && SelectionValid() &&
        (products.Resolved? ==>
          extractedProducts == products.value && toast == Some(Success(FileProcessedMessage))) &&
        (products.Rejected? ==>
          extractedProducts == old(extractedProducts) && toast == Some(Failure(FileErrorMessage)))
    {
      file := f;
      if f.None? {
        sheetNames := [];
        selectedSheet := "";
        extractedProducts := [];
        analyzedProducts := [];
        return None;
      }
      if sheets.Rejected? {
        return Some(Failure(FileErrorMessage));
      }
      sheetNames := sheets.value;
      if |sheets.value| > 0 {
        selectedSheet := sheets.value[0];
        if products.Rejected? {
          return Some(Failure(FileErrorMessage));
        }
        extractedProducts := products.value;
      }
      toast := Some(Success(FileProcessedMessage));
    }

    /** `setSheetNames`: replaces the sheet list. */
    method SetSheetNames(sheets: seq<string>)
      modifies this
      ensures sheetNames == sheets
      ensures file == old(file) && selectedSheet == old(selectedSheet)
      ensures extractedProducts == old(extractedProducts) && analyzedProducts == old(analyzedProducts)
      ensures referenceFiles == old(referenceFiles)
    {
      sheetNames := sheets;
    }

    /** `setSelectedSheet`: selects a sheet by name; nothing is re-extracted. */
    method SetSelectedSheet(sheet: string)
      modifies this
      ensures selectedSheet == sheet
      ensures file == old(file) && sheetNames == old(sheetNames)
      ensures extractedProducts == old(extractedProducts) && analyzedProducts == old(analyzedProducts)
      ensures referenceFiles == old(referenceFiles)
      ensures sheet in sheetNames ==> SelectionValid()
    {
      selectedSheet := sheet;
    }

    /** `setExtractedProducts`: replaces the product list. */
    method SetExtractedProducts(products: seq<Product>)
      modifies this
      ensures extractedProducts == products
      ensures file == old(file) && sheetNames == old(sheetNames) && selectedSheet == old(selectedSheet)
      ensures analyzedProducts == old(analyzedProducts) && referenceFiles == old(referenceFiles)
    {
      extractedProducts := products;
    }

    /** `updateProduct`: copies the list and writes `product` at `index`.
        Writing one past the end appends; a negative index names no element,
        so the list keeps its contents. */
    method UpdateProduct(index: int, product: Product)
      requires index <= |extractedProducts|
      modifies this
      ensures 0 <= index < |old(extractedProducts)| ==>
        extractedProducts == old(extractedProducts)[index := product]
      ensures index == |old(extractedProducts)| ==>
        extractedProducts == old(extractedProducts) + [product]
      ensures index < 0 ==> extractedProducts == old(extractedProducts)
      ensures file == old(file) && sheetNames == old(sheetNames) && selectedSheet == old(selectedSheet)
      ensures analyzedProducts == old(analyzedProducts) && referenceFiles == old(referenceFiles)
    {
      var current := extractedProducts;
      if index < 0 {
        extractedProducts := current;
        return;
      }
      var n := if index == |current| then |current| + 1 else |current|;
      var updated := new Product[n](k requires 0 <= k < n => if k < |current| then current[k] else product);
      updated[index] := product;
      extractedProducts := updated[..];
    }

    /** `deleteProduct`: keeps every position but `index`. */
    method DeleteProduct(index: int)
      modifies this
      ensures extractedProducts == DropIndex(old(extractedProducts), index)
      ensures 0 <= index < |old(extractedProducts)| ==>
        extractedProducts == old(extractedProducts)[..index] + old(extractedProducts)[index + 1..]
      ensures !(0 <= index < |old(extractedProducts)|) ==> extractedProducts == old(extractedProducts)
      ensures file == old(file) && sheetNames == old(sheetNames) && selectedSheet == old(selectedSheet)
      ensures analyzedProducts == old(analyzedProducts) && referenceFiles == old(referenceFiles)
    {
      DropIndexRemovesOne(extractedProducts, index);
      extractedProducts := DropIndex(extractedProducts, index);
    }

    /** `analyzeProducts`: refuses an empty product list; otherwise the
        analysis (`response`, how the mocked call ended) replaces the analysed
        products. */
    method AnalyzeProducts(response: Fetch<nat -> Draw>) returns (toast: Toast)
      modifies this
      ensures extractedProducts == [] ==>
        toast == Failure(NoProductsMessage) && analyzedProducts == old(analyzedProducts)
      ensures extractedProducts != [] && response.Rejected? ==>
        toast == Failure(AnalyzeErrorMessage) && analyzedProducts == old(analyzedProducts)
      ensures extractedProducts != [] && response.Resolved? ==>
        toast == Success(AnalyzedMessage) &&
        analyzedProducts == AnalyzeMock(extractedProducts, response.value)
      ensures file == old(file) && sheetNames == old(sheetNames) && selectedSheet == old(selectedSheet)
      ensures extractedProducts == old(extractedProducts) && referenceFiles == old(referenceFiles)
    {
      if |extractedProducts| == 0 {
        return Failure(NoProductsMessage);
      }
      if response.Rejected? {
        return Failure(AnalyzeErrorMessage);
      }
      analyzedProducts := AnalyzeMock(extractedProducts, response.value);
      toast := Success(AnalyzedMessage);
    }

    /** `downloadCsv`: nothing to download without analysed products;
        otherwise the CSV text of the analysed products, under a name carrying
        the date part of `isoNow`. The store is not changed. */
    method DownloadCsv(isoNow: string) returns (toast: Toast, download: Option<(string, string)>)
      ensures download.None? <==> analyzedProducts == []
      ensures download.None? ==> toast == Failure(NoAnalyzedDataMessage)
      ensures download.Some? ==>
        toast == Success(CsvDownloadedMessage) &&
        download.value == (DownloadFileName(isoNow), CsvText(analyzedProducts))
    {
      var text := Download(analyzedProducts);
      if text.None? {
        return Failure(NoAnalyzedDataMessage), None;
      }
      download := Some((DownloadFileName(isoNow), text.value));
      toast := Success(CsvDownloadedMessage);
    }

    /** `addReferenceFile`: appends a record for `f`, with `now` the
        `Date.now()` reading for its id and `uploadedAt` the upload time. */
    method AddReferenceFile(f: File, now: nat, uploadedAt: nat) returns (toast: Toast)
      modifies this
      ensures referenceFiles == old(referenceFiles) + [NewReferenceFile(f.name, now, uploadedAt)]
      ensures toast == Success(ReferenceUploadedMessage(f.name))
      ensures file == old(file) && sheetNames == old(sheetNames) && selectedSheet == old(selectedSheet)
      ensures extractedProducts == old(extractedProducts) && analyzedProducts == old(analyzedProducts)
    {
      referenceFiles := referenceFiles + [NewReferenceFile(f.name, now, uploadedAt)];
      toast := Success(ReferenceUploadedMessage(f.name));
    }

    /** `removeReferenceFile`: drops every record with the given id. */
    method RemoveReferenceFile(id: string)
      modifies this
      ensures referenceFiles == RemoveById(old(referenceFiles), id)
      ensures forall e :: e in referenceFiles <==> e in old(referenceFiles) && e.id != id
      ensures file == old(file) && sheetNames == old(sheetNames) && selectedSheet == old(selectedSheet)
      ensures extractedProducts == old(extractedProducts) && analyzedProducts == old(analyzedProducts)
    {
      referenceFiles := RemoveById(referenceFiles, id);
    }
  }
}
