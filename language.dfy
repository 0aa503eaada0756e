/** The translation store: the active language, the constant table of
    English/Vietnamese strings, and the lookup `t(key)` that falls back to the
    key itself on a miss. */
module Language {

  datatype Lang = En | Vi

  /** One table entry; the datatype makes both strings present. */
  datatype Entry = Entry(en: string, vi: string)

  /** The string of an entry for a language (`translations[key][language]`). */
  function Pick(e: Entry, lang: Lang): string
  {
    match lang
    case En => e.en
    case Vi => e.vi
  }

  /** The language a fresh store starts in. */
  const DefaultLanguage: Lang := Vi

  /** Navigation. */
  const NavigationTable: map<string, Entry> := map[
    "nav.home" := Entry("Home", "Trang chủ"),
    "nav.reference" := Entry("Provider Files", "Tệp tham khảo")
  ]

  /** Step-by-step guide. */
  const GuideTable: map<string, Entry> := map[
    "guide.title" := Entry("How It Works", "Cách Thức Hoạt Động"),
    "guide.step1" := Entry("Step 1", "Bước 1"),
    "guide.step1.desc" := Entry("Upload Provider (References) File", "Tải lên tệp nhà cung cấp (Tham khảo)"),
    "guide.step2" := Entry("Step 2", "Bước 2"),
    "guide.step2.desc" := Entry("Upload Your File", "Tải lên tệp của bạn"),
    "guide.step3" := Entry("Step 3", "Bước 3"),
    "guide.step3.desc" := Entry("Modify Product and Confirm", "Chỉnh sửa sản phẩm và xác nhận"),
    "guide.step4" := Entry("Step 4", "Bước 4"),
    "guide.step4.desc" := Entry("Download Result", "Tải xuống kết quả")
  ]

  /** Home page. */
  const HomeTable: map<string, Entry> := map[
    "home.title" := Entry("AI-Powered Product Analysis", "Phân tích sản phẩm bằng AI"),
    "home.subtitle" := Entry("Extract and analyze product data from Excel files", "Trích xuất và phân tích dữ liệu sản phẩm từ tệp Excel"),
    "home.upload.title" := Entry("Upload Excel File", "Tải lên tệp Excel"),
    "home.upload.button" := Entry("Upload File", "Tải lên tệp"),
    "home.upload.dragdrop" := Entry("Drag and drop your file here or click to browse", "Kéo và thả tệp của bạn vào đây hoặc nhấp để duyệt"),
    "home.upload.dragdropMultiple" := Entry("Drop files here or click to browse", "Kéo thả các tệp Excel vào đây hoặc nhấp để duyệt"),
    "home.upload.supported" := Entry("Supported formats: .xlsx, .xls", "Định dạng được hỗ trợ: .xlsx, .xls"),
    "home.upload.processing" := Entry("Processing file", "Đang xử lý tệp"),
    "home.upload.pleaseWait" := Entry("Please wait while we extract data from your file...", "Vui lòng đợi trong khi chúng tôi trích xuất dữ liệu từ tệp của bạn..."),
    "home.upload.completed" := Entry("Processing completed!", "Đã hoàn thành xử lý!"),
    "home.sheet.title" := Entry("Sheet Selection", "Chọn Sheet"),
    "home.sheet.label" := Entry("Select Sheet", "Chọn Sheet"),
    "home.extracted.title" := Entry("Extracted Products", "Sản phẩm Đã Trích Xuất"),
    "home.extracted.id" := Entry("ID", "ID"),
    "home.extracted.name" := Entry("Product Name", "Tên Sản Phẩm"),
    "home.extracted.spec" := Entry("Specification", "Thông số kỹ thuật"),
    "home.extracted.unit" := Entry("Unit", "Đơn vị"),
    "home.extracted.mass" := Entry("Total Mass", "Khối lượng"),
    "home.extracted.category" := Entry("Category", "Danh mục"),
    "home.extracted.actions" := Entry("Actions", "Hành động"),
    "home.extracted.noData" := Entry("No products extracted. Please upload an Excel file to begin.", "Không có sản phẩm được trích xuất. Vui lòng tải lên tệp Excel để bắt đầu."),
    "home.actions.edit" := Entry("Edit", "Sửa"),
    "home.actions.delete" := Entry("Delete", "Xóa"),
    "home.actions.confirm" := Entry("Confirm & Analyze", "Xác nhận & Phân tích"),
    "home.actions.download" := Entry("Download CSV", "Tải xuống CSV"),
    "home.actions.downloadResults" := Entry("Download Analysis Results (CSV)", "Tải xuống Kết quả Phân tích (CSV)")
  ]

  /** Analysis results. */
  const AnalysisTable: map<string, Entry> := map[
    "analysis.title" := Entry("Analysis Results", "Kết quả phân tích"),
    "analysis.analyzing" := Entry("Analyzing products", "Đang phân tích sản phẩm"),
    "analysis.id" := Entry("ID", "ID"),
    "analysis.name" := Entry("Product Name", "Tên Sản Phẩm"),
    "analysis.price" := Entry("Price", "Giá"),
    "analysis.provider" := Entry("Provider", "Nhà cung cấp"),
    "analysis.origin" := Entry("Origin", "Xuất xứ"),
    "analysis.type" := Entry("Type", "Loại"),
    "analysis.noData" := Entry("No analysis results. Please confirm and analyze products first.", "Không có kết quả phân tích. Vui lòng xác nhận và phân tích sản phẩm trước."),
    "analysis.processingProducts" := Entry("Analyzing products", "Đang phân tích sản phẩm"),
    "analysis.productCount" := ProductCountMessage,
    "analysis.timeRemaining" := Entry("Estimated time remaining: {time} seconds", "Thời gian ước tính còn lại: {time} giây")
  ]

  /** Reference page. */
  const ReferenceTable: map<string, Entry> := map[
    "reference.title" := Entry("Provider Files", "Tệp Tham Khảo"),
    "reference.subtitle" := Entry("Upload Excel files for price reference information", "Tải lên tệp Excel cho thông tin tham khảo giá"),
    "reference.upload.title" := Entry("Upload Provider File", "Tải lên tệp tham khảo"),
    "reference.upload.button" := Entry("Upload File", "Tải lên tệp"),
    "reference.upload.files" := Entry("Upload Excel Files", "Tải lên các tệp Excel"),
    "reference.upload.folder" := Entry("Upload Folder", "Tải lên thư mục"),
    "reference.uploadFolder" := Entry("Upload Folder", "Tải lên thư mục"),
    "reference.upload.folder.select" := Entry("Select a folder", "Chọn một thư mục"),
    "reference.upload.processing" := Entry("Processing files", "Đang xử lý tệp"),
    "reference.required" := Entry("Provider files required", "Yêu cầu tệp nhà cung cấp"),
    "reference.goToUpload" := Entry("Upload Now", "Tải lên ngay"),
    "reference.files.title" := Entry("Uploaded Provider Files", "Tệp tham khảo đã tải lên"),
    "reference.files.name" := Entry("File Name", "Tên tệp"),
    "reference.files.date" := Entry("Upload Date", "Ngày tải lên"),
    "reference.files.actions" := Entry("Actions", "Hành động"),
    "reference.files.noData" := Entry("No provider files uploaded. Please upload Excel files to begin.", "Không có tệp tham khảo nào được tải lên. Vui lòng tải lên tệp Excel để bắt đầu."),
    "reference.filesUploaded" := Entry("{count} files uploaded", "{count} tệp đã được tải lên")
  ]

  /** Common. */
  const CommonTable: map<string, Entry> := map[
    "common.loading" := Entry("Loading...", "Đang tải..."),
    "common.error" := Entry("An error occurred", "Đã xảy ra lỗi"),
    "common.success" := Entry("Success", "Thành công"),
    "common.cancel" := Entry("Cancel", "Hủy"),
    "common.save" := Entry("Save", "Lưu"),
    "common.upload" := Entry("Upload", "Tải lên"),
    "common.download" := Entry("Download", "Tải xuống"),
    "common.delete" := Entry("Delete", "Xóa"),
    "common.backToHome" := Entry("Back to Home", "Trở về Trang chủ"),
    "common.continueToNextStep" := Entry("Continue to Next Step", "Tiếp tục đến bước tiếp theo"),
    "common.itemsPerPage" := Entry("Items per page", "Mục mỗi trang"),
    "common.of" := Entry("of", "của"),
    "common.page" := Entry("Page", "Trang"),
    "common.first" := Entry("First", "Đầu tiên"),
    "common.last" := Entry("Last", "Cuối cùng"),
    "common.next" := Entry("Next", "Tiếp theo"),
    "common.previous" := Entry("Previous", "Trước đó")
  ]

  /** The whole table. It is written as one object literal with six commented
      sections; their keys are disjoint, so the union is that literal. */
  const Translations: map<string, Entry> :=
    NavigationTable + GuideTable + HomeTable + AnalysisTable + ReferenceTable + CommonTable

  /** `t(key)`: the entry's string for the current language, or the key itself
      when the table has no entry for it. */
  function Translate(lang: Lang, key: string): (r: string)
    ensures key !in Translations ==> r == key
    ensures key in Translations ==> r == Pick(Translations[key], lang)
  {
    if key in Translations then Pick(Translations[key], lang) else key
  }

  /** The member names every object literal inherits from `Object.prototype`.
      Indexing the table with one of them yields the inherited member, which
      is truthy although the table has no entry of that name. */
  const InheritedNames: set<string> := {
    "constructor", "hasOwnProperty", "isPrototypeOf", "propertyIsEnumerable",
    "toString", "toLocaleString", "valueOf", "__proto__",
    "__defineGetter__", "__defineSetter__", "__lookupGetter__", "__lookupSetter__"
  }

  /** The two outcomes of reading a property in JavaScript that matter here. */
  datatype JsValue = Str(s: string) | Undefined

  /** `t(key)` as it is written: the miss test is the truthiness of
      `translations[key]`, so an inherited name passes it, and reading the
      language property off the inherited member gives `undefined`. */
  function TranslateAsWritten(lang: Lang, key: string): (r: JsValue)
    ensures key !in Translations && key !in InheritedNames ==> r == Str(key)
  {
    if key in Translations then Str(Pick(Translations[key], lang))
    else if key in InheritedNames then Undefined
    else Str(key)
  }

  /** "constructor" is not a key of any section. */
  lemma ConstructorNotInFirstSections()
    ensures "constructor" !in NavigationTable && "constructor" !in GuideTable
    ensures "constructor" !in HomeTable
  {
  }

  lemma ConstructorNotInLastSections()
    ensures "constructor" !in AnalysisTable && "constructor" !in ReferenceTable
    ensures "constructor" !in CommonTable
  {
  }

  /** Off the inherited names the code as written and the corrected lookup agree. */
  lemma AsWrittenAgreesElsewhere(lang: Lang, key: string)
    requires key !in InheritedNames
    ensures TranslateAsWritten(lang, key) == Str(Translate(lang, key))
  {
  }

  /** The discrepancy: `t("constructor")` returns `undefined` instead of the key,
      although its declared result type is a string. */
  lemma ConstructorKeyIsUndefined(lang: Lang)
    ensures TranslateAsWritten(lang, "constructor") == Undefined
    ensures Translate(lang, "constructor") == "constructor"
  {
    ConstructorNotInFirstSections();
    ConstructorNotInLastSections();
  }

  /** A missing key translates to itself whatever the language. */
  lemma MissIgnoresLanguage(key: string, a: Lang, b: Lang)
    requires key !in Translations
    ensures Translate(a, key) == Translate(b, key) == key
  {
  }

  /** The language switch in the page header: each language goes to the other. */
  function Toggle(lang: Lang): (r: Lang)
    ensures r != lang
  {
    if lang == En then Vi else En
  }

  /** Toggling twice restores the language. */
  lemma ToggleTwice(lang: Lang)
    ensures Toggle(Toggle(lang)) == lang
  {
  }

  /** `w` occurs in `s` starting at position `i`. */
  predicate OccursAt(s: string, w: string, i: nat)
  {
    i + |w| <= |s| && s[i..i + |w|] == w
  }

  /** `w` occurs somewhere in `s`. */
  ghost predicate Contains(s: string, w: string)
  {
    exists i: nat :: OccursAt(s, w, i)
  }

  /** The placeholder the product-count message leaves for its caller. */
  const CountPlaceholder: string := "{count}"

  /** The product-count message of the analysis section, written around its
      placeholder. */
  const ProductCountMessage: Entry :=
    Entry("Processing " + CountPlaceholder + " products (~5s per product)",
          "Đang xử lý " + CountPlaceholder + " sản phẩm (~5 giây mỗi sản phẩm)")

  lemma ProductCountInAnalysis()
    ensures "analysis.productCount" in AnalysisTable
    ensures AnalysisTable["analysis.productCount"] == ProductCountMessage
  {
  }

  lemma ProductCountNotOverridden()
    ensures "analysis.productCount" !in ReferenceTable
    ensures "analysis.productCount" !in CommonTable
  {
  }

  lemma ProductCountEntry()
    ensures "analysis.productCount" in Translations
    ensures Translations["analysis.productCount"] == ProductCountMessage
  {
    ProductCountInAnalysis();
    ProductCountNotOverridden();
  }

  /** The middle part of a concatenation occurs right after the first part. */
  lemma OccursInMiddle(a: string, b: string, c: string)
    ensures OccursAt(a + b + c, b, |a|)
  {
    assert (a + b + c)[|a|..|a| + |b|] == b;
  }

  /** The English message carries the placeholder at position 11. */
  lemma PlaceholderInEnglish()
    ensures OccursAt(ProductCountMessage.en, CountPlaceholder, 11)
  {
    OccursInMiddle("Processing ", CountPlaceholder, " products (~5s per product)");
  }

  /** The Vietnamese message carries the placeholder at position 11. */
  lemma PlaceholderInVietnamese()
    ensures OccursAt(ProductCountMessage.vi, CountPlaceholder, 11)
  {
    OccursInMiddle("Đang xử lý ", CountPlaceholder, " sản phẩm (~5 giây mỗi sản phẩm)");
  }

  /** The lookup performs no placeholder substitution: the product-count
      message comes back with its `{count}` placeholder in both languages. */
  lemma LookupKeepsPlaceholder(lang: Lang)
    ensures Contains(Translate(lang, "analysis.productCount"), CountPlaceholder)
  {
    ProductCountEntry();
    PlaceholderInEnglish();
    PlaceholderInVietnamese();
    assert OccursAt(Translate(lang, "analysis.productCount"), CountPlaceholder, 11);
  }

  /** The store: the active language, replaced by the setter. */
  class LanguageStore {
    var language: Lang

    constructor ()
      ensures language == DefaultLanguage
    {
      language := DefaultLanguage;
    }

    method SetLanguage(lang: Lang)
      modifies this
      ensures language == lang
    {
      language := lang;
    }

    /** The header button: switch to the other language. */
    method ToggleLanguage()
      modifies this
      ensures language == Toggle(old(language)) && language != old(language)
    {
      language := Toggle(language);
    }

    /** `t(key)` under the current language. */
    function T(key: string): (r: string)
      reads this
      ensures key !in Translations ==> r == key
      ensures key in Translations ==> r == Pick(Translations[key], language)
    {
      Translate(language, key)
    }
  }
}
