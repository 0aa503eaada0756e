/** The single-file uploader: it takes the first file of a selection or a
    drop, checks its extension, and either hands it to the `onFileSelected`
    callback or reports an invalid format. */
module FileUploader {
  import opened Strings
  import opened Files

  const InvalidFormatMessage: string :=
    "Invalid file format. Please upload an Excel file (.xlsx, .xls)"

  const AllowedExtensions: seq<string> := ["xlsx", "xls"]

  /** `name.split('.').pop().toLowerCase()`: the text after the last '.',
      lower-cased; a name without a '.' is its own extension. */
  function Extension(name: string): (r: string)
    ensures '.' !in r
  {
    var pieces := Split(name, '.');
    SplitPiecesFree(name, '.');
    assert '.' !in pieces[|pieces| - 1];
    ToLower(Last(pieces))
  }

  /** The test in `validateAndProcessFile`: the extension is non-empty and on
      the allow-list. */
  predicate IsAccepted(name: string)
  {
    var ext := Extension(name);
    ext != "" && ext in AllowedExtensions
  }

  /** The same decision read as a suffix test: ignoring case, the name ends in
      ".xlsx" or ".xls", or it is exactly "xlsx" or "xls". */
  predicate HasExcelNameIgnoringCase(name: string)
  {
    var l := ToLower(name);
    l == "xlsx" || l == "xls" || EndsWith(l, ".xlsx") || EndsWith(l, ".xls")
  }

  /** Extension test and suffix test agree on every name. */
  lemma AcceptedIffExcelSuffix(name: string)
    ensures IsAccepted(name) <==> HasExcelNameIgnoringCase(name)
  {
    var l := ToLower(name);
    var ext := Extension(name);
    LowerLastPiece(name);
    assert ext == Last(Split(l, '.'));
    assert ['.'] + "xlsx" == ".xlsx" && ['.'] + "xls" == ".xls";
    LastPieceIs(l, '.', "xlsx");
    LastPieceIs(l, '.', "xls");
    assert IsAccepted(name) <==> ext == "xlsx" || ext == "xls";
  }

  /** What the uploader does to the outside world: the files passed to
      `onFileSelected`, in call order, and the error notifications shown. */
  datatype Effects = Effects(selected: seq<File>, errors: seq<string>)

  /** `validateAndProcessFile`: an accepted file is passed on once; a rejected
      one produces exactly one error and is not passed on. */
  function ValidateAndProcess(f: File): (r: Effects)
    ensures HasExcelNameIgnoringCase(f.name) ==> r == Effects([f], [])
    ensures !HasExcelNameIgnoringCase(f.name) ==> r == Effects([], [InvalidFormatMessage])
  {
    AcceptedIffExcelSuffix(f.name);
    if !IsAccepted(f.name) then Effects([], [InvalidFormatMessage])
    else Effects([f], [])
  }

  /** `handleFileChange` and `handleDrop`: only the first file of the list is
      looked at; an empty list does nothing. */
  function FirstFileOnly(files: seq<File>): (r: Effects)
    ensures files == [] ==> r == Effects([], [])
    ensures |r.selected| + |r.errors| == (if files == [] then 0 else 1)
    ensures r.selected != [] <==> files != [] && HasExcelNameIgnoringCase(files[0].name)
    ensures r.selected != [] ==> r.selected == [files[0]]
  {
    if |files| > 0 then ValidateAndProcess(files[0]) else Effects([], [])
  }

  /** Files after the first never influence the outcome. */
  lemma LaterFilesIgnored(a: seq<File>, b: seq<File>)
    requires a != [] && b != [] && a[0] == b[0]
    ensures FirstFileOnly(a) == FirstFileOnly(b)
  {
  }

  /** Upper-case extensions are accepted. */
  lemma UpperCaseAccepted()
    ensures IsAccepted("Book.XLSX")
  {
    AcceptedIffExcelSuffix("Book.XLSX");
    var l := ToLower("Book.XLSX");
    assert l[4] == '.' && l[5] == 'x' && l[6] == 'l' && l[7] == 's' && l[8] == 'x';
    assert l[4..] == ".xlsx";
  }

  /** Only the last segment counts. */
  lemma InnerExtensionIgnored()
    ensures !IsAccepted("report.xlsx.bak")
  {
    var a := "report.xlsx.bak";
    AcceptedIffExcelSuffix(a);
    assert ToLower(a)[|a| - 1] == 'k';
  }

  /** A name ending in '.' has an empty extension and is rejected. */
  lemma EmptyExtensionRejected()
    ensures !IsAccepted("report.")
  {
    LastPieceEmpty("report.", '.');
  }

  /** A name without any '.' is taken whole as the extension. */
  lemma BareExtensionAccepted()
    ensures IsAccepted("xls")
  {
    AcceptedIffExcelSuffix("xls");
    var l := ToLower("xls");
    assert l[0] == 'x' && l[1] == 'l' && l[2] == 's';
    assert l == "xls";
  }
}
