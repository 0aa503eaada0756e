/** The multi-file Excel uploader: from a selected or dropped list of files it
    keeps those whose name ends in ".xlsx" or ".xls" (case-sensitive), shows
    them as being processed, and hands the list on to `uploadFolderFiles`. */
module FolderUploader {
  import opened Strings
  import opened Seqs
  import opened Files
  import FileUploader

  /** The filter's test: `name.endsWith('.xlsx') || name.endsWith('.xls')`. */
  predicate HasExcelSuffix(name: string)
  {
    EndsWith(name, ".xlsx") || EndsWith(name, ".xls")
  }

  /** The Excel files of a list, in their original order. */
  function ExcelFiles(files: seq<File>): (r: seq<File>)
    ensures forall f :: multiset(r)[f] == if HasExcelSuffix(f.name) then multiset(files)[f] else 0
    ensures forall f :: f in r <==> f in files && HasExcelSuffix(f.name)
    ensures |r| <= |files|
  {
    var r := Filter(files, (f: File) => HasExcelSuffix(f.name));
    FilterCounts(files, (f: File) => HasExcelSuffix(f.name));
    FilterMembers(files, (f: File) => HasExcelSuffix(f.name));
    r
  }

  /** The kept files appear in the same order as in the input. */
  lemma ExcelFilesInOrder(files: seq<File>)
    ensures IsSubsequence(ExcelFiles(files), files)
  {
    FilterIsSubsequence(files, (f: File) => HasExcelSuffix(f.name));
  }

  /** A list where every file has an Excel suffix is kept whole. */
  lemma AllExcelKept(files: seq<File>)
    requires forall k :: 0 <= k < |files| ==> HasExcelSuffix(files[k].name)
    ensures ExcelFiles(files) == files
  {
    FilterKeepsAll(files, (f: File) => HasExcelSuffix(f.name));
  }

  /** Lower-casing keeps a suffix that is already in lower case. */
  lemma LowerKeepsSuffix(name: string, suffix: string)
    requires EndsWith(name, suffix)
    requires forall k :: 0 <= k < |suffix| ==> Lower(suffix[k]) == suffix[k]
    ensures EndsWith(ToLower(name), suffix)
  {
    var l, n := ToLower(name), |name| - |suffix|;
    forall k | 0 <= k < |suffix| ensures l[n..][k] == suffix[k] {
      assert name[n..][k] == suffix[k];
    }
  }

  /** Every file this filter keeps would also pass the single-file check: the
      folder filter is the stricter of the two. */
  lemma KeptFilesAccepted(name: string)
    requires HasExcelSuffix(name)
    ensures FileUploader.IsAccepted(name)
  {
    if EndsWith(name, ".xlsx") {
      LowerKeepsSuffix(name, ".xlsx");
    } else {
      LowerKeepsSuffix(name, ".xls");
    }
    FileUploader.AcceptedIffExcelSuffix(name);
  }

  /** Unlike the single-file uploader, this filter is case-sensitive: a name in
      upper case is accepted there and dropped here. */
  lemma CaseSensitiveUnlikeSingleUpload()
    ensures !HasExcelSuffix("A.XLSX")
    ensures FileUploader.HasExcelNameIgnoringCase("A.XLSX")
    ensures FileUploader.IsAccepted("A.XLSX")
  {
    var l := ToLower("A.XLSX");
    assert l == "a.xlsx";
    assert l[1..] == ".xlsx";
    FileUploader.AcceptedIffExcelSuffix("A.XLSX");
  }

  /** The component's state: the files shown as being processed, and the
      calls made to `uploadFolderFiles` (each with its argument), in order. */
  class FolderUploaderState {
    var processingFiles: seq<File>
    var uploads: seq<seq<File>>

    constructor ()
      ensures processingFiles == [] && uploads == []
    {
      processingFiles := [];
      uploads := [];
    }

    /** `handleFolderUpload`, for the file input's change event. When some file
        is an Excel file, the shown list becomes the Excel files and the whole,
        unfiltered list is handed to `uploadFolderFiles`; otherwise nothing
        happens. */
    method HandleFolderUpload(files: seq<File>)
      modifies this
      ensures ExcelFiles(files) == [] ==>
        processingFiles == old(processingFiles) && uploads == old(uploads)
      ensures ExcelFiles(files) != [] ==>
        processingFiles == ExcelFiles(files) && uploads == old(uploads) + [files]
    {
      if |files| > 0 {
        var excelFiles := ExcelFiles(files);
        if |excelFiles| > 0 {
          processingFiles := excelFiles;
          uploads := uploads + [files];
        }
      }
    }

    /** `handleDrop`, for files dropped on the area: the same filtering and
        the same upload decision as the file input. */
    method HandleDrop(files: seq<File>)
      modifies this
      ensures ExcelFiles(files) == [] ==>
        processingFiles == old(processingFiles) && uploads == old(uploads)
      ensures ExcelFiles(files) != [] ==>
        processingFiles == ExcelFiles(files) && uploads == old(uploads) + [files]
    {
      if |files| > 0 {
        var excelFiles := ExcelFiles(files);
        if |excelFiles| > 0 {
          processingFiles := excelFiles;
          uploads := uploads + [files];
        }
      }
    }
  }
}
