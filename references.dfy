/** The reference (provider) files of the processing store: records created
    on upload and removed by id. */
module References {
  import opened Seqs
  import opened Strings

  /** An uploaded reference file. `dateUploaded` is the clock reading, in
      milliseconds, taken when the record was made. */
  datatype ReferenceFile = ReferenceFile(id: string, name: string, dateUploaded: nat)

  /** The record made for an upload: the id is `Date.now().toString()`, the
      name is the file's name. Both clock readings are parameters. */
  function NewReferenceFile(fileName: string, now: nat, uploadedAt: nat): (r: ReferenceFile)
    ensures r.name == fileName && r.dateUploaded == uploadedAt
    ensures IsDigits(r.id) && DecimalValue(r.id) == now
  {
    DecimalRoundTrip(now);
    ReferenceFile(DecimalString(now), fileName, uploadedAt)
  }

  /** Two uploads get the same id exactly when they read the same millisecond. */
  lemma IdsCollideOnSameMillisecond(a: string, b: string, now: nat, later: nat, t: nat, u: nat)
    ensures NewReferenceFile(a, now, t).id == NewReferenceFile(b, later, u).id <==> now == later
  {
    DecimalInjective(now, later);
  }

  /** `files.filter(file => file.id !== id)`. */
  function RemoveById(files: seq<ReferenceFile>, id: string): (r: seq<ReferenceFile>)
    ensures forall e :: multiset(r)[e] == if e.id != id then multiset(files)[e] else 0
    ensures forall e :: e in r <==> e in files && e.id != id
  {
    FilterCounts(files, (e: ReferenceFile) => e.id != id);
    FilterMembers(files, (e: ReferenceFile) => e.id != id);
    Filter(files, (e: ReferenceFile) => e.id != id)
  }

  /** The entries that remain keep their original order. */
  lemma RemoveKeepsOrder(files: seq<ReferenceFile>, id: string)
    ensures IsSubsequence(RemoveById(files, id), files)
  {
    FilterIsSubsequence(files, (e: ReferenceFile) => e.id != id);
  }

  /** Removing an id that no entry carries changes nothing. */
  lemma RemoveAbsentId(files: seq<ReferenceFile>, id: string)
    requires forall k :: 0 <= k < |files| ==> files[k].id != id
    ensures RemoveById(files, id) == files
  {
    FilterKeepsAll(files, (e: ReferenceFile) => e.id != id);
  }

  /** Removing by the id of the entry just appended undoes the append, when
      no earlier entry shares that id. */
  lemma RemoveUndoesAppend(files: seq<ReferenceFile>, e: ReferenceFile)
    requires forall k :: 0 <= k < |files| ==> files[k].id != e.id
    ensures RemoveById(files + [e], e.id) == files
  {
    var keep := (x: ReferenceFile) => x.id != e.id;
    FilterConcat(files, [e], keep);
    FilterKeepsAll(files, keep);
    assert Filter([e], keep) == [];
  }

  /** Removing the same id twice is the same as removing it once. */
  lemma RemoveIdempotent(files: seq<ReferenceFile>, id: string)
    ensures RemoveById(RemoveById(files, id), id) == RemoveById(files, id)
  {
    var r := RemoveById(files, id);
    forall k | 0 <= k < |r| ensures r[k].id != id {
      assert r[k] in r;
    }
    RemoveAbsentId(r, id);
  }
}
