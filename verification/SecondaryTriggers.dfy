/** TriggerDataSecondary of triggering.go. */
module SecondaryTriggers {
  import opened Common
  import opened EdgeMultiSpec

  /** One full-length record for each secondary trigger frame; None is a nil record, which is not
      removed from this list. */
  method TriggerDataSecondary(raw: seq<RawType>, frame0: int, npre: int, nsamp: int, frames: seq<int>)
    returns (records: seq<Option<DataRecord>>)
    requires 0 <= npre <= nsamp
    requires forall i :: 0 <= i < |frames| ==> frames[i] - frame0 - npre + nsamp <= |raw|
    ensures |records| == |frames|
    ensures forall i :: 0 <= i < |frames| ==> records[i] == MakeRecord(raw, frame0, RecordSpec(frames[i], npre, nsamp))
  {
    records := [];
    while |records| < |frames|
      invariant |records| <= |frames|
      invariant forall i :: 0 <= i < |records| ==>
                  records[i] == MakeRecord(raw, frame0, RecordSpec(frames[i], npre, nsamp))
    {
      records := records + [MakeRecord(raw, frame0, RecordSpec(frames[|records|], npre, nsamp))];
    }
  }

  /** Where a whole record fits, the receiver cuts a complete record out of its own samples. */
  lemma WholeGivesRecord(raw: seq<RawType>, frame0: int, f: int, npre: int, nsamp: int)
    requires 0 <= npre <= nsamp && WholeRecord(f, frame0, |raw|, npre, nsamp)
    ensures var a := f - frame0 - npre;
            MakeRecord(raw, frame0, RecordSpec(f, npre, nsamp)) == Some(DataRecord(raw[a..a + nsamp], f, npre))
  {
  }
}
