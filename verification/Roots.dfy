/** The isolate roots section up to the dispatch table, and the two walks over it. */
module Roots {
  import opened Wire

  /** The profile fields the roots section depends on. */
  datatype Profile = Profile(
    refUnsigned: bool,
    rootsPrefixRefCount: nat,
    objectStoreFieldCount: int,
    hasInitialFieldTable: bool,
    hasSharedFieldTable: bool,
    codeIndexOneBased: bool)

  /** The references of a Code object that the dispatch table needs. */
  datatype CodeRef = CodeRef(refId: int, ownerRef: int)

  /** The parsed snapshot, as far as the roots section reads or updates it. */
  class Snapshot {
    const fillEnd: int
    const codes: seq<CodeRef>
    var objectStoreRefs: Option<seq<int>>

    constructor (fillEnd: int, codes: seq<CodeRef>)
      ensures this.fillEnd == fillEnd && this.codes == codes && objectStoreRefs == None
    {
      this.fillEnd, this.codes := fillEnd, codes;
      objectStoreRefs := None;
    }

    /** Fills `objectStoreRefs` unless it is filled already; a version whose field count is not
        verified, or a fill that has not run, leaves everything alone. */
    method ReadObjectStoreRefs(data: Bytes, p: Profile) returns (error: Option<ReadError>)
      modifies this`objectStoreRefs
      ensures (objectStoreRefs, error) == ObjectStoreWalk(data, fillEnd, p, old(objectStoreRefs))
    {
      if objectStoreRefs.Some? || fillEnd <= 0 || p.objectStoreFieldCount <= 0 { return None; }
      var s := new Stream(data, fillEnd);
      var r := ReadPrefixFrom(s, p);
      if r.Err? { return Some(r.error); }
      objectStoreRefs := Some(r.value);
      return None;
    }
  }

  // ---------- the shared prefix ----------

  /** The roots prefix, read and dropped, then the object store's field references. */
  function ReadPrefix(s: Bytes, p: Profile): Parsed<seq<int>> {
    var (_, t) :- ReadRefs(s, p.rootsPrefixRefCount, p.refUnsigned);
    ReadRefs(t, if p.objectStoreFieldCount < 0 then 0 else p.objectStoreFieldCount, p.refUnsigned)
  }

  method ReadPrefixFrom(s: Stream, p: Profile) returns (r: Result<seq<int>>)
    requires s.Valid()
    modifies s`pos
    ensures s.Reads(ReadPrefix(old(s.Rest()), p), r)
  {
    var _ :- s.NextRefs(p.rootsPrefixRefCount, p.refUnsigned);
    r := s.NextRefs(if p.objectStoreFieldCount < 0 then 0 else p.objectStoreFieldCount, p.refUnsigned);
  }

  function PutPrefix(p: Profile, prefix: seq<nat>, fields: seq<nat>, k: Bytes): Bytes {
    PutRefs(prefix, p.refUnsigned, PutRefs(fields, p.refUnsigned, k))
  }

  /** What the profile says about the sizes of the two lists. */
  predicate PrefixFits(p: Profile, prefix: seq<nat>, fields: seq<nat>) {
    && |prefix| == p.rootsPrefixRefCount && |fields| == p.objectStoreFieldCount
    && FitRefs(prefix) && FitRefs(fields)
  }

  lemma PrefixRoundTrip(p: Profile, prefix: seq<nat>, fields: seq<nat>, k: Bytes)
    requires PrefixFits(p, prefix, fields)
    ensures ReadPrefix(PutPrefix(p, prefix, fields, k), p) == Done(fields, k)
  {
    RefsRoundTrip(prefix, p.refUnsigned, PutRefs(fields, p.refUnsigned, k));
    RefsRoundTrip(fields, p.refUnsigned, k);
  }

  /** What `ReadObjectStoreRefs` leaves in the field, and the error it returns. */
  function ObjectStoreWalk(data: Bytes, fillEnd: int, p: Profile, refs: Option<seq<int>>)
    : (Option<seq<int>>, Option<ReadError>)
  {
    if refs.Some? || fillEnd <= 0 || p.objectStoreFieldCount <= 0 then (refs, None)
    else
      match ReadPrefix(From(data, fillEnd), p)
      case Done(fields, _) => (Some(fields), None)
      case Fail(e, _) => (None, Some(e))
  }
}
