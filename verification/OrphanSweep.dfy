/**
 The orphan sweep of one project's bucket, run to its end with no concurrent writer.

 Times are whole microseconds. Every store call that the sweep logs and survives may fail, per object.
 */
module OrphanSweep {
  import opened Common

  /** An object must be strictly older than this before the sweep may delete it. */
  const ORPHAN_MIN_AGE := MICROS_PER_DAY

  datatype Id = Id(key: string, shard: Option<string>)

  datatype Object = Object(size: nat, modified: int)

  type Bucket = map<Id, Object>

  /** One listed object. */
  datatype Entry = Entry(id: Id, size: nat, modified: int)

  datatype Kind = Content | Export | Temp

  /** What the references say: hashes held by a `blob_refs` row, tokens held by an `export_links` row. */
  datatype Refs = Refs(hashes: set<string>, tokens: set<string>)

  /** Objects whose reference re check, time re read or delete fails. */
  datatype Faults = Faults(recheck: set<Id>, reread: set<Id>, delete: set<Id>)

  const NO_FAULTS := Faults({}, {}, {})

  datatype Listing = Listed(entries: seq<Entry>) | NotSupported | ListFailed

  datatype Error = ListError | BulkReadError | OpenError

  datatype Sweep = Sweep(blobs: nat, bytes: nat, breakerTripped: bool)

  predicate IsContentKey(key: string) {
    |key| == 64 && forall c :: c in key ==> '0' <= c <= '9' || 'a' <= c <= 'f'
  }

  predicate IsExportKey(key: string) {
    "export:" < key
  }

  function OrphanKind(id: Id): Option<Kind> {
    if IsContentKey(id.key) then Some(Content)
    else if IsExportKey(id.key) then Some(Export)
    else if id.shard.Some? && ".tmp-" <= id.key then Some(Temp)
    else None
  }

  /** The reference re check of one candidate. */
  predicate StillUnreferenced(refs: Refs, id: Id) {
    match OrphanKind(id)
    case Some(Content) => id.key !in refs.hashes
    case Some(Export) => id.key[7..] !in refs.tokens
    case Some(Temp) => true
    case None => false
  }

  function Cutoff(now: int): int {
    now - ORPHAN_MIN_AGE
  }

  predicate ContentListed(e: Entry) {
    IsContentKey(e.id.key)
  }

  predicate ContentQualifies(e: Entry, cutoff: int, bulk: set<string>) {
    e.modified < cutoff && OrphanKind(e.id) == Some(Content) && e.id.key !in bulk
  }

  predicate OtherQualifies(e: Entry, cutoff: int) {
    e.modified < cutoff && (OrphanKind(e.id) == Some(Export) || OrphanKind(e.id) == Some(Temp))
  }

  function BreakerLimit(listed: seq<Entry>): nat {
    Max(|Filter(listed, ContentListed)| / 10, 1)
  }

  function ContentCandidates(listed: seq<Entry>, cutoff: int, bulk: set<string>): seq<Entry> {
    Filter(listed, e => ContentQualifies(e, cutoff, bulk))
  }

  function OtherCandidates(listed: seq<Entry>, cutoff: int): seq<Entry> {
    Filter(listed, e => OtherQualifies(e, cutoff))
  }

  predicate Tripped(listed: seq<Entry>, cutoff: int, bulk: set<string>) {
    |ContentCandidates(listed, cutoff, bulk)| > BreakerLimit(listed)
  }

  function Candidates(listed: seq<Entry>, cutoff: int, bulk: set<string>): seq<Entry> {
    (if Tripped(listed, cutoff, bulk) then [] else ContentCandidates(listed, cutoff, bulk)) + OtherCandidates(listed, cutoff)
  }

  /** Whether a candidate survives its two re checks and its delete goes through. */
  predicate Goes(e: Entry, bucket: Bucket, refs: Refs, cutoff: int, faults: Faults) {
    && e.id !in faults.recheck && StillUnreferenced(refs, e.id)
    && e.id in bucket && e.id !in faults.reread && bucket[e.id].modified < cutoff
    && e.id !in faults.delete
  }

  function Gone(candidates: seq<Entry>, bucket: Bucket, refs: Refs, cutoff: int, faults: Faults): seq<Entry> {
    Filter(candidates, e => Goes(e, bucket, refs, cutoff, faults))
  }

  function Ids(entries: seq<Entry>): set<Id> {
    set e | e in entries :: e.id
  }

  function Sizes(entries: seq<Entry>): nat {
    if entries == [] then 0 else Sizes(entries[..|entries| - 1]) + entries[|entries| - 1].size
  }

  predicate DistinctIds(entries: seq<Entry>) {
    forall i, j :: 0 <= i < j < |entries| ==> entries[i].id != entries[j].id
  }

  /** The listing loop: old enough objects, unreferenced content apart from exports and temp files. */
  method SplitListing(listed: seq<Entry>, cutoff: int, referenced: set<string>) returns (content: seq<Entry>, others: seq<Entry>)
    ensures content == ContentCandidates(listed, cutoff, referenced)
    ensures others == OtherCandidates(listed, cutoff)
  {
    content, others := [], [];
    for i := 0 to |listed|
      invariant content == ContentCandidates(listed[..i], cutoff, referenced)
      invariant others == OtherCandidates(listed[..i], cutoff)
    {
      var entry := listed[i];
      assert listed[..i + 1] == listed[..i] + [entry];
      FilterAppends(listed[..i], entry, e => ContentQualifies(e, cutoff, referenced));
      FilterAppends(listed[..i], entry, e => OtherQualifies(e, cutoff));
      if entry.modified >= cutoff {
        continue;
      }
      match OrphanKind(entry.id) {
        case Some(Content) =>
          if entry.id.key !in referenced {
            content := content + [entry];
          }
        case Some(_) =>
          others := others + [entry];
        case None =>
      }
    }
    assert listed[..|listed|] == listed;
  }

  class Store {
    var bucket: Bucket
    var refs: Refs

    constructor (bucket: Bucket, refs: Refs)
      ensures this.bucket == bucket && this.refs == refs
    {
      this.bucket, this.refs := bucket, refs;
    }

    /**
     `listing` and `bulk` are what the listing and the bulk reference read answered, whatever the
     bucket and the references hold; `bulk` is None when that read failed.
     */
    method SweepProjectOrphans(now: int, hasStore: bool, listing: Listing, bulk: Option<set<string>>, opens: bool, faults: Faults)
        returns (r: Result<Sweep, Error>)
      requires listing.Listed? ==> DistinctIds(listing.entries)
      modifies this`bucket
      ensures (!hasStore || listing.NotSupported?) ==> r == Ok(Sweep(0, 0, false))
      ensures r.Err? <==> hasStore && !listing.NotSupported? && (listing.ListFailed? || bulk.None? || !opens)
      ensures (r.Err? || !hasStore || !listing.Listed?) ==> bucket == old(bucket)
      ensures r.Ok? && hasStore && listing.Listed? ==>
        var cutoff := Cutoff(now);
        var gone := Gone(Candidates(listing.entries, cutoff, bulk.value), old(bucket), refs, cutoff, faults);
        && bucket == old(bucket) - Ids(gone)
        && r.value == Sweep(|gone|, Sizes(gone), Tripped(listing.entries, cutoff, bulk.value))
      ensures forall id :: id in bucket ==> id in old(bucket) && bucket[id] == old(bucket)[id]
      ensures forall id :: id in old(bucket) && id !in bucket ==>
        && id !in faults.recheck && id !in faults.reread && id !in faults.delete
        && old(bucket)[id].modified < now - 86_400_000_000
        && (|| (|id.key| == 64 && (forall c :: c in id.key ==> '0' <= c <= '9' || 'a' <= c <= 'f') && id.key !in refs.hashes)
            || (|id.key| > 7 && id.key[..7] == "export:" && id.key[7..] !in refs.tokens)
            || (id.shard.Some? && |id.key| >= 5 && id.key[..5] == ".tmp-"))
    {
      if !hasStore {
        return Ok(Sweep(0, 0, false));
      }
      if listing.NotSupported? {
        return Ok(Sweep(0, 0, false));
      }
      if listing.ListFailed? {
        return Err(ListError);
      }
      var listed := listing.entries;
      var cutoff := now - ORPHAN_MIN_AGE;
      if bulk.None? {
        return Err(BulkReadError);
      }
      var referenced := bulk.value;
      if !opens {
        return Err(OpenError);
      }

      var content, others := SplitListing(listed, cutoff, referenced);
      var limit := Max(|Filter(listed, ContentListed)| / 10, 1);
      var tripped := false;
      if |content| > limit {
        tripped := true;
        content := [];
      }
      var candidates := content + others;
      if candidates == [] {
        NothingGone(bucket, refs, cutoff, faults);
        return Ok(Sweep(0, 0, tripped));
      }
      DistinctCandidates(listed, cutoff, referenced);
      ghost var was := bucket;
      var blobs, bytes := DeleteCandidates(candidates, cutoff, faults);
      DeletedAreOldOrphans(listed, referenced, was, bucket, refs, now, faults);
      r := Ok(Sweep(blobs, bytes, tripped));
    }

    /** The per object loop: reference re check, time re read, delete. */
    method DeleteCandidates(candidates: seq<Entry>, cutoff: int, faults: Faults) returns (blobs: nat, bytes: nat)
      requires DistinctIds(candidates)
      modifies this`bucket
      ensures var gone := Gone(candidates, old(bucket), refs, cutoff, faults);
              bucket == old(bucket) - Ids(gone) && blobs == |gone| && bytes == Sizes(gone)
    {
      blobs, bytes := 0, 0;
      ghost var was, rs := bucket, refs;
      assert was - Ids([]) == was;
      for i := 0 to |candidates|
        invariant refs == rs
        invariant var gone := Gone(candidates[..i], was, rs, cutoff, faults);
                  bucket == was - Ids(gone) && blobs == |gone| && bytes == Sizes(gone)
      {
        var entry := candidates[i];
        GoneStep(candidates, i, was, rs, cutoff, faults);
        if entry.id in faults.recheck || !StillUnreferenced(refs, entry.id) {
          continue;
        }
        if entry.id !in bucket || entry.id in faults.reread || bucket[entry.id].modified >= cutoff {
          continue;
        }
        if entry.id in faults.delete {
          continue;
        }
        bucket := bucket - {entry.id};
        blobs := blobs + 1;
        bytes := bytes + entry.size;
      }
      assert candidates[..|candidates|] == candidates;
    }
  }

  /** One more candidate: its own fate is decided by the bucket the sweep started from. */
  lemma GoneStep(candidates: seq<Entry>, i: nat, was: Bucket, refs: Refs, cutoff: int, faults: Faults)
    requires i < |candidates| && DistinctIds(candidates)
    ensures var gone := Gone(candidates[..i], was, refs, cutoff, faults);
            var next := Gone(candidates[..i + 1], was, refs, cutoff, faults);
            var e := candidates[i];
            && e.id !in Ids(gone)
            && (Goes(e, was, refs, cutoff, faults) ==>
                  |next| == |gone| + 1 && Sizes(next) == Sizes(gone) + e.size && was - Ids(next) == (was - Ids(gone)) - {e.id})
            && (!Goes(e, was, refs, cutoff, faults) ==> next == gone)
  {
    var e, gone := candidates[i], Gone(candidates[..i], was, refs, cutoff, faults);
    assert candidates[..i + 1] == candidates[..i] + [e];
    GoneAppends(candidates[..i], e, was, refs, cutoff, faults);
    IdsAppend(gone, e);
    RemoveOneMore(was, Ids(gone), e.id);
  }

  lemma GoneAppends(xs: seq<Entry>, e: Entry, was: Bucket, refs: Refs, cutoff: int, faults: Faults)
    ensures Gone(xs + [e], was, refs, cutoff, faults)
         == Gone(xs, was, refs, cutoff, faults) + if Goes(e, was, refs, cutoff, faults) then [e] else []
  {}

  lemma NothingGone(was: Bucket, refs: Refs, cutoff: int, faults: Faults)
    ensures Gone([], was, refs, cutoff, faults) == []
    ensures was - Ids(Gone([], was, refs, cutoff, faults)) == was
  {}

  lemma RemoveOneMore(was: Bucket, ids: set<Id>, id: Id)
    ensures was - (ids + {id}) == (was - ids) - {id}
  {}

  lemma IdsAppend(entries: seq<Entry>, e: Entry)
    ensures Ids(entries + [e]) == Ids(entries) + {e.id}
    ensures Sizes(entries + [e]) == Sizes(entries) + e.size
  {}

  lemma {:induction false} DistinctFilter(xs: seq<Entry>, p: Entry -> bool)
    requires DistinctIds(xs)
    ensures DistinctIds(Filter(xs, p))
    decreases |xs|
  {
    if xs != [] {
      var front := xs[..|xs| - 1];
      DistinctFilter(front, p);
      assert forall e :: e in front ==> e.id != xs[|xs| - 1].id;
    }
  }

  lemma DistinctCandidates(listed: seq<Entry>, cutoff: int, bulk: set<string>)
    requires DistinctIds(listed)
    ensures DistinctIds(Candidates(listed, cutoff, bulk))
  {
    var content, others := ContentCandidates(listed, cutoff, bulk), OtherCandidates(listed, cutoff);
    DistinctFilter(listed, e => ContentQualifies(e, cutoff, bulk));
    DistinctFilter(listed, e => OtherQualifies(e, cutoff));
    assert forall a, b :: a in content && b in others ==> a.id != b.id;
  }

  // ---- what one sweep may delete, whatever the listing, the bulk read and the faults are

  /** Never another key form, never a young object, never one a reference still holds. */
  lemma OnlyOldUnreferencedObjectsGo(listed: seq<Entry>, bulk: set<string>, bucket: Bucket, refs: Refs, cutoff: int, faults: Faults, id: Id)
    requires id in Ids(Gone(Candidates(listed, cutoff, bulk), bucket, refs, cutoff, faults))
    ensures OrphanKind(id).Some? && id in bucket && bucket[id].modified < cutoff && StillUnreferenced(refs, id)
  {}

  /**
   What a deleted object is, key by key: more than 24 hours old and a content hash, an export or a temp file, the
   first two without a reference.
   */
  lemma DeletedAreOldOrphans(listed: seq<Entry>, bulk: set<string>, was: Bucket, now: Bucket, refs: Refs, time: int, faults: Faults)
    requires now == was - Ids(Gone(Candidates(listed, Cutoff(time), bulk), was, refs, Cutoff(time), faults))
    ensures forall id :: id in was && id !in now ==>
      && id !in faults.recheck && id !in faults.reread && id !in faults.delete
      && was[id].modified < time - 86_400_000_000
      && (|| (|id.key| == 64 && (forall c :: c in id.key ==> '0' <= c <= '9' || 'a' <= c <= 'f') && id.key !in refs.hashes)
          || (|id.key| > 7 && id.key[..7] == "export:" && id.key[7..] !in refs.tokens)
          || (id.shard.Some? && |id.key| >= 5 && id.key[..5] == ".tmp-"))
  {
    forall id | id in was && id !in now
      ensures OrphanKind(id).Some? && was[id].modified < Cutoff(time) && StillUnreferenced(refs, id)
    {
      OnlyOldUnreferencedObjectsGo(listed, bulk, was, refs, Cutoff(time), faults, id);
    }
  }

  /** A failing re check, re read or delete keeps its own object and changes nothing for the others. */
  lemma FaultsAreIsolated(candidates: seq<Entry>, bucket: Bucket, refs: Refs, cutoff: int, faults: Faults, e: Entry)
    ensures e in Gone(candidates, bucket, refs, cutoff, faults) <==>
      && e in Gone(candidates, bucket, refs, cutoff, NO_FAULTS)
      && e.id !in faults.recheck && e.id !in faults.reread && e.id !in faults.delete
  {}

  lemma GoneConcat(xs: seq<Entry>, ys: seq<Entry>, bucket: Bucket, refs: Refs, cutoff: int, faults: Faults)
    ensures Gone(xs + ys, bucket, refs, cutoff, faults)
         == Gone(xs, bucket, refs, cutoff, faults) + Gone(ys, bucket, refs, cutoff, faults)
  {
    FilterConcat(xs, ys, e => Goes(e, bucket, refs, cutoff, faults));
  }

  /**
   Whatever set the bulk reference read answers, one sweep deletes at most a tenth of the listed
   content blobs, or one; exports and temp files go as if the breaker did not exist.
   */
  lemma BreakerBoundsContentDeletes(listed: seq<Entry>, bulk: set<string>, bucket: Bucket, refs: Refs, cutoff: int, faults: Faults)
    ensures var gone := Gone(Candidates(listed, cutoff, bulk), bucket, refs, cutoff, faults);
            && |Filter(gone, ContentListed)| <= Max(|Filter(listed, ContentListed)| / 10, 1)
            && gone == Filter(gone, ContentListed) + Gone(OtherCandidates(listed, cutoff), bucket, refs, cutoff, faults)
  {
    var content := if Tripped(listed, cutoff, bulk) then [] else ContentCandidates(listed, cutoff, bulk);
    var others := OtherCandidates(listed, cutoff);
    assert |content| <= BreakerLimit(listed);
    assert forall e :: e in content ==> ContentListed(e);
    assert forall e :: e in others ==> !ContentListed(e);
    GoneByKind(content, others, bucket, refs, cutoff, faults);
  }

  lemma GoneByKind(content: seq<Entry>, others: seq<Entry>, bucket: Bucket, refs: Refs, cutoff: int, faults: Faults)
    requires forall e :: e in content ==> ContentListed(e)
    requires forall e :: e in others ==> !ContentListed(e)
    ensures var gone := Gone(content + others, bucket, refs, cutoff, faults);
            && |Filter(gone, ContentListed)| <= |content|
            && gone == Filter(gone, ContentListed) + Gone(others, bucket, refs, cutoff, faults)
  {
    var goneContent := Gone(content, bucket, refs, cutoff, faults);
    var goneOthers := Gone(others, bucket, refs, cutoff, faults);
    GoneConcat(content, others, bucket, refs, cutoff, faults);
    FilterConcat(goneContent, goneOthers, ContentListed);
    FilterNone(goneOthers, ContentListed);
    FilterAll(goneContent, ContentListed);
    assert goneContent + [] == goneContent;
  }

  // ---- one sweep with no concurrent writer and no failure

  /** The listing names every object of the bucket once, with its size and time. */
  ghost predicate IsListing(listed: seq<Entry>, bucket: Bucket) {
    && DistinctIds(listed)
    && (forall e :: e in listed ==> e.id in bucket && bucket[e.id] == Object(e.size, e.modified))
    && (forall id :: id in bucket ==> Entry(id, bucket[id].size, bucket[id].modified) in listed)
  }

  function ContentObjects(bucket: Bucket): set<Id> {
    set id | id in bucket && IsContentKey(id.key)
  }

  function OldUnreferencedContent(bucket: Bucket, refs: Refs, cutoff: int): set<Id> {
    set id | id in ContentObjects(bucket) && bucket[id].modified < cutoff && id.key !in refs.hashes
  }

  predicate BreakerTrips(bucket: Bucket, refs: Refs, cutoff: int) {
    |OldUnreferencedContent(bucket, refs, cutoff)| > Max(|ContentObjects(bucket)| / 10, 1)
  }

  /** The objects a sweep with cutoff `cutoff` is meant to delete. */
  function Orphans(bucket: Bucket, refs: Refs, cutoff: int): set<Id> {
    set id | id in bucket && bucket[id].modified < cutoff && OrphanKind(id).Some? && StillUnreferenced(refs, id)
      && (IsContentKey(id.key) ==> !BreakerTrips(bucket, refs, cutoff))
  }

  function ObjectSize(o: Object): nat {
    o.size
  }

  ghost function TotalSize(bucket: Bucket): nat {
    SumBy(bucket, ObjectSize)
  }

  lemma {:induction false} DistinctCount(entries: seq<Entry>)
    requires DistinctIds(entries)
    ensures |Ids(entries)| == |entries|
    decreases |entries|
  {
    if entries != [] {
      var front, e := entries[..|entries| - 1], entries[|entries| - 1];
      assert entries == front + [e];
      DistinctCount(front);
      IdsAppend(front, e);
      assert e.id !in Ids(front);
    }
  }

  /** Count and size of what goes leave the bucket's totals by exactly as much. */
  lemma {:induction false} RemovalConserves(gone: seq<Entry>, bucket: Bucket)
    requires DistinctIds(gone)
    requires forall e :: e in gone ==> e.id in bucket && bucket[e.id].size == e.size
    ensures |bucket - Ids(gone)| + |gone| == |bucket|
    ensures TotalSize(bucket - Ids(gone)) + Sizes(gone) == TotalSize(bucket)
    decreases |gone|
  {
    if gone == [] {
      assert bucket - Ids(gone) == bucket;
    } else {
      var front, e := gone[..|gone| - 1], gone[|gone| - 1];
      assert gone == front + [e];
      RemovalConserves(front, bucket);
      IdsAppend(front, e);
      RemoveOneMore(bucket, Ids(front), e.id);
      assert e.id !in Ids(front);
      RemoveOneSize(bucket - Ids(front), e.id);
    }
  }

  lemma RemoveOneSize(bucket: Bucket, id: Id)
    requires id in bucket
    ensures |bucket - {id}| == |bucket| - 1
    ensures TotalSize(bucket) == bucket[id].size + TotalSize(bucket - {id})
  {
    SumSplit(bucket, ObjectSize, id);
    assert (bucket - {id}).Keys == bucket.Keys - {id};
    assert |bucket - {id}| == |(bucket - {id}).Keys| && |bucket| == |bucket.Keys|;
  }

  lemma ContentCount(listed: seq<Entry>, bucket: Bucket)
    requires IsListing(listed, bucket)
    ensures |Filter(listed, ContentListed)| == |ContentObjects(bucket)|
  {
    var all := Filter(listed, ContentListed);
    DistinctFilter(listed, ContentListed);
    DistinctCount(all);
    assert Ids(all) == ContentObjects(bucket) by {
      forall id | id in ContentObjects(bucket) ensures id in Ids(all) {
        assert Entry(id, bucket[id].size, bucket[id].modified) in all;
      }
    }
  }

  lemma ListingCounts(listed: seq<Entry>, bucket: Bucket, refs: Refs, cutoff: int)
    requires IsListing(listed, bucket)
    ensures |Filter(listed, ContentListed)| == |ContentObjects(bucket)|
    ensures |ContentCandidates(listed, cutoff, refs.hashes)| == |OldUnreferencedContent(bucket, refs, cutoff)|
    ensures Tripped(listed, cutoff, refs.hashes) <==> BreakerTrips(bucket, refs, cutoff)
  {
    ContentCount(listed, bucket);
    StaleCount(listed, bucket, refs, cutoff);
  }

  lemma StaleCount(listed: seq<Entry>, bucket: Bucket, refs: Refs, cutoff: int)
    requires IsListing(listed, bucket)
    ensures |ContentCandidates(listed, cutoff, refs.hashes)| == |OldUnreferencedContent(bucket, refs, cutoff)|
  {
    var aged := ContentCandidates(listed, cutoff, refs.hashes);
    DistinctFilter(listed, e => ContentQualifies(e, cutoff, refs.hashes));
    DistinctCount(aged);
    assert Ids(aged) == OldUnreferencedContent(bucket, refs, cutoff) by {
      forall id | id in OldUnreferencedContent(bucket, refs, cutoff) ensures id in Ids(aged) {
        assert Entry(id, bucket[id].size, bucket[id].modified) in aged;
      }
    }
  }

  /** The answer of one sweep over a faithful listing with nothing failing. */
  function CleanGone(listed: seq<Entry>, bucket: Bucket, refs: Refs, cutoff: int): seq<Entry> {
    Gone(Candidates(listed, cutoff, refs.hashes), bucket, refs, cutoff, NO_FAULTS)
  }

  /**
   The sweep deletes exactly the strictly older than 24 hours temp files, rowless exports and,
   breaker not tripped, unreferenced content blobs; `blobs` and `bytes` are their number and sizes.
   */
  lemma SweepDeletesExactlyTheOrphans(listed: seq<Entry>, bucket: Bucket, refs: Refs, now: int)
    requires IsListing(listed, bucket)
    ensures var gone := CleanGone(listed, bucket, refs, Cutoff(now));
            && Ids(gone) == Orphans(bucket, refs, Cutoff(now))
            && |gone| == |Orphans(bucket, refs, Cutoff(now))|
            && TotalSize(bucket) == TotalSize(bucket - Ids(gone)) + Sizes(gone)
            && |bucket| == |bucket - Ids(gone)| + |gone|
  {
    var cutoff := Cutoff(now);
    var candidates := Candidates(listed, cutoff, refs.hashes);
    var gone := CleanGone(listed, bucket, refs, cutoff);
    ListingCounts(listed, bucket, refs, cutoff);
    DistinctCandidates(listed, cutoff, refs.hashes);
    DistinctFilter(candidates, e => Goes(e, bucket, refs, cutoff, NO_FAULTS));
    DistinctCount(gone);
    CandidatesListed(listed, cutoff, refs.hashes);
    forall id | id in Orphans(bucket, refs, cutoff) ensures id in Ids(gone) {
      OrphanIsGone(listed, bucket, refs, cutoff, id);
    }
    forall id | id in Ids(gone) ensures id in Orphans(bucket, refs, cutoff) {
      GoneIsOrphan(listed, bucket, refs, cutoff, id);
    }
    assert Ids(gone) == Orphans(bucket, refs, cutoff);
    RemovalConserves(gone, bucket);
  }

  lemma CandidatesListed(listed: seq<Entry>, cutoff: int, bulk: set<string>)
    ensures forall e :: e in Candidates(listed, cutoff, bulk) ==> e in listed
  {}

  lemma OrphanIsGone(listed: seq<Entry>, bucket: Bucket, refs: Refs, cutoff: int, id: Id)
    requires IsListing(listed, bucket) && id in Orphans(bucket, refs, cutoff)
    ensures id in Ids(CleanGone(listed, bucket, refs, cutoff))
  {
    ListingCounts(listed, bucket, refs, cutoff);
    var e := Entry(id, bucket[id].size, bucket[id].modified);
    assert e in listed;
    assert e in Candidates(listed, cutoff, refs.hashes) by {
      if IsContentKey(id.key) {
        assert e in ContentCandidates(listed, cutoff, refs.hashes);
      } else {
        assert e in OtherCandidates(listed, cutoff);
      }
    }
    assert e in CleanGone(listed, bucket, refs, cutoff);
  }

  lemma GoneIsOrphan(listed: seq<Entry>, bucket: Bucket, refs: Refs, cutoff: int, id: Id)
    requires IsListing(listed, bucket) && id in Ids(CleanGone(listed, bucket, refs, cutoff))
    ensures id in Orphans(bucket, refs, cutoff)
  {
    ListingCounts(listed, bucket, refs, cutoff);
    OnlyOldUnreferencedObjectsGo(listed, refs.hashes, bucket, refs, cutoff, NO_FAULTS, id);
  }

  /** The three key forms exclude each other. */
  lemma KeyForms(id: Id)
    ensures OrphanKind(id) == Some(Content) <==> |id.key| == 64 && forall c :: c in id.key ==> '0' <= c <= '9' || 'a' <= c <= 'f'
    ensures OrphanKind(id) == Some(Export) <==> |id.key| > 7 && id.key[..7] == "export:"
    ensures OrphanKind(id) == Some(Temp) <==> id.shard.Some? && |id.key| >= 5 && id.key[..5] == ".tmp-"
  {
    if |id.key| > 7 && id.key[..7] == "export:" {
      assert id.key[1] == id.key[..7][1] == 'x';
      assert id.key[1] in id.key;
      assert !IsContentKey(id.key);
    }
    if |id.key| >= 5 && id.key[..5] == ".tmp-" {
      assert id.key[0] == id.key[..5][0] == '.';
      assert id.key[0] in id.key;
    }
  }

  /**
   The same key by key and both ways: with nothing failing and a faithful listing an object goes if and only if it is
   more than 24 hours old and an unreferenced hash while at most a tenth of the hashes, or one, are such, an export
   without its row, or a temp file.
   */
  lemma CleanSweepDeletesIff(listed: seq<Entry>, bucket: Bucket, refs: Refs, now: int, hashes: set<Id>, stale: set<Id>, id: Id)
    requires IsListing(listed, bucket) && id in bucket
    requires forall i :: i in hashes <==>
      i in bucket && |i.key| == 64 && forall c :: c in i.key ==> '0' <= c <= '9' || 'a' <= c <= 'f'
    requires forall i :: i in stale <==> i in hashes && bucket[i].modified < now - 86_400_000_000 && i.key !in refs.hashes
    ensures Tripped(listed, Cutoff(now), refs.hashes) <==> |stale| > 1 && |stale| > |hashes| / 10
    ensures id in Ids(CleanGone(listed, bucket, refs, Cutoff(now))) <==>
      && bucket[id].modified < now - 86_400_000_000
      && (|| (id in stale && (|stale| <= 1 || |stale| <= |hashes| / 10))
          || (|id.key| > 7 && id.key[..7] == "export:" && id.key[7..] !in refs.tokens)
          || (id.shard.Some? && |id.key| >= 5 && id.key[..5] == ".tmp-"))
  {
    assert hashes == ContentObjects(bucket);
    assert stale == OldUnreferencedContent(bucket, refs, Cutoff(now));
    ListingCounts(listed, bucket, refs, Cutoff(now));
    var orphan := id in Orphans(bucket, refs, Cutoff(now));
    assert id in Ids(CleanGone(listed, bucket, refs, Cutoff(now))) <==> orphan by {
      SweepDeletesExactlyTheOrphans(listed, bucket, refs, now);
    }
    KeyForms(id);
    OrphanByKind(bucket, refs, now, stale, |hashes|, id);
  }

  lemma OrphanByKind(bucket: Bucket, refs: Refs, now: int, stale: set<Id>, hashes: nat, id: Id)
    requires id in bucket && stale == OldUnreferencedContent(bucket, refs, Cutoff(now)) && hashes == |ContentObjects(bucket)|
    ensures id in Orphans(bucket, refs, Cutoff(now)) <==>
      && bucket[id].modified < now - 86_400_000_000
      && (|| (id in stale && (|stale| <= 1 || |stale| <= hashes / 10))
          || (OrphanKind(id) == Some(Export) && id.key[7..] !in refs.tokens)
          || OrphanKind(id) == Some(Temp))
  {}

  /** A second sweep at the same time deletes nothing, whether or not the breaker tripped in the first. */
  lemma SecondSweepDeletesNothing(listed: seq<Entry>, bucket: Bucket, refs: Refs, now: int, again: seq<Entry>)
    requires IsListing(listed, bucket)
    requires IsListing(again, bucket - Ids(CleanGone(listed, bucket, refs, Cutoff(now))))
    ensures CleanGone(again, bucket - Ids(CleanGone(listed, bucket, refs, Cutoff(now))), refs, Cutoff(now)) == []
  {
    var cutoff := Cutoff(now);
    var left := bucket - Ids(CleanGone(listed, bucket, refs, cutoff));
    SweepDeletesExactlyTheOrphans(listed, bucket, refs, now);
    NoOrphansRemain(bucket, refs, cutoff);
    SweepDeletesExactlyTheOrphans(again, left, refs, now);
  }

  /** Removing the orphans makes no new ones: content blobs spared by a tripped breaker are spared again. */
  lemma NoOrphansRemain(bucket: Bucket, refs: Refs, cutoff: int)
    ensures Orphans(bucket - Orphans(bucket, refs, cutoff), refs, cutoff) == {}
  {
    var left := bucket - Orphans(bucket, refs, cutoff);
    if BreakerTrips(bucket, refs, cutoff) {
      assert ContentObjects(left) == ContentObjects(bucket);
      assert OldUnreferencedContent(left, refs, cutoff) == OldUnreferencedContent(bucket, refs, cutoff);
    }
  }
}
