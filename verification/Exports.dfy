/**
 Single use export links, one request or sweep at a time: the download route, its opportunistic reap and
 the export sweep of one project.

 The meta store is one database per volume, or one database shared by every volume. A delete by token names
 no volume, so on a shared database probing any project reaches the row.
 */
module Exports {
  import opened Common

  type Project = string

  type Token = string

  datatype Row = Row(volume: Project, expiresAt: int)

  /** The instant a delete compares against; `Any` is the empty text that precedes every instant. */
  datatype Instant = At(micros: int) | Any

  datatype Response = Served | NotFound | ServerError

  /** What fails while every project is probed: listing them, or the database of some. */
  datatype Faults = Faults(list: bool, volumes: set<Project>)

  datatype ServeFaults = ServeFaults(read: bool, delete: bool)

  /** What fails in each part of one request. */
  datatype RequestFaults = RequestFaults(claim: Faults, serve: ServeFaults, reap: Faults, reapBlob: bool)

  datatype Failure = ListFailed | VolumeFailed(volume: Project)

  predicate Outlives(row: Row, now: Instant) {
    now.Any? || row.expiresAt > now.micros
  }

  /** The lower case hyphenated form of a UUID, the only one minted. */
  predicate IsCanonical(token: Token) {
    && |token| == 36
    && forall i :: 0 <= i < 36 ==>
      if i == 8 || i == 13 || i == 18 || i == 23 then token[i] == '-'
      else '0' <= token[i] <= '9' || 'a' <= token[i] <= 'f'
  }

  ghost predicate LowerHex(s: string) {
    forall i :: 0 <= i < |s| ==> '0' <= s[i] <= '9' || 'a' <= s[i] <= 'f'
  }

  /** Five groups of 8, 4, 4, 4 and 12 lower case hexadecimal digits. */
  lemma CanonicalInPlainTerms(a: string, b: string, c: string, d: string, e: string)
    requires |a| == 8 && |b| == 4 && |c| == 4 && |d| == 4 && |e| == 12
    ensures IsCanonical(a + "-" + b + "-" + c + "-" + d + "-" + e)
      <==> LowerHex(a) && LowerHex(b) && LowerHex(c) && LowerHex(d) && LowerHex(e)
  {
    var t := a + "-" + b + "-" + c + "-" + d + "-" + e;
    assert |t| == 36 && t[8] == '-' && t[13] == '-' && t[18] == '-' && t[23] == '-';
    assert forall i :: 0 <= i < 8 ==> a[i] == t[i];
    assert forall i :: 0 <= i < 4 ==> b[i] == t[9 + i];
    assert forall i :: 0 <= i < 4 ==> c[i] == t[14 + i];
    assert forall i :: 0 <= i < 4 ==> d[i] == t[19 + i];
    assert forall i :: 0 <= i < 12 ==> e[i] == t[24 + i];
  }

  /** Nothing else is a token. */
  lemma CanonicalHasFiveGroups(token: Token)
    requires IsCanonical(token)
    ensures |token| == 36
    ensures token == token[..8] + "-" + token[9..13] + "-" + token[14..18] + "-" + token[19..23] + "-" + token[24..]
  {}

  /** Whether probing `p` reaches `row`. */
  predicate Visible(shared: bool, row: Row, p: Project) {
    shared || row.volume == p
  }

  predicate Hits(shared: bool, rows: map<Token, Row>, token: Token, p: Project, now: Instant) {
    token in rows && Visible(shared, rows[token], p) && Outlives(rows[token], now)
  }

  /** The position of the first project, probing without failure, whose delete takes the row; the length if none does. */
  function FirstHit(projects: seq<Project>, shared: bool, rows: map<Token, Row>, token: Token, now: Instant, failing: set<Project>): (n: nat)
    ensures n <= |projects|
    ensures n < |projects| ==> projects[n] !in failing && Hits(shared, rows, token, projects[n], now)
    ensures forall i :: 0 <= i < n ==> projects[i] in failing || !Hits(shared, rows, token, projects[i], now)
  {
    if projects == [] then 0
    else if projects[0] !in failing && Hits(shared, rows, token, projects[0], now) then 0
    else
      assert forall i :: 1 <= i < |projects| ==> projects[i] == projects[1..][i - 1];
      1 + FirstHit(projects[1..], shared, rows, token, now, failing)
  }

  class AppState {
    const shared: bool
    const projects: seq<Project>
    var rows: map<Token, Row>
    var blobs: set<(Project, Token)>

    constructor (shared: bool, projects: seq<Project>, rows: map<Token, Row>, blobs: set<(Project, Token)>)
      ensures this.shared == shared && this.projects == projects && this.rows == rows && this.blobs == blobs
    {
      this.shared, this.projects, this.rows, this.blobs := shared, projects, rows, blobs;
    }

    /** The atomic delete and its affected row count. */
    method DeleteRow(p: Project, token: Token, now: Instant, fails: bool) returns (r: Result<bool, Failure>)
      modifies this`rows
      ensures r.Err? <==> fails
      ensures r.Ok? ==> r.value == Hits(shared, old(rows), token, p, now)
      ensures r == Ok(true) <==>
        && !fails && token in old(rows) && (shared || old(rows)[token].volume == p)
        && (now.Any? || old(rows)[token].expiresAt > now.micros)
      ensures rows == if r == Ok(true) then old(rows) - {token} else old(rows)
    {
      if fails {
        return Err(VolumeFailed(p));
      }
      if token in rows && (shared || rows[token].volume == p) && (now.Any? || rows[token].expiresAt > now.micros) {
        rows := rows - {token};
        return Ok(true);
      }
      r := Ok(false);
    }

    /** The project whose probe deleted a live row of `token`, if any. */
    method Claim(token: Token, now: int, faults: Faults) returns (r: Result<Option<Project>, Failure>)
      modifies this`rows
      ensures !IsCanonical(token) ==> r == Ok(None) && rows == old(rows)
      ensures IsCanonical(token) && faults.list ==> r == Err(ListFailed) && rows == old(rows)
      ensures IsCanonical(token) && !faults.list ==>
        var n := FirstHit(projects, shared, old(rows), token, At(now), faults.volumes);
        && (n < |projects| ==> r == Ok(Some(projects[n])) && rows == old(rows) - {token})
        && (n == |projects| ==>
              rows == old(rows) && (r.Err? <==> exists p :: p in projects && p in faults.volumes) && (r.Ok? ==> r.value.None?))
    {
      if !IsCanonical(token) {
        return Ok(None);
      }
      if faults.list {
        return Err(ListFailed);
      }
      var failure: Option<Failure> := None;
      var i := 0;
      while i < |projects|
        invariant i <= |projects| && rows == old(rows)
        invariant forall k :: 0 <= k < i ==> projects[k] in faults.volumes || !Hits(shared, rows, token, projects[k], At(now))
        invariant failure.Some? <==> exists k :: 0 <= k < i && projects[k] in faults.volumes
      {
        var hit := DeleteRow(projects[i], token, At(now), projects[i] in faults.volumes);
        match hit {
          case Ok(true) => return Ok(Some(projects[i]));
          case Ok(false) =>
          case Err(e) => failure := Some(e);
        }
        i := i + 1;
      }
      r := if failure.Some? then Err(failure.value) else Ok(None);
    }

    /** Reads and deletes the archive of a claimed row in the volume the claim named. */
    method Serve(volume: Project, token: Token, faults: ServeFaults) returns (r: Response)
      modifies this`blobs
      ensures r == if !faults.read && (volume, token) in old(blobs) then Served else ServerError
      ensures blobs == if r == Served && !faults.delete then old(blobs) - {(volume, token)} else old(blobs)
    {
      if faults.read || (volume, token) !in blobs {
        return ServerError;
      }
      if !faults.delete {
        blobs := blobs - {(volume, token)};
      }
      r := Served;
    }

    /** The cleanup after a claim that found no live row: any row still there goes, with its blob if that can be deleted. */
    method ReapExpired(token: Token, faults: Faults, blobFails: bool)
      modifies this
      ensures !IsCanonical(token) || faults.list ==> rows == old(rows) && blobs == old(blobs)
      ensures IsCanonical(token) && !faults.list ==>
        var n := FirstHit(projects, shared, old(rows), token, Any, faults.volumes);
        && (n < |projects| ==>
              && rows == old(rows) - {token}
              && blobs == if blobFails then old(blobs) else old(blobs) - {(projects[n], token)})
        && (n == |projects| ==> rows == old(rows) && blobs == old(blobs))
    {
      if !IsCanonical(token) || faults.list {
        return;
      }
      var i := 0;
      while i < |projects|
        invariant i <= |projects| && rows == old(rows) && blobs == old(blobs)
        invariant forall k :: 0 <= k < i ==> projects[k] in faults.volumes || !Hits(shared, rows, token, projects[k], Any)
      {
        var hit := DeleteRow(projects[i], token, Any, projects[i] in faults.volumes);
        if hit == Ok(true) {
          if !blobFails {
            blobs := blobs - {(projects[i], token)};
          }
          return;
        }
        i := i + 1;
      }
    }

    /** One request; the claim, the reap and the serving fail independently. */
    method Download(token: Token, now: int, f: RequestFaults) returns (r: Response)
      modifies this
      ensures r == Served ==> token in old(rows) && old(rows)[token].expiresAt > now && token !in rows
      ensures !IsCanonical(token) ==> r == NotFound && rows == old(rows) && blobs == old(blobs)
      ensures IsCanonical(token) && f.claim.list ==> r == ServerError && rows == old(rows) && blobs == old(blobs)
      ensures IsCanonical(token) && !f.claim.list ==>
        var n := FirstHit(projects, shared, old(rows), token, At(now), f.claim.volumes);
        && (n < |projects| ==>
              && rows == old(rows) - {token}
              && r == (if !f.serve.read && (projects[n], token) in old(blobs) then Served else ServerError)
              && blobs == if r == Served && !f.serve.delete then old(blobs) - {(projects[n], token)} else old(blobs))
        && (n == |projects| ==> r == if exists p :: p in projects && p in f.claim.volumes then ServerError else NotFound)
      ensures r == ServerError && token in rows ==> rows == old(rows)
      ensures r == ServerError ==> blobs == old(blobs)
      ensures IsCanonical(token) && r == NotFound && !f.reap.list ==>
        var n := FirstHit(projects, shared, old(rows), token, Any, f.reap.volumes);
        blobs == if n < |projects| && !f.reapBlob then old(blobs) - {(projects[n], token)} else old(blobs)
      ensures forall b :: b in blobs ==> b in old(blobs)
      ensures forall b :: b in old(blobs) && b !in blobs ==> b.1 == token && b.0 in projects && token in old(rows) && token !in rows
      ensures IsCanonical(token) && r == NotFound && token in old(rows) && old(rows)[token].volume in projects ==>
        && old(rows)[token].expiresAt <= now
        && (token !in rows <==> !f.reap.list && exists p :: p in projects && p !in f.reap.volumes && Visible(shared, old(rows)[token], p))
      ensures forall t :: t != token ==> (t in rows <==> t in old(rows)) && (t in rows ==> rows[t] == old(rows)[t])
    {
      ghost var was := rows;
      var claimed := Claim(token, now, f.claim);
      match claimed {
        case Ok(Some(volume)) =>
          r := Serve(volume, token, f.serve);
        case Ok(None) =>
          ReapExpired(token, f.reap, f.reapBlob);
          r := NotFound;
        case Err(_) =>
          r := ServerError;
      }
    }

    /**
     Expired rows of one volume and their blobs; `expired` is None when they cannot be read. A blob that cannot be
     deleted does not keep its row.
     */
    method SweepProjectExports(p: Project, now: int, expired: Option<seq<Token>>, blobFaults: set<Token>, rowFaults: set<Token>)
        returns (r: Result<nat, Failure>)
      requires expired.Some? ==>
        && (forall i, j :: 0 <= i < j < |expired.value| ==> expired.value[i] != expired.value[j])
        && (forall t :: t in expired.value <==> t in rows && rows[t].volume == p && rows[t].expiresAt <= now)
      modifies this
      ensures expired.None? ==> r == Err(VolumeFailed(p)) && rows == old(rows) && blobs == old(blobs)
      ensures expired.Some? ==>
        && rows == old(rows) - Gone(expired.value, rowFaults)
        && blobs == old(blobs) - BlobsGone(p, expired.value, blobFaults)
        && r == Ok(|Gone(expired.value, rowFaults)|)
      ensures expired.Some? ==>
        && (forall t :: t in old(rows) ==>
              (t !in rows <==> old(rows)[t].volume == p && old(rows)[t].expiresAt <= now && t !in rowFaults))
        && (forall b :: b in old(blobs) ==>
              (b !in blobs <==> b.0 == p && b.1 in old(rows) && old(rows)[b.1].volume == p && old(rows)[b.1].expiresAt <= now
                                && b.1 !in blobFaults))
    {
      if expired.None? {
        return Err(VolumeFailed(p));
      }
      var swept := DeleteExpired(p, expired.value, blobFaults, rowFaults);
      r := Ok(swept);
    }

    /** The blob, then the row, of each listed token. */
    method DeleteExpired(p: Project, list: seq<Token>, blobFaults: set<Token>, rowFaults: set<Token>) returns (swept: nat)
      requires forall i, j :: 0 <= i < j < |list| ==> list[i] != list[j]
      requires forall t :: t in list ==> t in rows
      modifies this
      ensures rows == old(rows) - Gone(list, rowFaults)
      ensures blobs == old(blobs) - BlobsGone(p, list, blobFaults)
      ensures swept == |Gone(list, rowFaults)|
    {
      swept := 0;
      ghost var was, held := rows, blobs;
      assert rows - Gone(list[..0], rowFaults) == rows;
      for i := 0 to |list|
        invariant rows == was - Gone(list[..i], rowFaults) && swept == |Gone(list[..i], rowFaults)|
        invariant blobs == held - BlobsGone(p, list[..i], blobFaults)
      {
        var token := list[i];
        GoneAppends(list, i, rowFaults, was);
        BlobsGoneAppends(p, list, i, blobFaults);
        if token !in blobFaults {
          blobs := blobs - {(p, token)};
        }
        if token !in rowFaults {
          rows := rows - {token};
          swept := swept + 1;
        }
      }
      assert list[..|list|] == list;
    }
  }

  function BlobsGone(p: Project, expired: seq<Token>, blobFaults: set<Token>): set<(Project, Token)> {
    set t | t in expired && t !in blobFaults :: (p, t)
  }

  lemma BlobsGoneAppends(p: Project, expired: seq<Token>, i: nat, blobFaults: set<Token>)
    requires i < |expired|
    ensures BlobsGone(p, expired[..i + 1], blobFaults)
         == BlobsGone(p, expired[..i], blobFaults) + if expired[i] in blobFaults then {} else {(p, expired[i])}
  {}

  lemma GoneAppends(expired: seq<Token>, i: nat, rowFaults: set<Token>, rows: map<Token, Row>)
    requires i < |expired| && forall j :: 0 <= j < i ==> expired[j] != expired[i]
    ensures var token, before, after := expired[i], Gone(expired[..i], rowFaults), Gone(expired[..i + 1], rowFaults);
            if token in rowFaults then after == before
            else |after| == |before| + 1 && rows - after == (rows - before) - {token}
  {
    var token := expired[i];
    assert expired[..i + 1] == expired[..i] + [token];
    assert Gone(expired[..i + 1], rowFaults) == Gone(expired[..i], rowFaults) + if token in rowFaults then {} else {token};
  }

  function Gone(expired: seq<Token>, rowFaults: set<Token>): set<Token> {
    set t | t in expired && t !in rowFaults
  }

  /**
   A live link of a deployment where nothing fails is served exactly when its archive is in the volume the
   claim names: always with one database per volume, but on a shared database only for the first project.
   Either way the link is used up.
   */
  lemma LiveLinkServedIff(shared: bool, projects: seq<Project>, row: Row, token: Token, now: int, blobs: set<(Project, Token)>)
    requires row.volume in projects && row.expiresAt > now
    requires forall p :: (p, token) in blobs <==> p == row.volume
    ensures var n := FirstHit(projects, shared, map[token := row], token, At(now), {});
            && n < |projects|
            && ((projects[n], token) in blobs <==> !shared || projects[0] == row.volume)
  {}

  /** Of two downloads of one link only the first can be served, whatever the projects, faults and instants. */
  method DownloadTwice(state: AppState, token: Token, first: int, second: int, f: RequestFaults, g: RequestFaults)
      returns (a: Response, b: Response)
    modifies state
    ensures !(a == Served && b == Served)
  {
    a := state.Download(token, first, f);
    b := state.Download(token, second, g);
  }
}
