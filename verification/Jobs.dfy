/** The jobs table: its rows, the SQL statements that change them, and the store's methods. */
module Jobs {
  import opened Basics
  import opened Options
  import Scrape

  datatype Status = Queued | Processing | Completed | Failed

  datatype Row = Row(
    url: string, extract: seq<string>, options: JobOptions, status: Status,
    result: Option<Scrape.Result>, errorMsg: Option<string>, httpStatus: Option<int>,
    retriesUsed: int, durationMs: Option<int>,
    createdAt: int, updatedAt: int, completedAt: Option<int>)

  type Table = map<JobId, Row>

  predicate Terminal(s: Status) { s == Completed || s == Failed }

  // ---- Statements ---------------------------------------------------------------------------

  /** The three statements that change existing rows. */
  datatype Stmt =
    | Claim(id: JobId)
    | Update(id: JobId, status: Status, result: Option<Scrape.Result>, errorMsg: Option<string>, retries: int)
    | Cancel(id: JobId)

  /** The WHERE clause: claims and cancels are guarded by the status, updates are not. */
  predicate Hits(t: Table, s: Stmt)
  {
    s.id in t && (s.Update? || t[s.id].status == Queued)
  }

  /** CASE WHEN new IS NOT NULL THEN new ELSE old END. */
  function Keep<T>(new_: Option<T>, old_: Option<T>): Option<T>
  {
    if new_.Some? then new_ else old_
  }

  /** The SET clause. */
  function Set(r: Row, s: Stmt, at: int): Row
  {
    match s
    case Claim(_) => r.(status := Processing, updatedAt := at)
    case Cancel(_) => r.(status := Failed, errorMsg := Some("cancelled"), updatedAt := at)
    case Update(_, status, result, errorMsg, retries) =>
      r.(status := status,
         result := Keep(result, r.result),
         errorMsg := Keep(errorMsg, r.errorMsg),
         httpStatus := if result.Some? then Some(result.value.httpStatus) else r.httpStatus,
         durationMs := if result.Some? then Some(result.value.durationMs) else r.durationMs,
         retriesUsed := if Terminal(status) then retries else r.retriesUsed,
         completedAt := if Terminal(status) then Some(at) else r.completedAt,
         updatedAt := at)
  }

  function Exec(t: Table, s: Stmt, at: int): Table
  {
    if Hits(t, s) then t[s.id := Set(t[s.id], s, at)] else t
  }

  function NewRow(url: string, extract: seq<string>, options: JobOptions, at: int): Row
  {
    Row(url, extract, options, Queued, None, None, None, 0, None, at, at, None)
  }

  // ---- The store ----------------------------------------------------------------------------

  datatype CancelResult = Cancelled | NotFound | CannotCancel(status: Status)

  class Store {
    var rows: Table

    constructor ()
      ensures rows == map[]
    {
      rows := map[];
    }

    /** id stands for the database's gen_random_uuid(); a clash would violate the primary key. */
    method CreateJob(url: string, extract: seq<string>, options: JobOptions, id: JobId, at: int) returns (created: bool)
      modifies this
      ensures created <==> id !in old(rows)
      ensures rows == if created then old(rows)[id := NewRow(url, extract, options, at)] else old(rows)
    {
      if id in rows {
        return false;
      }
      rows := rows[id := Row(url, extract, options, Queued, None, None, None, 0, None, at, at, None)];
      return true;
    }

    method GetJob(id: JobId) returns (job: Option<Row>)
      ensures job == if id in rows then Some(rows[id]) else None
    {
      if id in rows {
        job := Some(rows[id]);
      } else {
        job := None;
      }
    }

    method ClaimJob(id: JobId, at: int) returns (claimed: bool)
      modifies this
      ensures claimed <==> Hits(old(rows), Claim(id))
      ensures rows == Exec(old(rows), Claim(id), at)
    {
      claimed := false;
      if id in rows && rows[id].status == Queued {
        rows := rows[id := rows[id].(status := Processing, updatedAt := at)];
        claimed := true;
      }
    }

    /** Returns false (not found) when no row was affected. */
    method UpdateJob(id: JobId, status: Status, result: Option<Scrape.Result>, errorMsg: Option<string>,
                     retriesUsed: int, at: int) returns (found: bool)
      modifies this
      ensures found <==> id in old(rows)
      ensures rows == Exec(old(rows), Update(id, status, result, errorMsg, retriesUsed), at)
    {
      var httpStatus, durationMs: Option<int> := None, None;
      var completedAt, retries: Option<int> := None, None;
      if result.Some? {
        httpStatus := Some(result.value.httpStatus);
        durationMs := Some(result.value.durationMs);
      }
      if status == Failed || status == Completed {
        retries := Some(retriesUsed);
      }
      if status == Completed || status == Failed {
        completedAt := Some(at);
      }
      if id !in rows {
        return false;
      }
      var r := rows[id];
      rows := rows[id := r.(
        status := status,
        result := if result.Some? then result else r.result,
        errorMsg := if errorMsg.Some? then errorMsg else r.errorMsg,
        httpStatus := if httpStatus.Some? then httpStatus else r.httpStatus,
        durationMs := if durationMs.Some? then durationMs else r.durationMs,
        retriesUsed := if retries.Some? then retries.value else r.retriesUsed,
        completedAt := if completedAt.Some? then completedAt else r.completedAt,
        updatedAt := at)];
      return true;
    }

    method CancelJob(id: JobId, at: int) returns (r: CancelResult)
      modifies this
      ensures rows == Exec(old(rows), Cancel(id), at)
      ensures r == Cancelled <==> Hits(old(rows), Cancel(id))
      ensures r == NotFound <==> id !in old(rows)
      ensures r.CannotCancel? ==> id in old(rows) && r.status == old(rows)[id].status != Queued
    {
      var affected := false;
      if id in rows && rows[id].status == Queued {
        rows := rows[id := rows[id].(status := Failed, errorMsg := Some("cancelled"), updatedAt := at)];
        affected := true;
      }
      if !affected {
        if id !in rows {
          return NotFound;
        }
        return CannotCancel(rows[id].status);
      }
      return Cancelled;
    }
  }

  // ---- What a poller sees -------------------------------------------------------------------

  datatype Meta = Meta(links: nat, headers: nat, paragraphs: nat, markdown: nat, pagesCrawled: int,
                       urls: nat, httpStatus: int, retriesUsed: int, truncated: bool)

  datatype Response = Response(
    id: JobId, status: Status, url: string, createdAt: int, completed: Option<int>, durationMs: Option<int>,
    results: Option<Scrape.Result>, meta: Option<Meta>, error: Option<string>)

  /** jobToResponse; the updated_at field is compared with itself and so never filled. */
  function JobToResponse(id: JobId, r: Row): Response
  {
    Response(id, r.status, r.url, r.createdAt, r.completedAt, r.durationMs,
             if r.status == Completed then r.result else None,
             if r.status == Completed && r.result.Some? then Some(MetaOf(r.result.value, r.retriesUsed)) else None,
             if r.status == Failed then r.errorMsg else None)
  }

  function MetaOf(r: Scrape.Result, retries: int): Meta
  {
    Meta(|r.links|, |r.headers|, |r.paragraphs|, |r.markdown|, r.pagesCrawled, |r.urls|, r.httpStatus, retries, r.truncated)
  }

  /** A response repeats its row; the counts are those of the results. */
  lemma ResponseShows(id: JobId, row: Row)
    ensures var r := JobToResponse(id, row);
            && r.id == id && r.status == row.status && r.url == row.url && r.createdAt == row.createdAt
            && r.completed == row.completedAt && r.durationMs == row.durationMs
            && r.results == (if row.status == Completed then row.result else None)
            && (r.meta.Some? <==> r.results.Some?)
            && r.error == (if row.status == Failed then row.errorMsg else None)
            && (r.meta.Some? ==>
                  var m, result := r.meta.value, row.result.value;
                  && m.links == |result.links| && m.headers == |result.headers| && m.paragraphs == |result.paragraphs|
                  && m.markdown == |result.markdown| && m.urls == |result.urls|
                  && m.pagesCrawled == result.pagesCrawled && m.httpStatus == result.httpStatus
                  && m.retriesUsed == row.retriesUsed && (m.truncated <==> result.truncated))
  {
  }
}
