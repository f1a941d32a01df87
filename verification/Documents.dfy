/**
 Document lifecycle on the API side: upload, and the application of task results.
 */
module Documents {
  import opened Outbox
  import opened Options

  datatype Status = Pending | Processing | Completed | Failed

  predicate Terminal(st: Status) {
    st.Completed? || st.Failed?
  }

  type Docs = map<string, Status>

  function Lookup(docs: Docs, id: string): Option<Status> {
    if id in docs then Some(docs[id]) else None
  }

  /** What a task result does to a document seen in a given state: drop it, or write a status. */
  function Decide(seen: Option<Status>, status: string): Option<Status> {
    if seen.None? || Terminal(seen.value) then None
    else if status == "completed" then Some(Completed)
    else if status == "failed" then Some(Failed)
    else None
  }

  /** An UPDATE by id: no row, no effect. */
  function Written(docs: Docs, id: string, st: Status): Docs {
    if id in docs then docs[id := st] else docs
  }

  function Applied(docs: Docs, id: string, status: string): Docs {
    var d := Decide(Lookup(docs, id), status);
    if d.None? then docs else Written(docs, id, d.value)
  }

  /** Results for any documents, applied one after the other. */
  datatype Verdict = Verdict(document: string, status: string)

  function AppliedAll(docs: Docs, rs: seq<Verdict>): Docs {
    if rs == [] then docs else AppliedAll(Applied(docs, rs[0].document, rs[0].status), rs[1..])
  }

  /** The first completed or failed among the results for `id`. */
  function FirstDecisive(rs: seq<Verdict>, id: string): Option<Status> {
    if rs == [] then None
    else if rs[0].document == id && rs[0].status == "completed" then Some(Completed)
    else if rs[0].document == id && rs[0].status == "failed" then Some(Failed)
    else FirstDecisive(rs[1..], id)
  }

  /** The first decisive result wins: whatever else arrives, for whichever documents, changes nothing. */
  lemma {:induction false} FirstResultWins(docs: Docs, rs: seq<Verdict>, id: string)
    ensures AppliedAll(docs, rs).Keys == docs.Keys
    ensures id in docs ==>
      AppliedAll(docs, rs)[id]
        == if Terminal(docs[id]) || FirstDecisive(rs, id).None? then docs[id] else FirstDecisive(rs, id).value
  {
    if rs != [] {
      FirstResultWins(Applied(docs, rs[0].document, rs[0].status), rs[1..], id);
    }
  }

  lemma {:induction false} FirstOfConcat(rs: seq<Verdict>, more: seq<Verdict>, id: string)
    ensures FirstDecisive(rs + more, id)
         == if FirstDecisive(rs, id).Some? then FirstDecisive(rs, id) else FirstDecisive(more, id)
  {
    if rs == [] {
      assert rs + more == more;
    } else {
      FirstOfConcat(rs[1..], more, id);
      assert (rs + more)[1..] == rs[1..] + more;
    }
  }

  lemma {:induction false} FirstIsSome(rs: seq<Verdict>, r: Verdict, id: string)
    requires r in rs && FirstDecisive([r], id).Some?
    ensures FirstDecisive(rs, id).Some?
  {
    if rs[0] != r {
      FirstIsSome(rs[1..], r, id);
    }
  }

  /** A result delivered again, at any later point, leaves every document as it would have been. */
  lemma RedeliveryIsHarmless(docs: Docs, before: seq<Verdict>, r: Verdict, after: seq<Verdict>)
    requires r in before
    ensures AppliedAll(docs, before + [r] + after) == AppliedAll(docs, before + after)
  {
    var again, once := AppliedAll(docs, before + [r] + after), AppliedAll(docs, before + after);
    FirstResultWins(docs, before + [r] + after, r.document);
    FirstResultWins(docs, before + after, r.document);
    forall id <- docs ensures again[id] == once[id] {
      FirstResultWins(docs, before + [r] + after, id);
      FirstResultWins(docs, before + after, id);
      FirstOfConcat(before + [r], after, id);
      FirstOfConcat(before, [r], id);
      FirstOfConcat(before, after, id);
      if FirstDecisive([r], id).Some? {
        FirstIsSome(before, r, id);
      }
    }
  }

  // ---- task.result envelopes -----------------------------------------------------------

  /** The document_id of a result: absent, not a UUID, or a document. */
  datatype DocumentRef = NoDocument | BadDocument | Document(id: string)

  datatype Message = Message(kind: string, payload: Option<ResultPayload>)

  datatype ResultPayload = ResultPayload(status: string, document: DocumentRef)

  const TYPE_TASK_RESULT := "task.result"

  /** The documents once a message has been handled, with the database up. */
  function AfterMessage(docs: Docs, m: Message): Docs {
    if m.kind != TYPE_TASK_RESULT || m.payload.None? || !m.payload.value.document.Document? then docs
    else Applied(docs, m.payload.value.document.id, m.payload.value.status)
  }

  datatype Disposition = Acked | Requeued

  /** How an upload ended; every failure leaves no trace in the database. */
  datatype UploadResult = Uploaded | Rejected | StorageError | BuildError | DatabaseError

  /** What fails during an upload. */
  datatype UploadFate = UploadFate(fileOk: bool, mimeOk: bool, size: int,
                                   storeOk: bool, buildOk: bool, dbOk: bool, deleteOk: bool)

  class DocumentService {
    var docs: Docs
    var rows: seq<Row>
    var objects: set<string>

    /** Document row, outbox row and the move to processing, all or nothing. */
    method CreateWithTask(doc: string, envelope: string, dbOk: bool) returns (ok: bool)
      requires doc !in docs
      modifies this`docs, this`rows
      ensures ok == dbOk
      ensures ok ==> docs == old(docs)[doc := Processing] && rows == old(rows) + [NewRow(envelope, doc)]
      ensures ok ==> var row := rows[|rows| - 1]; row.id == envelope && row.document == doc && !row.sent && row.attempts == 0
      ensures !ok ==> docs == old(docs) && rows == old(rows)
    {
      var before, beforeRows := docs, rows;
      docs := docs[doc := Pending];
      rows := rows + [NewRow(envelope, doc)];
      docs := docs[doc := Processing];
      if !dbOk {
        docs, rows := before, beforeRows;
      }
      return dbOk;
    }

    method Upload(doc: string, path: string, envelope: string, fate: UploadFate) returns (r: UploadResult)
      requires doc !in docs && path !in objects
      modifies this
      ensures r.Uploaded? <==>
        fate.fileOk && fate.mimeOk && fate.size > 0 && fate.storeOk && fate.buildOk && fate.dbOk
      ensures r.Uploaded? ==>
        && docs == old(docs)[doc := Processing] && rows == old(rows) + [NewRow(envelope, doc)]
        && objects == old(objects) + {path}
      ensures !r.Uploaded? ==> docs == old(docs) && rows == old(rows)
      ensures !r.Uploaded? && objects != old(objects) ==>
        objects == old(objects) + {path} && !fate.deleteOk && (r.BuildError? || r.DatabaseError?)
    {
      if !fate.fileOk || !fate.mimeOk || fate.size <= 0 {
        return Rejected;
      }
      if !fate.storeOk {
        return StorageError;
      }
      objects := objects + {path};
      if !fate.buildOk {
        Discard(path, fate.deleteOk);
        return BuildError;
      }
      var ok := CreateWithTask(doc, envelope, fate.dbOk);
      if !ok {
        Discard(path, fate.deleteOk);
        return DatabaseError;
      }
      return Uploaded;
    }

    /** Best-effort removal of the uploaded object. */
    method Discard(path: string, deleteOk: bool)
      modifies this`objects
      ensures objects == if deleteOk then old(objects) - {path} else old(objects)
    {
      if deleteOk {
        objects := objects - {path};
      }
    }

    /** False: no such row. */
    method UpdateStatus(id: string, st: Status) returns (found: bool)
      modifies this`docs
      ensures found <==> id in old(docs)
      ensures docs == if found then old(docs)[id := st] else old(docs)
    {
      found := id in docs;
      if found {
        docs := docs[id := st];
      }
    }

    method ApplyTaskResult(id: string, status: string, readOk: bool, writeOk: bool) returns (ok: bool)
      modifies this`docs
      ensures ok && readOk && writeOk ==> docs == Applied(old(docs), id, status)
      ensures var decides := (status == "completed" || status == "failed")
                             && id in old(docs) && (old(docs)[id] == Pending || old(docs)[id] == Processing);
        && (docs == if decides && readOk && writeOk
                    then old(docs)[id := if status == "completed" then Completed else Failed] else old(docs))
        && (ok <==> readOk && (writeOk || !decides))
    {
      if !readOk {
        return false;
      }
      var doc := Lookup(docs, id);
      if doc.None? {
        return true;
      }
      if doc.value == Completed || doc.value == Failed {
        return true;
      }
      if status == "completed" {
        if !writeOk {
          return false;
        }
        ok := UpdateStatus(id, Completed);
      } else if status == "failed" {
        if !writeOk {
          return false;
        }
        ok := UpdateStatus(id, Failed);
      } else {
        ok := true;
      }
    }

    method Handle(m: Message, enabled: bool, readOk: bool, writeOk: bool) returns (ok: bool)
      modifies this`docs
      ensures ok && enabled && readOk && writeOk ==> docs == AfterMessage(old(docs), m)
      ensures forall id <- old(docs) :: enabled && readOk && writeOk && old(docs)[id] in {Pending, Processing} ==>
        && (m == Message("task.result", Some(ResultPayload("completed", Document(id)))) ==> ok && docs == old(docs)[id := Completed])
        && (m == Message("task.result", Some(ResultPayload("failed", Document(id)))) ==> ok && docs == old(docs)[id := Failed])
      ensures docs != old(docs) || !ok ==>
        && m.kind == "task.result" && m.payload.Some? && m.payload.value.status in {"completed", "failed"}
        && m.payload.value.document.Document? && enabled
      ensures docs != old(docs) ==> readOk && writeOk && var id := m.payload.value.document.id;
        id in old(docs) && old(docs)[id] in {Pending, Processing}
      ensures !ok ==> docs == old(docs) && !(readOk && writeOk)
      ensures enabled && m.kind == "task.result" && m.payload.Some?
              && m.payload.value.status in {"completed", "failed"} && m.payload.value.document.Document? ==>
        var id := m.payload.value.document.id;
        ok <==> readOk && (writeOk || !(id in old(docs) && old(docs)[id] in {Pending, Processing}))
    {
      if m.kind != TYPE_TASK_RESULT {
        return true;
      }
      if m.payload.None? {
        return true;
      }
      var res := m.payload.value;
      if res.status != "completed" && res.status != "failed" {
        return true;
      }
      if res.document.NoDocument? {
        return true;
      }
      if res.document.BadDocument? {
        return true;
      }
      if !enabled {
        return true;
      }
      ok := ApplyTaskResult(res.document.id, res.status, readOk, writeOk);
    }

    /** Poison is acked, never requeued; only a transient failure comes back. */
    method HandleDelivery(body: Option<Message>, enabled: bool, readOk: bool, writeOk: bool) returns (d: Disposition)
      modifies this`docs
      ensures forall id <- old(docs) :: enabled && readOk && writeOk && old(docs)[id] in {Pending, Processing} ==>
        && (body == Some(Message("task.result", Some(ResultPayload("completed", Document(id))))) ==> d.Acked? && docs == old(docs)[id := Completed])
        && (body == Some(Message("task.result", Some(ResultPayload("failed", Document(id))))) ==> d.Acked? && docs == old(docs)[id := Failed])
      ensures docs != old(docs) || d.Requeued? ==>
        && body.Some? && body.value.kind == "task.result" && body.value.payload.Some?
        && body.value.payload.value.status in {"completed", "failed"}
        && body.value.payload.value.document.Document? && enabled
      ensures docs != old(docs) ==> d.Acked? && var id := body.value.payload.value.document.id;
        id in old(docs) && old(docs)[id] in {Pending, Processing}
      ensures d.Requeued? ==> docs == old(docs) && !(readOk && writeOk)
      ensures enabled && body.Some? && body.value.kind == "task.result" && body.value.payload.Some?
              && body.value.payload.value.status in {"completed", "failed"}
              && body.value.payload.value.document.Document? ==>
        var id := body.value.payload.value.document.id;
        d.Acked? <==> readOk && (writeOk || !(id in old(docs) && old(docs)[id] in {Pending, Processing}))
    {
      if body.None? {
        return Acked;
      }
      var ok := Handle(body.value, enabled, readOk, writeOk);
      return if ok then Acked else Requeued;
    }
  }
}
