/** Approval tasks one update at a time: what the guard accepts, told by the words of the columns, and the transactions
    that decide or invalidate a task outside the three reviews. */
module EvidenceTasks {
  import opened Json
  import opened EvidenceTables
  import opened RowGuards
  import opened DeferredChecks
  import opened Transactions
  import opened EvidenceHistory
  import opened EvidenceInvariant
  import opened EvidenceProgress

  predicate HasString(p: Payload, k: Key) {
    k in p && p[k].JString?
  }

  /** A task update takes effect exactly when it decides a pending task without touching its payload, or supersedes a
      task that is not superseded yet under a complete stamp of a document's invalidation or of its replacement,
      losing nothing of its payload; always at a later time and on the same task. */
  lemma TaskUpdateOutcome(db: Db, n: Task)
    requires n.basis.id in db.tasks
    ensures var o, p := db.tasks[n.basis.id], n.payload;
            Apply(db, UpdateTask(n)).Done? <==>
              && n.basis == o.basis && n.updatedAt > o.updatedAt
              && ((o.status == Pending && n.status in {Approved, Rejected, ChangesRequested} && p == o.payload)
                 || (&& o.status != Superseded && n.status == Superseded
                     && (forall k :: k in o.payload ==> k in p && Contains(p[k], o.payload[k]))
                     && ((HasString(p, KInvalidatedAt) && HasString(p, KInvalidatedByRevision) && HasString(p, KInvalidatedSetRevision))
                         || (HasString(p, KSupersededAt) && HasString(p, KSupersededByEntity) && HasString(p, KSupersessionReason)))))
  {
  }

  // ----- invalidation by a document -----

  datatype Invalidation = Invalidation(at: Text, revision: Text, documentSet: Text, updatedAt: int)

  function Invalidated(task: Task, i: Invalidation): Task {
    task.(status := Superseded, updatedAt := i.updatedAt, payload := task.payload[KInvalidatedAt := JString(i.at)][
            KInvalidatedByRevision := JString(i.revision)][KInvalidatedSetRevision := JString(i.documentSet)])
  }

  /** A document revision invalidates any task that is not superseded: the update adds its three strings and is
      accepted. */
  lemma InvalidationApplies(db: Db, t: Text, i: Invalidation)
    requires t in db.tasks && db.tasks[t].basis.id == t && db.tasks[t].status != Superseded
    requires i.updatedAt > db.tasks[t].updatedAt
    requires forall k :: k in {KInvalidatedAt, KInvalidatedByRevision, KInvalidatedSetRevision} ==> k !in db.tasks[t].payload
    ensures var n := Invalidated(db.tasks[t], i);
            Apply(db, UpdateTask(n)) == Done(db.(tasks := db.tasks[t := n]), [TaskLink(t)])
  {
    var o, n := db.tasks[t], Invalidated(db.tasks[t], i);
    forall k | k in o.payload ensures k in n.payload && Contains(n.payload[k], o.payload[k]) {
      ContainsItself(o.payload[k]);
    }
    TaskUpdateOutcome(db, n);
    assert [] + [TaskLink(t)] == [TaskLink(t)];
  }

  /** Of a task outside the three reviews the invalidation commits by itself. */
  lemma InvalidationCommits(db: Db, t: Text, i: Invalidation)
    requires t in db.tasks && db.tasks[t].basis.id == t && db.tasks[t].status != Superseded
    requires db.tasks[t].basis.taskType !in {ActualFactReview, VarianceClassificationReview, CalibrationExampleReview}
    requires i.updatedAt > db.tasks[t].updatedAt
    requires forall k :: k in {KInvalidatedAt, KInvalidatedByRevision, KInvalidatedSetRevision} ==> k !in db.tasks[t].payload
    ensures var n := Invalidated(db.tasks[t], i);
            && Commits(db, [UpdateTask(n)]) && Transact(db, [UpdateTask(n)]) == db.(tasks := db.tasks[t := n])
  {
    InvalidationApplies(db, t, i);
    var n := Invalidated(db.tasks[t], i);
    var s, w := [UpdateTask(n)], db.(tasks := db.tasks[t := n]);
    assert EventHolds(w, TaskLink(t));
    hide Apply, EventHolds, Invalidated;
    OneStatement(db, s, w, [TaskLink(t)]);
  }

  lemma OneStatement(db: Db, s: seq<Statement>, w: Db, events: seq<Event>)
    requires |s| == 1 && Apply(db, s[0]) == Done(w, events)
    ensures ApplyAll(db, s) == Done(w, events)
  {
    hide Apply;
    assert s[..1] == s && s[..0] == [];
    assert ApplyAll(db, s[..0]) == Done(db, []);
    OneMore(db, s, 0, db, [], w, events);
    assert [] + events == events;
  }

  /** A supersession that lacks a string of each stamp is refused. */
  lemma UnstampedRefused(db: Db, n: Task)
    requires n.basis.id in db.tasks && n.status == Superseded
    requires !HasString(n.payload, KInvalidatedAt) || !HasString(n.payload, KInvalidatedByRevision)
             || !HasString(n.payload, KInvalidatedSetRevision)
    requires !HasString(n.payload, KSupersededAt) || !HasString(n.payload, KSupersededByEntity)
             || !HasString(n.payload, KSupersessionReason)
    ensures Apply(db, UpdateTask(n)) == Raised
  {
    TaskUpdateOutcome(db, n);
  }

  // ----- decisions outside the three reviews -----

  /** A pending task outside the three reviews is decided by its update and its record together, in any of three
      ways. */
  lemma DecisionCommits(db: Db, t: Text, r: Text, decision: Text, decidedBy: Text, payload: Payload, updatedAt: int)
    requires WellFormed(db) && t in db.tasks && db.tasks[t].status == Pending && updatedAt > db.tasks[t].updatedAt
    requires db.tasks[t].basis.taskType !in {ActualFactReview, VarianceClassificationReview, CalibrationExampleReview}
    requires decision in {Approved, Rejected, ChangesRequested} && r !in db.records
    requires forall x :: x in db.records ==> db.records[x].taskId != t
    ensures var n, record := db.tasks[t].(status := decision, updatedAt := updatedAt), Record(t, decision, decidedBy, payload);
            var s := [UpdateTask(n), InsertRecord(r, record)];
            && Commits(db, s)
            && Transact(db, s) == db.(tasks := db.tasks[t := n], records := db.records[r := record])
  {
    var n, record := db.tasks[t].(status := decision, updatedAt := updatedAt), Record(t, decision, decidedBy, payload);
    assert n.basis.id == t && n.basis.taskType == db.tasks[t].basis.taskType && n.status == decision;
    hide WellFormed;
    DecidingApplies(db, n, decision);
    RecordingApplies(db.(tasks := db.tasks[t := n]), r, record);
    var w := db.(tasks := db.tasks[t := n], records := db.records[r := record]);
    DecidedEventsHold(db, w, t, r, n, record);
    hide Apply, EventHolds, ApplyAll;
    TwoDone(db, [UpdateTask(n), InsertRecord(r, record)], db.(tasks := db.tasks[t := n]), w,
            [Decision(t, decision), TaskLink(t)]);
  }

  lemma DecidedEventsHold(db: Db, w: Db, t: Text, r: Text, n: Task, record: Record)
    requires w.tasks == db.tasks[t := n] && w.records == db.records[r := record] && r !in db.records
    requires record.taskId == t && record.decision == n.status && n.status in {Approved, Rejected, ChangesRequested}
    requires n.basis.taskType !in {ActualFactReview, VarianceClassificationReview, CalibrationExampleReview}
    requires forall x :: x in db.records ==> db.records[x].taskId != t
    ensures EventHolds(w, Decision(t, n.status)) && EventHolds(w, TaskLink(t))
  {
    assert RecordsOf(w, t) == {r};
    hide RecordsOf;
    DecisionHolds(w, t, r, n.status);
  }

  lemma TwoDone(db: Db, s: seq<Statement>, middle: Db, w: Db, events: seq<Event>)
    requires |s| == 2 && Apply(db, s[0]) == Done(middle, events) && Apply(middle, s[1]) == Done(w, events)
    ensures ApplyAll(db, s) == Done(w, events + events)
  {
    hide Apply;
    assert s[..2] == s && s[..0] == [];
    assert ApplyAll(db, s[..0]) == Done(db, []);
    OneMore(db, s, 0, db, [], middle, events);
    assert [] + events == events;
    OneMore(db, s, 1, middle, events, w, events);
  }

  lemma DecidingApplies(db: Db, n: Task, decision: Text)
    requires n.basis.id in db.tasks && n == db.tasks[n.basis.id].(status := decision, updatedAt := n.updatedAt)
    requires db.tasks[n.basis.id].status == Pending && n.updatedAt > db.tasks[n.basis.id].updatedAt
    requires decision in {Approved, Rejected, ChangesRequested}
    ensures Apply(db, UpdateTask(n))
         == Done(db.(tasks := db.tasks[n.basis.id := n]), [Decision(n.basis.id, decision), TaskLink(n.basis.id)])
  {
    TaskUpdateOutcome(db, n);
  }

  lemma RecordingApplies(db: Db, r: Text, record: Record)
    requires record.taskId in db.tasks && r !in db.records && forall x :: x in db.records ==> db.records[x].taskId != record.taskId
    ensures Apply(db, InsertRecord(r, record))
         == Done(db.(records := db.records[r := record]), [Decision(record.taskId, record.decision), TaskLink(record.taskId)])
  {
    assert RecordsOf(db, record.taskId) == {};
  }

  lemma DecisionHolds(w: Db, t: Text, r: Text, decision: Text)
    requires t in w.tasks && w.tasks[t].status == decision && RecordsOf(w, t) == {r} && r in w.records
    requires w.records[r].decision == decision && decision in {Approved, Rejected, ChangesRequested}
    ensures DecisionAgrees(w, t, decision)
  {
    assert (set x | x in RecordsOf(w, t) && w.records[x].decision == decision) == {r};
  }

  // ----- controlled versions -----

  /** A version enters as an unapproved draft and is updated at most once, to be approved by name. */
  lemma VersionOutcome(db: Db, id: Text, n: Version)
    ensures Apply(db, InsertVersion(id, n)).Done?
       <==> id !in db.versions && n.status == Draft && n.approvedBy == Null && n.approvedAt == Null
    ensures id in db.versions ==>
              var o := db.versions[id];
              Apply(db, UpdateVersion(id, n)).Done? <==>
                && o.status == Draft && o.approvedBy == Null && o.approvedAt == Null
                && n == o.(status := Approved, approvedBy := n.approvedBy, approvedAt := n.approvedAt)
                && n.approvedAt.Val? && n.approvedBy.Val?
                && (n.approvedBy.v.Plain? ==>
                      var name := n.approvedBy.v.characters;
                      name != "" && name[0] != ' ' && name[|name| - 1] != ' ')
  {
  }
}
