/** Processings of integration inbox messages. */
module InboxProcessing {
  import opened Options
  import opened Json
  import opened GuardedTables

  datatype Status = PENDING | CONSUMED | DEAD_LETTERED | Unknown(name: string)

  datatype Identity = Identity(id: string, messageId: string, generation: int, createdAt: int)

  datatype Processing = Processing(
    identity: Identity, status: Status, attempts: int, availableAt: int,
    lockedBy: Nullable<string>, leaseToken: Nullable<string>, leaseExpiresAt: Nullable<int>,
    lastAttemptAt: Nullable<int>, lastError: Nullable<string>, handler: Nullable<string>,
    resultReference: Nullable<string>, resultHash: Nullable<string>, consumedAt: Nullable<int>,
    deadLetteredAt: Nullable<int>)

  // ----- the CHECK constraints -----

  predicate CountersAgree(p: Processing) {
    p.identity.generation >= 1
    && ((p.attempts == 0 && p.lastAttemptAt.Null? && p.handler.Null?)
        || (p.attempts >= 1 && p.lastAttemptAt.Val? && p.handler.Val?))
  }

  predicate LeaseComplete(p: Processing) {
    (p.lockedBy.Null? && p.leaseToken.Null? && p.leaseExpiresAt.Null?)
    || (p.lockedBy.Val? && p.leaseToken.Val? && p.leaseExpiresAt.Val?)
  }

  predicate TerminalState(p: Processing) {
    || (p.status == PENDING && p.consumedAt.Null? && p.deadLetteredAt.Null? && p.resultReference.Null?
        && p.resultHash.Null?)
    || (p.status == CONSUMED && p.consumedAt.Val? && p.deadLetteredAt.Null? && p.resultReference.Val?
        && p.resultHash.Val? && p.handler.Val? && p.lockedBy.Null?)
    || (p.status == DEAD_LETTERED && p.deadLetteredAt.Val? && p.consumedAt.Null? && p.resultReference.Null?
        && p.resultHash.Null? && p.lockedBy.Null?)
  }

  predicate Check(p: Processing) {
    p.status in {PENDING, CONSUMED, DEAD_LETTERED} && CountersAgree(p) && LeaseComplete(p) && TerminalState(p)
  }

  // ----- the guard -----

  /** Only a pending processing changes, and neither its identity nor a handler once named. */
  predicate MayBecome(o: Processing, n: Processing) {
    && o.status == PENDING && n.status in {PENDING, CONSUMED, DEAD_LETTERED}
    && n.identity == o.identity && (o.handler.Val? ==> n.handler == o.handler)
  }

  /** tenderguard_protect_inbox_processing on update; deletes always raise. */
  method ProtectInboxProcessing(o: Processing, n: Processing) returns (accepted: bool)
    ensures accepted == MayBecome(o, n)
  {
    if o.identity != n.identity {
      return false;
    }
    if o.handler.Val? && o.handler != n.handler {
      return false;
    }
    if o.status == CONSUMED || o.status == DEAD_LETTERED {
      return false;
    }
    if o.status == PENDING && n.status in {PENDING, CONSUMED, DEAD_LETTERED} {
      return true;
    }
    return false;
  }

  function GenerationKey(p: Processing): Option<UniqueKey> {
    Some(UniqueKey([p.identity.messageId], p.identity.generation))
  }

  function PendingKey(p: Processing): Option<UniqueKey> {
    if p.status == PENDING then Some(UniqueKey([p.identity.messageId], 0)) else None
  }

  const PROCESSINGS: Rules<Processing> :=
    Rules((p: Processing) => p.identity.id, Check, MayBecome, [GenerationKey, PendingKey])

  // ----- over all runs -----

  lemma TableConsistent(transactions: seq<seq<Statement<Processing>>>)
    ensures Consistent(PROCESSINGS, Run(PROCESSINGS, [], transactions))
  {
    RunConsistent(PROCESSINGS, [], transactions);
  }

  lemma KeysConflict(a: Processing, b: Processing)
    ensures Conflict(PROCESSINGS, a, b)
       <==> a.identity.messageId == b.identity.messageId
            && (a.identity.generation == b.identity.generation || (a.status == PENDING && b.status == PENDING))
  {
    var keys := PROCESSINGS.keys;
    assert |keys| == 2 && keys[0] == GenerationKey && keys[1] == PendingKey;
    if Conflict(PROCESSINGS, a, b) {
      var k :| 0 <= k < 2 && keys[k](a).Some? && keys[k](a) == keys[k](b);
      assert k == 0 || k == 1;
      assert [a.identity.messageId][0] == [b.identity.messageId][0];
    }
    if a.identity.messageId == b.identity.messageId {
      assert keys[0](a) == GenerationKey(a) && keys[0](b) == GenerationKey(b);
      assert keys[1](a) == PendingKey(a) && keys[1](b) == PendingKey(b);
    }
  }

  /** A message never has two pending processings, nor two of one generation. */
  lemma OnePendingPerMessage(transactions: seq<seq<Statement<Processing>>>, i: nat, j: nat)
    requires i < j < |Run(PROCESSINGS, [], transactions)|
    ensures var rows := Run(PROCESSINGS, [], transactions);
            rows[i].identity.messageId == rows[j].identity.messageId ==>
              && rows[i].identity.generation != rows[j].identity.generation
              && (rows[i].status != PENDING || rows[j].status != PENDING)
  {
    TableConsistent(transactions);
    var rows := Run(PROCESSINGS, [], transactions);
    KeysConflict(rows[i], rows[j]);
    hide Run, Conflict;
  }

  /** A terminal processing is final, a handler once named is fixed, and an attempt once made is not unmade. */
  ghost predicate Continues(o: Processing, n: Processing) {
    && n.identity == o.identity
    && (o.status != PENDING ==> n == o)
    && (o.handler.Val? ==> n.handler == o.handler)
    && (Check(o) && o.attempts >= 1 ==> n.attempts >= 1 && n.handler == o.handler)
    && (Check(o) ==> Check(n))
  }

  /** Between any two moments of a run every processing continues. */
  lemma ProcessingsContinue(
    earlier: seq<seq<Statement<Processing>>>, later: seq<seq<Statement<Processing>>>, i: nat)
    requires i < |Run(PROCESSINGS, [], earlier)|
    ensures var before := Run(PROCESSINGS, [], earlier);
            var after := Run(PROCESSINGS, before, later);
            i < |after| && Continues(before[i], after[i])
  {
    TableConsistent(earlier);
    assert IsHistoryRelation(PROCESSINGS, Continues);
    RunRelates(PROCESSINGS, Run(PROCESSINGS, [], earlier), later, Continues);
  }

  /** A consumed processing was attempted by a named handler and has a result; a terminal one holds no lease,
      which takes two of the constraints together. */
  lemma TerminalRows(transactions: seq<seq<Statement<Processing>>>, i: nat)
    requires i < |Run(PROCESSINGS, [], transactions)|
    ensures var p := Run(PROCESSINGS, [], transactions)[i];
            && (p.status == CONSUMED ==> p.attempts >= 1 && p.handler.Val? && p.resultHash.Val?)
            && (p.status != PENDING ==> p.lockedBy.Null? && p.leaseToken.Null? && p.leaseExpiresAt.Null?)
            && (p.status == PENDING <==> p.consumedAt.Null? && p.deadLetteredAt.Null?)
  {
    TableConsistent(transactions);
    assert Check(Run(PROCESSINGS, [], transactions)[i]);
  }

  // ----- the steps of a processing -----

  /** A new processing of a message: nothing attempted, nothing leased. */
  function Queued(identity: Identity, at: int): Processing {
    Processing(identity, PENDING, 0, at, Null, Null, Null, Null, Null, Null, Null, Null, Null, Null)
  }

  function Leased(o: Processing, worker: string, token: string, until: int): Processing {
    o.(lockedBy := Val(worker), leaseToken := Val(token), leaseExpiresAt := Val(until))
  }

  function Released(o: Processing): Processing {
    o.(lockedBy := Null, leaseToken := Null, leaseExpiresAt := Null)
  }

  function Attempted(o: Processing, handler: string, at: int): Processing {
    o.(attempts := o.attempts + 1, lastAttemptAt := Val(at), handler := if o.handler.Val? then o.handler else Val(handler))
  }

  function Consumed(o: Processing, reference: string, hash: string, at: int): Processing {
    Released(o).(status := CONSUMED, resultReference := Val(reference), resultHash := Val(hash), consumedAt := Val(at))
  }

  function DeadLettered(o: Processing, at: int): Processing {
    Released(o).(status := DEAD_LETTERED, deadLetteredAt := Val(at))
  }

  /** The steps a pending processing takes: it is leased and released, attempted under the handler it has or gets, after
      an attempt consumed, and at any time dead-lettered. */
  lemma StepsAccepted(o: Processing, worker: string, token: string, handler: string, reference: string, hash: string, at: int)
    requires Check(o) && o.status == PENDING
    ensures MayBecome(o, Leased(o, worker, token, at)) && Check(Leased(o, worker, token, at))
    ensures MayBecome(o, Released(o)) && Check(Released(o))
    ensures MayBecome(o, Attempted(o, handler, at)) && Check(Attempted(o, handler, at))
    ensures o.attempts >= 1 ==> MayBecome(o, Consumed(o, reference, hash, at)) && Check(Consumed(o, reference, hash, at))
    ensures o.attempts == 0 ==> !Check(Consumed(o, reference, hash, at))
    ensures MayBecome(o, DeadLettered(o, at)) && Check(DeadLettered(o, at))
  {
  }

  lemma QueuedPasses(identity: Identity, at: int)
    ensures Check(Queued(identity, at)) <==> identity.generation >= 1
  {
  }

  /** When a message has no pending processing left, its next generation enters. */
  lemma NextGenerationEnters(rows: seq<Processing>, identity: Identity, at: int)
    requires identity.generation >= 1
    requires forall i :: 0 <= i < |rows| ==>
               && rows[i].identity.id != identity.id
               && (rows[i].identity.messageId == identity.messageId ==>
                     rows[i].identity.generation != identity.generation && rows[i].status != PENDING)
    ensures Apply(PROCESSINGS, rows, Insert(Queued(identity, at))) == Some(rows + [Queued(identity, at)])
  {
    var row := Queued(identity, at);
    QueuedPasses(identity, at);
    forall j | 0 <= j < |rows| ensures !Conflict(PROCESSINGS, rows[j], row) {
      KeysConflict(rows[j], row);
    }
    assert Find(PROCESSINGS, rows, identity.id).None?;
    hide Conflict, Check;
  }
}
