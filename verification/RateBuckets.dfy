/** Fixed-window rate-limit buckets: what a count says about the updates accepted in its window. */
module RateBuckets {

  datatype Bucket = Bucket(
    scope: string, identityHash: string, policyHash: string, window: int, count: int, updatedAt: int)

  const SCOPES := {"ACTOR_READ", "ORGANIZATION_READ", "ACTOR_MUTATION", "ORGANIZATION_MUTATION", "ACTOR_UPLOAD",
                   "ORGANIZATION_UPLOAD"}

  predicate Check(b: Bucket) {
    b.scope in SCOPES && b.count >= 1
  }

  predicate CountsOn(o: Bucket, n: Bucket) {
    n.window == o.window && n.policyHash == o.policyHash && n.count == o.count + 1
  }

  predicate OpensWindow(o: Bucket, n: Bucket) {
    n.window > o.window && n.count == 1
  }

  predicate MayBecome(o: Bucket, n: Bucket) {
    n.scope == o.scope && n.identityHash == o.identityHash && n.updatedAt >= o.updatedAt
    && (CountsOn(o, n) || OpensWindow(o, n))
  }

  ghost predicate IsRun(history: seq<Bucket>) {
    && history != [] && (forall i :: 0 <= i < |history| ==> Check(history[i]))
    && forall i :: 0 < i < |history| ==> MayBecome(history[i - 1], history[i])
  }

  /** A row of the table, updated in place. */
  class RateBucket {
    var row: Bucket
    ghost var history: seq<Bucket>  // the row as inserted and after every accepted update

    ghost predicate Valid()
      reads this
    {
      IsRun(history) && history[|history| - 1] == row
    }

    constructor (row: Bucket)
      requires Check(row)
      ensures Valid() && this.row == row && history == [row]
    {
      this.row := row;
      history := [row];
    }

    /** tenderguard_protect_rate_limit_bucket, then the CHECK. */
    method Update(n: Bucket) returns (accepted: bool)
      requires Valid()
      modifies this
      ensures Valid() && accepted == (MayBecome(old(row), n) && Check(n))
      ensures row == (if accepted then n else old(row))
      ensures history == (if accepted then old(history) + [n] else old(history))
    {
      if n.scope != row.scope || n.identityHash != row.identityHash {
        return false;
      }
      accepted := false;
      if n.window == row.window && n.policyHash == row.policyHash && n.count == row.count + 1
         && n.updatedAt >= row.updatedAt {
        accepted := true;
      } else if n.window > row.window && n.count == 1 && n.updatedAt >= row.updatedAt {
        accepted := true;
      }
      accepted := accepted && Check(n);
      if accepted {
        row := n;
        history := history + [n];
      }
    }
  }

  /** Between any two moments of a run: windows and times never go back, and within a window the policy stays
      and the count grows by exactly the accepted updates. */
  lemma {:induction false} CountIsUpdates(history: seq<Bucket>, i: nat, j: nat)
    requires IsRun(history) && i <= j < |history|
    ensures var (a, b) := (history[i], history[j]);
            && a.window <= b.window && a.updatedAt <= b.updatedAt
            && (a.window == b.window ==> a.policyHash == b.policyHash && b.count == a.count + (j - i))
    decreases j - i
  {
    if i < j {
      CountIsUpdates(history, i, j - 1);
      assert MayBecome(history[j - 1], history[j]);
    }
  }

  /** The update that opened the window of the j-th row, or the insert. */
  function Opening(history: seq<Bucket>, j: nat): (k: nat)
    requires j < |history|
    ensures k <= j
  {
    if j > 0 && history[j - 1].window == history[j].window then Opening(history, j - 1) else j
  }

  /** A count is the number of updates accepted in its window, the one that opened it included; only the window of
      the insert may have started higher. */
  lemma {:induction false} CountSinceOpening(history: seq<Bucket>, j: nat)
    requires IsRun(history) && j < |history|
    ensures var k := Opening(history, j);
            && history[k].window == history[j].window
            && history[j].count == history[k].count + (j - k)
            && (k > 0 ==> history[k].count == 1 && history[k - 1].window < history[k].window)
  {
    if j > 0 {
      assert MayBecome(history[j - 1], history[j]);
      if history[j - 1].window == history[j].window {
        CountSinceOpening(history, j - 1);
      }
    }
  }

  /** Window and count together strictly increase, so no accepted update repeats an earlier row. */
  lemma WindowAndCountIncrease(history: seq<Bucket>, i: nat, j: nat)
    requires IsRun(history) && i < j < |history|
    ensures history[i].window < history[j].window
            || (history[i].window == history[j].window && history[i].count < history[j].count)
  {
    CountIsUpdates(history, i, j);
  }

  /** The updates a bucket takes, as edits of its row: one more in the window, or one in any later window, under any
      policy, with or without windows between; in both cases not at an earlier time. */
  lemma AcceptedEdits(o: Bucket, n: Bucket)
    ensures MayBecome(o, n) <==>
              && n.updatedAt >= o.updatedAt
              && (n == o.(count := o.count + 1, updatedAt := n.updatedAt)
                  || (n.window > o.window
                      && n == o.(window := n.window, count := 1, policyHash := n.policyHash, updatedAt := n.updatedAt)))
    ensures Check(n) <==>
              && n.count >= 1
              && n.scope in {"ACTOR_READ", "ORGANIZATION_READ", "ACTOR_MUTATION", "ORGANIZATION_MUTATION", "ACTOR_UPLOAD",
                             "ORGANIZATION_UPLOAD"}
  {
  }
}
