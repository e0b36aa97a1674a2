/**
 * What one protocol event can do to the parts of a world that a relay's own tables are tied to: which rows exist,
 * their status, who holds a lease, and which answers workers hold. The relays reason from these facts alone.
 */
module OutboxShapes {
  import opened Wrappers
  import opened OutboxLease

  /** Nothing is finished, reaped or answered: statuses stand, no lease is gained, no answer appears. */
  ghost predicate Quiet<R>(w: World<R>, w': World<R>) {
    && w'.rows.Keys == w.rows.Keys
    && (forall id <- w.rows :: w'.rows[id].status == w.rows[id].status)
    && (forall id <- w.rows :: w'.rows[id].leaseToken == w.rows[id].leaseToken)
    && (forall k <- w'.jobs :: k in w.jobs && AnswerKept(w.jobs[k].phase, w'.jobs[k].phase))
  }

  /** A success a worker holds now, it held before. */
  ghost predicate AnswerKept<R>(phase: Phase<R>, phase': Phase<R>) {
    phase'.Returned? && phase'.outcome.Succeeded? ==> phase' == phase
  }

  lemma QuietStep<R>(max: nat, w: World<R>, e: Event<R>)
    requires e.Advance? || e.Renew? || e.FinishThrows? || e.Crash? || (e.Return? && !e.outcome.Succeeded?)
    ensures Quiet(w, Step(max, w, e))
  {}

  lemma AnswerStep<R>(max: nat, w: World<R>, token: Token, id: Id, outcome: Outcome<R>)
    ensures var w' := Step(max, w, Return(token, id, outcome));
            && w'.rows == w.rows
            && w'.jobs.Keys == w.jobs.Keys
            && (forall k <- w.jobs :: w'.jobs[k] == w.jobs[k]
                  || (k == (token, id) && w.jobs[k].phase.Calling? && w'.jobs[k].phase == Returned(outcome)))
  {}

  lemma EnqueueStep<R>(max: nat, w: World<R>, id: Id, dueAt: int)
    requires id !in w.rows
    ensures var w' := Step(max, w, Enqueue(id, dueAt));
            w'.rows == w.rows[id := Row(Pending, 0, dueAt, None, None)] && w'.jobs == w.jobs && w'.now == w.now
  {}

  lemma FinishStep<R>(max: nat, w: World<R>, token: Token, id: Id)
    requires Inv(max, w)
    ensures var w' := Step(max, w, Finish(token, id));
            && w'.now == w.now
            && (Commits(w, token, id) ==>
                  && id in w'.rows && w'.rows == w.rows[id := w'.rows[id]] && w'.rows[id].leaseToken.None?
                  && w.rows[id].status.Pending?
                  && (CommitsSent(w, token, id) <==> w'.rows[id].status.Sent?))
            && (!Commits(w, token, id) ==> w'.rows == w.rows)
            && (forall k <- w'.jobs :: k in w.jobs && w'.jobs[k] == w.jobs[k])
  {
    if Commits(w, token, id) {
      assert JobInv(w, (token, id));
      assert RowInv(max, w, id);
    }
  }

  lemma ClaimStep<R>(max: nat, w: World<R>, offered: set<Id>, hold: nat)
    requires Inv(max, w)
    ensures var w' := Step(max, w, Claim(offered, hold));
            && w'.rows.Keys == w.rows.Keys
            && (forall id <- w.rows ::
                  w'.rows[id].status == if Abandoned(w.rows[id], max, w.now) then Failed else w.rows[id].status)
            && (forall k <- w.jobs :: k in w'.jobs && w'.jobs[k] == w.jobs[k])
            && (forall k <- w'.jobs :: k !in w.jobs ==> k.1 in w.rows && w'.jobs[k].phase.Waiting?)
            && (forall k <- w.jobs :: HoldsLease(w'.rows, k.1, k.0) ==> HoldsLease(w.rows, k.1, k.0))
  {
    forall k <- w.jobs
      ensures (k in Step(max, w, Claim(offered, hold)).jobs && Step(max, w, Claim(offered, hold)).jobs[k] == w.jobs[k])
        && (HoldsLease(Step(max, w, Claim(offered, hold)).rows, k.1, k.0) ==> HoldsLease(w.rows, k.1, k.0))
    {
      assert JobInv(w, k);
    }
  }
}
