/** The leader's drain loop: assign every pending job to the least loaded live worker. */
module Draining {
  import opened Types
  import opened Jobs
  import opened Scheduler

  /** One assignment, as proposed to the log. */
  datatype Assignment = Assignment(job: JobId, worker: NodeId)

  function MarkAll(q: Queue, sent: seq<Assignment>): Queue {
    if sent == [] then q
    else
      var last := sent[|sent| - 1];
      MarkAll(q, sent[..|sent| - 1]).AssignJob(last.job, last.worker)
  }

  function LoadAll(w: Workers, sent: seq<Assignment>): Workers {
    if sent == [] then w
    else
      var last := sent[|sent| - 1];
      Load(LoadAll(w, sent[..|sent| - 1]), last.worker, last.job)
  }

  /** Pending jobs are not yet counted as running anywhere. */
  ghost predicate NotCounted(ids: set<JobId>, w: Workers) {
    forall id, v :: id in ids && v in w ==> id !in w[v]
  }

  /** Loads of the workers in ws differ by at most d. */
  ghost predicate Spread(w: Workers, ws: set<NodeId>, d: nat) {
    forall u, v :: u in ws && v in ws && u in w && v in w ==> |w[u]| <= |w[v]| + d
  }

  function SentJobs(sent: seq<Assignment>): set<JobId> {
    set i | 0 <= i < |sent| :: sent[i].job
  }

  ghost predicate OncePerJob(sent: seq<Assignment>) {
    forall i, j :: 0 <= i < j < |sent| ==> sent[i].job != sent[j].job
  }

  /** Where the loop stands after the assignments in `sent`: q0 and w0 before it, q and w now. */
  ghost predicate Drained(q0: Queue, w0: Workers, ws: set<NodeId>, sent: seq<Assignment>, q: Queue, w: Workers) {
    && q == MarkAll(q0, sent) && w == LoadAll(w0, sent) && w.Keys == w0.Keys
    && (forall i :: 0 <= i < |sent| ==> sent[i].worker in ws)
    && OncePerJob(sent) && SentJobs(sent) <= PendingIds(q0)
    && PendingIds(q) == PendingIds(q0) - SentJobs(sent)
    && NotCounted(PendingIds(q), w)
  }

  lemma SentMore(sent: seq<Assignment>, a: Assignment)
    ensures SentJobs(sent + [a]) == SentJobs(sent) + {a.job}
  {
    forall id | id in SentJobs(sent) ensures id in SentJobs(sent + [a]) {
      var i :| 0 <= i < |sent| && sent[i].job == id;
      assert (sent + [a])[i].job == id;
    }
    assert (sent + [a])[|sent|].job == a.job;
  }

  lemma NotCountedStep(ids: set<JobId>, w: Workers, a: Assignment)
    requires NotCounted(ids, w)
    ensures NotCounted(ids - {a.job}, Load(w, a.worker, a.job))
  {
  }

  lemma DrainStep(q0: Queue, w0: Workers, ws: set<NodeId>, sent: seq<Assignment>, q: Queue, w: Workers, a: Assignment)
    requires Drained(q0, w0, ws, sent, q, w) && q.Has(a.job, Pending) && a.worker in ws && a.worker in w
    ensures Drained(q0, w0, ws, sent + [a], q.AssignJob(a.job, a.worker), Load(w, a.worker, a.job))
    ensures |PendingIds(q.AssignJob(a.job, a.worker))| < |PendingIds(q)|
  {
    var q' := q.AssignJob(a.job, a.worker);
    SentMore(sent, a);
    assert (sent + [a])[..|sent|] == sent;
    assert PendingIds(q') == PendingIds(q) - {a.job};
    assert a.job in PendingIds(q);
    NotCountedStep(PendingIds(q), w, a);
    forall i | 0 <= i < |sent| ensures sent[i].job != a.job {
      assert sent[i].job in SentJobs(sent);
    }
  }

  /** Giving a job to a least loaded worker keeps the loads within any d of at least 1. */
  lemma SpreadKept(w: Workers, ws: set<NodeId>, d: nat, worker: NodeId, job: JobId)
    requires d >= 1 && Spread(w, ws, d) && IsLeastLoaded(w, ws, worker) && job !in w[worker]
    ensures Spread(Load(w, worker, job), ws, d)
    ensures |Load(w, worker, job)[worker]| == |w[worker]| + 1
  {
    var w' := Load(w, worker, job);
    assert forall v :: v in w' && v != worker ==> w'[v] == w[v];
  }

  // ----- the loop -------------------------------------------------------------------------------

  /** A pending job has gone to a least loaded worker. */
  ghost predicate Chosen(q: Queue, w: Workers, ws: set<NodeId>, a: Assignment, q': Queue, w': Workers) {
    && q.Has(a.job, Pending) && IsLeastLoaded(w, ws, a.worker)
    && q' == q.AssignJob(a.job, a.worker) && w' == Load(w, a.worker, a.job)
  }

  /** One pass: the first pending job to the least loaded live worker. */
  method AssignNext(queue: JobQueue, assigner: JobAssigner, live: set<NodeId>) returns (a: Option<Assignment>)
    modifies queue, assigner
    ensures a.None? ==> queue.View() == old(queue.View()) && assigner.workers == old(assigner.workers)
    ensures a.None? ==> PendingIds(queue.View()) == {} || live * assigner.workers.Keys == {}
    ensures a.Some? ==> Chosen(old(queue.View()), old(assigner.workers), live * old(assigner.workers).Keys,
                               a.value, queue.View(), assigner.workers)
  {
    var job := queue.FirstPending();
    var worker := assigner.LeastLoaded(live);
    if job.None? || worker.None? {
      return None;
    }
    var found := queue.AssignJob(job.value, worker.value);
    assigner.JobStarted(worker.value, job.value);
    a := Some(Assignment(job.value, worker.value));
  }

  /** Loads are as even as they were, or within 1. */
  ghost predicate StaysEven(w0: Workers, w: Workers, ws: set<NodeId>) {
    forall d: nat :: d >= 1 && Spread(w0, ws, d) ==> Spread(w, ws, d)
  }

  lemma EvenStep(w0: Workers, w: Workers, ws: set<NodeId>, a: Assignment)
    requires StaysEven(w0, w, ws) && IsLeastLoaded(w, ws, a.worker) && a.job !in w[a.worker]
    ensures StaysEven(w0, Load(w, a.worker, a.job), ws)
  {
    forall d: nat | d >= 1 && Spread(w, ws, d) ensures Spread(Load(w, a.worker, a.job), ws, d) {
      SpreadKept(w, ws, d, a.worker, a.job);
    }
  }

  /** Where the loop stands, closed until asked for. */
  ghost predicate Under(q0: Queue, w0: Workers, ws: set<NodeId>, sent: seq<Assignment>, q: Queue, w: Workers) {
    forall k: nat :: Asked(k) ==>
      Drained(q0, w0, ws, sent, q, w) && StaysEven(w0, w, ws) && (ws == {} ==> sent == [])
  }

  lemma UnderStep(q0: Queue, w0: Workers, ws: set<NodeId>, sent: seq<Assignment>, q: Queue, w: Workers, a: Assignment,
                  q': Queue, w': Workers)
    requires Under(q0, w0, ws, sent, q, w) && Chosen(q, w, ws, a, q', w')
    ensures Under(q0, w0, ws, sent + [a], q', w') && |PendingIds(q')| < |PendingIds(q)| && w'.Keys == w.Keys
  {
    assert Asked(0);
    DrainStep(q0, w0, ws, sent, q, w, a);
    assert a.job in PendingIds(q);
    EvenStep(w0, w, ws, a);
  }

  /** Drains the queue: every pending job goes to exactly one live worker, nothing else
      changes, and the loads stay even. */
  method Drain(queue: JobQueue, assigner: JobAssigner, live: set<NodeId>) returns (sent: seq<Assignment>)
    requires NotCounted(PendingIds(queue.View()), assigner.workers)
    modifies queue, assigner
    ensures var ws := live * old(assigner.workers).Keys;
            && Drained(old(queue.View()), old(assigner.workers), ws, sent, queue.View(), assigner.workers)
            && (ws != {} ==> SentJobs(sent) == PendingIds(old(queue.View())))
            && (ws == {} ==> sent == [])
            && StaysEven(old(assigner.workers), assigner.workers, ws)
  {
    ghost var q0, w0, ws := queue.View(), assigner.workers, live * assigner.workers.Keys;
    sent := [];
    assert Under(q0, w0, ws, sent, q0, w0);
    var a := AssignNext(queue, assigner, live);
    ghost var q, w := q0, w0;
    while a.Some?
      invariant Under(q0, w0, ws, sent, q, w) && w.Keys == w0.Keys
      invariant a.None? ==> queue.View() == q && assigner.workers == w && (PendingIds(q) == {} || ws == {})
      invariant a.Some? ==> Chosen(q, w, ws, a.value, queue.View(), assigner.workers)
      decreases |PendingIds(q)|
    {
      UnderStep(q0, w0, ws, sent, q, w, a.value, queue.View(), assigner.workers);
      sent := sent + [a.value];
      q, w := queue.View(), assigner.workers;
      a := AssignNext(queue, assigner, live);
    }
    assert Asked(0);
  }

  // ----- conservation -----------------------------------------------------------------------------

  /** The total load of the listed workers. */
  function Total(w: Workers, ids: seq<NodeId>): nat {
    if ids == [] then 0
    else Total(w, ids[..|ids| - 1]) + if ids[|ids| - 1] in w then |w[ids[|ids| - 1]]| else 0
  }

  lemma {:induction false} TotalOfOthers(w: Workers, ids: seq<NodeId>, worker: NodeId, job: JobId)
    requires worker !in ids
    ensures Total(Load(w, worker, job), ids) == Total(w, ids)
  {
    if ids != [] {
      assert ids[|ids| - 1] in ids;
      TotalOfOthers(w, ids[..|ids| - 1], worker, job);
    }
  }

  lemma {:induction false} TotalGrowsByOne(w: Workers, ids: seq<NodeId>, worker: NodeId, job: JobId)
    requires worker in w && worker in ids && job !in w[worker]
    requires forall i, j :: 0 <= i < j < |ids| ==> ids[i] != ids[j]
    ensures Total(Load(w, worker, job), ids) == Total(w, ids) + 1
  {
    var n := |ids| - 1;
    if ids[n] == worker {
      TotalOfOthers(w, ids[..n], worker, job);
    } else {
      TotalGrowsByOne(w, ids[..n], worker, job);
    }
  }

  /** The total load over all workers grows by the number of jobs assigned. */
  lemma {:induction false} LoadConserved(q0: Queue, w0: Workers, ws: set<NodeId>, sent: seq<Assignment>,
                                               ids: seq<NodeId>)
    requires ws <= w0.Keys && NotCounted(PendingIds(q0), w0)
    requires OncePerJob(sent) && SentJobs(sent) <= PendingIds(q0)
    requires forall i :: 0 <= i < |sent| ==> sent[i].worker in ws
    requires (forall i, j :: 0 <= i < j < |ids| ==> ids[i] != ids[j]) && (forall v :: v in w0 ==> v in ids)
    ensures LoadAll(w0, sent).Keys == w0.Keys
    ensures NotCounted(PendingIds(q0) - SentJobs(sent), LoadAll(w0, sent))
    ensures Total(LoadAll(w0, sent), ids) == Total(w0, ids) + |sent|
  {
    if sent != [] {
      var n := |sent| - 1;
      assert sent[..n] + [sent[n]] == sent;
      SentMore(sent[..n], sent[n]);
      LoadConserved(q0, w0, ws, sent[..n], ids);
      assert sent[n].job in SentJobs(sent);
      assert sent[n].job in PendingIds(q0) - SentJobs(sent[..n]);
      assert sent[n].worker in ws;
      NotCountedStep(PendingIds(q0) - SentJobs(sent[..n]), LoadAll(w0, sent[..n]), sent[n]);
      assert PendingIds(q0) - SentJobs(sent) == PendingIds(q0) - SentJobs(sent[..n]) - {sent[n].job};
      TotalGrowsByOne(LoadAll(w0, sent[..n]), ids, sent[n].worker, sent[n].job);
    }
  }
}
