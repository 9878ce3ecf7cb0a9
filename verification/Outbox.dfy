/**
 The outbox watcher: jobs wait in a directory until a tick sends them; a status file marks
 the end of a job.  Transient failures are retried on later ticks, at most three sends in
 all.  Other processes may add jobs at any time, also in the middle of a tick.
 */
module Outbox {
  import opened Options

  const MAX_TRANSIENT_ATTEMPTS: nat := 3

  datatype Job = Job(id: string, chatId: string, text: string)
  datatype JobStatus = JobStatus(ok: bool, completedAt: int)

  datatype SendResult = Delivered | Transient | Permanent

  datatype Happening =
    | Sent(id: string, chatId: string, text: string, result: SendResult)
    | Recorded(id: string, ok: bool, at: int)

  /** The answers of the notifier, the file system and the context about each job, and the
      jobs that other processes write; the number is how much has happened before. */
  datatype World = World(
    readable: (string, nat) -> bool,
    send: (string, nat) -> SendResult,
    statusWritten: (string, nat) -> bool,
    stopped: nat -> bool,
    arrivals: nat -> seq<Job>
  )

  // ---------------------------------------------------------------- reading the history

  predicate IsSent(e: Happening, id: string, r: SendResult) {
    e.Sent? && e.id == id && e.result == r
  }

  predicate IsEnd(e: Happening, id: string, ok: bool) {
    e.Recorded? && e.id == id && e.ok == ok
  }

  function Wins(h: seq<Happening>, id: string): nat {
    if h == [] then 0
    else Wins(h[..|h| - 1], id) + if IsSent(h[|h| - 1], id, Delivered) then 1 else 0
  }

  function Failures(h: seq<Happening>, id: string): nat {
    if h == [] then 0
    else Failures(h[..|h| - 1], id)
         + if IsSent(h[|h| - 1], id, Transient) || IsSent(h[|h| - 1], id, Permanent) then 1 else 0
  }

  function Sends(h: seq<Happening>, id: string): nat {
    Wins(h, id) + Failures(h, id)
  }

  /** The job was given up by a permanent failure. */
  ghost predicate GaveUp(h: seq<Happening>, id: string) {
    exists e :: e in h && IsSent(e, id, Permanent)
  }

  /** A status of this kind was written for the job at some time. */
  ghost predicate EndedAs(h: seq<Happening>, id: string, ok: bool) {
    exists e :: e in h && IsEnd(e, id, ok)
  }

  /** A status for the job was written at some time. */
  ghost predicate Concluded(h: seq<Happening>, id: string) {
    EndedAs(h, id, true) || EndedAs(h, id, false)
  }

  /** A delivery adds one send to its own job. */
  lemma SendsGrow(h: seq<Happening>, send: Happening, end: seq<Happening>, x: string)
    requires send.Sent? && |end| <= 1 && forall e :: e in end ==> e.Recorded?
    ensures Sends(h + [send] + end, x) == Sends(h, x) + if x == send.id then 1 else 0
  {
    Counting(h, send, x);
    if |end| == 1 {
      assert end[0] in end && end == [end[0]];
      Counting(h + [send], end[0], x);
    } else {
      assert h + [send] + end == h + [send];
    }
  }

  lemma Counting(h: seq<Happening>, e: Happening, id: string)
    ensures Wins(h + [e], id) == Wins(h, id) + if IsSent(e, id, Delivered) then 1 else 0
    ensures Failures(h + [e], id)
         == Failures(h, id) + if IsSent(e, id, Transient) || IsSent(e, id, Permanent) then 1 else 0
  {
    assert (h + [e])[..|h|] == h;
  }

  lemma Happened(h: seq<Happening>, e: Happening, id: string)
    ensures GaveUp(h + [e], id) <==> GaveUp(h, id) || IsSent(e, id, Permanent)
    ensures forall ok :: EndedAs(h + [e], id, ok) <==> EndedAs(h, id, ok) || IsEnd(e, id, ok)
  {
    assert forall x :: x in h + [e] <==> x in h || x == e;
  }

  /** The promises about one job in a history: it is sent at most three times and at most once
      successfully, never after its status, and its status tells how it ended. */
  ghost predicate Promised(h: seq<Happening>, id: string) {
    && Wins(h, id) <= 1 && Sends(h, id) <= 3
    && (forall p, q :: 0 <= p < q < |h| && h[p].Recorded? && h[q].Sent? && h[p].id == id ==> h[q].id != id)
    && (EndedAs(h, id, true) ==> Wins(h, id) == 1)
    && (EndedAs(h, id, false) ==> Wins(h, id) == 0 && (Failures(h, id) == 3 || GaveUp(h, id)))
  }

  // ---------------------------------------------------------------- the invariant of one job

  function Count(seen: map<string, nat>, id: string): nat {
    if id in seen then seen[id] else 0
  }

  /** What the directory, the tracker and the history have in common, for one job: whether it
      is pending, whether it was ever written, and its entry in the tracker. */
  ghost predicate Kept(pending: bool, known: bool, counted: bool, count: nat, h: seq<Happening>, id: string) {
    && Promised(h, id)
    && (pending ==> Wins(h, id) == 0 && count == Failures(h, id) < MAX_TRANSIENT_ATTEMPTS)
    && (pending ==> !Concluded(h, id) && !GaveUp(h, id))
    && (counted ==> pending)
    && (known && !pending ==> Concluded(h, id))
  }

  /** The send that makes the n-th failure ends the job, unless it may be tried again. */
  predicate EndsJob(n: nat, r: SendResult) {
    r != Transient || n + 1 >= MAX_TRANSIENT_ATTEMPTS
  }

  /** What one delivery adds to the history. */
  function Delivery(job: Job, n: nat, r: SendResult, now: int): seq<Happening> {
    if EndsJob(n, r) then [SendOf(job, r), Recorded(job.id, r == Delivered, now)] else [SendOf(job, r)]
  }

  /** The job's text is sent to its chat. */
  function SendOf(job: Job, r: SendResult): Happening {
    Sent(job.id, job.chatId, job.text, r)
  }

  /** A send to a pending job keeps the promises about it. */
  lemma LedgerSend(counted: bool, n: nat, h: seq<Happening>, job: Job, r: SendResult)
    requires Kept(true, true, counted, n, h, job.id)
    ensures var id, h' := job.id, h + [SendOf(job, r)];
            && Promised(h', id) && !Concluded(h', id) && (GaveUp(h', id) <==> r == Permanent)
            && Wins(h', id) == (if r == Delivered then 1 else 0)
            && Failures(h', id) == n + (if r == Delivered then 0 else 1)
  {
    Counting(h, SendOf(job, r), job.id);
    Happened(h, SendOf(job, r), job.id);
    forall p | 0 <= p < |h| ensures !(h[p].Recorded? && h[p].id == job.id) {
      assert h[p] in h && (IsEnd(h[p], job.id, true) || IsEnd(h[p], job.id, false) || !h[p].Recorded? || h[p].id != job.id);
    }
  }

  /** Recording the end of a job keeps them. */
  lemma LedgerRecord(h: seq<Happening>, id: string, ok: bool, at: int)
    requires Promised(h, id) && !Concluded(h, id)
    requires if ok then Wins(h, id) == 1 else Wins(h, id) == 0 && (Failures(h, id) == 3 || GaveUp(h, id))
    ensures Kept(false, true, false, 0, h + [Recorded(id, ok, at)], id)
  {
    Counting(h, Recorded(id, ok, at), id);
    Happened(h, Recorded(id, ok, at), id);
  }

  /** A whole delivery to a pending job, with its status when that ends the job. */
  lemma LedgerDeliver(counted: bool, n: nat, h: seq<Happening>, job: Job, r: SendResult, now: int)
    requires Kept(true, true, counted, n, h, job.id)
    ensures var ends := EndsJob(n, r);
            Kept(!ends, true, !ends, if ends then 0 else n + 1, h + Delivery(job, n, r, now), job.id)
  {
    LedgerSend(counted, n, h, job, r);
    if EndsJob(n, r) {
      LedgerRecord(h + [SendOf(job, r)], job.id, r == Delivered, now);
      assert h + Delivery(job, n, r, now) == h + [SendOf(job, r)] + [Recorded(job.id, r == Delivered, now)];
    }
  }

  /** The same, for the files and the tracker. */
  ghost predicate KeptIn(jobs: map<string, Job>, statuses: map<string, JobStatus>, seen: map<string, nat>,
                         written: multiset<string>, h: seq<Happening>, id: string)
  {
    Kept(id in jobs && id !in statuses, id in written, id in seen, Count(seen, id), h, id)
  }

  /** One job at most was written under the ID, and no status write of it failed. */
  ghost predicate Trusted(written: multiset<string>, spoiled: set<string>, id: string) {
    written[id] <= 1 && id !in spoiled
  }

  /** The directory, the tracker or the history knows the ID. */
  ghost predicate Known(jobs: map<string, Job>, statuses: map<string, JobStatus>, seen: map<string, nat>,
                        h: seq<Happening>, id: string)
  {
    id in jobs || id in statuses || id in seen || exists e :: e in h && e.id == id
  }

  /** Whatever is known about an ID is known from a job written under it. */
  ghost predicate Written(jobs: map<string, Job>, statuses: map<string, JobStatus>, seen: map<string, nat>,
                          written: multiset<string>, h: seq<Happening>)
  {
    forall id {:trigger Known(jobs, statuses, seen, h, id)} :: Known(jobs, statuses, seen, h, id) ==> id in written
  }

  ghost predicate Ledger(jobs: map<string, Job>, statuses: map<string, JobStatus>, seen: map<string, nat>,
                         written: multiset<string>, spoiled: set<string>, h: seq<Happening>)
  {
    && Written(jobs, statuses, seen, written, h)
    && (forall id {:trigger KeptIn(jobs, statuses, seen, written, h, id)} ::
          Trusted(written, spoiled, id) ==> KeptIn(jobs, statuses, seen, written, h, id))
  }

  lemma OtherEvent(h: seq<Happening>, e: Happening, x: string)
    requires e.id != x && Promised(h, x)
    ensures Promised(h + [e], x) && (Concluded(h + [e], x) <==> Concluded(h, x))
    ensures Wins(h + [e], x) == Wins(h, x) && Failures(h + [e], x) == Failures(h, x)
    ensures GaveUp(h + [e], x) <==> GaveUp(h, x)
  {
    Counting(h, e, x);
    Happened(h, e, x);
  }

  /** What happens to other jobs does not matter to a job. */
  lemma {:induction false} OthersKeep(pending: bool, known: bool, counted: bool, count: nat,
                                      h: seq<Happening>, more: seq<Happening>, x: string)
    requires Kept(pending, known, counted, count, h, x) && forall e :: e in more ==> e.id != x
    ensures Kept(pending, known, counted, count, h + more, x)
  {
    if more == [] {
      assert h + more == h;
    } else {
      var init, last := more[..|more| - 1], more[|more| - 1];
      OthersKeep(pending, known, counted, count, h, init, x);
      OtherEvent(h + init, last, x);
      assert h + more == h + init + [last];
    }
  }

  lemma NewIsKept(h: seq<Happening>, id: string)
    requires forall e :: e in h ==> e.id != id
    ensures Kept(true, true, false, 0, h, id) && Sends(h, id) == 0
  {
    assert [] + h == h;
    OthersKeep(true, true, false, 0, [], h, id);
  }

  lemma UnknownIsQuiet(jobs: map<string, Job>, statuses: map<string, JobStatus>, seen: map<string, nat>,
                       written: multiset<string>, h: seq<Happening>, id: string)
    requires Written(jobs, statuses, seen, written, h) && id !in written
    ensures id !in jobs && id !in statuses && id !in seen && forall e :: e in h ==> e.id != id
  {
    assert !Known(jobs, statuses, seen, h, id);
  }

  /** Adding a job, under a new ID or one used before. */
  lemma LedgerWrite(jobs: map<string, Job>, statuses: map<string, JobStatus>, seen: map<string, nat>,
                    written: multiset<string>, spoiled: set<string>, h: seq<Happening>, job: Job)
    requires Ledger(jobs, statuses, seen, written, spoiled, h)
    ensures Ledger(jobs[job.id := job], statuses, seen, written + multiset{job.id}, spoiled, h)
  {
    var jobs', written' := jobs[job.id := job], written + multiset{job.id};
    forall id | Trusted(written', spoiled, id) ensures KeptIn(jobs', statuses, seen, written', h, id) {
      if id == job.id {
        UnknownIsQuiet(jobs, statuses, seen, written, h, id);
        NewIsKept(h, id);
      } else {
        assert KeptIn(jobs, statuses, seen, written, h, id);
      }
    }
    forall id | Known(jobs', statuses, seen, h, id) ensures id in written' {
      assert id == job.id || Known(jobs, statuses, seen, h, id);
    }
  }

  /** What one delivery makes of the tracker and the statuses. */
  function SeenAfter(seen: map<string, nat>, id: string, r: SendResult): map<string, nat> {
    if EndsJob(Count(seen, id), r) then seen - {id} else seen[id := Count(seen, id) + 1]
  }

  lemma DeliveredOwn(jobs: map<string, Job>, statuses: map<string, JobStatus>, seen: map<string, nat>,
                     statuses': map<string, JobStatus>, written: multiset<string>, h: seq<Happening>,
                     job: Job, r: SendResult, now: int)
    requires KeptIn(jobs, statuses, seen, written, h, job.id)
    requires job.id in jobs && job.id !in statuses && job.id in written
    requires job.id in statuses' <==> EndsJob(Count(seen, job.id), r)
    ensures KeptIn(jobs, statuses', SeenAfter(seen, job.id, r), written,
                   h + Delivery(job, Count(seen, job.id), r, now), job.id)
  {
    LedgerDeliver(job.id in seen, Count(seen, job.id), h, job, r, now);
  }

  lemma DeliveredOther(jobs: map<string, Job>, statuses: map<string, JobStatus>, seen: map<string, nat>,
                       statuses': map<string, JobStatus>, seen': map<string, nat>,
                       written: multiset<string>, h: seq<Happening>, more: seq<Happening>, x: string)
    requires KeptIn(jobs, statuses, seen, written, h, x) && (forall e :: e in more ==> e.id != x)
    requires (x in statuses' <==> x in statuses) && (x in seen' <==> x in seen) && Count(seen', x) == Count(seen, x)
    ensures KeptIn(jobs, statuses', seen', written, h + more, x)
  {
    OthersKeep(x in jobs && x !in statuses, x in written, x in seen, Count(seen, x), h, more, x);
  }

  /** One send to a pending job, with its status when that ends the job; without it, when the
      status cannot be written. */
  lemma LedgerDelivery(jobs: map<string, Job>, statuses: map<string, JobStatus>, seen: map<string, nat>,
                       written: multiset<string>, spoiled: set<string>, h: seq<Happening>,
                       job: Job, r: SendResult, works: bool, now: int, more: seq<Happening>)
    requires Ledger(jobs, statuses, seen, written, spoiled, h) && job.id in jobs && job.id !in statuses
    requires more == if works then Delivery(job, Count(seen, job.id), r, now) else [SendOf(job, r)]
    ensures var id, ends := job.id, EndsJob(Count(seen, job.id), r);
            Ledger(jobs, if ends && works then statuses[id := JobStatus(r == Delivered, now)] else statuses,
                   SeenAfter(seen, id, r), written, if ends && !works then spoiled + {id} else spoiled, h + more)
  {
    var id := job.id;
    var seen', ends := SeenAfter(seen, id, r), EndsJob(Count(seen, id), r);
    var statuses' := if ends && works then statuses[id := JobStatus(r == Delivered, now)] else statuses;
    assert Known(jobs, statuses, seen, h, id);
    forall x | Known(jobs, statuses', seen', h + more, x) ensures x in written {
      assert x == id || Known(jobs, statuses, seen, h, x);
    }
    var spoiled' := if ends && !works then spoiled + {id} else spoiled;
    forall x | Trusted(written, spoiled', x) ensures KeptIn(jobs, statuses', seen', written, h + more, x) {
      assert Trusted(written, spoiled, x) && KeptIn(jobs, statuses, seen, written, h, x);
      if x == id {
        assert more == Delivery(job, Count(seen, id), r, now);
        DeliveredOwn(jobs, statuses, seen, statuses', written, h, job, r, now);
      } else {
        DeliveredOther(jobs, statuses, seen, statuses', seen', written, h, more, x);
      }
    }
  }

  /** Removing both files of jobs that have a status. */
  lemma LedgerPrune(jobs: map<string, Job>, statuses: map<string, JobStatus>, seen: map<string, nat>,
                    written: multiset<string>, spoiled: set<string>, h: seq<Happening>, expired: set<string>)
    requires Ledger(jobs, statuses, seen, written, spoiled, h) && expired <= statuses.Keys
    ensures Ledger(jobs - expired, statuses - expired, seen, written, spoiled, h)
  {
    forall id | Trusted(written, spoiled, id) ensures KeptIn(jobs - expired, statuses - expired, seen, written, h, id) {
      assert KeptIn(jobs, statuses, seen, written, h, id);
    }
    forall id | Known(jobs - expired, statuses - expired, seen, h, id) ensures id in written {
      assert Known(jobs, statuses, seen, h, id);
    }
  }

  // ---------------------------------------------------------------- what is sent

  /** A job file holds a job that was written under its name, and what was sent was written. */
  ghost predicate Mail(jobs: map<string, Job>, posted: set<Job>, h: seq<Happening>) {
    && (forall id :: id in jobs ==> jobs[id].id == id && jobs[id] in posted)
    && (forall e :: e in h ==> WasPosted(e, posted))
  }

  ghost predicate WasPosted(e: Happening, posted: set<Job>) {
    e.Sent? ==> Job(e.id, e.chatId, e.text) in posted
  }

  /** Every status was written as the history says. */
  ghost predicate Dated(statuses: map<string, JobStatus>, h: seq<Happening>) {
    forall id :: id in statuses ==> Recorded(id, statuses[id].ok, statuses[id].completedAt) in h
  }

  lemma PostedMore(jobs: map<string, Job>, posted: set<Job>, h: seq<Happening>, more: seq<Happening>)
    requires Mail(jobs, posted, h) && forall e :: e in more ==> WasPosted(e, posted)
    ensures Mail(jobs, posted, h + more)
  {
    assert forall e :: e in h + more <==> e in h || e in more;
  }

  lemma DatedMore(statuses: map<string, JobStatus>, h: seq<Happening>, more: seq<Happening>, id: string, status: JobStatus)
    requires Dated(statuses, h)
    ensures Dated(statuses, h + more)
    ensures Recorded(id, status.ok, status.completedAt) in more ==> Dated(statuses[id := status], h + more)
  {
    assert forall e :: e in h + more <==> e in h || e in more;
  }

  // ---------------------------------------------------------------- who writes under an ID

  /** The IDs under which these jobs are written; an empty one is refused. */
  ghost function IdsOf(jobs: seq<Job>): multiset<string> {
    if jobs == [] then multiset{}
    else
      var ids, last := IdsOf(jobs[..|jobs| - 1]), jobs[|jobs| - 1].id;
      if last == "" then ids else ids + multiset{last}
  }

  lemma OneMoreJob(jobs: seq<Job>, job: Job)
    ensures IdsOf(jobs + [job]) == if job.id == "" then IdsOf(jobs) else IdsOf(jobs) + multiset{job.id}
    ensures Accepted(jobs + [job]) == if job.id == "" then Accepted(jobs) else Accepted(jobs) + {job}
  {
    assert (jobs + [job])[..|jobs|] == jobs;
    assert forall x :: x in jobs + [job] <==> x in jobs || x == job;
  }

  /** Jobs under these IDs were added to the directory and to what was ever written. */
  ghost predicate Added(jobs0: map<string, Job>, written0: multiset<string>,
                        jobs: map<string, Job>, written: multiset<string>, ids: multiset<string>)
  {
    && (forall id {:trigger Joined(jobs0, jobs, ids, id)} :: Joined(jobs0, jobs, ids, id))
    && written == written0 + ids
  }

  ghost predicate Joined(jobs0: map<string, Job>, jobs: map<string, Job>, ids: multiset<string>, id: string) {
    id in jobs <==> id in jobs0 || id in ids
  }

  lemma AddedOne(jobs0: map<string, Job>, written0: multiset<string>,
                 jobs: map<string, Job>, written: multiset<string>, ids: multiset<string>, job: Job)
    requires Added(jobs0, written0, jobs, written, ids)
    ensures Added(jobs0, written0, jobs[job.id := job], written + multiset{job.id}, ids + multiset{job.id})
  {
    var jobs', ids' := jobs[job.id := job], ids + multiset{job.id};
    forall id ensures Joined(jobs0, jobs', ids', id) {
      assert Joined(jobs0, jobs, ids, id);
    }
  }

  /** The IDs that other processes write from one moment to another. */
  ghost function Arrived(world: World, from: nat, to: nat): multiset<string> {
    if to <= from then multiset{} else Arrived(world, from, to - 1) + IdsOf(world.arrivals(to - 1))
  }

  /** The jobs they write. */
  ghost function Posts(world: World, from: nat, to: nat): set<Job> {
    if to <= from then {} else Posts(world, from, to - 1) + Accepted(world.arrivals(to - 1))
  }

  ghost function Accepted(jobs: seq<Job>): set<Job> {
    set job | job in jobs && job.id != ""
  }

  lemma AllPosted(a: set<Job>, b: set<Job>, job: Job)
    ensures (a + b) + {job} == a + (b + {job})
  {
  }

  lemma {:induction false} PostsSplit(world: World, from: nat, mid: nat, to: nat)
    requires from <= mid <= to
    ensures Posts(world, from, to) == Posts(world, from, mid) + Posts(world, mid, to)
  {
    if mid < to {
      PostsSplit(world, from, mid, to - 1);
    }
  }

  lemma Together(a: multiset<string>, b: multiset<string>, c: multiset<string>)
    ensures a + (b + c) == (a + b) + c
  {
  }

  lemma {:induction false} ArrivedSplit(world: World, from: nat, mid: nat, to: nat)
    requires from <= mid <= to
    ensures Arrived(world, from, to) == Arrived(world, from, mid) + Arrived(world, mid, to)
  {
    if mid < to {
      ArrivedSplit(world, from, mid, to - 1);
      Together(Arrived(world, from, mid), Arrived(world, mid, to - 1), IdsOf(world.arrivals(to - 1)));
    }
  }

  /** Every status that the watcher writes for this job is there. */
  ghost predicate StatusWorks(world: World, id: string) {
    forall t :: world.statusWritten(id, t)
  }

  /** The watcher is never stopped, and the file of this job can be read. */
  ghost predicate Undisturbed(world: World, id: string) {
    (forall t :: !world.stopped(t)) && (forall t :: world.readable(id, t))
  }

  /** Only jobs whose status could not be written at some time are added. */
  ghost predicate OnlyFaulty(world: World, spoiled: set<string>, spoiled': set<string>) {
    forall id {:trigger StatusWorks(world, id)} :: id in spoiled' && id !in spoiled ==> !StatusWorks(world, id)
  }

  /** What arrived and what was spoiled since a moment, while nothing stopped the watcher. */
  ghost predicate Since(world: World, from: nat, to: nat, written0: multiset<string>, written: multiset<string>,
                        posted0: set<Job>, posted: set<Job>, spoiled0: set<string>, spoiled: set<string>)
  {
    && from <= to && (forall t {:trigger world.stopped(t)} :: from <= t < to ==> !world.stopped(t))
    && written == written0 + Arrived(world, from, to) && posted == posted0 + Posts(world, from, to)
    && spoiled0 <= spoiled && OnlyFaulty(world, spoiled0, spoiled)
  }

  lemma SinceStart(world: World, time: nat, written: multiset<string>, posted: set<Job>, spoiled: set<string>)
    ensures Since(world, time, time, written, written, posted, posted, spoiled, spoiled)
  {
  }

  lemma SinceNext(world: World, from: nat, to: nat, written0: multiset<string>, written: multiset<string>,
                  posted0: set<Job>, posted: set<Job>, spoiled0: set<string>, spoiled: set<string>, spoiled': set<string>)
    requires Since(world, from, to, written0, written, posted0, posted, spoiled0, spoiled) && !world.stopped(to)
    requires spoiled <= spoiled' && OnlyFaulty(world, spoiled, spoiled')
    ensures Since(world, from, to + 1, written0, written + IdsOf(world.arrivals(to)),
                  posted0, posted + Accepted(world.arrivals(to)), spoiled0, spoiled')
  {
    Together(written0, Arrived(world, from, to), IdsOf(world.arrivals(to)));
  }

  // ---------------------------------------------------------------- what becomes of the files

  /** While jobs are sent, no status changes or goes, a listed job may get one of this moment,
      and jobs are only added. */
  ghost predicate FilesGrew(listed: bool, now: int, jobs: map<string, Job>, statuses: map<string, JobStatus>,
                            jobs': map<string, Job>, statuses': map<string, JobStatus>,
                            arrived: multiset<string>, id: string)
  {
    && (id in statuses ==> id in statuses' && statuses'[id] == statuses[id])
    && (id in statuses' && id !in statuses ==> listed && statuses'[id].completedAt == now)
    && (id in jobs' <==> id in jobs || id in arrived)
  }

  ghost predicate Grew(list: seq<string>, now: int, jobs: map<string, Job>, statuses: map<string, JobStatus>,
                       h: seq<Happening>, jobs': map<string, Job>, statuses': map<string, JobStatus>,
                       h': seq<Happening>, arrived: multiset<string>)
  {
    && (forall id {:trigger FilesGrew(id in list, now, jobs, statuses, jobs', statuses', arrived, id)} ::
          FilesGrew(id in list, now, jobs, statuses, jobs', statuses', arrived, id))
    && RecordedNow(h, h', now)
  }

  /** Whatever was recorded meanwhile bears the time of the tick. */
  ghost predicate RecordedNow(h: seq<Happening>, h': seq<Happening>, now: int) {
    forall e :: e in h' && e.Recorded? ==> e in h || e.at == now
  }

  lemma NothingGrew(now: int, jobs: map<string, Job>, statuses: map<string, JobStatus>, h: seq<Happening>)
    ensures Grew([], now, jobs, statuses, h, jobs, statuses, h, multiset{})
  {
    var none: seq<string> := [];
    forall id ensures FilesGrew(id in none, now, jobs, statuses, jobs, statuses, multiset{}, id) {
    }
  }

  lemma GrewMore(list: seq<string>, i: nat, now: int, jobs0: map<string, Job>, statuses0: map<string, JobStatus>,
                 h0: seq<Happening>, jobs: map<string, Job>, statuses: map<string, JobStatus>, h: seq<Happening>,
                 jobs': map<string, Job>, statuses': map<string, JobStatus>, h': seq<Happening>,
                 arrived: multiset<string>, more: multiset<string>)
    requires i < |list|
    requires Grew(list[..i], now, jobs0, statuses0, h0, jobs, statuses, h, arrived)
    requires Grew([list[i]], now, jobs, statuses, h, jobs', statuses', h', more)
    ensures Grew(list[..i + 1], now, jobs0, statuses0, h0, jobs', statuses', h', arrived + more)
  {
    var part, next, one := list[..i], list[..i + 1], [list[i]];
    assert next == part + one;
    forall id ensures FilesGrew(id in next, now, jobs0, statuses0, jobs', statuses', arrived + more, id) {
      assert FilesGrew(id in part, now, jobs0, statuses0, jobs, statuses, arrived, id);
      assert FilesGrew(id in one, now, jobs, statuses, jobs', statuses', more, id);
    }
  }

  lemma GrewEarly(list: seq<string>, i: nat, now: int, jobs: map<string, Job>, statuses: map<string, JobStatus>,
                  h: seq<Happening>, jobs': map<string, Job>, statuses': map<string, JobStatus>,
                  h': seq<Happening>, arrived: multiset<string>)
    requires i <= |list| && Grew(list[..i], now, jobs, statuses, h, jobs', statuses', h', arrived)
    ensures Grew(list, now, jobs, statuses, h, jobs', statuses', h', arrived)
  {
    var part := list[..i];
    forall id ensures FilesGrew(id in list, now, jobs, statuses, jobs', statuses', arrived, id) {
      assert FilesGrew(id in part, now, jobs, statuses, jobs', statuses', arrived, id);
      assert id in part ==> id in list;
    }
  }

  /** One job served: the jobs that arrived before it, and its delivery. */
  lemma ServedGrew(id: string, now: int, jobs: map<string, Job>, statuses: map<string, JobStatus>, h: seq<Happening>,
                   jobs': map<string, Job>, written: multiset<string>, written': multiset<string>,
                   ids: multiset<string>, job: Job, n: nat, r: SendResult, works: bool)
    requires Added(jobs, written, jobs', written', ids) && id !in statuses
    ensures var more := if works then Delivery(job, n, r, now) else [SendOf(job, r)];
            var statuses' := if EndsJob(n, r) && works then statuses[id := JobStatus(r == Delivered, now)] else statuses;
            Grew([id], now, jobs, statuses, h, jobs', statuses', h + more, ids)
    ensures Grew([id], now, jobs, statuses, h, jobs', statuses, h, ids)
  {
    var one := [id];
    var statuses' := if EndsJob(n, r) && works then statuses[id := JobStatus(r == Delivered, now)] else statuses;
    forall x
      ensures FilesGrew(x in one, now, jobs, statuses, jobs', statuses', ids, x)
      ensures FilesGrew(x in one, now, jobs, statuses, jobs', statuses, ids, x)
    {
      assert Joined(jobs, jobs', ids, x);
    }
  }

  /** What a tick makes of the files of one job: a status that is old enough is gone, with its
      job unless it was written again; everything else stays. */
  ghost predicate AgedOut(now: int, retention: int, jobs: map<string, Job>, statuses: map<string, JobStatus>,
                          jobs': map<string, Job>, statuses': map<string, JobStatus>,
                          arrived: multiset<string>, id: string)
  {
    if id in statuses && statuses[id].completedAt <= now - retention then
      id !in statuses' && (id in jobs' <==> id in arrived)
    else
      && (id in statuses ==> id in statuses' && statuses'[id] == statuses[id])
      && (id in statuses' && id !in statuses ==> id in jobs && statuses'[id].completedAt == now)
      && (id in jobs' <==> id in jobs || id in arrived)
  }

  // ---------------------------------------------------------------- how often a job is sent

  /** 1 for the jobs on the list. */
  function Served(list: seq<string>, id: string): nat {
    if id in list then 1 else 0
  }

  /** One send of this job, or none, and no send of another one. */
  ghost predicate SentOne(h: seq<Happening>, h': seq<Happening>, id: string, sent: bool) {
    h <= h' && forall x :: Sends(h', x) == Sends(h, x) + if x == id && sent then 1 else 0
  }

  /** One send at most of every job on the list, exactly one of every job that nothing keeps
      the watcher from, and none of other jobs. */
  ghost predicate SentTo(world: World, h: seq<Happening>, h': seq<Happening>, list: seq<string>) {
    h <= h' && forall id {:trigger SentAlike(world, h, h', list, id)} :: SentAlike(world, h, h', list, id)
  }

  ghost predicate SentAlike(world: World, h: seq<Happening>, h': seq<Happening>, list: seq<string>, id: string) {
    && Sends(h, id) <= Sends(h', id) <= Sends(h, id) + Served(list, id)
    && (Undisturbed(world, id) ==> Sends(h', id) == Sends(h, id) + Served(list, id))
  }

  lemma SentNext(world: World, h0: seq<Happening>, h: seq<Happening>, h': seq<Happening>, list: seq<string>, i: nat, time: nat)
    requires i < |list| && forall j, k :: 0 <= j < k < |list| ==> list[j] != list[k]
    requires SentTo(world, h0, h, list[..i]) && SentOne(h, h', list[i], world.readable(list[i], time))
    ensures SentTo(world, h0, h', list[..i + 1])
  {
    var part, next := list[..i], list[..i + 1];
    assert next == part + [list[i]];
    forall id ensures SentAlike(world, h0, h', next, id) {
      assert SentAlike(world, h0, h, part, id);
      assert Served(next, id) == Served(part, id) + if id == list[i] then 1 else 0;
    }
  }

  lemma ServedOnce(h: seq<Happening>, job: Job, n: nat, r: SendResult, works: bool, now: int)
    ensures var more := if works then Delivery(job, n, r, now) else [SendOf(job, r)];
            SentOne(h, h + more, job.id, true)
  {
    var more := if works then Delivery(job, n, r, now) else [SendOf(job, r)];
    var end := more[1..];
    assert h + more == h + [SendOf(job, r)] + end;
    forall x ensures Sends(h + more, x) == Sends(h, x) + (if x == job.id then 1 else 0) {
      SendsGrow(h, SendOf(job, r), end, x);
    }
  }

  /** Halfway through the list. */
  ghost predicate Sending(list: seq<string>, i: nat, jobs: map<string, Job>, statuses: map<string, JobStatus>)
    requires i <= |list|
  {
    forall j :: i <= j < |list| ==> list[j] in jobs && list[j] !in statuses
  }

  lemma SendingNext(list: seq<string>, i: nat, now: int, jobs: map<string, Job>, statuses: map<string, JobStatus>,
                    h: seq<Happening>, jobs': map<string, Job>, statuses': map<string, JobStatus>,
                    h': seq<Happening>, ids: multiset<string>)
    requires i < |list| && Sending(list, i, jobs, statuses)
    requires forall j, k :: 0 <= j < k < |list| ==> list[j] != list[k]
    requires Grew([list[i]], now, jobs, statuses, h, jobs', statuses', h', ids)
    ensures Sending(list, i + 1, jobs', statuses')
  {
    var one := [list[i]];
    forall j | i < j < |list| ensures list[j] in jobs' && list[j] !in statuses' {
      assert FilesGrew(list[j] in one, now, jobs, statuses, jobs', statuses', ids, list[j]);
    }
  }

  lemma StoppedEarly(world: World, h: seq<Happening>, h': seq<Happening>, list: seq<string>, i: nat, time: nat)
    requires i <= |list| && SentTo(world, h, h', list[..i]) && world.stopped(time)
    ensures SentTo(world, h, h', list)
  {
    var part := list[..i];
    forall id ensures SentAlike(world, h, h', list, id) {
      assert SentAlike(world, h, h', part, id);
      assert id in part ==> id in list;
    }
  }

  lemma NothingSent(world: World, h: seq<Happening>)
    ensures SentTo(world, h, h, [])
  {
    forall id ensures SentAlike(world, h, h, [], id) {
    }
  }

  // ---------------------------------------------------------------- the watcher

  class Watcher {
    var jobs: map<string, Job>               // <id>.job
    var statuses: map<string, JobStatus>     // <id>.status
    var seen: map<string, nat>               // the attempt tracker
    ghost var written: multiset<string>      // the ID of every job ever written
    ghost var posted: set<Job>               // every job ever written
    ghost var history: seq<Happening>
    ghost var spoiled: set<string>           // the jobs whose status could not be written

    ghost predicate Valid()
      reads this
    {
      && "" !in jobs && Ledger(jobs, statuses, seen, written, spoiled, history)
      && Mail(jobs, posted, history) && Dated(statuses, history)
    }

    constructor ()
      ensures Valid() && jobs == map[] && statuses == map[] && history == []
      ensures written == multiset{} && spoiled == {} && posted == {}
    {
      jobs, statuses, seen := map[], map[], map[];
      written, history, spoiled, posted := multiset{}, [], {}, {};
    }

    method Inc(id: string) returns (n: nat)
      modifies this`seen
      ensures n == Count(old(seen), id) + 1 && seen == old(seen)[id := n]
    {
      n := (if id in seen then seen[id] else 0) + 1;
      seen := seen[id := n];
    }

    method Del(id: string)
      modifies this`seen
      ensures seen == old(seen) - {id}
    {
      seen := seen - {id};
    }

    /** Refuses an empty ID; otherwise the job file appears in one step. */
    method WriteJob(job: Job) returns (ok: bool)
      requires Valid()
      modifies this`jobs, this`written, this`posted
      ensures Valid() && (ok <==> job.id != "")
      ensures posted == if ok then old(posted) + {job} else old(posted)
      ensures jobs == if ok then old(jobs)[job.id := job] else old(jobs)
      ensures written == if ok then old(written) + multiset{job.id} else old(written)
    {
      if job.id == "" {
        return false;
      }
      LedgerWrite(jobs, statuses, seen, written, spoiled, history, job);
      jobs := jobs[job.id := job];
      written := written + multiset{job.id};
      posted := posted + {job};
      return true;
    }

    /** Writes the status file; refuses an empty ID, or fails and leaves the directory as it is. */
    method WriteStatus(id: string, status: JobStatus, works: bool)
      modifies this`statuses, this`history, this`spoiled
      ensures statuses == if works && id != "" then old(statuses)[id := status] else old(statuses)
      ensures history == if works && id != "" then old(history) + [Recorded(id, status.ok, status.completedAt)]
                         else old(history)
      ensures spoiled == if works && id != "" then old(spoiled) else old(spoiled) + {id}
    {
      if works && id != "" {
        statuses := statuses[id := status];
        history := history + [Recorded(id, status.ok, status.completedAt)];
      } else {
        spoiled := spoiled + {id};
      }
    }

    /** One send of the message in the job's file, and a status when the job is done with. */
    method Deliver(id: string, result: SendResult, works: bool, now: int)
      requires Valid() && id in jobs && id !in statuses
      modifies this`statuses, this`seen, this`history, this`spoiled
      ensures Valid()
      ensures var n := Count(old(seen), id);
              var ends := EndsJob(n, result);
              && seen == SeenAfter(old(seen), id, result)
              && statuses == (if ends && works then old(statuses)[id := JobStatus(result == Delivered, now)] else old(statuses))
              && history == old(history) + (if works then Delivery(jobs[id], n, result, now) else [SendOf(jobs[id], result)])
              && spoiled == (if ends && !works then old(spoiled) + {id} else old(spoiled))
    {
      var job := jobs[id];
      ghost var n, h := Count(seen, id), history;
      ghost var more := if works then Delivery(job, n, result, now) else [SendOf(job, result)];
      LedgerDelivery(jobs, statuses, seen, written, spoiled, h, job, result, works, now, more);
      history := history + [SendOf(job, result)];
      if result == Delivered {
        Del(job.id);
        WriteStatus(job.id, JobStatus(true, now), works);
      } else {
        var count := Inc(job.id);
        if result == Permanent || count >= MAX_TRANSIENT_ATTEMPTS {
          Del(job.id);
          assert seen == old(seen) - {id};
          WriteStatus(job.id, JobStatus(false, now), works);
        }
      }
      assert history == h + more;
      PostedMore(jobs, posted, h, more);
      DatedMore(old(statuses), h, more, job.id, JobStatus(result == Delivered, now));
    }

    /** Removes the files of jobs whose status is old enough. */
    method PruneDelivered(now: int, retention: int)
      requires Valid()
      modifies this`jobs, this`statuses
      ensures Valid()
      ensures statuses == map id | id in old(statuses) && old(statuses)[id].completedAt > now - retention :: old(statuses)[id]
      ensures jobs == map id | id in old(jobs) && !(id in old(statuses) && id !in statuses) :: old(jobs)[id]
    {
      var expired := set id | id in statuses && statuses[id].completedAt <= now - retention;
      LedgerPrune(jobs, statuses, seen, written, spoiled, history, expired);
      jobs := jobs - expired;
      statuses := statuses - expired;
    }

    /** The jobs without a status, in the order of some directory listing. */
    method PendingJobs() returns (pending: seq<string>)
      ensures forall id :: id in pending <==> id in jobs && id !in statuses
      ensures forall i, j :: 0 <= i < j < |pending| ==> pending[i] != pending[j]
    {
      pending := [];
      var rest := jobs.Keys - statuses.Keys;
      while rest != {}
        invariant forall id :: id in pending || id in rest <==> id in jobs && id !in statuses
        invariant forall id :: id in pending ==> id !in rest
        invariant forall i, j :: 0 <= i < j < |pending| ==> pending[i] != pending[j]
        decreases |rest|
      {
        var id :| id in rest;
        pending := pending + [id];
        rest := rest - {id};
      }
    }

    /** Another process adds jobs. */
    method Arrive(arrivals: seq<Job>)
      requires Valid()
      modifies this`jobs, this`written, this`posted
      ensures Valid()
      ensures Added(old(jobs), old(written), jobs, written, IdsOf(arrivals)) && posted == old(posted) + Accepted(arrivals)
    {
      for i := 0 to |arrivals|
        invariant Valid() && Added(old(jobs), old(written), jobs, written, IdsOf(arrivals[..i]))
        invariant posted == old(posted) + Accepted(arrivals[..i])
      {
        assert arrivals[..i + 1] == arrivals[..i] + [arrivals[i]];
        OneMoreJob(arrivals[..i], arrivals[i]);
        AddedOne(old(jobs), old(written), jobs, written, IdsOf(arrivals[..i]), arrivals[i]);
        AllPosted(old(posted), Accepted(arrivals[..i]), arrivals[i]);
        var ok := WriteJob(arrivals[i]);
      }
      assert arrivals[..|arrivals|] == arrivals;
    }

    /** New jobs arrive, then one pending job is sent, if its file can be read. */
    method Serve(id: string, world: World, time: nat, now: int)
      requires Valid() && id in jobs && id !in statuses
      modifies this
      ensures Valid()
      ensures OnlyFaulty(world, old(spoiled), spoiled) && old(spoiled) <= spoiled
      ensures Added(old(jobs), old(written), jobs, written, IdsOf(world.arrivals(time)))
      ensures posted == old(posted) + Accepted(world.arrivals(time))
      ensures SentOne(old(history), history, id, world.readable(id, time))
      ensures Grew([id], now, old(jobs), old(statuses), old(history), jobs, statuses, history, IdsOf(world.arrivals(time)))
    {
      Arrive(world.arrivals(time));
      assert Joined(old(jobs), jobs, IdsOf(world.arrivals(time)), id);
      var result, works := world.send(id, time), world.statusWritten(id, time);
      ghost var job, n := jobs[id], Count(seen, id);
      ServedGrew(id, now, old(jobs), statuses, history, jobs, old(written), written,
                 IdsOf(world.arrivals(time)), job, n, result, works);
      if !world.readable(id, time) {
        return;
      }
      ghost var before := history;
      Deliver(id, result, works, now);
      ServedOnce(before, job, n, result, works, now);
    }

    /** One tick: prune, list the pending jobs, send them one by one. */
    method Tick(world: World, time: nat, now: int, retention: int) returns (time': nat, ghost due: seq<string>)
      requires Valid()
      modifies this
      ensures Valid() && Since(world, time, time', old(written), written, old(posted), posted, old(spoiled), spoiled)
      ensures SentTo(world, old(history), history, due) && RecordedNow(old(history), history, now)
      ensures forall id :: id in due <==> id in old(jobs) && id !in old(statuses)
      ensures forall id {:trigger AgedOut(now, retention, old(jobs), old(statuses), jobs, statuses,
                                          Arrived(world, time, time'), id)} ::
                AgedOut(now, retention, old(jobs), old(statuses), jobs, statuses, Arrived(world, time, time'), id)
    {
      PruneDelivered(now, retention);
      var pending := PendingJobs();
      due := pending;
      ghost var jobs1, statuses1 := jobs, statuses;
      time' := SendAll(pending, world, time, now);
      ghost var arrived := Arrived(world, time, time');
      forall id ensures AgedOut(now, retention, old(jobs), old(statuses), jobs, statuses, arrived, id) {
        assert FilesGrew(id in pending, now, jobs1, statuses1, jobs, statuses, arrived, id);
      }
    }

    /** The next job on the list. */
    method SendNext(pending: seq<string>, i: nat, world: World, ghost from: nat, time: nat, now: int,
                    ghost written0: multiset<string>, ghost posted0: set<Job>, ghost spoiled0: set<string>,
                    ghost history0: seq<Happening>, ghost jobs0: map<string, Job>, ghost statuses0: map<string, JobStatus>)
      requires i < |pending| && Valid() && Sending(pending, i, jobs, statuses)
      requires forall j, k :: 0 <= j < k < |pending| ==> pending[j] != pending[k]
      requires Since(world, from, time, written0, written, posted0, posted, spoiled0, spoiled) && !world.stopped(time)
      requires SentTo(world, history0, history, pending[..i])
      requires Grew(pending[..i], now, jobs0, statuses0, history0, jobs, statuses, history, Arrived(world, from, time))
      modifies this
      ensures Valid() && Sending(pending, i + 1, jobs, statuses)
      ensures Since(world, from, time + 1, written0, written, posted0, posted, spoiled0, spoiled)
      ensures SentTo(world, history0, history, pending[..i + 1])
      ensures Grew(pending[..i + 1], now, jobs0, statuses0, history0, jobs, statuses, history, Arrived(world, from, time + 1))
    {
      Serve(pending[i], world, time, now);
      SendingNext(pending, i, now, old(jobs), old(statuses), old(history), jobs, statuses, history,
                  IdsOf(world.arrivals(time)));
      SentNext(world, history0, old(history), history, pending, i, time);
      SinceNext(world, from, time, written0, old(written), posted0, old(posted), spoiled0, old(spoiled), spoiled);
      GrewMore(pending, i, now, jobs0, statuses0, history0, old(jobs), old(statuses), old(history),
               jobs, statuses, history, Arrived(world, from, time), IdsOf(world.arrivals(time)));
    }

    /** The loop of a tick: every listed job in turn, until the context is done. */
    method SendAll(pending: seq<string>, world: World, time: nat, now: int) returns (time': nat)
      requires Valid() && Sending(pending, 0, jobs, statuses)
      requires forall i, j :: 0 <= i < j < |pending| ==> pending[i] != pending[j]
      modifies this
      ensures Valid() && Since(world, time, time', old(written), written, old(posted), posted, old(spoiled), spoiled)
      ensures SentTo(world, old(history), history, pending)
      ensures Grew(pending, now, old(jobs), old(statuses), old(history), jobs, statuses, history, Arrived(world, time, time'))
    {
      time' := time;
      NothingSent(world, history);
      SinceStart(world, time, written, posted, spoiled);
      NothingGrew(now, jobs, statuses, history);
      assert pending[..0] == [];
      for i := 0 to |pending|
        invariant Valid() && Sending(pending, i, jobs, statuses)
        invariant Since(world, time, time', old(written), written, old(posted), posted, old(spoiled), spoiled)
        invariant SentTo(world, old(history), history, pending[..i])
        invariant Grew(pending[..i], now, old(jobs), old(statuses), old(history), jobs, statuses, history,
                       Arrived(world, time, time'))
      {
        if world.stopped(time') {
          StoppedEarly(world, old(history), history, pending, i, time');
          GrewEarly(pending, i, now, old(jobs), old(statuses), old(history), jobs, statuses, history,
                    Arrived(world, time, time'));
          return;
        }
        SendNext(pending, i, world, time, time', now, old(written), old(posted), old(spoiled), old(history),
                 old(jobs), old(statuses));
        time' := time' + 1;
      }
      assert pending[..|pending|] == pending;
    }
  }

  /** What happens to an outbox between the start and the end of one Watch. */
  datatype Action = AddJob(job: Job) | RunTick(now: int)

  /** The jobs that the actions write, in order. */
  ghost function JobsOf(actions: seq<Action>): seq<Job> {
    if actions == [] then []
    else
      var last := actions[|actions| - 1];
      JobsOf(actions[..|actions| - 1]) + if last.AddJob? then [last.job] else []
  }

  ghost function Ticks(actions: seq<Action>): nat {
    if actions == [] then 0
    else Ticks(actions[..|actions| - 1]) + if actions[|actions| - 1].RunTick? then 1 else 0
  }

  /** A job that n ticks have seen: still pending after n sends, or done with. */
  ghost predicate Followed(pending: bool, h: seq<Happening>, id: string, n: nat) {
    if pending then Sends(h, id) == n else Concluded(h, id)
  }

  /** The job that one of the first n actions wrote under this ID has been sent in every tick
      since, until it was done with. */
  ghost predicate FollowedSince(actions: seq<Action>, n: nat, pending: bool, h: seq<Happening>, id: string)
    requires n <= |actions|
  {
    forall k {:trigger actions[k]} :: 0 <= k < n && actions[k].AddJob? && actions[k].job.id == id && id != "" ==>
      Followed(pending, h, id, Ticks(actions[k + 1..n]))
  }

  lemma {:induction false} WrittenByAction(actions: seq<Action>, k: nat, n: nat)
    requires k < n <= |actions| && actions[k].AddJob? && actions[k].job.id != ""
    ensures actions[k].job.id in IdsOf(JobsOf(actions[..n]))
  {
    NextAction(actions, n - 1);
    if k < n - 1 {
      WrittenByAction(actions, k, n - 1);
    }
  }

  lemma NextAction(actions: seq<Action>, n: nat)
    requires n < |actions|
    ensures IdsOf(JobsOf(actions[..n + 1]))
         == if actions[n].AddJob? && actions[n].job.id != "" then IdsOf(JobsOf(actions[..n])) + multiset{actions[n].job.id}
            else IdsOf(JobsOf(actions[..n]))
    ensures Accepted(JobsOf(actions[..n + 1]))
         == if actions[n].AddJob? && actions[n].job.id != "" then Accepted(JobsOf(actions[..n])) + {actions[n].job}
            else Accepted(JobsOf(actions[..n]))
    ensures Ticks(actions[..n + 1]) == Ticks(actions[..n]) + if actions[n].RunTick? then 1 else 0
  {
    assert actions[..n + 1][..n] == actions[..n];
    if actions[n].AddJob? {
      OneMoreJob(JobsOf(actions[..n]), actions[n].job);
    } else {
      assert JobsOf(actions[..n]) + [] == JobsOf(actions[..n]);
    }
  }

  lemma TicksNext(actions: seq<Action>, k: nat, n: nat)
    requires k <= n < |actions|
    ensures Ticks(actions[k..n + 1]) == Ticks(actions[k..n]) + if actions[n].RunTick? then 1 else 0
  {
    assert actions[k..n + 1][..n - k] == actions[k..n];
  }

  /** A new job is followed from now on, and so are the earlier ones. */
  lemma FollowedAfterAdd(actions: seq<Action>, n: nat, pending: bool, h: seq<Happening>, id: string)
    requires n < |actions| && actions[n].AddJob? && FollowedSince(actions, n, pending, h, id)
    requires actions[n].job.id == id ==> id !in IdsOf(JobsOf(actions[..n])) && forall e :: e in h ==> e.id != id
    ensures FollowedSince(actions, n + 1, if actions[n].job.id == id then true else pending, h, id)
  {
    forall k | 0 <= k < n + 1 && actions[k].AddJob? && actions[k].job.id == id && id != ""
      ensures Followed(if actions[n].job.id == id then true else pending, h, id, Ticks(actions[k + 1..n + 1]))
    {
      if k < n {
        TicksNext(actions, k + 1, n);
        WrittenByAction(actions, k, n);
      } else {
        NewIsKept(h, id);
      }
    }
  }

  /** A tick sends every followed job that is not done with. */
  lemma FollowedAfterTick(actions: seq<Action>, n: nat, pending0: bool, h0: seq<Happening>,
                          pending: bool, known: bool, counted: bool, count: nat, h: seq<Happening>, id: string)
    requires n < |actions| && actions[n].RunTick? && FollowedSince(actions, n, pending0, h0, id)
    requires id in IdsOf(JobsOf(actions[..n])) ==> known
    requires Kept(pending, known, counted, count, h, id) && h0 <= h
    requires Sends(h, id) == Sends(h0, id) + if pending0 then 1 else 0
    ensures FollowedSince(actions, n + 1, pending, h, id)
  {
    forall k | 0 <= k < n + 1 && actions[k].AddJob? && actions[k].job.id == id && id != ""
      ensures Followed(pending, h, id, Ticks(actions[k + 1..n + 1]))
    {
      TicksNext(actions, k + 1, n);
      WrittenByAction(actions, k, n);
      assert Concluded(h0, id) ==> Concluded(h, id);
    }
  }

  /** Nobody else writes a job under the ID, and its status can be written. */
  ghost predicate Sound(actions: seq<Action>, world: World, time: nat, id: string) {
    (IdsOf(JobsOf(actions)) + Arrived(world, 0, time))[id] <= 1 && StatusWorks(world, id)
  }

  /** Every job with an ID of its own that nothing keeps the watcher from is followed. */
  ghost predicate AllFollowed(actions: seq<Action>, n: nat, world: World, jobs: map<string, Job>,
                              statuses: map<string, JobStatus>, written: multiset<string>, spoiled: set<string>,
                              h: seq<Happening>)
    requires n <= |actions|
  {
    forall id {:trigger Undisturbed(world, id)} :: Undisturbed(world, id) && Trusted(written, spoiled, id) ==>
      FollowedSince(actions, n, id in jobs && id !in statuses, h, id)
  }

  lemma AllFollowedAfterAdd(actions: seq<Action>, n: nat, world: World, time: nat, jobs: map<string, Job>,
                            statuses: map<string, JobStatus>, seen: map<string, nat>, written: multiset<string>,
                            spoiled: set<string>, h: seq<Happening>)
    requires n < |actions| && actions[n].AddJob? && Ledger(jobs, statuses, seen, written, spoiled, h)
    requires written == IdsOf(JobsOf(actions[..n])) + Arrived(world, 0, time)
    requires AllFollowed(actions, n, world, jobs, statuses, written, spoiled, h)
    ensures var job := actions[n].job;
            if job.id == "" then AllFollowed(actions, n + 1, world, jobs, statuses, written, spoiled, h)
            else AllFollowed(actions, n + 1, world, jobs[job.id := job], statuses, written + multiset{job.id}, spoiled, h)
  {
    var job := actions[n].job;
    var jobs' := if job.id == "" then jobs else jobs[job.id := job];
    var written' := if job.id == "" then written else written + multiset{job.id};
    forall id | Undisturbed(world, id) && Trusted(written', spoiled, id)
      ensures FollowedSince(actions, n + 1, id in jobs' && id !in statuses, h, id)
    {
      assert Trusted(written, spoiled, id);
      if id != "" {
        if job.id == id {
          UnknownIsQuiet(jobs, statuses, seen, written, h, id);
        }
        FollowedAfterAdd(actions, n, id in jobs && id !in statuses, h, id);
      }
    }
  }

  lemma AllFollowedAfterTick(actions: seq<Action>, n: nat, world: World, jobs0: map<string, Job>,
                             statuses0: map<string, JobStatus>, written0: multiset<string>, spoiled0: set<string>,
                             h0: seq<Happening>, due: seq<string>, jobs: map<string, Job>,
                             statuses: map<string, JobStatus>, seen: map<string, nat>, written: multiset<string>,
                             spoiled: set<string>, h: seq<Happening>)
    requires n < |actions| && actions[n].RunTick? && Ledger(jobs, statuses, seen, written, spoiled, h)
    requires AllFollowed(actions, n, world, jobs0, statuses0, written0, spoiled0, h0)
    requires IdsOf(JobsOf(actions[..n])) <= written0 <= written && spoiled0 <= spoiled
    requires SentTo(world, h0, h, due) && forall id :: id in due <==> id in jobs0 && id !in statuses0
    ensures AllFollowed(actions, n + 1, world, jobs, statuses, written, spoiled, h)
  {
    forall id | Undisturbed(world, id) && Trusted(written, spoiled, id)
      ensures FollowedSince(actions, n + 1, id in jobs && id !in statuses, h, id)
    {
      assert Trusted(written0, spoiled0, id) && KeptIn(jobs, statuses, seen, written, h, id);
      assert SentAlike(world, h0, h, due, id);
      FollowedAfterTick(actions, n, id in jobs0 && id !in statuses0, h0,
                        id in jobs && id !in statuses, id in written, id in seen, Count(seen, id), h, id);
    }
  }

  /** No tick sends a job twice. */
  lemma SentByTicks(actions: seq<Action>, n: nat, world: World, h0: seq<Happening>, h: seq<Happening>, due: seq<string>)
    requires n < |actions| && actions[n].RunTick? && SentTo(world, h0, h, due)
    requires forall id :: Sends(h0, id) <= Ticks(actions[..n])
    ensures forall id :: Sends(h, id) <= Ticks(actions[..n + 1])
  {
    NextAction(actions, n);
    forall id ensures Sends(h, id) <= Ticks(actions[..n + 1]) {
      assert SentAlike(world, h0, h, due, id);
    }
  }

  /** The status was written by some tick, and a later or the same tick found it old enough. */
  ghost predicate OldEnough(actions: seq<Action>, n: nat, retention: int, h: seq<Happening>, id: string)
    requires n <= |actions|
  {
    exists e :: e in h && EndedBefore(actions, n, retention, e, id)
  }

  ghost predicate EndedBefore(actions: seq<Action>, n: nat, retention: int, e: Happening, id: string)
    requires n <= |actions|
  {
    e.Recorded? && e.id == id && exists b :: 0 <= b < n && TickedAt(actions, b, e.at, retention)
  }

  lemma StaysOld(actions: seq<Action>, n: nat, retention: int, h0: seq<Happening>, h: seq<Happening>, id: string)
    requires n < |actions| && h0 <= h && OldEnough(actions, n, retention, h0, id)
    ensures OldEnough(actions, n + 1, retention, h, id)
  {
    var e :| e in h0 && EndedBefore(actions, n, retention, e, id);
    var b :| 0 <= b < n && TickedAt(actions, b, e.at, retention);
    assert e in h && EndedBefore(actions, n + 1, retention, e, id);
  }

  /** Action b is a tick that comes the retention after this moment, or later. */
  ghost predicate TickedAt(actions: seq<Action>, b: nat, at: int, retention: int)
    requires b < |actions|
  {
    actions[b].RunTick? && actions[b].now >= at + retention
  }

  /** Every status bears the time of a tick. */
  ghost predicate ByTicks(actions: seq<Action>, n: nat, h: seq<Happening>)
    requires n <= |actions|
  {
    forall e :: e in h && e.Recorded? ==> exists a :: 0 <= a < n && actions[a] == RunTick(e.at)
  }

  /** A job's file stays until a tick finds its status old enough. */
  ghost predicate GoneWhenOld(actions: seq<Action>, n: nat, retention: int, jobs: map<string, Job>,
                              written: multiset<string>, h: seq<Happening>)
    requires n <= |actions|
  {
    forall id {:trigger OldEnough(actions, n, retention, h, id)} ::
      id in written && id !in jobs ==> OldEnough(actions, n, retention, h, id)
  }

  lemma GoneAfterTick(actions: seq<Action>, n: nat, retention: int, jobs0: map<string, Job>,
                      statuses0: map<string, JobStatus>, written0: multiset<string>, h0: seq<Happening>,
                      jobs: map<string, Job>, statuses: map<string, JobStatus>, arrived: multiset<string>, h: seq<Happening>)
    requires n < |actions| && actions[n].RunTick? && h0 <= h && Dated(statuses0, h0)
    requires GoneWhenOld(actions, n, retention, jobs0, written0, h0)
    requires forall id {:trigger AgedOut(actions[n].now, retention, jobs0, statuses0, jobs, statuses, arrived, id)} ::
               AgedOut(actions[n].now, retention, jobs0, statuses0, jobs, statuses, arrived, id)
    ensures GoneWhenOld(actions, n + 1, retention, jobs, written0 + arrived, h)
  {
    forall id | id in written0 + arrived && id !in jobs ensures OldEnough(actions, n + 1, retention, h, id) {
      assert AgedOut(actions[n].now, retention, jobs0, statuses0, jobs, statuses, arrived, id);
      if id in jobs0 {
        var e := Recorded(id, statuses0[id].ok, statuses0[id].completedAt);
        assert e in h0 && TickedAt(actions, n, e.at, retention);
        assert e in h && EndedBefore(actions, n + 1, retention, e, id);
      } else {
        StaysOld(actions, n, retention, h0, h, id);
      }
    }
  }

  lemma GoneAfterAdd(actions: seq<Action>, n: nat, retention: int, jobs: map<string, Job>, written: multiset<string>,
                     h: seq<Happening>)
    requires n < |actions| && actions[n].AddJob? && GoneWhenOld(actions, n, retention, jobs, written, h)
    ensures var job := actions[n].job;
            if job.id == "" then GoneWhenOld(actions, n + 1, retention, jobs, written, h)
            else GoneWhenOld(actions, n + 1, retention, jobs[job.id := job], written + multiset{job.id}, h)
  {
    forall id | id in written && id !in jobs ensures OldEnough(actions, n + 1, retention, h, id) {
      StaysOld(actions, n, retention, h, h, id);
    }
  }

  lemma TicksAfter(actions: seq<Action>, n: nat, h0: seq<Happening>, h: seq<Happening>)
    requires n < |actions| && ByTicks(actions, n, h0)
    requires if actions[n].RunTick? then RecordedNow(h0, h, actions[n].now) else h == h0
    ensures ByTicks(actions, n + 1, h)
  {
    forall e | e in h && e.Recorded? ensures exists a :: 0 <= a < n + 1 && actions[a] == RunTick(e.at) {
      if e in h0 {
        var a :| 0 <= a < n && actions[a] == RunTick(e.at);
      } else {
        assert actions[n] == RunTick(e.at);
      }
    }
  }

  /** What the first n actions have made of the outbox. */
  ghost predicate SoFar(w: Watcher, actions: seq<Action>, n: nat, world: World, time: nat, retention: int)
    requires n <= |actions|
    reads w
  {
    && w.Valid()
    && w.written == IdsOf(JobsOf(actions[..n])) + Arrived(world, 0, time)
    && w.posted == Accepted(JobsOf(actions[..n])) + Posts(world, 0, time)
    && (forall id :: Sends(w.history, id) <= Ticks(actions[..n]))
    && OnlyFaulty(world, {}, w.spoiled)
    && AllFollowed(actions, n, world, w.jobs, w.statuses, w.written, w.spoiled, w.history)
    && ByTicks(actions, n, w.history)
    && GoneWhenOld(actions, n, retention, w.jobs, w.written, w.history)
  }

  method TakeJob(w: Watcher, ghost actions: seq<Action>, ghost n: nat, job: Job, ghost world: World, ghost time: nat,
                 ghost retention: int)
    requires n < |actions| && actions[n] == AddJob(job) && SoFar(w, actions, n, world, time, retention)
    modifies w
    ensures SoFar(w, actions, n + 1, world, time, retention)
  {
    NextAction(actions, n);
    AllFollowedAfterAdd(actions, n, world, time, w.jobs, w.statuses, w.seen, w.written, w.spoiled, w.history);
    GoneAfterAdd(actions, n, retention, w.jobs, w.written, w.history);
    TicksAfter(actions, n, w.history, w.history);
    var ok := w.WriteJob(job);
  }

  method TakeTick(w: Watcher, ghost actions: seq<Action>, ghost n: nat, now: int, world: World, time: nat, retention: int)
    returns (time': nat)
    requires n < |actions| && actions[n] == RunTick(now) && SoFar(w, actions, n, world, time, retention)
    modifies w
    ensures SoFar(w, actions, n + 1, world, time', retention)
  {
    NextAction(actions, n);
    ghost var due;
    time', due := w.Tick(world, time, now, retention);
    ArrivedSplit(world, 0, time, time');
    PostsSplit(world, 0, time, time');
    SentByTicks(actions, n, world, old(w.history), w.history, due);
    AllFollowedAfterTick(actions, n, world, old(w.jobs), old(w.statuses), old(w.written), old(w.spoiled), old(w.history),
                         due, w.jobs, w.statuses, w.seen, w.written, w.spoiled, w.history);
    TicksAfter(actions, n, old(w.history), w.history);
    GoneAfterTick(actions, n, retention, old(w.jobs), old(w.statuses), old(w.written), old(w.history),
                  w.jobs, w.statuses, Arrived(world, time, time'), w.history);
  }

  /** Somebody wrote this job. */
  ghost predicate WasWritten(actions: seq<Action>, world: World, time: nat, job: Job) {
    job in JobsOf(actions) || exists t :: 0 <= t < time && job in world.arrivals(t)
  }

  lemma {:induction false} PostsWereWritten(world: World, time: nat, job: Job)
    requires job in Posts(world, 0, time)
    ensures exists t :: 0 <= t < time && job in world.arrivals(t)
  {
    if job in Accepted(world.arrivals(time - 1)) {
      assert job in world.arrivals(time - 1);
    } else {
      PostsWereWritten(world, time - 1, job);
    }
  }

  /**
   One Watch over any sequence of new jobs and ticks.  Each job under an ID of its own whose
   status can be written is sent at most three times, at most once successfully and never
   after its status, and is counted correctly while it is pending; unless something keeps
   the watcher from it, it is sent in every tick until it is done with.  Other jobs, and
   other processes, do not matter to it.  What is sent is what was written.  A job's files
   stay until a tick finds its status at least `retention` old.
   */
  method Watch(actions: seq<Action>, world: World, retention: int) returns (w: Watcher, time: nat)
    ensures fresh(w) && w.Valid()
    ensures w.written == IdsOf(JobsOf(actions)) + Arrived(world, 0, time)
    ensures forall id :: Sends(w.history, id) <= Ticks(actions)
    ensures forall id :: Sound(actions, world, time, id) ==> Promised(w.history, id)
    ensures forall id :: Sound(actions, world, time, id) && id in w.jobs && id !in w.statuses ==>
              Count(w.seen, id) == Failures(w.history, id) < 3 && Wins(w.history, id) == 0
    ensures forall id :: Sound(actions, world, time, id) && Undisturbed(world, id) ==>
              FollowedSince(actions, |actions|, id in w.jobs && id !in w.statuses, w.history, id)
    ensures forall e :: e in w.history && e.Sent? ==> WasWritten(actions, world, time, Job(e.id, e.chatId, e.text))
    ensures ByTicks(actions, |actions|, w.history)
    ensures forall id :: id in w.statuses ==> Recorded(id, w.statuses[id].ok, w.statuses[id].completedAt) in w.history
    ensures forall id :: id in w.written && id !in w.jobs ==> OldEnough(actions, |actions|, retention, w.history, id)
  {
    w := new Watcher();
    time := 0;
    for i := 0 to |actions|
      invariant fresh(w) && SoFar(w, actions, i, world, time, retention)
    {
      match actions[i]
      case AddJob(job) =>
        TakeJob(w, actions, i, job, world, time, retention);
      case RunTick(now) =>
        time := TakeTick(w, actions, i, now, world, time, retention);
    }
    assert actions[..|actions|] == actions;
    forall id | Sound(actions, world, time, id)
      ensures Trusted(w.written, w.spoiled, id) && KeptIn(w.jobs, w.statuses, w.seen, w.written, w.history, id)
    {
      assert Trusted(w.written, w.spoiled, id);
    }
    forall e | e in w.history && e.Sent? ensures WasWritten(actions, world, time, Job(e.id, e.chatId, e.text)) {
      assert WasPosted(e, w.posted);
      if Job(e.id, e.chatId, e.text) !in JobsOf(actions) {
        PostsWereWritten(world, time, Job(e.id, e.chatId, e.text));
      }
    }
  }
}
