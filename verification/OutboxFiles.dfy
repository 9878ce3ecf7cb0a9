/**
 The outbox on disk: file operations of the writers and of the watcher, one at a time, with
 a crash allowed between any two of them.  Writers fill a temporary file and rename it; the
 watcher's pruning removes the job file before the status file.
 */
module OutboxFiles {
  import opened Options

  // ---------------------------------------------------------------- names

  const JOB: string := ".job"
  const STATUS: string := ".status"
  const TMP: string := ".tmp"

  function JobName(id: string): string { id + JOB }
  function StatusName(id: string): string { id + STATUS }

  /** filepath.Ext: from the last dot on; empty without a dot. */
  function Ext(name: string): string {
    if name == "" then ""
    else if name[|name| - 1] == '.' then "."
    else
      var e := Ext(name[..|name| - 1]);
      if e == "" then "" else e + [name[|name| - 1]]
  }

  function Stem(name: string): string {
    if |Ext(name)| <= |name| then name[..|name| - |Ext(name)|] else ""
  }

  lemma {:induction false} ExtIsSuffix(name: string)
    ensures |Ext(name)| <= |name| && name == Stem(name) + Ext(name)
  {
    if name != "" && name[|name| - 1] != '.' {
      ExtIsSuffix(name[..|name| - 1]);
      assert name == name[..|name| - 1] + [name[|name| - 1]];
    }
  }

  /** A dot followed by dot-free text is the extension, whatever stands in front. */
  lemma {:induction false} ExtOf(stem: string, tail: string)
    requires forall i :: 0 <= i < |tail| ==> tail[i] != '.'
    ensures Ext(stem + "." + tail) == "." + tail
  {
    var name := stem + "." + tail;
    if tail == "" {
      assert name[|name| - 1] == '.';
    } else {
      var init := tail[..|tail| - 1];
      ExtOf(stem, init);
      assert name[..|name| - 1] == stem + "." + init;
      assert name[|name| - 1] == tail[|tail| - 1];
      assert "." + tail == "." + init + [tail[|tail| - 1]];
    }
  }

  lemma JobExt(id: string)
    ensures Ext(JobName(id)) == JOB && Stem(JobName(id)) == id
  {
    ExtOf(id, "job");
    assert JobName(id) == id + "." + "job";
    assert JobName(id)[..|id|] == id;
  }

  lemma StatusExt(id: string)
    ensures Ext(StatusName(id)) == STATUS && Stem(StatusName(id)) == id
  {
    ExtOf(id, "status");
    assert StatusName(id) == id + "." + "status";
    assert StatusName(id)[..|id|] == id;
  }

  // ---------------------------------------------------------------- PendingJobs

  datatype DirEntry = DirEntry(name: string, isDir: bool)

  /** The job files of part of a listing without a status file in all of it. */
  function Unserved(part: seq<DirEntry>, all: seq<DirEntry>): seq<string> {
    if part == [] then []
    else
      var e := part[|part| - 1];
      Unserved(part[..|part| - 1], all)
      + if !e.isDir && Ext(e.name) == JOB && DirEntry(StatusName(Stem(e.name)), false) !in all then [e.name] else []
  }

  lemma UnservedNext(part: seq<DirEntry>, all: seq<DirEntry>, e: DirEntry)
    ensures Unserved(part + [e], all) == Unserved(part, all)
      + if !e.isDir && Ext(e.name) == JOB && DirEntry(StatusName(Stem(e.name)), false) !in all then [e.name] else []
  {
    assert (part + [e])[..|part|] == part;
  }

  /** A job is pending exactly when its file is listed and its status file is not. */
  lemma {:induction false} UnservedMeaning(part: seq<DirEntry>, all: seq<DirEntry>, id: string)
    ensures JobName(id) in Unserved(part, all) <==>
              DirEntry(JobName(id), false) in part && DirEntry(StatusName(id), false) !in all
  {
    if part != [] {
      var init, e := part[..|part| - 1], part[|part| - 1];
      UnservedMeaning(init, all, id);
      assert part == init + [e];
      UnservedNext(init, all, e);
      JobExt(id);
      if e.name == JobName(id) {
        assert Stem(e.name) == id;
      }
    }
  }

  /** The job files in a listing that have no status file beside them, in listing order. */
  method PendingJobs(entries: seq<DirEntry>) returns (pending: seq<string>)
    ensures pending == Unserved(entries, entries)
    ensures forall id :: JobName(id) in pending <==>
              DirEntry(JobName(id), false) in entries && DirEntry(StatusName(id), false) !in entries
  {
    var statusSet := StatusIds(entries);
    pending := [];
    for i := 0 to |entries|
      invariant pending == Unserved(entries[..i], entries)
    {
      var e := entries[i];
      assert entries[..i + 1] == entries[..i] + [e];
      UnservedNext(entries[..i], entries, e);
      if !e.isDir && Ext(e.name) == JOB && Stem(e.name) !in statusSet {
        pending := pending + [e.name];
      }
    }
    assert entries[..|entries|] == entries;
    forall id ensures JobName(id) in pending <==>
              DirEntry(JobName(id), false) in entries && DirEntry(StatusName(id), false) !in entries
    {
      UnservedMeaning(entries, entries, id);
    }
  }

  method StatusIds(entries: seq<DirEntry>) returns (ids: set<string>)
    ensures forall id :: id in ids <==> DirEntry(StatusName(id), false) in entries
  {
    ids := {};
    for i := 0 to |entries|
      invariant forall id :: id in ids <==> DirEntry(StatusName(id), false) in entries[..i]
    {
      var e := entries[i];
      assert entries[..i + 1] == entries[..i] + [e];
      if !e.isDir && Ext(e.name) == STATUS {
        ExtIsSuffix(e.name);
        ids := ids + {Stem(e.name)};
      }
      forall id | e == DirEntry(StatusName(id), false) ensures id in ids {
        StatusExt(id);
      }
    }
    assert entries[..|entries|] == entries;
  }

  // ---------------------------------------------------------------- one operation at a time

  /** The three sorts of file the outbox directory holds. */
  datatype Name = Job(id: string) | Status(id: string) | Temp(text: string)

  function Text(n: Name): string {
    match n
    case Job(id) => JobName(id)
    case Status(id) => StatusName(id)
    case Temp(text) => text + TMP
  }

  /** Two files of different sort or ID never share a directory entry. */
  lemma NamesAreDistinct(a: Name, b: Name)
    requires Text(a) == Text(b)
    ensures a == b
  {
    forall n: Name ensures Ext(Text(n)) == (if n.Job? then JOB else if n.Status? then STATUS else TMP) {
      if n.Job? {
        JobExt(n.id);
      } else if n.Status? {
        StatusExt(n.id);
      } else {
        ExtOf(n.text, "tmp");
        assert Text(n) == n.text + "." + "tmp";
      }
    }
    assert JOB[1] != TMP[1] && |STATUS| != |TMP|;
    if a.Temp? {
      assert a.text == Text(a)[..|a.text|] == b.text;
    } else {
      assert a.id == Text(a)[..|a.id|] == b.id;
    }
  }

  /** A file: whether all of its data has been written, and when it was last written. */
  datatype File = File(whole: bool, mtime: int)

  type Dir = map<Name, File>

  /** How far a running writeAtomic has come: the temporary file is made; all data is in it;
      it is closed and may be renamed; or something failed and it must be removed. */
  datatype Phase = Opened | Filled | Closed | Broken

  datatype Writer = Writer(dest: Name, phase: Phase)

  datatype State = State(
    dir: Dir,
    now: int,
    retention: int,
    writers: map<Name, Writer>,      // the running writeAtomic calls, by temporary file
    removing: Option<string>,        // PruneDelivered is between the two removals of this job
    usedJobs: set<string>,           // IDs some process ever began to write a job for
    everStatus: set<string>,         // IDs that ever had a status file
    removed: seq<(string, int)>      // removed job files, with the age of their status then
  )

  datatype Label =
    | Create(tmp: Name, dest: Name)                // CreateTemp
    | Fill(tmp: Name, works: bool)                 // the data is written, or only part of it
    | Close(tmp: Name, works: bool)
    | Rename(tmp: Name)
    | Abort(tmp: Name)                             // after an error the temporary file is removed
    | RemoveJob(id: string, cutoff: int, works: bool)   // PruneDelivered, first removal
    | RemoveStatus(works: bool)                    // PruneDelivered, second removal
    | Crash                                        // every process dies; the directory stays
    | Tick(d: nat)

  function Init(retention: int): State {
    State(map[], 0, retention, map[], None, {}, {}, [])
  }

  predicate Pending(dir: Dir, id: string) {
    Job(id) in dir && Status(id) !in dir
  }

  /** What PendingJobs finds in a listing of this directory, among whatever subdirectories and
      temporary files, are its pending jobs. */
  lemma ListingIsPending(entries: seq<DirEntry>, dir: Dir, id: string)
    requires forall name :: DirEntry(name, false) in entries <==> exists n :: n in dir && Text(n) == name
    ensures id + ".job" in Unserved(entries, entries) <==> Pending(dir, id)
  {
    UnservedMeaning(entries, entries, id);
    if n :| n in dir && Text(n) == JobName(id) {
      NamesAreDistinct(n, Job(id));
    }
    if n :| n in dir && Text(n) == StatusName(id) {
      NamesAreDistinct(n, Status(id));
    }
    assert Text(Job(id)) == JobName(id) && Text(Status(id)) == StatusName(id);
  }

  /** The watcher, one goroutine, is busy pruning or writing a status. */
  ghost predicate WatcherBusy(s: State) {
    s.removing.Some? || exists tmp :: tmp in s.writers && s.writers[tmp].dest.Status?
  }

  ghost predicate Enabled(s: State, l: Label) {
    match l
    case Create(tmp, dest) =>
      && tmp.Temp? && tmp !in s.dir && !dest.Temp?
      && (dest.Status? ==> Pending(s.dir, dest.id) && !WatcherBusy(s))
    case Fill(tmp, _) => tmp in s.writers && s.writers[tmp].phase.Opened?
    case Close(tmp, _) => tmp in s.writers && s.writers[tmp].phase.Filled?
    case Rename(tmp) => tmp in s.writers && tmp in s.dir && s.writers[tmp].phase.Closed?
    case Abort(tmp) => tmp in s.writers && (s.writers[tmp].phase.Broken? || s.writers[tmp].phase.Closed?)
    case RemoveJob(id, cutoff, _) =>
      !WatcherBusy(s) && Status(id) in s.dir && s.dir[Status(id)].mtime <= cutoff <= s.now - s.retention
    case RemoveStatus(_) => s.removing.Some?
    case Crash => true
    case Tick(_) => true
  }

  ghost function Apply(s: State, l: Label): State
    requires Enabled(s, l)
  {
    match l
    case Create(tmp, dest) =>
      s.(dir := s.dir[tmp := File(false, s.now)], writers := s.writers[tmp := Writer(dest, Opened)],
         usedJobs := if dest.Job? then s.usedJobs + {dest.id} else s.usedJobs)
    case Fill(tmp, works) =>
      s.(dir := s.dir[tmp := File(works, s.now)],
         writers := s.writers[tmp := Writer(s.writers[tmp].dest, if works then Filled else Broken)])
    case Close(tmp, works) =>
      s.(writers := s.writers[tmp := Writer(s.writers[tmp].dest, if works then Closed else Broken)])
    case Rename(tmp) =>
      var dest := s.writers[tmp].dest;
      s.(dir := (s.dir - {tmp})[dest := s.dir[tmp]], writers := s.writers - {tmp},
         everStatus := if dest.Status? then s.everStatus + {dest.id} else s.everStatus)
    case Abort(tmp) => s.(dir := s.dir - {tmp}, writers := s.writers - {tmp})
    case RemoveJob(id, _, works) =>
      var age := s.now - s.dir[Status(id)].mtime;
      s.(dir := if works then s.dir - {Job(id)} else s.dir, removing := Some(id),
         removed := if works && Job(id) in s.dir then s.removed + [(id, age)] else s.removed)
    case RemoveStatus(works) =>
      s.(dir := if works then s.dir - {Status(s.removing.value)} else s.dir, removing := None)
    case Crash => s.(writers := map[], removing := None)
    case Tick(d) => s.(now := s.now + d)
  }

  /** Job IDs are used once. */
  ghost predicate FreshId(s: State, l: Label) {
    l.Create? && l.dest.Job? ==> l.dest.id !in s.usedJobs
  }

  /** ... and removing a job file works. */
  ghost predicate Careful(s: State, l: Label) {
    FreshId(s, l) && (l.RemoveJob? ==> l.works)
  }

  ghost predicate IsRun(retention: int, labels: seq<Label>, states: seq<State>) {
    && |states| == |labels| + 1 && states[0] == Init(retention)
    && forall i :: 0 <= i < |labels| ==> Enabled(states[i], labels[i]) && states[i + 1] == Apply(states[i], labels[i])
  }

  // ---------------------------------------------------------------- what every run keeps

  /** Files under a final name are whole; writers write temporary files only. */
  ghost predicate Whole(s: State) {
    && (forall name :: name in s.dir && !name.Temp? ==> s.dir[name].whole)
    && (forall tmp :: tmp in s.writers ==> tmp.Temp? && !s.writers[tmp].dest.Temp?)
    && (forall tmp :: tmp in s.writers && tmp in s.dir && (s.writers[tmp].phase.Filled? || s.writers[tmp].phase.Closed?) ==>
          s.dir[tmp].whole)
  }

  ghost predicate AgedRemovals(s: State) {
    forall i :: 0 <= i < |s.removed| ==> s.removed[i].1 >= s.retention
  }

  lemma WholeStep(s: State, l: Label)
    requires Whole(s) && Enabled(s, l)
    ensures Whole(Apply(s, l))
  {
  }

  /** No half-written file ever stands under the name of a job or a status, whatever crashes. */
  lemma {:induction false} NoHalfWrittenJob(retention: int, labels: seq<Label>, states: seq<State>, n: nat)
    requires IsRun(retention, labels, states) && n < |states|
    ensures Whole(states[n])
    ensures forall id :: Job(id) in states[n].dir ==> states[n].dir[Job(id)].whole
  {
    if n > 0 {
      NoHalfWrittenJob(retention, labels, states, n - 1);
      WholeStep(states[n - 1], labels[n - 1]);
    }
  }

  /** The only operation that makes a job file disappear. */
  lemma JobsGoOnlyByPruning(s: State, l: Label, id: string)
    requires Whole(s) && Enabled(s, l) && Job(id) in s.dir && Job(id) !in Apply(s, l).dir
    ensures l.RemoveJob? && l.id == id && l.works
  {
  }

  /** No job file is removed while its status is younger than the retention. */
  lemma {:induction false} OnlyOldJobsRemoved(retention: int, labels: seq<Label>, states: seq<State>, n: nat)
    requires IsRun(retention, labels, states) && n < |states|
    ensures AgedRemovals(states[n]) && states[n].retention == retention
    ensures forall id :: n > 0 && Job(id) in states[n - 1].dir && Job(id) !in states[n].dir ==>
              Status(id) in states[n - 1].dir && states[n].now - states[n - 1].dir[Status(id)].mtime >= retention
  {
    if n > 0 {
      OnlyOldJobsRemoved(retention, labels, states, n - 1);
      NoHalfWrittenJob(retention, labels, states, n - 1);
      forall id | Job(id) in states[n - 1].dir && Job(id) !in states[n].dir
        ensures Status(id) in states[n - 1].dir && states[n].now - states[n - 1].dir[Status(id)].mtime >= retention
      {
        JobsGoOnlyByPruning(states[n - 1], labels[n - 1], id);
      }
    }
  }

  // ---------------------------------------------------------------- fresh IDs

  /** What is on disk was written under a used ID; a status on disk is remembered, and the
      status of the job that is being removed is still there. */
  ghost predicate Remembered(s: State) {
    && (forall id :: Job(id) in s.dir || id in s.everStatus ==> id in s.usedJobs)
    && (forall id :: Status(id) in s.dir ==> id in s.everStatus)
    && (s.removing.Some? ==> Status(s.removing.value) in s.dir)
  }

  /** A job writer is the only one for its ID; a status is written beside its job file. */
  ghost predicate WritersOk(s: State) {
    && (forall tmp :: tmp in s.writers ==> WriterOk(s, s.writers[tmp].dest))
    && (forall a, b :: a in s.writers && b in s.writers && s.writers[a].dest == s.writers[b].dest ==> a == b)
  }

  ghost predicate WriterOk(s: State, dest: Name) {
    && (dest.Job? ==> Untouched(s, dest.id))
    && (dest.Status? ==> Job(dest.id) in s.dir && s.removing.None?)
  }

  /** No file stands for the ID yet, though a writer has begun. */
  ghost predicate Untouched(s: State, id: string) {
    id in s.usedJobs && Job(id) !in s.dir && id !in s.everStatus
  }

  lemma RememberedKept(s: State, l: Label)
    requires Whole(s) && Remembered(s) && WritersOk(s) && Enabled(s, l)
    ensures Remembered(Apply(s, l))
  {
  }

  lemma WritersKept(s: State, l: Label)
    requires Whole(s) && Remembered(s) && WritersOk(s) && Enabled(s, l) && FreshId(s, l)
    ensures WritersOk(Apply(s, l))
  {
    var t := Apply(s, l);
    forall tmp | tmp in t.writers ensures WriterOk(t, t.writers[tmp].dest) {
      if !(l.Create? && tmp == l.tmp) {
        assert WriterOk(s, s.writers[tmp].dest);
        OldWriterKept(s, l, tmp);
      }
    }
    WritersDiffer(s, l);
  }

  lemma OldWriterKept(s: State, l: Label, tmp: Name)
    requires Whole(s) && WritersOk(s) && Enabled(s, l) && FreshId(s, l)
    requires tmp in s.writers && tmp in Apply(s, l).writers && Apply(s, l).writers[tmp].dest == s.writers[tmp].dest
    ensures WriterOk(Apply(s, l), s.writers[tmp].dest)
  {
    assert WriterOk(s, s.writers[tmp].dest);
  }

  lemma WritersDiffer(s: State, l: Label)
    requires WritersOk(s) && Enabled(s, l) && FreshId(s, l)
    ensures var t := Apply(s, l);
            forall a, b :: a in t.writers && b in t.writers && t.writers[a].dest == t.writers[b].dest ==> a == b
  {
    if l.Create? {
      forall a | a in s.writers ensures s.writers[a].dest != l.dest {
        assert WriterOk(s, s.writers[a].dest);
      }
    }
  }

  lemma {:induction false} FreshRun(retention: int, labels: seq<Label>, states: seq<State>, n: nat)
    requires IsRun(retention, labels, states) && n < |states|
    requires forall i :: 0 <= i < |labels| ==> FreshId(states[i], labels[i])
    ensures Whole(states[n]) && Remembered(states[n]) && WritersOk(states[n])
  {
    NoHalfWrittenJob(retention, labels, states, n);
    if n > 0 {
      FreshRun(retention, labels, states, n - 1);
      RememberedKept(states[n - 1], labels[n - 1]);
      WritersKept(states[n - 1], labels[n - 1]);
    }
  }

  // ---------------------------------------------------------------- resurrection

  /** A job that once had a status is pending again. */
  ghost predicate Resurrected(s: State, id: string) {
    id in s.everStatus && Pending(s.dir, id)
  }

  /** The watcher removes the status of a job whose file it could not remove before. */
  ghost predicate Resurrects(s: State, l: Label, id: string) {
    l == RemoveStatus(true) && s.removing == Some(id) && Job(id) in s.dir
  }

  /** One operation makes a job that once had a status pending again exactly when it removes
      the status while the job file is still there. */
  lemma ResurrectionStep(s: State, l: Label, id: string)
    requires Whole(s) && Remembered(s) && WritersOk(s) && Enabled(s, l)
    requires id in s.everStatus && !Pending(s.dir, id)
    ensures Resurrected(Apply(s, l), id) <==> Resurrects(s, l, id)
  {
    if l.Rename? && s.writers[l.tmp].dest.Job? {
      assert WriterOk(s, s.writers[l.tmp].dest);
    }
  }

  /** A first status never leaves its job pending. */
  lemma FirstStatus(s: State, l: Label, id: string)
    requires Enabled(s, l) && id !in s.everStatus && id in Apply(s, l).everStatus
    ensures !Pending(Apply(s, l).dir, id)
  {
  }

  /** Up to some moment of a run no job that once had a status was pending. */
  ghost predicate NoneUpTo(states: seq<State>, n: nat)
    requires n < |states|
  {
    forall i, id :: 0 <= i <= n ==> !Resurrected(states[i], id)
  }

  lemma {:induction false} NoneWithoutCause(retention: int, labels: seq<Label>, states: seq<State>, n: nat)
    requires IsRun(retention, labels, states) && n < |states|
    requires forall i :: 0 <= i < |labels| ==> FreshId(states[i], labels[i])
    requires forall i, id :: 0 <= i < n ==> !Resurrects(states[i], labels[i], id)
    ensures NoneUpTo(states, n)
  {
    if n > 0 {
      NoneWithoutCause(retention, labels, states, n - 1);
      FreshRun(retention, labels, states, n - 1);
      var s, l := states[n - 1], labels[n - 1];
      forall id ensures !Resurrected(states[n], id) {
        assert !Resurrected(s, id) && !Resurrects(s, l, id);
        if id in s.everStatus {
          ResurrectionStep(s, l, id);
        } else if id in states[n].everStatus {
          FirstStatus(s, l, id);
        }
      }
    }
  }

  /**
   With a crash allowed after every operation and job removals that may fail: in a run that
   uses each job ID once, some job that once had a status is pending again if and only if
   the watcher removed a status after it had failed to remove the job.
   */
  lemma FailedRemovalResurrects(retention: int, labels: seq<Label>, states: seq<State>)
    requires IsRun(retention, labels, states)
    requires forall i :: 0 <= i < |labels| ==> FreshId(states[i], labels[i])
    ensures (exists i, id :: 0 <= i < |states| && Resurrected(states[i], id))
       <==> (exists i, id :: 0 <= i < |labels| && Resurrects(states[i], labels[i], id))
  {
    if i, id :| 0 <= i < |labels| && Resurrects(states[i], labels[i], id) {
      FreshRun(retention, labels, states, i);
      assert Resurrected(states[i + 1], id);
    } else {
      NoneWithoutCause(retention, labels, states, |labels|);
    }
  }

  /** Only a removal that failed leaves the job file while its status is about to go. */
  lemma {:induction false} RemovalHadFailed(retention: int, labels: seq<Label>, states: seq<State>, n: nat, id: string)
    requires IsRun(retention, labels, states) && n < |states|
    requires forall i :: 0 <= i < |labels| ==> FreshId(states[i], labels[i])
    requires states[n].removing == Some(id) && Job(id) in states[n].dir
    ensures exists i, cutoff :: 0 <= i < n && labels[i] == RemoveJob(id, cutoff, false) && Job(id) in states[i].dir
  {
    var s, l := states[n - 1], labels[n - 1];
    FreshRun(retention, labels, states, n - 1);
    if l.RemoveJob? {
      assert l == RemoveJob(id, l.cutoff, false) && Job(id) in s.dir;
    } else {
      if l.Rename? && s.writers[l.tmp].dest.Job? {
        assert WriterOk(s, s.writers[l.tmp].dest);
      }
      RemovalHadFailed(retention, labels, states, n - 1, id);
    }
  }

  /**
   With a crash allowed after every operation: as long as job IDs are used once and job
   files can be removed, no job that ever had a status becomes pending again.
   */
  lemma NoJobIsResurrected(retention: int, labels: seq<Label>, states: seq<State>, n: nat)
    requires IsRun(retention, labels, states) && n < |states|
    requires forall i :: 0 <= i < |labels| ==> Careful(states[i], labels[i])
    ensures forall id :: id in states[n].everStatus ==> !Pending(states[n].dir, id)
  {
    forall i, id | 0 <= i < |labels| ensures !Resurrects(states[i], labels[i], id) {
      if Resurrects(states[i], labels[i], id) {
        RemovalHadFailed(retention, labels, states, i, id);
      }
    }
    NoneWithoutCause(retention, labels, states, n);
    forall id | id in states[n].everStatus ensures !Pending(states[n].dir, id) {
      assert !Resurrected(states[n], id);
    }
  }

  // ---------------------------------------------------------------- a run that resurrects a job

  lemma Extend(retention: int, labels: seq<Label>, states: seq<State>, l: Label) returns (more: seq<Label>, next: seq<State>)
    requires IsRun(retention, labels, states) && Enabled(states[|labels|], l)
    ensures more == labels + [l] && next == states + [Apply(states[|labels|], l)]
    ensures IsRun(retention, more, next) && next[|more|] == Apply(states[|labels|], l)
    ensures next[..|labels| + 1] == states
  {
    more, next := labels + [l], states + [Apply(states[|labels|], l)];
    forall i | 0 <= i < |more| ensures Enabled(next[i], more[i]) && next[i + 1] == Apply(next[i], more[i]) {
      if i < |labels| {
        assert next[i] == states[i] && next[i + 1] == states[i + 1] && more[i] == labels[i];
      }
    }
  }

  /** A whole file, written under its final name by one process without a pause. */
  lemma WriteFile(retention: int, labels: seq<Label>, states: seq<State>, tmp: Name, dest: Name)
    returns (more: seq<Label>, next: seq<State>)
    requires IsRun(retention, labels, states) && Enabled(states[|labels|], Create(tmp, dest))
    requires states[|labels|].writers == map[]
    ensures IsRun(retention, more, next) && |more| == |labels| + 4
    ensures labels <= more && more[|labels|..] == [Create(tmp, dest), Fill(tmp, true), Close(tmp, true), Rename(tmp)]
    ensures states <= next
    ensures var s, t := states[|labels|], next[|more|];
            && t.dir == (s.dir - {tmp})[dest := File(true, s.now)] && t.writers == map[]
            && t.now == s.now && t.retention == s.retention && t.removing == s.removing
            && t.everStatus == s.everStatus + if dest.Status? then {dest.id} else {}
  {
    var s := states[|labels|];
    more, next := Extend(retention, labels, states, Create(tmp, dest));
    more, next := Extend(retention, more, next, Fill(tmp, true));
    more, next := Extend(retention, more, next, Close(tmp, true));
    more, next := Extend(retention, more, next, Rename(tmp));
    assert (s.dir[tmp := File(false, s.now)][tmp := File(true, s.now)] - {tmp})[dest := File(true, s.now)]
        == (s.dir - {tmp})[dest := File(true, s.now)];
    assert s.writers[tmp := Writer(dest, Opened)][tmp := Writer(dest, Filled)][tmp := Writer(dest, Closed)] - {tmp} == map[];
  }

  /** A job is written, sent, and given a status; when the status is old enough the job file
      cannot be removed, but the status can. */
  lemma AJobComesBack(retention: nat, id: string) returns (labels: seq<Label>, states: seq<State>)
    ensures IsRun(retention, labels, states) && RemoveStatus(true) in labels
    ensures exists cutoff :: RemoveJob(id, cutoff, false) in labels
    ensures Resurrected(states[|labels|], id)
  {
    labels, states := [], [Init(retention)];
    var tmp := Temp("");
    labels, states := WriteFile(retention, labels, states, tmp, Job(id));
    labels, states := WriteFile(retention, labels, states, tmp, Status(id));
    labels, states := Extend(retention, labels, states, Tick(retention));
    labels, states := Extend(retention, labels, states, RemoveJob(id, 0, false));
    assert labels[|labels| - 1] == RemoveJob(id, 0, false);
    labels, states := Extend(retention, labels, states, RemoveStatus(true));
    assert RemoveJob(id, 0, false) in labels && labels[|labels| - 1] == RemoveStatus(true);
  }
}
