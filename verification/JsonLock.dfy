/**
 internal/engine/provision/jsonlock.go: read, change and write a JSON file under the mutex of
 its path.  Every interleaving of such operations and of the settings merge equals running
 them one after another in the order in which they got the mutex.
 */
module JsonLock {
  import opened Options
  import opened Settings

  // ---------------------------------------------------------------- one mutex for each path

  class Mutex {
    constructor () {}
  }

  class Mutexes {
    var byPath: map<string, Mutex>

    constructor ()
      ensures Valid() && byPath == map[]
    {
      byPath := map[];
    }

    /** Two paths never share a mutex. */
    ghost predicate Valid()
      reads this
    {
      forall a, b :: a in byPath && b in byPath && byPath[a] == byPath[b] ==> a == b
    }

    /** The mutex of a path: made once, and the same one ever after. */
    method PathMutex(path: string) returns (mu: Mutex)
      requires Valid()
      modifies this
      ensures Valid() && path in byPath && byPath[path] == mu
      ensures if path in old(byPath) then byPath == old(byPath) else fresh(mu) && byPath == old(byPath)[path := mu]
    {
      if path !in byPath {
        mu := new Mutex();
        byPath := byPath[path := mu];
      } else {
        mu := byPath[path];
      }
    }
  }

  // ---------------------------------------------------------------- what one operation does

  /** An updateJSON call, whose mutation may fail, or the settings step with its seed. */
  datatype Change = Update(mutate: Doc -> Option<Doc>) | Install(seed: File)

  /** How the writing went: the JSON was written; it was not, but the seed was copied; nothing
      was written; or copying the seed stopped half way. */
  datatype Fate = Works | Copies | Fails | Tears

  /** The file after an operation that read it and then wrote with this fate. */
  function Outcome(file: File, change: Change, fate: Fate): (after: File)
    ensures change.Update? && (file.Bad? || fate != Works) ==> after == file
    ensures change.Update? && after != file ==>
              fate == Works && after.Good?
              && change.mutate(if file.Good? then file.doc else map[]) == Some(after.doc)
  {
    match change
    case Update(mutate) =>
      if file.Bad? || fate != Works then file
      else
        var m := if file.Good? then file.doc else map[];
        if mutate(m).Some? then Good(mutate(m).value) else file
    case Install(seed) =>
      if seed.Missing? || fate == Fails then file
      else if fate == Tears then Bad
      else Installed(file, seed, fate == Works)
  }

  /** The mutation of the effort and theme steps. */
  function SetKey(key: string, value: Json): Change {
    Update((m: Doc) => Some(m[key := value]))
  }

  // ---------------------------------------------------------------- interleavings

  datatype Pc = Waiting | Holding | Loaded(seen: File) | Written | Done

  datatype Proc = Proc(change: Change, path: string, pc: Pc)

  datatype Commit = Commit(who: nat, change: Change, fate: Fate)

  /** A mutex: who holds it, who ever got it, in order, and what they did to the file. */
  datatype Lock = Lock(holder: Option<nat>, takers: seq<nat>, commits: seq<Commit>)

  datatype State = State(files: map<string, File>, procs: seq<Proc>, locks: map<string, Lock>)

  datatype Label = Take(who: nat) | Load(who: nat) | Write(who: nat, fate: Fate) | Release(who: nat)

  function FileAt(s: State, path: string): File {
    if path in s.files then s.files[path] else Missing
  }

  function LockAt(s: State, path: string): Lock {
    if path in s.locks then s.locks[path] else Lock(None, [], [])
  }

  ghost predicate Enabled(s: State, l: Label) {
    && l.who < |s.procs|
    && var p := s.procs[l.who];
       match l
       case Take(_) => p.pc.Waiting? && LockAt(s, p.path).holder.None?
       case Load(_) => p.pc.Holding?
       case Write(_, _) => p.pc.Loaded?
       case Release(_) => p.pc.Written?
  }

  ghost function Apply(s: State, l: Label): State
    requires Enabled(s, l)
  {
    var i := l.who;
    var p := s.procs[i];
    var lock := LockAt(s, p.path);
    match l
    case Take(_) =>
      s.(procs := s.procs[i := p.(pc := Holding)],
         locks := s.locks[p.path := lock.(holder := Some(i), takers := lock.takers + [i])])
    case Load(_) => s.(procs := s.procs[i := p.(pc := Loaded(FileAt(s, p.path)))])
    case Write(_, fate) =>
      s.(procs := s.procs[i := p.(pc := Written)],
         files := s.files[p.path := Outcome(p.pc.seen, p.change, fate)],
         locks := s.locks[p.path := lock.(commits := lock.commits + [Commit(i, p.change, fate)])])
    case Release(_) =>
      s.(procs := s.procs[i := p.(pc := Done)], locks := s.locks[p.path := lock.(holder := None)])
  }

  ghost predicate Init(s: State) {
    s.locks == map[] && forall i :: 0 <= i < |s.procs| ==> s.procs[i].pc == Waiting
  }

  ghost predicate IsRun(labels: seq<Label>, states: seq<State>) {
    && |states| == |labels| + 1 && Init(states[0])
    && forall i :: 0 <= i < |labels| ==> Enabled(states[i], labels[i]) && states[i + 1] == Apply(states[i], labels[i])
  }

  /** One operation after another. */
  function Replay(file: File, commits: seq<Commit>): File {
    if commits == [] then file
    else
      var last := commits[|commits| - 1];
      Outcome(Replay(file, commits[..|commits| - 1]), last.change, last.fate)
  }

  // ---------------------------------------------------------------- every run is serial

  ghost predicate Busy(pc: Pc) {
    pc.Holding? || pc.Loaded? || pc.Written?
  }

  ghost predicate Committed(pc: Pc) {
    pc.Written? || pc.Done?
  }

  /** Whoever holds the mutex got it last, and what it read is still what the file holds. */
  ghost predicate HolderOk(s: State, path: string) {
    var lock := LockAt(s, path);
    lock.holder.Some? ==>
      && lock.holder.value < |s.procs| && |lock.takers| > 0
      && lock.takers[|lock.takers| - 1] == lock.holder.value
      && Busy(s.procs[lock.holder.value].pc)
      && (s.procs[lock.holder.value].pc.Loaded? ==> s.procs[lock.holder.value].pc.seen == FileAt(s, path))
  }

  /** Each got the mutex once; the commits are theirs in the same order, and only the holder
      may lack one. */
  ghost predicate InLockOrder(s: State, path: string) {
    var lock := LockAt(s, path);
    && (forall j {:trigger lock.takers[j]} :: 0 <= j < |lock.takers| ==>
          lock.takers[j] < |s.procs| && s.procs[lock.takers[j]].path == path && !s.procs[lock.takers[j]].pc.Waiting?)
    && (forall j, k :: 0 <= j < k < |lock.takers| ==> lock.takers[j] != lock.takers[k])
    && |lock.commits| <= |lock.takers|
    && (forall j {:trigger lock.commits[j]} :: 0 <= j < |lock.commits| ==>
          && lock.commits[j].who == lock.takers[j]
          && lock.commits[j].change == s.procs[lock.takers[j]].change
          && Committed(s.procs[lock.takers[j]].pc))
    && (if lock.holder.Some? && lock.holder.value < |s.procs| && !s.procs[lock.holder.value].pc.Written?
        then |lock.takers| == |lock.commits| + 1 else |lock.takers| == |lock.commits|)
  }

  /** Who is busy holds the mutex of its path; who is past its writing has committed. */
  ghost predicate ProcOk(s: State, i: nat)
    requires i < |s.procs|
  {
    var lock := LockAt(s, s.procs[i].path);
    && (Busy(s.procs[i].pc) ==> lock.holder == Some(i))
    && (!s.procs[i].pc.Waiting? ==> i in lock.takers)
  }

  ghost predicate PathOk(first: State, s: State, path: string) {
    && HolderOk(s, path) && InLockOrder(s, path)
    && FileAt(s, path) == Replay(FileAt(first, path), LockAt(s, path).commits)
  }

  ghost predicate Serial(first: State, s: State) {
    && |s.procs| == |first.procs|
    && (forall i :: 0 <= i < |s.procs| ==>
          s.procs[i].change == first.procs[i].change && s.procs[i].path == first.procs[i].path && ProcOk(s, i))
    && (forall path :: PathOk(first, s, path))
  }

  lemma OtherPathKept(first: State, s: State, l: Label, path: string)
    requires Enabled(s, l) && s.procs[l.who].path != path && PathOk(first, s, path)
    ensures PathOk(first, Apply(s, l), path)
  {
    var t := Apply(s, l);
    var lock := LockAt(s, path);
    assert LockAt(t, path) == lock && FileAt(t, path) == FileAt(s, path);
    forall j | 0 <= j < |lock.takers| ensures t.procs[lock.takers[j]] == s.procs[lock.takers[j]] {
      assert s.procs[lock.takers[j]].path == path;
    }
    assert HolderOk(t, path);
    forall j | 0 <= j < |lock.commits|
      ensures lock.commits[j].who == lock.takers[j] && lock.commits[j].change == t.procs[lock.takers[j]].change
      ensures Committed(t.procs[lock.takers[j]].pc)
    {
      assert t.procs[lock.takers[j]] == s.procs[lock.takers[j]];
    }
    assert InLockOrder(t, path);
  }

  lemma ReplayNext(file: File, commits: seq<Commit>, next: Commit)
    ensures Replay(file, commits + [next]) == Outcome(Replay(file, commits), next.change, next.fate)
  {
    assert (commits + [next])[..|commits|] == commits;
  }

  lemma TakeKeeps(first: State, s: State, l: Label)
    requires Enabled(s, l) && l.Take? && PathOk(first, s, s.procs[l.who].path)
    ensures PathOk(first, Apply(s, l), s.procs[l.who].path)
  {
    var t, path := Apply(s, l), s.procs[l.who].path;
    var was, lock := LockAt(s, path), LockAt(t, path);
    forall j | 0 <= j < |was.takers|
      ensures was.takers[j] != l.who && t.procs[was.takers[j]] == s.procs[was.takers[j]]
    {
      assert !s.procs[was.takers[j]].pc.Waiting?;
    }
    assert lock.commits == was.commits && FileAt(t, path) == FileAt(s, path);
  }

  lemma WriteKeepsFile(first: State, s: State, l: Label)
    requires Enabled(s, l) && l.Write?
    requires PathOk(first, s, s.procs[l.who].path) && ProcOk(s, l.who)
    ensures var path := s.procs[l.who].path;
            FileAt(Apply(s, l), path) == Replay(FileAt(first, path), LockAt(Apply(s, l), path).commits)
  {
    var path := s.procs[l.who].path;
    ReplayNext(FileAt(first, path), LockAt(s, path).commits, Commit(l.who, s.procs[l.who].change, l.fate));
  }

  lemma WriteKeepsOrder(s: State, l: Label)
    requires Enabled(s, l) && l.Write?
    requires InLockOrder(s, s.procs[l.who].path) && HolderOk(s, s.procs[l.who].path) && ProcOk(s, l.who)
    ensures InLockOrder(Apply(s, l), s.procs[l.who].path) && HolderOk(Apply(s, l), s.procs[l.who].path)
  {
    var t, path := Apply(s, l), s.procs[l.who].path;
    var was, lock := LockAt(s, path), LockAt(t, path);
    assert lock.takers == was.takers && lock.holder == Some(l.who) == was.holder;
    assert |was.takers| == |was.commits| + 1 && lock.takers[|was.commits|] == l.who;
    forall j | 0 <= j < |lock.commits|
      ensures lock.commits[j].who == lock.takers[j] && lock.commits[j].change == t.procs[lock.takers[j]].change
      ensures Committed(t.procs[lock.takers[j]].pc)
    {
      if j < |was.commits| {
        assert was.takers[j] != was.takers[|was.commits|] && lock.commits[j] == was.commits[j];
      }
    }
  }

  lemma LoadKeeps(s: State, l: Label)
    requires Enabled(s, l) && l.Load?
    requires InLockOrder(s, s.procs[l.who].path) && HolderOk(s, s.procs[l.who].path) && ProcOk(s, l.who)
    ensures var path := s.procs[l.who].path;
            && InLockOrder(Apply(s, l), path) && HolderOk(Apply(s, l), path)
            && FileAt(Apply(s, l), path) == FileAt(s, path)
            && LockAt(Apply(s, l), path).commits == LockAt(s, path).commits
  {
    var t, path := Apply(s, l), s.procs[l.who].path;
    var was := LockAt(s, path);
    assert LockAt(t, path).takers == was.takers && was.takers[|was.takers| - 1] == l.who;
    forall j | 0 <= j < |was.takers| - 1 ensures t.procs[was.takers[j]] == s.procs[was.takers[j]] {
      assert was.takers[j] != was.takers[|was.takers| - 1];
    }
  }

  lemma ReleaseKeeps(s: State, l: Label)
    requires Enabled(s, l) && l.Release?
    requires InLockOrder(s, s.procs[l.who].path) && HolderOk(s, s.procs[l.who].path) && ProcOk(s, l.who)
    ensures var path := s.procs[l.who].path;
            && InLockOrder(Apply(s, l), path) && HolderOk(Apply(s, l), path)
            && FileAt(Apply(s, l), path) == FileAt(s, path)
            && LockAt(Apply(s, l), path).commits == LockAt(s, path).commits
  {
    var t, path := Apply(s, l), s.procs[l.who].path;
    var was := LockAt(s, path);
    assert LockAt(t, path).takers == was.takers && was.takers[|was.takers| - 1] == l.who;
    forall j | 0 <= j < |was.takers| - 1 ensures t.procs[was.takers[j]] == s.procs[was.takers[j]] {
      assert was.takers[j] != was.takers[|was.takers| - 1];
    }
  }

  lemma ProcsKept(first: State, s: State, l: Label, i: nat)
    requires Serial(first, s) && Enabled(s, l) && i < |s.procs|
    ensures ProcOk(Apply(s, l), i)
  {
    assert ProcOk(s, i) && ProcOk(s, l.who);
    assert PathOk(first, s, s.procs[i].path);
  }

  /**
   Every run is serial: at any moment each file is what its commits make of the first file
   when done one after another, the commits are in the order in which the mutex was got, and
   only its present holder may still owe one.
   */
  lemma {:induction false} EveryRunIsSerial(labels: seq<Label>, states: seq<State>, n: nat)
    requires IsRun(labels, states) && n < |states|
    ensures Serial(states[0], states[n])
  {
    if n > 0 {
      EveryRunIsSerial(labels, states, n - 1);
      var s, l := states[n - 1], labels[n - 1];
      forall path ensures PathOk(states[0], states[n], path) {
        assert PathOk(states[0], s, path) && ProcOk(s, l.who);
        if path != s.procs[l.who].path {
          OtherPathKept(states[0], s, l, path);
        } else if l.Take? {
          TakeKeeps(states[0], s, l);
        } else if l.Write? {
          WriteKeepsFile(states[0], s, l);
          WriteKeepsOrder(s, l);
        } else if l.Load? {
          LoadKeeps(s, l);
        } else {
          ReleaseKeeps(s, l);
        }
      }
      forall i | 0 <= i < |s.procs| ensures ProcOk(states[n], i) {
        ProcsKept(states[0], s, l, i);
      }
    }
  }

  // ---------------------------------------------------------------- what writers may rely on

  /** An update that fails, in its mutation, in reading or in writing, changes no file. */
  lemma FailedUpdateChangesNothing(labels: seq<Label>, states: seq<State>, n: nat)
    requires IsRun(labels, states) && n < |labels| && labels[n].Write?
    requires var p := states[n].procs[labels[n].who];
             && p.change.Update?
             && var file := FileAt(states[n], p.path);
                (labels[n].fate != Works || file.Bad? || p.change.mutate(if file.Good? then file.doc else map[]).None?)
    ensures forall path :: FileAt(states[n + 1], path) == FileAt(states[n], path)
  {
    EveryRunIsSerial(labels, states, n);
    var path := states[n].procs[labels[n].who].path;
    assert PathOk(states[0], states[n], path) && ProcOk(states[n], labels[n].who);
  }

  /** What somebody wants of a document holds of the file. */
  ghost predicate Has(file: File, p: Doc -> bool) {
    file.Good? && p(file.doc)
  }

  /** One operation, with this fate, never breaks it. */
  ghost predicate Keeps(c: Commit, p: Doc -> bool) {
    forall file :: Has(file, p) ==> Has(Outcome(file, c.change, c.fate), p)
  }

  /** The operation that a Write label commits. */
  ghost function Committing(s: State, l: Label): Commit
    requires Enabled(s, l) && l.Write?
  {
    Commit(l.who, s.procs[l.who].change, l.fate)
  }

  /** A Write commits what one operation makes of the file as it is now; nothing else changes
      a file. */
  lemma OneStep(labels: seq<Label>, states: seq<State>, n: nat, path: string)
    requires IsRun(labels, states) && n < |labels|
    ensures var l := labels[n];
            FileAt(states[n + 1], path)
            == if l.Write? && states[n].procs[l.who].path == path
               then Outcome(FileAt(states[n], path), states[n].procs[l.who].change, l.fate)
               else FileAt(states[n], path)
  {
    EveryRunIsSerial(labels, states, n);
    if labels[n].Write? {
      assert ProcOk(states[n], labels[n].who) && PathOk(states[0], states[n], states[n].procs[labels[n].who].path);
    }
  }

  /** Between two moments of a run every commit on the path keeps it. */
  ghost predicate AllKeep(labels: seq<Label>, states: seq<State>, from: nat, to: nat, path: string, p: Doc -> bool)
    requires IsRun(labels, states) && to <= |labels|
  {
    forall i :: from <= i < to && labels[i].Write? && states[i].procs[labels[i].who].path == path ==>
      Keeps(Committing(states[i], labels[i]), p)
  }

  /** In every interleaving, what once holds of a file stays true as long as the operations
      that commit on this path keep it, whatever happens to other files. */
  lemma {:induction false} KeptInEveryRun(labels: seq<Label>, states: seq<State>, from: nat, to: nat, path: string,
                                          p: Doc -> bool)
    requires IsRun(labels, states) && from <= to <= |labels|
    requires Has(FileAt(states[from], path), p) && AllKeep(labels, states, from, to, path, p)
    ensures Has(FileAt(states[to], path), p)
  {
    if from < to {
      KeptInEveryRun(labels, states, from, to - 1, path, p);
      OneStep(labels, states, to - 1, path);
      if labels[to - 1].Write? && states[to - 1].procs[labels[to - 1].who].path == path {
        assert Keeps(Committing(states[to - 1], labels[to - 1]), p);
      }
    }
  }

  // ---------------------------------------------------------------- which operations keep what

  /** The mutation never breaks it. */
  ghost predicate Respects(mutate: Doc -> Option<Doc>, p: Doc -> bool) {
    forall doc :: p(doc) && mutate(doc).Some? ==> p(mutate(doc).value)
  }

  /** An update keeps it if and only if its mutation respects it, or nothing was written. */
  lemma UpdateKeepsIff(who: nat, mutate: Doc -> Option<Doc>, fate: Fate, p: Doc -> bool)
    ensures Keeps(Commit(who, Update(mutate), fate), p) <==> fate != Works || Respects(mutate, p)
  {
    var c := Commit(who, Update(mutate), fate);
    if Keeps(c, p) && fate == Works {
      forall doc | p(doc) && mutate(doc).Some? ensures p(mutate(doc).value) {
        assert Has(Good(doc), p) && Has(Outcome(Good(doc), c.change, fate), p);
      }
    }
  }

  /** The key has this value. */
  function KeyIs(key: string, value: Json): Doc -> bool {
    (doc: Doc) => key in doc && doc[key] == value
  }

  /** What the settings step makes of a key with this value. */
  predicate InstallKeeps(seed: File, fate: Fate, key: string, value: Json) {
    || seed.Missing? || fate == Fails
    || (fate == Works && seed.Good? && key != SANDBOX && MergedAt(map[key := value], seed.doc, key) == value)
    || (fate == Copies && seed.Good? && KeyIs(key, value)(seed.doc))
  }

  /** The settings step keeps a key if and only if it writes nothing, or merges a seed that
      leaves the value as it is, or copies a seed that has the value; the sandbox key never
      outlives a merge. */
  lemma InstallKeepsIff(who: nat, seed: File, fate: Fate, key: string, value: Json)
    ensures Keeps(Commit(who, Install(seed), fate), KeyIs(key, value)) <==> InstallKeeps(seed, fate, key, value)
  {
    var c, p := Commit(who, Install(seed), fate), KeyIs(key, value);
    if Keeps(c, p) {
      var file := Good(map[key := value]);
      assert Has(file, p) && Has(Outcome(file, c.change, fate), p);
    } else {
      var file :| Has(file, p) && !Has(Outcome(file, c.change, fate), p);
      if seed.Good? {
        assert MergedAt(file.doc, seed.doc, key) == MergedAt(map[key := value], seed.doc, key);
      }
    }
  }

  /** The merge leaves a value alone exactly when the seed does not name the key, or agrees,
      or may not decide it, or adds nothing to the object. */
  lemma MergeLeavesIff(seed: Doc, key: string, value: Json)
    ensures MergedAt(map[key := value], seed, key) == value
       <==> || key !in seed || seed[key] == value
            || (!Managed(key) && !(value.Obj? && seed[key].Obj?))
            || (!Managed(key) && value.Obj? && seed[key].Obj? && Merge(value.doc, seed[key].doc) == value.doc)
  {
    if key in seed && value.Obj? && seed[key] == value {
      MergeSelf(value.doc);
    }
  }

  // ---------------------------------------------------------------- writers of different keys

  /** The mutation changes nothing but this key. */
  ghost predicate Touches(mutate: Doc -> Option<Doc>, key: string) {
    forall doc, k :: k != key && mutate(doc).Some? ==>
      && (k in mutate(doc).value <==> k in doc)
      && (k in doc ==> mutate(doc).value[k] == doc[k])
  }

  /** It depends on this key only. */
  ghost predicate About(p: Doc -> bool, key: string) {
    forall a, b :: (key in a <==> key in b) && (key in a ==> a[key] == b[key]) ==> (p(a) <==> p(b))
  }

  /** Whenever the mutation succeeds, it holds. */
  ghost predicate Establishes(mutate: Doc -> Option<Doc>, p: Doc -> bool) {
    forall doc :: mutate(doc).Some? ==> p(mutate(doc).value)
  }

  lemma OtherKeyRespects(mutate: Doc -> Option<Doc>, its: string, p: Doc -> bool, key: string)
    requires Touches(mutate, its) && About(p, key) && its != key
    ensures Respects(mutate, p)
  {
    forall doc | p(doc) && mutate(doc).Some? ensures p(mutate(doc).value) {
      var after := mutate(doc).value;
      assert (key in doc <==> key in after) && (key in doc ==> doc[key] == after[key]);
    }
  }

  /** A writer whose commit comes later: it updates another key, or this one to the same
      effect, in whatever way its write goes; or it is an operation that keeps the value. */
  ghost predicate Harmless(c: Commit, p: Doc -> bool, key: string) {
    || (c.change.Update? && exists its :: its != key && Touches(c.change.mutate, its))
    || (c.change.Update? && Establishes(c.change.mutate, p))
    || Keeps(c, p)
  }

  lemma HarmlessKeeps(c: Commit, p: Doc -> bool, key: string)
    requires About(p, key) && Harmless(c, p, key)
    ensures Keeps(c, p)
  {
    if c.change.Update? {
      UpdateKeepsIff(c.who, c.change.mutate, c.fate, p);
      if its :| its != key && Touches(c.change.mutate, its) {
        OtherKeyRespects(c.change.mutate, its, p, key);
      }
    }
  }

  /** Between two moments of a run every commit on the path is harmless to it. */
  ghost predicate AllHarmless(labels: seq<Label>, states: seq<State>, from: nat, to: nat, path: string,
                              p: Doc -> bool, key: string)
    requires IsRun(labels, states) && to <= |labels|
  {
    forall i :: from <= i < to && labels[i].Write? && states[i].procs[labels[i].who].path == path ==>
      Harmless(Committing(states[i], labels[i]), p, key)
  }

  /**
   Writers of different keys all survive: once an update has worked that establishes
   something about its key, that stays true at every later moment of the run, as long as the
   other operations on this path update other keys or this one to the same effect, with any
   fate and any number of times, or are merges that keep it.
   */
  lemma WriterSurvives(labels: seq<Label>, states: seq<State>, w: nat, n: nat, key: string, p: Doc -> bool)
    requires IsRun(labels, states) && w < n <= |labels| && labels[w].Write? && labels[w].fate == Works
    requires var own := states[w].procs[labels[w].who];
             && own.change.Update? && Establishes(own.change.mutate, p)
             && var file := FileAt(states[w], own.path);
                !file.Bad? && own.change.mutate(if file.Good? then file.doc else map[]).Some?
    requires About(p, key)
    requires AllHarmless(labels, states, w + 1, n, states[w].procs[labels[w].who].path, p, key)
    ensures Has(FileAt(states[n], states[w].procs[labels[w].who].path), p)
  {
    var path := states[w].procs[labels[w].who].path;
    OneStep(labels, states, w, path);
    assert Has(FileAt(states[w + 1], path), p);
    forall i | w + 1 <= i < n && labels[i].Write? && states[i].procs[labels[i].who].path == path
      ensures Keeps(Committing(states[i], labels[i]), p)
    {
      HarmlessKeeps(Committing(states[i], labels[i]), p, key);
    }
    KeptInEveryRun(labels, states, w + 1, n, path, p);
  }

  lemma ManagedIsNotSandbox(key: string)
    requires Managed(key)
    ensures key != SANDBOX
  {
    assert SANDBOX[0] == 's' && SANDBOX[1] == 'a';
    assert key[0] != 's' || key[1] != 'a';
  }

  /** A managed key after the merge: the seed's value if it has one, else what was there. */
  lemma ManagedAfterMerge(dest: Doc, seed: Doc, key: string)
    requires Managed(key)
    ensures key in Cleaned(dest, seed) <==> key in dest || key in seed
    ensures key in Cleaned(dest, seed) ==> Cleaned(dest, seed)[key] == if key in seed then seed[key] else dest[key]
  {
    ManagedIsNotSandbox(key);
    if key in dest || key in seed {
      assert Merge(dest, seed)[key] == MergedAt(dest, seed, key);
    }
  }

  /** A managed key: the merge keeps what is wanted of it exactly when the seed does not name
      the key, or its own value will do. */
  lemma ManagedKeptIff(who: nat, seed: Doc, key: string, p: Doc -> bool, doc: Doc)
    requires Managed(key) && About(p, key) && p(doc)
    ensures Keeps(Commit(who, Install(Good(seed)), Works), p) <==> key !in seed || p(map[key := seed[key]])
  {
    var c := Commit(who, Install(Good(seed)), Works);
    forall file | Has(file, p)
      ensures Has(Outcome(file, c.change, Works), p) <==> key !in seed || p(map[key := seed[key]])
    {
      var after := Cleaned(file.doc, seed);
      ManagedAfterMerge(file.doc, seed, key);
      assert Outcome(file, c.change, Works) == Good(after);
      if key in seed {
        assert p(after) <==> p(map[key := seed[key]]);
      } else {
        assert p(after) <==> p(file.doc);
      }
    }
    assert Has(Good(doc), p);
    assert Has(Outcome(Good(doc), c.change, c.fate), p) <==> key !in seed || p(map[key := seed[key]]);
  }

  // ---------------------------------------------------------------- the writers of the settings file

  const ENV: string := "env"
  const BASE_URL: string := "ANTHROPIC_BASE_URL"
  const AUTH_TOKEN: string := "ANTHROPIC_AUTH_TOKEN"

  /** The env object of a settings file; anything else counts as empty. */
  function EnvOf(doc: Doc): Doc {
    if ENV in doc && doc[ENV].Obj? then doc[ENV].doc else map[]
  }

  function WithEnv(env: Doc, url: Json, token: Option<Json>): Doc {
    var e := env[BASE_URL := url];
    if token.Some? then e[AUTH_TOKEN := token.value] else e
  }

  /** The settings-env step: rewrites the two settings inside the object, when there is a
      session key, and leaves its other settings. */
  function SetEnv(url: Json, token: Option<Json>): Change {
    Update((doc: Doc) => Some(EnvSet(doc, url, token)))
  }

  function EnvSet(doc: Doc, url: Json, token: Option<Json>): Doc {
    doc[ENV := Obj(WithEnv(EnvOf(doc), url, token))]
  }

  /** The two settings by their names: they are there afterwards, other settings of the object
      and all other keys stay. */
  lemma EnvIsSpelled(doc: Doc, url: Json, token: Option<Json>, key: string, setting: string)
    ensures var e := EnvOf(EnvSet(doc, url, token));
            && EnvSet(doc, url, token)["env"] == Obj(e)
            && "ANTHROPIC_BASE_URL" in e && e["ANTHROPIC_BASE_URL"] == url
            && (token.Some? ==> "ANTHROPIC_AUTH_TOKEN" in e && e["ANTHROPIC_AUTH_TOKEN"] == token.value)
            && (setting != "ANTHROPIC_BASE_URL" && (setting != "ANTHROPIC_AUTH_TOKEN" || token.None?) ==>
                  (setting in e <==> setting in EnvOf(doc)) && (setting in e ==> e[setting] == EnvOf(doc)[setting]))
    ensures key != "env" ==>
              (key in EnvSet(doc, url, token) <==> key in doc) && (key in doc ==> EnvSet(doc, url, token)[key] == doc[key])
  {
    KeysDiffer();
  }

  /** The two settings are there. */
  function EnvHas(url: Json, token: Option<Json>): Doc -> bool {
    (doc: Doc) => HasEnv(EnvOf(doc), url, token)
  }

  predicate HasEnv(env: Doc, url: Json, token: Option<Json>) {
    && BASE_URL in env && env[BASE_URL] == url
    && (token.Some? ==> AUTH_TOKEN in env && env[AUTH_TOKEN] == token.value)
  }

  /** The effort, theme, onboarding and plugins steps. */
  lemma SetKeyWrites(key: string, value: Json)
    ensures Touches(SetKey(key, value).mutate, key)
    ensures Establishes(SetKey(key, value).mutate, KeyIs(key, value)) && About(KeyIs(key, value), key)
  {
  }

  lemma SetEnvTouches(url: Json, token: Option<Json>)
    ensures Touches(SetEnv(url, token).mutate, ENV)
  {
  }

  lemma WithEnvHas(env: Doc, url: Json, token: Option<Json>)
    ensures HasEnv(WithEnv(env, url, token), url, token)
  {
    KeysDiffer();
  }

  lemma EnvSetHas(doc: Doc, url: Json, token: Option<Json>)
    ensures HasEnv(EnvOf(EnvSet(doc, url, token)), url, token)
  {
    WithEnvHas(EnvOf(doc), url, token);
    assert EnvOf(EnvSet(doc, url, token)) == WithEnv(EnvOf(doc), url, token);
  }

  lemma SetEnvEstablishes(url: Json, token: Option<Json>)
    ensures Establishes(SetEnv(url, token).mutate, EnvHas(url, token))
  {
    forall doc: Doc ensures HasEnv(EnvOf(EnvSet(doc, url, token)), url, token) {
      EnvSetHas(doc, url, token);
    }
  }

  lemma EnvHasIsAboutEnv(url: Json, token: Option<Json>)
    ensures About(EnvHas(url, token), ENV)
  {
    forall a: Doc, b: Doc | (ENV in a <==> ENV in b) && (ENV in a ==> a[ENV] == b[ENV])
      ensures EnvHas(url, token)(a) <==> EnvHas(url, token)(b)
    {
      assert EnvOf(a) == EnvOf(b);
    }
  }

  lemma KeysDiffer()
    ensures BASE_URL != AUTH_TOKEN && Managed(ENV)
  {
    assert BASE_URL[10] != AUTH_TOKEN[10];
  }

  /** The steps of this file as later writers, any number of times and with any fate. */
  lemma StepsAreHarmless(who: nat, fate: Fate, its: string, itsValue: Json, key: string, value: Json,
                         url: Json, token: Option<Json>)
    ensures its != key || itsValue == value ==> Harmless(Commit(who, SetKey(its, itsValue), fate), KeyIs(key, value), key)
    ensures its != ENV ==> Harmless(Commit(who, SetKey(its, itsValue), fate), EnvHas(url, token), ENV)
    ensures key != ENV ==> Harmless(Commit(who, SetEnv(url, token), fate), KeyIs(key, value), key)
    ensures Harmless(Commit(who, SetEnv(url, token), fate), EnvHas(url, token), ENV)
  {
    SetKeyWrites(its, itsValue);
    SetEnvTouches(url, token);
    SetEnvEstablishes(url, token);
  }

  lemma Extend(labels: seq<Label>, states: seq<State>, l: Label) returns (more: seq<Label>, next: seq<State>)
    requires IsRun(labels, states) && Enabled(states[|labels|], l)
    ensures more == labels + [l] && next == states + [Apply(states[|labels|], l)]
    ensures IsRun(more, next) && next[|more|] == Apply(states[|labels|], l)
  {
    more, next := labels + [l], states + [Apply(states[|labels|], l)];
    forall i | 0 <= i < |more| ensures Enabled(next[i], more[i]) && next[i + 1] == Apply(next[i], more[i]) {
      if i < |labels| {
        assert next[i] == states[i] && next[i + 1] == states[i + 1] && more[i] == labels[i];
      }
    }
  }

  /** One process takes the mutex, reads, writes and releases, without a pause. */
  lemma RunAlone(labels: seq<Label>, states: seq<State>, who: nat) returns (more: seq<Label>, next: seq<State>)
    requires IsRun(labels, states) && Enabled(states[|labels|], Take(who))
    ensures IsRun(more, next) && Write(who, Works) in more && labels <= more && states <= next
    ensures var s, t, p := states[|labels|], next[|more|], states[|labels|].procs[who];
            && FileAt(t, p.path) == Outcome(FileAt(s, p.path), p.change, Works)
            && t.procs == s.procs[who := p.(pc := Done)] && LockAt(t, p.path).holder.None?
  {
    more, next := Extend(labels, states, Take(who));
    more, next := Extend(more, next, Load(who));
    more, next := Extend(more, next, Write(who, Works));
    assert more[|more| - 1] == Write(who, Works);
    more, next := Extend(more, next, Release(who));
    assert more[|more| - 2] == Write(who, Works);
  }

  /** Two processes, one after the other. */
  lemma TwoInTurn(file: File, path: string, a: Change, b: Change)
    returns (labels: seq<Label>, states: seq<State>, w: nat)
    ensures IsRun(labels, states) && FileAt(states[0], path) == file && w < |states|
    ensures states[0].procs == [Proc(a, path, Waiting), Proc(b, path, Waiting)]
    ensures FileAt(states[w], path) == Outcome(file, a, Works)
    ensures FileAt(states[|labels|], path) == Outcome(FileAt(states[w], path), b, Works)
  {
    var first := State(map[path := file], [Proc(a, path, Waiting), Proc(b, path, Waiting)], map[]);
    labels, states := [], [first];
    labels, states := RunAlone(labels, states, 0);
    w := |labels|;
    labels, states := RunAlone(labels, states, 1);
  }

  /** The settings-env step works, then the settings step merges a seed that has an env of its
      own without these settings: they are gone. */
  lemma EnvIsLost(file: File, path: string, seed: Doc, url: Json, token: Option<Json>)
    returns (labels: seq<Label>, states: seq<State>, w: nat)
    requires !file.Bad? && ENV in seed && !EnvHas(url, token)(map[ENV := seed[ENV]])
    ensures IsRun(labels, states) && FileAt(states[0], path) == file && w < |states|
    ensures states[0].procs == [Proc(SetEnv(url, token), path, Waiting), Proc(Install(Good(seed)), path, Waiting)]
    ensures Has(FileAt(states[w], path), EnvHas(url, token))
    ensures !Has(FileAt(states[|labels|], path), EnvHas(url, token))
  {
    labels, states, w := TwoInTurn(file, path, SetEnv(url, token), Install(Good(seed)));
    SetEnvEstablishes(url, token);
    EnvHasMeans(FileAt(states[w], path), url, token);
    MergeDropsEnv(FileAt(states[w], path), seed);
    EnvHasMeans(FileAt(states[|labels|], path), url, token);
  }

  lemma EnvHasMeans(file: File, url: Json, token: Option<Json>)
    ensures Has(file, EnvHas(url, token)) <==> file.Good? && HasEnv(EnvOf(file.doc), url, token)
  {
  }

  lemma MergeDropsEnv(file: File, seed: Doc)
    requires ENV in seed && file.Good?
    ensures Outcome(file, Install(Good(seed)), Works).Good?
    ensures EnvOf(Outcome(file, Install(Good(seed)), Works).doc) == EnvOf(map[ENV := seed[ENV]])
  {
    EnvAfterMerge(file.doc, seed);
  }

  lemma EnvAfterMerge(dest: Doc, seed: Doc)
    requires ENV in seed
    ensures EnvOf(Cleaned(dest, seed)) == EnvOf(map[ENV := seed[ENV]])
  {
    KeysDiffer();
    ManagedAfterMerge(dest, seed, ENV);
  }
}
