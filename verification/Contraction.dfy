/**
 Launch and LaunchBatched: a run of a list of steps, compared with a run of the same list in
 which some optional steps are contracted into one batch node.
 */
module Contraction {
  import opened Options
  import opened Commands
  import opened Steps
  import opened Schedule
  import opened Pipelines
  import opened Batches

  // ---------------------------------------------------------------- the two lists

  /** The batch step's Meta: an ordinary step, depending on what its commands depend on. */
  ghost predicate IsNode(node: Meta, cmds: seq<Meta>) {
    && node.name != "" && node.kind == Auto && !node.optional && !node.parallel && node.attempts == 0
    && forall d :: d in node.deps <==> IsOuterDep(cmds, d)
  }

  function Contract(steps: seq<Meta>, lo: nat, hi: nat, node: Meta): (short: seq<Meta>)
    requires lo <= hi <= |steps|
    ensures |short| == |steps| - (hi - lo) + 1
  {
    steps[..lo] + [node] + steps[hi..]
  }

  /** Where the k-th step of the long list stands in the short one. */
  function Place(lo: nat, hi: nat, k: nat): nat
    requires lo <= hi && (k < lo || hi <= k)
  {
    if k < lo then k else k - (hi - lo) + 1
  }

  lemma Placed(steps: seq<Meta>, lo: nat, hi: nat, node: Meta, k: nat)
    requires lo <= hi <= |steps| && k < |steps| && (k < lo || hi <= k)
    ensures Place(lo, hi, k) < |Contract(steps, lo, hi, node)|
    ensures Contract(steps, lo, hi, node)[Place(lo, hi, k)] == steps[k]
  {
  }

  /** The environment of the short list: the node answers as the batch does. */
  ghost predicate NodeEnv<W(!new)>(env: Env<W>, env': Env<W>, w0: W, cmds: seq<Meta>, name: string) {
    && (forall n, i, w, t :: n != name ==> env'.check(n, i, w, t) == env.check(n, i, w, t))
    && (forall n, i, w, t :: n != name ==> env'.succeeds(n, i, w, t) == env.succeeds(n, i, w, t))
    && (forall i, w, t :: env'.check(name, i, w, t) == BatchAnswer(env, w0, cmds))
    && (forall i, w, t :: env'.succeeds(name, i, w, t) == !BatchFails(env, w0, cmds))
  }

  /** What is asked of a contraction: the commands are optional, no dependency of theirs from
      outside fails, and the node has a name of its own. */
  ghost predicate Contractible<W>(env: Env<W>, w0: W, steps: seq<Meta>, lo: nat, hi: nat, node: Meta)
    requires lo <= hi <= |steps|
  {
    && WellFormed(steps) && IsNode(node, steps[lo..hi])
    && (forall k :: 0 <= k < |steps| ==> steps[k].name != node.name)
    && (forall k :: lo <= k < hi ==> steps[k].optional)
    && (forall j :: 0 <= j < lo && steps[j].name in node.deps ==> Final(env, w0, steps, j) != Failed)
  }

  /** Where the i-th step of the short list stands in the long one. */
  function Origin(lo: nat, hi: nat, i: nat): nat
    requires lo <= hi && i != lo
  {
    if i < lo then i else i - 1 + (hi - lo)
  }

  lemma Original(steps: seq<Meta>, lo: nat, hi: nat, node: Meta, i: nat)
    requires lo <= hi <= |steps| && i < |Contract(steps, lo, hi, node)| && i != lo
    ensures Origin(lo, hi, i) < |steps| && Contract(steps, lo, hi, node)[i] == steps[Origin(lo, hi, i)]
    ensures Origin(lo, hi, i) < lo || hi <= Origin(lo, hi, i)
  {
  }

  /** No later step depends on a contracted one. */
  ghost predicate NobodyAsks(steps: seq<Meta>, lo: nat, hi: nat)
    requires lo <= hi <= |steps|
  {
    forall k, i :: hi <= k < |steps| && lo <= i < hi ==> steps[i].name !in steps[k].deps
  }

  lemma ShortDependency(steps: seq<Meta>, lo: nat, hi: nat, node: Meta, i: nat, d: string)
    requires WellFormed(steps) && lo <= hi <= |steps| && IsNode(node, steps[lo..hi]) && NobodyAsks(steps, lo, hi)
    requires i < |Contract(steps, lo, hi, node)| && d in Contract(steps, lo, hi, node)[i].deps
    ensures Earlier(Contract(steps, lo, hi, node), i, d)
  {
    var short := Contract(steps, lo, hi, node);
    if i == lo {
      OuterDepsAreEarlier(steps, lo, hi, d);
      var j :| 0 <= j < lo && steps[j].name == d;
      assert short[j].name == d;
    } else {
      Original(steps, lo, hi, node, i);
      var at := Origin(lo, hi, i);
      assert Earlier(steps, at, d);
      var j :| 0 <= j < at && steps[j].name == d;
      assert j < lo || hi <= j;
      Placed(steps, lo, hi, node, j);
      assert short[Place(lo, hi, j)].name == d;
    }
  }

  lemma ShortNames(steps: seq<Meta>, lo: nat, hi: nat, node: Meta)
    requires WellFormed(steps) && lo <= hi <= |steps| && node.name != ""
    requires forall k :: 0 <= k < |steps| ==> steps[k].name != node.name
    ensures var short := Contract(steps, lo, hi, node);
            && (forall i :: 0 <= i < |short| ==> short[i].name != "")
            && (forall i, j :: 0 <= i < j < |short| ==> short[i].name != short[j].name)
  {
    var short := Contract(steps, lo, hi, node);
    forall i, j | 0 <= i < j < |short| ensures short[i].name != short[j].name {
      if i != lo {
        Original(steps, lo, hi, node, i);
      }
      if j != lo {
        Original(steps, lo, hi, node, j);
      }
    }
    forall i | 0 <= i < |short| ensures short[i].name != "" {
      if i != lo {
        Original(steps, lo, hi, node, i);
      }
    }
  }

  /** New accepts the short list exactly when no later step depends on a contracted one. */
  lemma ShortListIsAccepted(steps: seq<Meta>, lo: nat, hi: nat, node: Meta)
    requires WellFormed(steps) && lo <= hi <= |steps| && IsNode(node, steps[lo..hi])
    requires forall k :: 0 <= k < |steps| ==> steps[k].name != node.name
    ensures WellFormed(Contract(steps, lo, hi, node)) <==> NobodyAsks(steps, lo, hi)
  {
    var short := Contract(steps, lo, hi, node);
    ShortNames(steps, lo, hi, node);
    if NobodyAsks(steps, lo, hi) {
      forall i, d | 0 <= i < |short| && d in short[i].deps ensures Earlier(short, i, d) {
        ShortDependency(steps, lo, hi, node, i, d);
      }
    } else {
      var k, i :| hi <= k < |steps| && lo <= i < hi && steps[i].name in steps[k].deps;
      Placed(steps, lo, hi, node, k);
      NameIsGone(steps, lo, hi, node, i);
      assert !Earlier(short, Place(lo, hi, k), steps[i].name);
    }
  }

  lemma NameIsGone(steps: seq<Meta>, lo: nat, hi: nat, node: Meta, i: nat)
    requires WellFormed(steps) && lo <= i < hi <= |steps| && steps[i].name != node.name
    ensures forall j :: 0 <= j < |Contract(steps, lo, hi, node)| ==> Contract(steps, lo, hi, node)[j].name != steps[i].name
  {
    var short := Contract(steps, lo, hi, node);
    forall j | 0 <= j < |short| ensures short[j].name != steps[i].name {
      if j != lo {
        Original(steps, lo, hi, node, j);
      }
    }
  }

  // ---------------------------------------------------------------- the reference outcomes

  lemma SameVerdict<W(!new)>(env: Env<W>, env': Env<W>, w0: W, m: Meta)
    requires SameAnswers(env, env', w0, m.name)
    ensures Verdict(env', w0, m) == Verdict(env, w0, m)
    ensures RunsInAll(env', w0, m) == RunsInAll(env, w0, m)
  {
    SameRunsFrom(env, env', w0, m, m, 0);
    assert Achieves(env', w0, m) == Achieves(env, w0, m);
  }

  /** No step of the list depends on the node. */
  lemma NotTheNode(steps: seq<Meta>, lo: nat, hi: nat, node: Meta, k: nat, i: nat)
    requires WellFormed(steps) && lo <= hi <= |steps| && k < |steps| && (k < lo || hi <= k)
    requires forall j :: 0 <= j < |steps| ==> steps[j].name != node.name
    requires i < |Contract(steps, lo, hi, node)| && Contract(steps, lo, hi, node)[i].name in steps[k].deps
    ensures i != lo
  {
    assert !Earlier(steps, k, node.name) && Contract(steps, lo, hi, node)[lo] == node;
  }

  /** The steps outside the batch and before k have the same outcome in both lists. */
  ghost predicate AgreeBefore<W>(env: Env<W>, env': Env<W>, w0: W, steps: seq<Meta>, lo: nat, hi: nat, node: Meta, k: nat)
    requires lo <= hi <= |steps| && k <= |steps|
  {
    forall j {:trigger SameFinal(env, env', w0, steps, lo, hi, node, j)} ::
      0 <= j < k && (j < lo || hi <= j) ==> SameFinal(env, env', w0, steps, lo, hi, node, j)
  }

  ghost predicate SameFinal<W>(env: Env<W>, env': Env<W>, w0: W, steps: seq<Meta>, lo: nat, hi: nat, node: Meta, j: nat)
    requires lo <= hi <= |steps| && j < |steps| && (j < lo || hi <= j)
  {
    && Place(lo, hi, j) < |Contract(steps, lo, hi, node)|
    && Final(env', w0, Contract(steps, lo, hi, node), Place(lo, hi, j)) == Final(env, w0, steps, j)
  }

  lemma BlockedInShort<W>(env: Env<W>, env': Env<W>, w0: W, steps: seq<Meta>, lo: nat, hi: nat, node: Meta, k: nat)
    requires lo <= hi <= |steps| && Contractible(env, w0, steps, lo, hi, node)
    requires k < |steps| && (k < lo || hi <= k) && AgreeBefore(env, env', w0, steps, lo, hi, node, k)
    requires Blocked(env, w0, steps, k)
    ensures Place(lo, hi, k) < |Contract(steps, lo, hi, node)|
    ensures Blocked(env', w0, Contract(steps, lo, hi, node), Place(lo, hi, k))
  {
    var j := Blocker(env, w0, steps, k);
    if lo <= j < hi {
      OptionalNeverFails(env, w0, steps, j);
    }
    assert SameFinal(env, env', w0, steps, lo, hi, node, j);
    Placed(steps, lo, hi, node, j);
    Placed(steps, lo, hi, node, k);
    IsBlocked(env', w0, Contract(steps, lo, hi, node), Place(lo, hi, k), Place(lo, hi, j));
  }

  lemma BlockedInLong<W>(env: Env<W>, env': Env<W>, w0: W, steps: seq<Meta>, lo: nat, hi: nat, node: Meta, k: nat)
    requires lo <= hi <= |steps| && Contractible(env, w0, steps, lo, hi, node)
    requires k < |steps| && (k < lo || hi <= k) && AgreeBefore(env, env', w0, steps, lo, hi, node, k)
    requires Place(lo, hi, k) < |Contract(steps, lo, hi, node)|
    requires Blocked(env', w0, Contract(steps, lo, hi, node), Place(lo, hi, k))
    ensures Blocked(env, w0, steps, k)
  {
    var short, at := Contract(steps, lo, hi, node), Place(lo, hi, k);
    Placed(steps, lo, hi, node, k);
    var i := Blocker(env', w0, short, at);
    NotTheNode(steps, lo, hi, node, k, i);
    Original(steps, lo, hi, node, i);
    var j := Origin(lo, hi, i);
    assert Place(lo, hi, j) == i && j < k;
    assert SameFinal(env, env', w0, steps, lo, hi, node, j);
    IsBlocked(env, w0, steps, k, j);
  }

  lemma Blocker<W>(env: Env<W>, w0: W, steps: seq<Meta>, k: nat) returns (j: nat)
    requires k < |steps| && Blocked(env, w0, steps, k)
    ensures j < k && steps[j].name in steps[k].deps && Final(env, w0, steps, j) == Failed
  {
    j :| 0 <= j < k && steps[j].name in steps[k].deps && Final(env, w0, steps, j) == Failed;
  }

  lemma IsBlocked<W>(env: Env<W>, w0: W, steps: seq<Meta>, k: nat, j: nat)
    requires j < k < |steps| && steps[j].name in steps[k].deps && Final(env, w0, steps, j) == Failed
    ensures Blocked(env, w0, steps, k)
  {
  }

  /** A step outside the batch has the same outcome in both lists. */
  lemma {:induction false} SameOutside<W(!new)>(env: Env<W>, env': Env<W>, w0: W, steps: seq<Meta>, lo: nat, hi: nat,
                                                node: Meta, k: nat)
    requires lo <= hi <= |steps| && Contractible(env, w0, steps, lo, hi, node)
    requires NodeEnv(env, env', w0, steps[lo..hi], node.name)
    requires k < |steps| && (k < lo || hi <= k)
    ensures SameFinal(env, env', w0, steps, lo, hi, node, k)
    ensures RunCount(env', w0, Contract(steps, lo, hi, node), Place(lo, hi, k)) == RunCount(env, w0, steps, k)
    decreases k
  {
    Placed(steps, lo, hi, node, k);
    SameVerdict(env, env', w0, steps[k]);
    forall j | 0 <= j < k && (j < lo || hi <= j) ensures SameFinal(env, env', w0, steps, lo, hi, node, j) {
      SameOutside(env, env', w0, steps, lo, hi, node, j);
    }
    if Blocked(env, w0, steps, k) {
      BlockedInShort(env, env', w0, steps, lo, hi, node, k);
    } else if Blocked(env', w0, Contract(steps, lo, hi, node), Place(lo, hi, k)) {
      BlockedInLong(env, env', w0, steps, lo, hi, node, k);
    }
  }

  lemma {:induction false} OptionalAnswer<W>(env: Env<W>, w0: W, cmds: seq<Meta>)
    requires forall c :: c in cmds ==> c.optional
    ensures BatchAnswer(env, w0, cmds) != CheckError
    ensures BatchAnswer(env, w0, cmds) == Satisfied <==> forall c :: c in cmds ==> !Wanted(env, w0, c)
  {
    if cmds != [] {
      var rest := cmds[1..];
      assert cmds[0] in cmds && (Passes(env, w0, cmds[0]) <==> !Wanted(env, w0, cmds[0]));
      assert forall c :: c in rest ==> c in cmds;
      OptionalAnswer(env, w0, rest);
      if BatchAnswer(env, w0, cmds) == Satisfied {
        forall c | c in cmds ensures !Wanted(env, w0, c) {
          assert c == cmds[0] || c in rest;
        }
      }
    }
  }

  /** The node settles as done; its Run is called once, or not at all when no command wants it. */
  lemma NodeOutcome<W(!new)>(env: Env<W>, env': Env<W>, w0: W, steps: seq<Meta>, lo: nat, hi: nat, node: Meta)
    requires lo <= hi <= |steps| && Contractible(env, w0, steps, lo, hi, node)
    requires NodeEnv(env, env', w0, steps[lo..hi], node.name)
    ensures !BatchFails(env, w0, steps[lo..hi])
    ensures Final(env', w0, Contract(steps, lo, hi, node), lo) == Done
    ensures RunCount(env', w0, Contract(steps, lo, hi, node), lo)
            == if BatchAnswer(env, w0, steps[lo..hi]) == Satisfied then 0 else 1
  {
    var cmds, short := steps[lo..hi], Contract(steps, lo, hi, node);
    ListedIsAcyclic(steps, lo, hi);
    OptionalAnswer(env, w0, cmds);
    forall j | 0 <= j < lo && short[j].name in node.deps ensures Final(env', w0, short, j) != Failed {
      SameOutside(env, env', w0, steps, lo, hi, node, j);
      assert short[j] == steps[j];
    }
    assert short[lo] == node && !Blocked(env', w0, short, lo);
    assert env'.succeeds(node.name, 0, w0, 0);
    assert Achieves(env', w0, node);
  }

  // ---------------------------------------------------------------- the two runs

  /** The steps outside the batch settle alike and call their Runs as often. */
  ghost predicate AgreeOutside(steps: seq<Meta>, lo: nat, hi: nat, log: seq<Entry>, log': seq<Entry>) {
    forall k :: 0 <= k < |steps| && (k < lo || hi <= k) ==>
      && Verdicts(log', steps[k].name) == Verdicts(log, steps[k].name)
      && Runs(log', steps[k].name) == Runs(log, steps[k].name)
  }

  /** The batch called the Run of a command exactly when the pipeline did that listed it. */
  ghost predicate RanAlike(steps: seq<Meta>, log: seq<Entry>, ran: seq<Meta>, k: nat)
    requires k < |steps|
  {
    steps[k] in ran <==> Runs(log, steps[k].name) > 0
  }

  lemma FailuresAgree<W>(env: Env<W>, w0: W, steps: seq<Meta>, lo: nat, hi: nat, node: Meta,
                         log: seq<Entry>, log': seq<Entry>)
    requires lo <= hi <= |steps| && Contractible(env, w0, steps, lo, hi, node)
    requires AsReference(env, w0, steps, log) && AgreeOutside(steps, lo, hi, log, log')
    requires Verdicts(log', node.name) == [Done]
    ensures var short := Contract(steps, lo, hi, node);
            (exists k :: 0 <= k < |steps| && Verdicts(log, steps[k].name) == [Failed])
            <==> (exists k :: 0 <= k < |short| && Verdicts(log', short[k].name) == [Failed])
  {
    var short := Contract(steps, lo, hi, node);
    if k :| 0 <= k < |steps| && Verdicts(log, steps[k].name) == [Failed] {
      if lo <= k < hi {
        OptionalNeverFails(env, w0, steps, k);
      }
      Placed(steps, lo, hi, node, k);
      assert Verdicts(log', short[Place(lo, hi, k)].name) == [Failed];
    }
    if i :| 0 <= i < |short| && Verdicts(log', short[i].name) == [Failed] {
      assert i != lo;
      Original(steps, lo, hi, node, i);
      assert Verdicts(log, steps[Origin(lo, hi, i)].name) == [Failed];
    }
  }

  /**
   A run of the list and a run of the list with its commands lo..hi in one batch node,
   neither reporting cancellation, with the same fixed answers.  Every other step settles alike and calls
   its Run as often; the node ends done; both runs fail in the same cases; and the batch
   calls the Run of exactly the commands whose Run the list calls, if and only if every
   hand-off among them has an unsatisfied Check.
   */
  lemma ContractionPreservesMeaning<W(!new)>(env: Env<W>, env': Env<W>, steps: seq<Meta>, lo: nat, hi: nat, node: Meta, w0: W,
                                             err: Option<RunError>, sys: Sys<W>, err': Option<RunError>, sys': Sys<W>,
                                             ran: seq<Meta>, failed: bool)
    requires lo <= hi <= |steps| && Contractible(env, w0, steps, lo, hi, node)
    requires Fixed(env, w0) && err != Some(Cancelled) && err' != Some(Cancelled)
    requires NodeEnv(env, env', w0, steps[lo..hi], node.name)
    requires Accounted(env, steps, w0, err, sys)
    requires Accounted(env', Contract(steps, lo, hi, node), w0, err', sys')
    requires NodeRan(env, w0, steps[lo..hi], ran, failed)
    ensures AgreeOutside(steps, lo, hi, sys.log, sys'.log)
    ensures Verdicts(sys'.log, node.name) == [Done] && !failed && (Runs(sys'.log, node.name) == 0 ==> ran == [])
    ensures err.Some? <==> err'.Some?
    ensures (forall k :: lo <= k < hi ==> RanAlike(steps, sys.log, ran, k))
       <==> (forall k :: lo <= k < hi && steps[k].kind == Handoff ==> env.check(steps[k].name, 0, w0, 0) == Unsatisfied)
  {
    NodeEnvIsFixed(env, env', w0, steps[lo..hi], node.name);
    OutsideAgrees(env, env', steps, lo, hi, node, w0, sys.log, sys'.log);
    NodeSettles(env, env', steps, lo, hi, node, w0, sys'.log, ran, failed);
    FailuresAgree(env, w0, steps, lo, hi, node, sys.log, sys'.log);
    MembersAgree(env, steps, lo, hi, node, w0, sys.log, ran, failed);
  }

  lemma NodeEnvIsFixed<W(!new)>(env: Env<W>, env': Env<W>, w0: W, cmds: seq<Meta>, name: string)
    requires Fixed(env, w0) && NodeEnv(env, env', w0, cmds, name)
    ensures Fixed(env', w0)
  {
  }

  lemma OutsideAgrees<W(!new)>(env: Env<W>, env': Env<W>, steps: seq<Meta>, lo: nat, hi: nat, node: Meta, w0: W,
                               log: seq<Entry>, log': seq<Entry>)
    requires lo <= hi <= |steps| && Contractible(env, w0, steps, lo, hi, node)
    requires NodeEnv(env, env', w0, steps[lo..hi], node.name)
    requires AsReference(env, w0, steps, log) && AsReference(env', w0, Contract(steps, lo, hi, node), log')
    ensures AgreeOutside(steps, lo, hi, log, log')
  {
    forall k | 0 <= k < |steps| && (k < lo || hi <= k)
      ensures Verdicts(log', steps[k].name) == Verdicts(log, steps[k].name)
      ensures Runs(log', steps[k].name) == Runs(log, steps[k].name)
    {
      SameOutside(env, env', w0, steps, lo, hi, node, k);
      Placed(steps, lo, hi, node, k);
    }
  }

  lemma NodeSettles<W(!new)>(env: Env<W>, env': Env<W>, steps: seq<Meta>, lo: nat, hi: nat, node: Meta, w0: W,
                             log': seq<Entry>, ran: seq<Meta>, failed: bool)
    requires lo <= hi <= |steps| && Contractible(env, w0, steps, lo, hi, node)
    requires NodeEnv(env, env', w0, steps[lo..hi], node.name)
    requires AsReference(env', w0, Contract(steps, lo, hi, node), log')
    requires NodeRan(env, w0, steps[lo..hi], ran, failed)
    ensures Verdicts(log', node.name) == [Done] && !failed && (Runs(log', node.name) == 0 ==> ran == [])
  {
    NodeOutcome(env, env', w0, steps, lo, hi, node);
    OptionalAnswer(env, w0, steps[lo..hi]);
    assert Contract(steps, lo, hi, node)[lo] == node;
  }

  lemma MembersAgree<W(!new)>(env: Env<W>, steps: seq<Meta>, lo: nat, hi: nat, node: Meta, w0: W,
                              log: seq<Entry>, ran: seq<Meta>, failed: bool)
    requires lo <= hi <= |steps| && Contractible(env, w0, steps, lo, hi, node)
    requires AsReference(env, w0, steps, log) && NodeRan(env, w0, steps[lo..hi], ran, failed) && !failed
    ensures (forall k :: lo <= k < hi ==> RanAlike(steps, log, ran, k))
       <==> (forall k :: lo <= k < hi && steps[k].kind == Handoff ==> env.check(steps[k].name, 0, w0, 0) == Unsatisfied)
  {
    ListRunsAsBatch(env, steps, lo, hi, node, w0);
    forall k | lo <= k < hi ensures RanAlike(steps, log, ran, k) <==> CalledAlike(env, w0, steps, k) {
      RunsWhenCalled(env, w0, steps, log, k);
      MemberAgrees(env, steps, lo, hi, w0, log, ran, failed, k);
    }
  }

  lemma ListRunsAsBatch<W>(env: Env<W>, steps: seq<Meta>, lo: nat, hi: nat, node: Meta, w0: W)
    requires lo <= hi <= |steps| && Contractible(env, w0, steps, lo, hi, node)
    ensures (forall k :: lo <= k < hi ==> CalledAlike(env, w0, steps, k))
       <==> (forall k :: lo <= k < hi && steps[k].kind == Handoff ==> env.check(steps[k].name, 0, w0, 0) == Unsatisfied)
  {
    forall j, k | 0 <= j < lo <= k < hi && steps[j].name in steps[k].deps ensures Final(env, w0, steps, j) != Failed {
      OuterStep(steps, lo, hi, j, k);
    }
    BatchRunsTheListedSteps(env, w0, steps, lo, hi);
  }

  lemma MemberAgrees<W>(env: Env<W>, steps: seq<Meta>, lo: nat, hi: nat, w0: W, log: seq<Entry>, ran: seq<Meta>,
                        failed: bool, k: nat)
    requires lo <= k < hi <= |steps| && (Runs(log, steps[k].name) > 0 <==> CallsRun(env, w0, steps, k))
    requires forall i :: lo <= i < hi ==> steps[i].optional
    requires NodeRan(env, w0, steps[lo..hi], ran, failed) && !failed
    ensures RanAlike(steps, log, ran, k) <==> CalledAlike(env, w0, steps, k)
  {
    assert steps[k] in steps[lo..hi];
    RanWhenWanted(env, w0, steps[lo..hi], ran, failed, steps[k]);
  }

  lemma RunsWhenCalled<W>(env: Env<W>, w0: W, steps: seq<Meta>, log: seq<Entry>, k: nat)
    requires AsReference(env, w0, steps, log) && k < |steps|
    ensures Runs(log, steps[k].name) > 0 <==> CallsRun(env, w0, steps, k)
  {
  }

  lemma RanWhenWanted<W>(env: Env<W>, w0: W, cmds: seq<Meta>, ran: seq<Meta>, failed: bool, c: Meta)
    requires NodeRan(env, w0, cmds, ran, failed) && !failed && c in cmds && forall b :: b in cmds ==> b.optional
    ensures c in ran <==> Wanted(env, w0, c)
  {
    OptionalAnswer(env, w0, cmds);
  }

  /** An earlier step that a command depends on is a dependency of the batch. */
  lemma OuterStep(steps: seq<Meta>, lo: nat, hi: nat, j: nat, k: nat)
    requires WellFormed(steps) && j < lo <= k < hi <= |steps| && steps[j].name in steps[k].deps
    ensures IsOuterDep(steps[lo..hi], steps[j].name)
  {
    assert steps[k] in steps[lo..hi];
  }

  /** The failing input: a hand-off whose Check is satisfied.  The list calls its Run, the
      batch does not. */
  lemma HandoffIsSkipped<W(!new)>(w0: W) returns (env: Env<W>, handoff: Meta)
    ensures WellFormed([handoff]) && handoff.kind == Handoff && handoff.optional && Fixed(env, w0)
    ensures RunCount(env, w0, [handoff], 0) == 1
    ensures BatchAnswer(env, w0, [handoff]) == Satisfied
    ensures forall ran, failed :: NodeRan(env, w0, [handoff], ran, failed) ==> ran == []
  {
    handoff := Meta("attach", [], 0, Handoff, true, false);
    env := Env((n, i, w, t) => Satisfied, (n, i, w, t) => true, (n, i, w, t) => w,
               t => false, t => false, t => false, t => 0);
  }
}
