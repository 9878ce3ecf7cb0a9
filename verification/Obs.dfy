/**
 internal/obs: the latest-wins broadcast of subsystem health.  Every watcher owns a channel
 of capacity one; consumers may receive between any two channel operations of Set.
 */
module Obs {
  import opened Options

  datatype Health = Unknown | Fine | Degraded | Off

  datatype NodeStatus = NodeStatus(detail: string, health: Health)

  type Snapshot = map<string, NodeStatus>

  /** A snapshot with its number in the order of the Set calls. */
  datatype Seen = Seen(at: nat, snap: Snapshot)

  /** One watcher: its buffer, what its consumer has received, and the number of snapshots
      that existed when it began to watch. */
  datatype View = Slot(buf: Option<Seen>, taken: seq<Seen>, since: nat)

  // ---------------------------------------------------------------- the channel operations, on values

  /** The consumer receives, when there is something to receive. */
  function Received(v: View): View {
    if v.buf.Some? then v.(buf := None, taken := v.taken + [v.buf.value]) else v
  }

  /** Anything a consumer may do to its channel while the publisher holds the lock. */
  ghost predicate MayReceive(before: View, after: View) {
    after == before || after == Received(before)
  }

  /** What a consumer has received: genuine snapshots, each newer than the one before. */
  ghost predicate InOrder(v: View, history: seq<Snapshot>) {
    && (forall i {:trigger v.taken[i]} :: 0 <= i < |v.taken| ==>
          v.since <= v.taken[i].at < |history| && v.taken[i].snap == history[v.taken[i].at])
    && (forall i, j :: 0 <= i < j < |v.taken| ==> v.taken[i].at < v.taken[j].at)
  }

  /** The newest snapshot is in the buffer, or is the last one the consumer received. */
  ghost predicate Latest(v: View, history: seq<Snapshot>)
    requires |history| > 0
  {
    var newest := Seen(|history| - 1, history[|history| - 1]);
    v.buf == Some(newest) || (v.buf == None && |v.taken| > 0 && v.taken[|v.taken| - 1] == newest)
  }

  /** A watcher between two calls of Set. */
  ghost predicate InStep(v: View, history: seq<Snapshot>) {
    && v.since <= |history| && InOrder(v, history)
    && (v.since == |history| ==> v.buf == None)
    && (v.since < |history| ==> Latest(v, history))
    && (v.buf.Some? ==> forall i :: 0 <= i < |v.taken| ==> v.taken[i].at < |history| - 1)
  }

  lemma ReceivingKeeps(before: View, after: View, history: seq<Snapshot>)
    requires InStep(before, history) && MayReceive(before, after)
    ensures InStep(after, history)
  {
  }

  /** The outcome of Set on one channel: the new snapshot is in the buffer, and the old one
      was dropped or received. */
  ghost predicate Offered(before: View, after: View, newest: Seen) {
    after == before.(buf := Some(newest)) || after == Received(before).(buf := Some(newest))
  }

  lemma OfferKeeps(before: View, after: View, history: seq<Snapshot>, snap: Snapshot)
    requires InStep(before, history) && Offered(before, after, Seen(|history|, snap))
    ensures InStep(after, history + [snap])
  {
    ReceivingKeeps(before, Received(before), history);
    forall i | 0 <= i < |after.taken|
      ensures after.since <= after.taken[i].at < |history| && after.taken[i].snap == (history + [snap])[after.taken[i].at]
    {
      assert after.taken[i] == Received(before).taken[i];
    }
  }

  /** Set on all channels, after the first n of them: those are in step with the longer
      history, the others with the one before. */
  ghost predicate Served(first: seq<View>, now: seq<View>, n: nat, before: seq<Snapshot>, snap: Snapshot) {
    && |first| == |now| && n <= |now|
    && (forall j :: 0 <= j < |now| ==> InStep(now[j], if j < n then before + [snap] else before))
    && (forall j :: 0 <= j < |now| ==> first[j].taken <= now[j].taken)
  }

  /** The operations on channel i, its consumer and all others receiving as they like. */
  ghost predicate OfferedAt(was: seq<View>, now: seq<View>, i: nat, newest: Seen) {
    && |was| == |now| && i < |now| && Offered(was[i], now[i], newest)
    && (forall j :: 0 <= j < |now| && j != i ==> MayReceive(was[j], now[j]))
  }

  lemma ServeNext(first: seq<View>, was: seq<View>, now: seq<View>, i: nat, before: seq<Snapshot>, snap: Snapshot)
    requires Served(first, was, i, before, snap) && OfferedAt(was, now, i, Seen(|before|, snap))
    ensures Served(first, now, i + 1, before, snap)
  {
    forall j | 0 <= j < |now|
      ensures InStep(now[j], if j <= i then before + [snap] else before) && was[j].taken <= now[j].taken
    {
      if j == i {
        OfferKeeps(was[j], now[j], before, snap);
      } else {
        ReceivingKeeps(was[j], now[j], if j < i then before + [snap] else before);
      }
    }
  }

  // ---------------------------------------------------------------- channels

  class Chan {
    var buf: Option<Snapshot>
    ghost var at: nat
    ghost var taken: seq<Seen>
    ghost const since: nat

    constructor (ghost now: nat)
      ensures View() == Slot(None, [], now)
    {
      buf, at, taken, since := None, 0, [], now;
    }

    ghost function View(): View
      reads this
    {
      Slot(if buf.Some? then Some(Seen(at, buf.value)) else None, taken, since)
    }

    /** A send that does not block: refused while the buffer is full. */
    method TrySend(snap: Snapshot, ghost number: nat) returns (ok: bool)
      modifies this
      ensures ok == old(buf).None?
      ensures View() == if ok then old(View()).(buf := Some(Seen(number, snap))) else old(View())
    {
      ok := buf.None?;
      if ok {
        buf, at := Some(snap), number;
      }
    }

    /** The publisher throws away what the consumer has not fetched. */
    method Discard()
      modifies this
      ensures View() == old(View()).(buf := None)
    {
      buf := None;
    }

    /** The consumer's receive. */
    method Receive() returns (snap: Option<Snapshot>)
      modifies this
      ensures snap == old(buf)
      ensures View() == Received(old(View()))
    {
      snap := buf;
      if buf.Some? {
        taken := taken + [Seen(at, buf.value)];
        buf := None;
      }
    }
  }

  ghost function Views(watchers: seq<Chan>): (views: seq<View>)
    reads watchers
    ensures |views| == |watchers| && forall i :: 0 <= i < |views| ==> views[i] == watchers[i].View()
  {
    seq(|watchers|, i requires 0 <= i < |watchers| reads watchers => watchers[i].View())
  }

  ghost predicate Apart(watchers: seq<Chan>) {
    forall i, j :: 0 <= i < j < |watchers| ==> watchers[i] != watchers[j]
  }

  /** Between two operations of the publisher every consumer may receive, or not. */
  method Consume(watchers: seq<Chan>)
    requires Apart(watchers)
    modifies watchers
    ensures forall j :: 0 <= j < |watchers| ==> MayReceive(old(watchers[j].View()), watchers[j].View())
  {
    for i := 0 to |watchers|
      invariant forall j :: i <= j < |watchers| ==> watchers[j].View() == old(watchers[j].View())
      invariant forall j :: 0 <= j < i ==> MayReceive(old(watchers[j].View()), watchers[j].View())
    {
      if * {
        var _ := watchers[i].Receive();
      }
    }
  }

  // ---------------------------------------------------------------- the broadcaster

  class Obs {
    var statuses: Snapshot
    var watchers: seq<Chan>
    ghost var history: seq<Snapshot>

    constructor ()
      ensures Valid() && watchers == [] && history == [] && statuses == map[]
    {
      statuses, watchers, history := map[], [], [];
    }

    ghost predicate Valid()
      reads this, watchers
    {
      && Apart(watchers)
      && (forall ch :: ch in watchers ==> InStep(ch.View(), history))
      && (if history == [] then statuses == map[] else statuses == history[|history| - 1])
    }

    /** The non-blocking receive by which Set empties channel i, in case its consumer did not. */
    method Drop(i: nat)
      requires Apart(watchers) && i < |watchers|
      modifies watchers
      ensures watchers[i].View() == old(watchers[i].View()).(buf := None)
              || watchers[i].View() == Received(old(watchers[i].View()))
      ensures watchers[i].buf.None?
      ensures forall j :: 0 <= j < |watchers| && j != i ==> MayReceive(old(watchers[j].View()), watchers[j].View())
    {
      Consume(watchers);
      watchers[i].Discard();
      Consume(watchers);
    }

    /** Set on watcher i, its consumer and all others receiving whenever they like: the
        second send always finds room. */
    method Offer(i: nat, snap: Snapshot, ghost number: nat)
      requires Apart(watchers) && i < |watchers|
      modifies watchers
      ensures OfferedAt(old(Views(watchers)), Views(watchers), i, Seen(number, snap))
    {
      var ch := watchers[i];
      Consume(watchers);
      var sent := ch.TrySend(snap, number);
      if !sent {
        Drop(i);
        sent := ch.TrySend(snap, number);
      }
      assert sent;
    }

    /**
     Publishes one status.  It never waits, and however the consumers receive meanwhile,
     every watcher has the new snapshot in its buffer or has received it as its latest.
     Channels that are not watchers are not touched.
     */
    method Set(node: string, health: Health, detail: string)
      requires Valid()
      modifies this, watchers
      ensures Valid() && watchers == old(watchers)
      ensures statuses == old(statuses)[node := NodeStatus(detail, health)]
      ensures history == old(history) + [statuses]
      ensures forall ch :: ch in watchers ==> Latest(ch.View(), history)
      ensures forall ch :: ch in watchers ==> old(ch.View()).taken <= ch.View().taken
    {
      ghost var before, first := history, Views(watchers);
      statuses := statuses[node := NodeStatus(detail, health)];
      history := history + [statuses];
      for i := 0 to |watchers|
        invariant watchers == old(watchers) && history == before + [statuses] && Apart(watchers)
        invariant statuses == old(statuses)[node := NodeStatus(detail, health)]
        invariant Served(first, Views(watchers), i, before, statuses)
      {
        ghost var was := Views(watchers);
        Offer(i, statuses, |before|);
        ServeNext(first, was, Views(watchers), i, before, statuses);
      }
      forall ch | ch in watchers
        ensures InStep(ch.View(), history) && old(ch.View()).taken <= ch.View().taken && ch.View().since <= |before|
      {
        var i :| 0 <= i < |watchers| && watchers[i] == ch;
        assert ch.View() == Views(watchers)[i] && first[i] == old(ch.View());
      }
    }

    /** A consumer's receive between two Sets: only ever the current statuses, and nothing
        exactly when they were received already or nothing was set since it began to watch. */
    method Fetch(ch: Chan) returns (snap: Option<Snapshot>)
      requires Valid() && ch in watchers
      modifies ch
      ensures Valid()
      ensures snap.Some? ==> snap.value == statuses
      ensures snap.None? <==>
                || ch.since == |history|
                || (|old(ch.taken)| > 0 && old(ch.taken)[|old(ch.taken)| - 1].at == |history| - 1)
    {
      label L:
      snap := ch.Receive();
      forall c | c in watchers ensures InStep(c.View(), history) {
        if c == ch {
          ReceivingKeeps(old@L(ch.View()), ch.View(), history);
        }
      }
    }

    method Snapshot() returns (snap: Snapshot)
      requires Valid()
      ensures snap == statuses
      ensures history != [] ==> snap == history[|history| - 1]
    {
      snap := statuses;
    }

    /** A new watcher, at the end of the list, that sees only what is set from now on. */
    method Watch() returns (ch: Chan)
      requires Valid()
      modifies this
      ensures Valid() && fresh(ch) && watchers == old(watchers) + [ch]
      ensures ch.View() == Slot(None, [], |history|)
      ensures statuses == old(statuses) && history == old(history)
    {
      ch := new Chan(|history|);
      watchers := watchers + [ch];
    }

    /** Afterwards the channel is no watcher, so Set does not touch it; the others keep
        their order. */
    method Unwatch(ch: Chan)
      requires Valid()
      modifies this
      ensures Valid() && ch !in watchers
      ensures forall c :: c in watchers <==> c in old(watchers) && c != ch
      ensures watchers == Without(old(watchers), ch)
      ensures statuses == old(statuses) && history == old(history)
    {
      for i := 0 to |watchers|
        invariant watchers == old(watchers)
        invariant ch !in watchers[..i]
      {
        if watchers[i] == ch {
          WithoutAt(watchers, ch, i);
          watchers := watchers[..i] + watchers[i + 1..];
          return;
        }
      }
      WithoutNone(watchers, ch);
    }
  }

  /** The list without an element, its order kept. */
  ghost function Without<T>(s: seq<T>, x: T): seq<T> {
    if s == [] then [] else (if s[0] == x then [] else [s[0]]) + Without(s[1..], x)
  }

  lemma {:induction false} WithoutNone<T>(s: seq<T>, x: T)
    requires x !in s
    ensures Without(s, x) == s
  {
    if s != [] {
      WithoutNone(s[1..], x);
    }
  }

  lemma {:induction false} WithoutAt<T>(s: seq<T>, x: T, i: nat)
    requires i < |s| && s[i] == x && x !in s[..i] && x !in s[i + 1..]
    ensures Without(s, x) == s[..i] + s[i + 1..]
  {
    if i == 0 {
      WithoutNone(s[1..], x);
    } else {
      assert s[0] == s[..i][0];
      assert s[1..][..i - 1] == s[..i][1..] && s[1..][i..] == s[i + 1..];
      WithoutAt(s[1..], x, i - 1);
    }
  }
}
