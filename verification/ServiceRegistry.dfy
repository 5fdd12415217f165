/** The registry whose methods take the controller's steps of the fencing protocol. */
module ServiceRegistry {
  import opened Fencing

  /** A staged change of an intent; it may fail and still leave the content changed. */
  datatype Mutation = Mutation(kind: NodeKind, run: Content -> (Content, bool))

  function Mutated(content: Content, ms: seq<Mutation>): Content {
    if ms == [] then content else ms[|ms| - 1].run(Mutated(content, ms[..|ms| - 1])).0
  }

  predicate AllRan(content: Content, ms: seq<Mutation>) {
    ms != [] ==> AllRan(content, ms[..|ms| - 1]) && ms[|ms| - 1].run(Mutated(content, ms[..|ms| - 1])).1
  }

  /** What the content goes through when the mutations run one after the other, in the order staged. */
  ghost predicate RunsThrough(content: Content, ms: seq<Mutation>, trace: seq<Content>) {
    && |trace| == |ms| + 1 && trace[0] == content
    && forall i :: 0 <= i < |ms| ==> trace[i + 1] == ms[i].run(trace[i]).0
  }

  lemma {:induction false} MutatedInOrder(content: Content, ms: seq<Mutation>, trace: seq<Content>)
    requires RunsThrough(content, ms, trace)
    ensures Mutated(content, ms) == trace[|ms|]
    ensures AllRan(content, ms) <==> forall i :: 0 <= i < |ms| ==> ms[i].run(trace[i]).1
    decreases |ms|
  {
    if ms != [] {
      MutatedInOrder(content, ms[..|ms| - 1], trace[..|ms|]);
    }
  }

  /** The run goes on by one step. */
  ghost predicate Goes(from: State, steps: seq<Step>, to: State) {
    Possible(from, steps) && After(from, steps) == to
  }

  lemma GoesOn(from: State, steps: seq<Step>, to: State, step: Step)
    requires Goes(from, steps, to) && Enabled(to, step)
    ensures Goes(from, steps + [step], Next(to, step))
  {
    assert (steps + [step])[..|steps + [step]| - 1] == steps;
  }

  lemma {:induction false} GoesOnBy(from: State, steps: seq<Step>, mid: State, more: seq<Step>, to: State)
    requires Goes(from, steps, mid) && Goes(mid, more, to)
    ensures Goes(from, steps + more, to)
    decreases |more|
  {
    if more == [] {
      assert steps + more == steps;
    } else {
      var front, last := more[..|more| - 1], more[|more| - 1];
      GoesOnBy(from, steps, mid, front, After(mid, front));
      GoesOn(from, steps + front, After(mid, front), last);
      assert steps + more == steps + front + [last];
    }
  }

  /** The entry a transaction leaves for a node: one bump however many mutations were staged. */
  function CommittedEntry(before: map<NodeId, Entry>, n: NodeId, ms: seq<Mutation>): Entry
    requires ms != []
  {
    var e := if n in before then before[n] else Fresh(ms[0].kind);
    Bumped(e, Mutated(e.content, ms))
  }

  /** How a transaction moves a stamp: the version stays and the generation goes up by one, modulo its
      word; a node not known before gets version 1 and generation 2 or 1. */
  lemma CommittedStamp(before: map<NodeId, Entry>, n: NodeId, ms: seq<Mutation>)
    requires ms != []
    ensures var e := CommittedEntry(before, n, ms);
            if n in before
            then e.kind == before[n].kind && e.stamp == Stamp(before[n].stamp.version, (before[n].stamp.generation + 1) % 0x1_0000_0000)
            else e.kind == ms[0].kind && e.stamp == Stamp(1, if ms[0].kind.Pe? then 2 else 1)
    ensures CommittedEntry(before, n, ms).content == Mutated(if n in before then before[n].content else "", ms)
  {
  }

  predicate RanOn(before: map<NodeId, Entry>, n: NodeId, ms: seq<Mutation>)
    requires ms != []
  {
    AllRan((if n in before then before[n] else Fresh(ms[0].kind)).content, ms)
  }

  /** No mutation staged for `done` failed. */
  ghost predicate AllRanOn(before: map<NodeId, Entry>, pending: map<NodeId, seq<Mutation>>, done: set<NodeId>)
    requires done <= pending.Keys && forall n :: n in pending ==> pending[n] != []
  {
    forall n :: n in done ==> RanOn(before, n, pending[n])
  }

  lemma RanMore(before: map<NodeId, Entry>, pending: map<NodeId, seq<Mutation>>, done: set<NodeId>, n: NodeId)
    requires done <= pending.Keys && n in pending && forall n :: n in pending ==> pending[n] != []
    ensures AllRanOn(before, pending, done + {n}) <==> AllRanOn(before, pending, done) && RanOn(before, n, pending[n])
  {
    assert n in done + {n};
  }

  lemma SubEntriesMore(part: map<NodeId, Entry>, whole: map<NodeId, Entry>, n: NodeId, e: Entry)
    requires SubEntries(part, whole)
    ensures SubEntries(part[n := e], whole[n := e])
  {
  }

  /** The nodes in `done` have been committed, the others are untouched. */
  ghost predicate Staged(before: map<NodeId, Entry>, pending: map<NodeId, seq<Mutation>>, done: set<NodeId>, now: map<NodeId, Entry>) {
    && done <= pending.Keys && (forall n :: n in pending ==> pending[n] != [])
    && now.Keys == before.Keys + done
    && (forall n :: n in done ==> now[n] == CommittedEntry(before, n, pending[n]))
    && (forall n :: n in before && n !in done ==> now[n] == before[n])
  }

  lemma StagedMore(before: map<NodeId, Entry>, pending: map<NodeId, seq<Mutation>>, done: set<NodeId>, now: map<NodeId, Entry>, n: NodeId)
    requires Staged(before, pending, done, now) && n in pending && n !in done
    ensures CommittedEntry(now, n, pending[n]) == CommittedEntry(before, n, pending[n])
    ensures RanOn(now, n, pending[n]) == RanOn(before, n, pending[n])
    ensures Staged(before, pending, done + {n}, now[n := CommittedEntry(now, n, pending[n])])
  {
  }

  /** The messages of `done` nodes wait in the pipeline with the committed entries. */
  ghost predicate Waiting(now: map<NodeId, Entry>, done: set<NodeId>, mine: map<NodeId, Msg>, inFlight: set<Msg>) {
    && mine.Keys == done && done <= now.Keys
    && (forall n :: n in done ==> mine[n].node == n && mine[n].entry == now[n] && mine[n] in inFlight)
  }

  ghost predicate SubEntries(part: map<NodeId, Entry>, whole: map<NodeId, Entry>) {
    forall n :: n in part ==> n in whole && whole[n] == part[n]
  }

  lemma WaitingMore(now: map<NodeId, Entry>, done: set<NodeId>, mine: map<NodeId, Msg>, inFlight: set<Msg>, n: NodeId, e: Entry, m: Msg)
    requires Waiting(now, done, mine, inFlight) && n !in done && m.node == n && m.entry == e
    ensures Waiting(now[n := e], done + {n}, mine[n := m], inFlight + {m})
  {
  }

  /** Everything the locked loop has achieved for the nodes in `done`. */
  ghost predicate StagedSoFar(before: map<NodeId, Entry>, pending: map<NodeId, seq<Mutation>>, done: set<NodeId>, now: map<NodeId, Entry>,
                              snapshots: map<NodeId, Entry>, mine: map<NodeId, Msg>, inFlight: set<Msg>, ok: bool) {
    && Staged(before, pending, done, now)
    && snapshots.Keys == done && SubEntries(snapshots, now)
    && Waiting(snapshots, done, mine, inFlight)
    && (ok <==> AllRanOn(before, pending, done))
  }

  lemma StagedOneMore(before: map<NodeId, Entry>, pending: map<NodeId, seq<Mutation>>, done: set<NodeId>, now: map<NodeId, Entry>,
                      snapshots: map<NodeId, Entry>, mine: map<NodeId, Msg>, inFlight: set<Msg>, ok: bool, n: NodeId, m: Msg)
    requires StagedSoFar(before, pending, done, now, snapshots, mine, inFlight, ok) && n in pending && n !in done
    requires m.node == n && m.entry == CommittedEntry(now, n, pending[n])
    ensures StagedSoFar(before, pending, done + {n}, now[n := m.entry], snapshots[n := m.entry], mine[n := m], inFlight + {m},
                        ok && RanOn(now, n, pending[n]))
  {
    StagedMore(before, pending, done, now, n);
    SubEntriesMore(snapshots, now, n, m.entry);
    WaitingMore(snapshots, done, mine, inFlight, n, m.entry, m);
    RanMore(before, pending, done, n);
  }

  lemma StagedAll(before: map<NodeId, Entry>, pending: map<NodeId, seq<Mutation>>, done: set<NodeId>, now: map<NodeId, Entry>,
                  snapshots: map<NodeId, Entry>, mine: map<NodeId, Msg>, inFlight: set<Msg>, ok: bool, n: NodeId)
    requires StagedSoFar(before, pending, done, now, snapshots, mine, inFlight, ok) && n in pending && n !in done
    ensures forall m: Msg {:trigger mine[n := m]} :: m.node == n && m.entry == CommittedEntry(now, n, pending[n]) ==>
      StagedSoFar(before, pending, done + {n}, now[n := m.entry], snapshots[n := m.entry], mine[n := m], inFlight + {m},
                  ok && RanOn(now, n, pending[n]))
  {
    forall m: Msg | m.node == n && m.entry == CommittedEntry(now, n, pending[n])
      ensures StagedSoFar(before, pending, done + {n}, now[n := m.entry], snapshots[n := m.entry], mine[n := m], inFlight + {m},
                          ok && RanOn(now, n, pending[n]))
    {
      StagedOneMore(before, pending, done, now, snapshots, mine, inFlight, ok, n, m);
    }
  }

  ghost predicate Parts(todo: set<NodeId>, done: set<NodeId>, all: set<NodeId>) {
    todo !! done && todo + done == all
  }

  lemma PartsMove(todo: set<NodeId>, done: set<NodeId>, all: set<NodeId>, n: NodeId)
    requires Parts(todo, done, all) && n in todo
    ensures Parts(todo - {n}, done + {n}, all) && n in all && n !in done
  {
  }

  lemma PartsEnd(done: set<NodeId>, all: set<NodeId>)
    requires Parts({}, done, all)
    ensures done == all
  {
  }

  /** How the two calls for a snapshot go: the row is written, is not, or is written although an error
      comes back; then publishing works or does not. */
  datatype Writing = Lands | Fails | LandsUnheard

  datatype Calls = Calls(write: Writing, publish: bool)

  predicate Sends(c: Calls) {
    c.write.Lands? && c.publish
  }

  /** No error is reported: a failed write is only logged. */
  predicate Quiet(c: Calls) {
    c.write.Lands? ==> c.publish
  }

  function StepsOf(c: Calls, m: Msg): seq<Step> {
    if !c.write.Lands? then [WriteFailed(m, c.write.LandsUnheard?)]
    else [Write(m), if c.publish then Publish(m) else PublishFailed(m)]
  }

  lemma StepsGo(s: State, c: Calls, m: Msg)
    requires m in s.inFlight
    ensures var s' := After(s, StepsOf(c, m));
            && Possible(s, StepsOf(c, m))
            && s'.memory == s.memory && s'.inFlight == s.inFlight - {m}
            && s'.published == s.published + (if Sends(c) then {m} else {})
            && s'.rows == if c.write.Fails? then s.rows else s.rows[m.node := Row(m.entry.kind, m.entry.stamp)]
  {
    var first := StepsOf(c, m)[0];
    GoesOn(s, [], s, first);
    assert [] + [first] == [first];
    if c.write.Lands? {
      var second := StepsOf(c, m)[1];
      GoesOn(s, [first], Next(s, first), second);
      assert [first] + [second] == StepsOf(c, m);
    }
  }

  /** How far a snapshot got. */
  datatype Sending = Sent | NotWritten | NotSent

  class ServiceRegistry {
    var registry: map<NodeId, Entry>
    var rows: map<NodeId, Row>
    ghost var s: State

    ghost predicate Valid() reads this {
      registry == s.memory && rows == s.rows
    }

    constructor ()
      ensures Valid() && s == INIT
    {
      registry, rows, s := map[], map[], INIT;
    }

    method Mutate(content: Content, ms: seq<Mutation>) returns (r: Content, ok: bool)
      ensures r == Mutated(content, ms) && ok == AllRan(content, ms)
    {
      r, ok := content, true;
      var i := 0;
      while i < |ms|
        invariant 0 <= i <= |ms|
        invariant r == Mutated(content, ms[..i]) && ok == AllRan(content, ms[..i])
      {
        assert ms[..i + 1][..i] == ms[..i];
        var x := ms[i].run(r);
        r, ok := x.0, ok && x.1;
        i := i + 1;
      }
      assert ms[..i] == ms;
    }

    /** Bump one entry under the lock and clone it. */
    method StageOne(n: NodeId, ms: seq<Mutation>, ghost s0: State, ghost steps: seq<Step>)
      returns (e: Entry, ok: bool, ghost m: Msg, ghost steps': seq<Step>)
      requires Valid() && ms != [] && Goes(s0, steps, s)
      modifies this
      ensures e == CommittedEntry(old(registry), n, ms) && registry == old(registry)[n := e]
      ensures Valid() && rows == old(rows) && Goes(s0, steps', s)
      ensures m.node == n && m.entry == e && s.inFlight == old(s.inFlight) + {m} && s.published == old(s.published)
      ensures ok == RanOn(old(registry), n, ms)
    {
      e := if n in registry then registry[n] else Fresh(ms[0].kind);
      var content;
      content, ok := Mutate(e.content, ms);
      e := Bumped(e, content);
      ghost var step := Fencing.Step.Commit(n, ms[0].kind, content);
      m := Snapshot(s, n, ms[0].kind, content);
      GoesOn(s0, steps, s, step);
      steps' := steps + [step];
      s := Next(s, step);
      registry := registry[n := e];
    }

    /** The part of `Commit` under the lock: every touched entry is bumped once and cloned. */
    method Stage(pending: map<NodeId, seq<Mutation>>)
      returns (snapshots: map<NodeId, Entry>, ok: bool, ghost mine: map<NodeId, Msg>, ghost steps: seq<Step>)
      requires Valid() && forall n :: n in pending ==> pending[n] != []
      modifies this
      ensures Valid() && rows == old(rows) && s.published == old(s.published) && Goes(old(s), steps, s)
      ensures StagedSoFar(old(registry), pending, pending.Keys, registry, snapshots, mine, s.inFlight, ok)
    {
      snapshots, ok, mine, steps := map[], true, map[], [];
      ghost var before, s0 := registry, s;
      var todo := pending.Keys;
      ghost var done: set<NodeId> := {};
      while todo != {}
        invariant Parts(todo, done, pending.Keys)
        invariant Valid() && rows == old(rows) && s.published == s0.published && Goes(s0, steps, s)
        invariant StagedSoFar(before, pending, done, registry, snapshots, mine, s.inFlight, ok)
      {
        var n :| n in todo;
        PartsMove(todo, done, pending.Keys, n);
        StagedAll(before, pending, done, registry, snapshots, mine, s.inFlight, ok, n);
        var e, ran, m, more := StageOne(n, pending[n], s0, steps);
        steps, mine, done := more, mine[n := m], done + {n};
        snapshots, ok, todo := snapshots[n := e], ok && ran, todo - {n};
      }
      PartsEnd(done, pending.Keys);
    }

    /** Write the row, and publish only if that worked. */
    method Persist(n: NodeId, snapshot: Entry, c: Calls, ghost m: Msg) returns (r: Sending, ghost steps: seq<Step>)
      requires Valid() && m in s.inFlight && m.node == n && m.entry == snapshot
      modifies this
      ensures Valid() && registry == old(registry) && Goes(old(s), steps, s)
      ensures s.inFlight == old(s.inFlight) - {m}
      ensures r == if Sends(c) then Sent else if c.write.Lands? then NotSent else NotWritten
      ensures s.published == old(s.published) + if Sends(c) then {m} else {}
      ensures rows == if c.write.Fails? then old(rows) else old(rows)[n := Row(snapshot.kind, snapshot.stamp)]
    {
      steps := StepsOf(c, m);
      StepsGo(s, c, m);
      s := After(s, steps);
      if !c.write.Fails? {
        rows := rows[n := Row(snapshot.kind, snapshot.stamp)];
      }
      if !c.write.Lands? {
        return NotWritten, steps;
      }
      r := if c.publish then Sent else NotSent;
    }

    /** The part of `Commit` after the lock. */
    method Send(snapshots: map<NodeId, Entry>, calls: NodeId -> Calls, ghost mine: map<NodeId, Msg>) returns (ok: bool, ghost steps: seq<Step>)
      requires Valid() && Waiting(snapshots, snapshots.Keys, mine, s.inFlight)
      modifies this
      ensures Valid() && registry == old(registry) && Goes(old(s), steps, s)
      ensures old(s.published) <= s.published
      ensures ok <==> forall n :: n in snapshots ==> Quiet(calls(n))
      ensures forall n :: n in snapshots && Sends(calls(n)) ==> mine[n] in s.published
      ensures forall m :: m in s.published && m !in old(s.published) ==>
        m.node in snapshots && Sends(calls(m.node)) && m.entry == snapshots[m.node]
    {
      ok, steps := true, [];
      var todo := snapshots.Keys;
      while todo != {}
        invariant todo <= snapshots.Keys
        invariant Valid() && registry == old(registry) && Goes(old(s), steps, s) && old(s.published) <= s.published
        invariant ok <==> forall n :: n in snapshots && n !in todo ==> Quiet(calls(n))
        invariant forall n :: n in snapshots && n !in todo && Sends(calls(n)) ==> mine[n] in s.published
        invariant forall m :: m in s.published && m !in old(s.published) ==>
          m.node in snapshots && Sends(calls(m.node)) && m.entry == snapshots[m.node]
        invariant forall n :: n in todo ==> mine[n] in s.inFlight
      {
        var n :| n in todo;
        todo := todo - {n};
        ghost var before := s;
        var sent, more := Persist(n, snapshots[n], calls(n), mine[n]);
        GoesOnBy(old(s), steps, before, more, s);
        // a failed write is only logged
        steps, ok := steps + more, ok && !sent.NotSent?;
      }
    }

    /** `Commit`: each touched node's entry is bumped exactly once, no other entry changes, only those
        entries are published, and what happens is a run of the fencing protocol. */
    method Commit(pending: map<NodeId, seq<Mutation>>, calls: NodeId -> Calls) returns (ok: bool, ghost steps: seq<Step>)
      requires Valid() && forall n :: n in pending ==> pending[n] != []
      modifies this
      ensures Valid() && Goes(old(s), steps, s)
      ensures Staged(old(registry), pending, pending.Keys, registry)
      ensures forall n :: n in pending && Sends(calls(n)) ==> exists m :: m in s.published && m.node == n && m.entry == registry[n]
      ensures forall m :: m in s.published && m !in old(s.published) ==>
        m.node in pending && Sends(calls(m.node)) && m.entry == registry[m.node]
      ensures ok <==> AllRanOn(old(registry), pending, pending.Keys) && forall n :: n in pending ==> Quiet(calls(n))
    {
      var snapshots, ran, mine, staging := Stage(pending);
      ghost var before := s;
      var sent, sending := Send(snapshots, calls, mine);
      GoesOnBy(old(s), staging, before, sending, s);
      ok, steps := ran && sent, staging + sending;
    }

    /** `UpsertCPEIntentForSite`: the content is replaced, the generation bumped, the row written
        before anything is published. */
    method UpsertCpe(n: NodeId, content: Content, c: Calls) returns (ok: bool, ghost steps: seq<Step>)
      requires Valid()
      modifies this
      ensures Valid() && Goes(old(s), steps, s)
      ensures registry == old(registry)[n := Bumped(EntryFor(old(s), n, Cpe), content)]
      ensures registry[n].content == content && (n in old(registry) ==>
        registry[n].stamp == Stamp(old(registry)[n].stamp.version, (old(registry)[n].stamp.generation + 1) % 0x1_0000_0000))
      ensures n !in old(registry) ==> registry[n] == Entry(Cpe, content, Stamp(1, 1))
      ensures ok <==> Sends(c)
      ensures rows == if c.write.Fails? then old(rows) else old(rows)[n := Row(registry[n].kind, registry[n].stamp)]
      ensures ok ==> exists m :: m in s.published && m.node == n && m.entry == registry[n]
    {
      var e := if n in registry then registry[n] else Fresh(Cpe);
      e := Bumped(e, content);
      ghost var step := Fencing.Step.Commit(n, Cpe, content);
      ghost var m := Snapshot(s, n, Cpe, content);
      GoesOn(s, [], s, step);
      s := Next(s, step);
      registry := registry[n := e];
      ghost var before := s;
      ghost var more;
      var sent;
      sent, more := Persist(n, e, c, m);
      ok := sent.Sent?;
      GoesOnBy(old(s), [] + [step], before, more, s);
      steps := [] + [step] + more;
    }

    /** The portal-auth handler: an entry is made up in memory and neither written nor published. */
    method GreetPortal(n: NodeId, content: Content)
      requires Valid()
      modifies this
      ensures Valid() && s == Next(old(s), Greet(n, content)) && rows == old(rows)
    {
      if n !in registry {
        registry := registry[n := Entry(Cpe, content, Stamp(1, 1))];
      }
      s := Next(s, Greet(n, content));
    }

    /** `LoadPreviousStateFromDB` in a new process: every row becomes an empty entry one version up. */
    method LoadPreviousState()
      requires Valid()
      modifies this
      ensures Valid() && s == Next(old(s), Restart) && rows == old(rows)
      ensures registry.Keys == rows.Keys
      ensures forall n :: n in rows ==>
        registry[n] == Entry(rows[n].kind, "", Stamp((rows[n].stamp.version + 1) % 0x1_0000_0000, 0))
    {
      registry := map[];
      s := Next(s, Restart);
      var todo := rows.Keys;
      while todo != {}
        invariant todo <= rows.Keys && rows == old(rows) && s == Next(old(s), Restart)
        invariant registry.Keys == rows.Keys - todo
        invariant forall n :: n in registry ==> registry[n] == Reloaded(rows[n])
      {
        var n :| n in todo;
        todo := todo - {n};
        registry := registry[n := Reloaded(rows[n])];
      }
    }
  }
}
