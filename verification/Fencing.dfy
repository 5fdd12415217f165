/** Intent fencing: commits, crashes, restarts and agents that refuse stale intents. */
module Fencing {
  type NodeId = string
  type Content = string

  datatype NodeKind = Pe | Cpe

  /** Two unsigned 32-bit counters, compared version first. */
  datatype Stamp = Stamp(version: nat, generation: nat)

  const WORD := 0x1_0000_0000

  predicate Less(a: Stamp, b: Stamp) {
    a.version < b.version || (a.version == b.version && a.generation < b.generation)
  }

  datatype Entry = Entry(kind: NodeKind, content: Content, stamp: Stamp)

  datatype Row = Row(kind: NodeKind, stamp: Stamp)

  /** A snapshot taken by a commit; `serial` counts commits and is not part of the message. */
  datatype Msg = Msg(node: NodeId, entry: Entry, serial: nat)

  /** The database, the controller's memory, snapshots that are not yet written, written but not
      yet published, and published, and what each agent last converged on. */
  datatype State = State(
    rows: map<NodeId, Row>,
    memory: map<NodeId, Entry>,
    inFlight: set<Msg>,
    written: set<Msg>,
    published: set<Msg>,
    agents: map<NodeId, Msg>,
    serial: nat)

  const INIT := State(map[], map[], {}, {}, {}, map[], 0)

  /** New PE entries start one generation ahead of new CPE entries. */
  function Fresh(kind: NodeKind): Entry {
    Entry(kind, "", Stamp(1, if kind.Pe? then 1 else 0))
  }

  function Bumped(e: Entry, content: Content): Entry {
    Entry(e.kind, content, Stamp(e.stamp.version, (e.stamp.generation + 1) % WORD))
  }

  function Reloaded(row: Row): Entry {
    Entry(row.kind, "", Stamp((row.stamp.version + 1) % WORD, 0))
  }

  function EntryFor(s: State, n: NodeId, kind: NodeKind): Entry {
    if n in s.memory then s.memory[n] else Fresh(kind)
  }

  datatype Step =
    | Greet(n: NodeId, content: Content)                   // a portal authenticates; nothing is written
    | Commit(n: NodeId, kind: NodeKind, content: Content)  // under the lock: bump and snapshot
    | Write(m: Msg)                                        // the row is upserted
    | WriteFailed(m: Msg, landed: bool)                    // an error was returned; the row may still have changed
    | Publish(m: Msg)
    | PublishFailed(m: Msg)
    | Restart                                              // the controller loses its memory and reloads the rows
    | Deliver(m: Msg, converges: bool)                     // any published message, any number of times
    | AgentRestart(n: NodeId)

  predicate Enabled(s: State, step: Step) {
    match step
    case Write(m) => m in s.inFlight
    case WriteFailed(m, _) => m in s.inFlight
    case Publish(m) => m in s.written
    case PublishFailed(m) => m in s.written
    case Deliver(m, _) => m in s.published
    case _ => true
  }

  predicate Refused(s: State, m: Msg) {
    m.node in s.agents && Less(m.entry.stamp, s.agents[m.node].entry.stamp)
  }

  function Snapshot(s: State, n: NodeId, kind: NodeKind, content: Content): Msg {
    Msg(n, Bumped(EntryFor(s, n, kind), content), s.serial)
  }

  function Next(s: State, step: Step): State {
    match step
    case Greet(n, content) =>
      if n in s.memory then s else s.(memory := s.memory[n := Entry(Cpe, content, Stamp(1, 1))])
    case Commit(n, kind, content) =>
      var m := Snapshot(s, n, kind, content);
      s.(memory := s.memory[n := m.entry], inFlight := s.inFlight + {m}, serial := s.serial + 1)
    case Write(m) =>
      s.(rows := s.rows[m.node := Row(m.entry.kind, m.entry.stamp)], inFlight := s.inFlight - {m}, written := s.written + {m})
    case WriteFailed(m, landed) =>
      var rows := if landed then s.rows[m.node := Row(m.entry.kind, m.entry.stamp)] else s.rows;
      s.(rows := rows, inFlight := s.inFlight - {m})
    case Publish(m) => s.(written := s.written - {m}, published := s.published + {m})
    case PublishFailed(m) => s.(written := s.written - {m})
    case Restart => s.(memory := map n | n in s.rows :: Reloaded(s.rows[n]), inFlight := {}, written := {})
    case Deliver(m, converges) =>
      if Refused(s, m) || !converges then s else s.(agents := s.agents[m.node := m])
    case AgentRestart(n) => s.(agents := s.agents - {n})
  }

  /** No 32-bit counter is at its end when this step advances it. */
  predicate WithinWord(s: State, step: Step) {
    match step
    case Commit(n, kind, _) => EntryFor(s, n, kind).stamp.generation + 1 < WORD
    case Restart => forall n :: n in s.rows ==> s.rows[n].stamp.version + 1 < WORD
    case _ => true
  }

  function After(s: State, steps: seq<Step>): State {
    if steps == [] then s else Next(After(s, steps[..|steps| - 1]), steps[|steps| - 1])
  }

  predicate Possible(s: State, steps: seq<Step>) {
    steps != [] ==>
      && Possible(s, steps[..|steps| - 1])
      && Enabled(After(s, steps[..|steps| - 1]), steps[|steps| - 1])
  }

  predicate Unwrapped(s: State, steps: seq<Step>) {
    steps != [] ==>
      && Unwrapped(s, steps[..|steps| - 1])
      && WithinWord(After(s, steps[..|steps| - 1]), steps[|steps| - 1])
  }

  // ---------- The invariant ----------

  function All(s: State): set<Msg> {
    s.inFlight + s.written + s.published
  }

  /** Stamps follow the order of commits. */
  ghost predicate Ordered(ms: set<Msg>) {
    forall a, b :: a in ms && b in ms && a.node == b.node ==>
      && (a.serial < b.serial ==> Less(a.entry.stamp, b.entry.stamp))
      && (a.serial == b.serial ==> a == b)
  }

  /** No message is ahead of the memory entry of its node. */
  ghost predicate BehindMemory(s: State) {
    forall m :: m in All(s) ==>
      m.serial < s.serial && m.node in s.memory && !Less(s.memory[m.node].stamp, m.entry.stamp)
  }

  /** Memory is never of an older version than the row, and the row of none older than what was published. */
  ghost predicate RowsFence(s: State) {
    && s.rows.Keys <= s.memory.Keys
    && (forall n :: n in s.rows ==> s.rows[n].stamp.version <= s.memory[n].stamp.version)
    && (forall m :: m in s.written + s.published ==> m.node in s.rows && m.entry.stamp.version <= s.rows[m.node].stamp.version)
    && (forall m :: m in s.inFlight + s.written ==> m.node in s.memory && m.entry.stamp.version == s.memory[m.node].stamp.version)
  }

  ghost predicate AgentsFollow(s: State) {
    forall n :: n in s.agents ==> s.agents[n] in s.published && s.agents[n].node == n
  }

  ghost predicate Inv(s: State) {
    Ordered(All(s)) && BehindMemory(s) && RowsFence(s) && AgentsFollow(s)
  }

  lemma CommitKeepsInv(s: State, n: NodeId, kind: NodeKind, content: Content)
    requires Inv(s) && WithinWord(s, Commit(n, kind, content))
    ensures Inv(Next(s, Commit(n, kind, content)))
  {
    var s', m := Next(s, Commit(n, kind, content)), Snapshot(s, n, kind, content);
    assert All(s') == All(s) + {m};
    assert Less(EntryFor(s, n, kind).stamp, m.entry.stamp);
  }

  lemma FewerOrdered(a: set<Msg>, b: set<Msg>)
    requires Ordered(a) && b <= a
    ensures Ordered(b)
  {
  }

  lemma BehindStays(s: State, s': State)
    requires BehindMemory(s) && s'.memory == s.memory && s'.serial == s.serial && All(s') <= All(s)
    ensures BehindMemory(s')
  {
  }

  /** What a write, whole or failed, does to the rows keeps every published version covered. */
  lemma WriteKeepsFence(s: State, s': State, m: Msg)
    requires RowsFence(s) && BehindMemory(s) && m in s.inFlight
    requires s' == s.(rows := s'.rows, inFlight := s.inFlight - {m}, written := s'.written)
    requires s'.rows == s.rows[m.node := Row(m.entry.kind, m.entry.stamp)] && s'.written <= s.written + {m}
    ensures RowsFence(s')
  {
    assert forall x :: x in s.written + s.published ==> x in All(s);
  }

  lemma RowKeepsInv(s: State, s': State, m: Msg)
    requires Inv(s) && m in s.inFlight
    requires s' == s.(rows := s'.rows, inFlight := s.inFlight - {m}, written := s'.written)
    requires s'.rows == s.rows[m.node := Row(m.entry.kind, m.entry.stamp)] && s'.written <= s.written + {m}
    ensures Inv(s')
  {
    FewerOrdered(All(s), All(s'));
    BehindStays(s, s');
    WriteKeepsFence(s, s', m);
  }

  lemma RestartFence(s: State)
    requires RowsFence(s) && WithinWord(s, Restart)
    ensures RowsFence(Next(s, Restart))
  {
  }

  lemma RestartBehind(s: State)
    requires RowsFence(s) && BehindMemory(s) && WithinWord(s, Restart)
    ensures BehindMemory(Next(s, Restart))
  {
    var s' := Next(s, Restart);
    assert All(s') == s.published;
    assert forall m :: m in s.published ==> m in s.written + s.published && m in All(s);
  }

  lemma RestartKeepsInv(s: State)
    requires Inv(s) && WithinWord(s, Restart)
    ensures Inv(Next(s, Restart))
  {
    FewerOrdered(All(s), All(Next(s, Restart)));
    RestartFence(s);
    RestartBehind(s);
  }

  lemma DropKeepsInv(s: State, s': State)
    requires Inv(s) && s' == s.(inFlight := s'.inFlight, written := s'.written, published := s'.published)
    requires s'.inFlight <= s.inFlight && s'.written <= s.written && s.published <= s'.published <= s.published + s.written
    ensures Inv(s')
  {
    FewerOrdered(All(s), All(s'));
    assert forall x :: x in All(s') ==> x in All(s);
  }

  lemma GreetKeepsInv(s: State, n: NodeId, content: Content)
    requires Inv(s)
    ensures Inv(Next(s, Greet(n, content)))
  {
    assert All(Next(s, Greet(n, content))) == All(s);
  }

  lemma AgentsKeepInv(s: State, agents: map<NodeId, Msg>)
    requires Inv(s) && AgentsFollow(s.(agents := agents))
    ensures Inv(s.(agents := agents))
  {
    assert All(s.(agents := agents)) == All(s);
  }

  lemma StepKeepsInv(s: State, step: Step)
    requires Inv(s) && Enabled(s, step) && WithinWord(s, step)
    ensures Inv(Next(s, step))
  {
    var s' := Next(s, step);
    match step
    case Greet(n, content) => GreetKeepsInv(s, n, content);
    case Commit(n, kind, content) => CommitKeepsInv(s, n, kind, content);
    case Write(m) => RowKeepsInv(s, s', m);
    case WriteFailed(m, landed) => if landed { RowKeepsInv(s, s', m); } else { DropKeepsInv(s, s'); }
    case Publish(m) => DropKeepsInv(s, s');
    case PublishFailed(m) => DropKeepsInv(s, s');
    case Restart => RestartKeepsInv(s);
    case Deliver(_, _) => AgentsKeepInv(s, s'.agents);
    case AgentRestart(_) => AgentsKeepInv(s, s'.agents);
  }

  /** Over every run, with crashes anywhere, the invariant holds. */
  lemma {:induction false} RunKeepsInv(s: State, steps: seq<Step>)
    requires Inv(s) && Possible(s, steps) && Unwrapped(s, steps)
    ensures Inv(After(s, steps))
    decreases |steps|
  {
    if steps != [] {
      RunKeepsInv(s, steps[..|steps| - 1]);
      StepKeepsInv(After(s, steps[..|steps| - 1]), steps[|steps| - 1]);
    }
  }

  // ---------- What the fence guarantees ----------

  /** Of any two published intents for one node, the later commit carries the greater stamp; two
      commits never share one. */
  lemma StampsFollowCommits(steps: seq<Step>, a: Msg, b: Msg)
    requires Possible(INIT, steps) && Unwrapped(INIT, steps)
    requires a in After(INIT, steps).published && b in After(INIT, steps).published && a.node == b.node
    ensures a.serial < b.serial <==> Less(a.entry.stamp, b.entry.stamp)
    ensures a.entry.stamp == b.entry.stamp ==> a == b
  {
    RunKeepsInv(INIT, steps);
  }

  lemma {:induction false} RunSplits(s: State, before: seq<Step>, after: seq<Step>)
    requires Possible(s, before + after) && Unwrapped(s, before + after)
    ensures Possible(s, before) && Unwrapped(s, before)
    ensures Possible(After(s, before), after) && Unwrapped(After(s, before), after)
    ensures After(s, before + after) == After(After(s, before), after)
    decreases |after|
  {
    if after == [] {
      assert before + after == before;
    } else {
      assert (before + after)[..|before + after| - 1] == before + after[..|after| - 1];
      RunSplits(s, before, after[..|after| - 1]);
    }
  }

  lemma OnlyCommitsAdd(s: State, step: Step, m: Msg)
    requires Enabled(s, step) && m in All(Next(s, step)) && m !in All(s)
    ensures m.serial == s.serial
  {
  }

  /** What is published later and was not in the pipeline before was committed later. */
  lemma {:induction false} NewIsLater(s: State, steps: seq<Step>, m: Msg)
    requires Possible(s, steps) && m in All(After(s, steps)) && m !in All(s)
    ensures m.serial >= s.serial && After(s, steps).serial >= s.serial
    decreases |steps|
  {
    SerialsGrow(s, steps);
    if steps != [] {
      var front := steps[..|steps| - 1];
      SerialsGrow(s, front);
      if m in All(After(s, front)) {
        NewIsLater(s, front, m);
      } else {
        OnlyCommitsAdd(After(s, front), steps[|steps| - 1], m);
      }
    }
  }

  lemma {:induction false} SerialsGrow(s: State, steps: seq<Step>)
    ensures After(s, steps).serial >= s.serial
    decreases |steps|
  {
    if steps != [] {
      SerialsGrow(s, steps[..|steps| - 1]);
    }
  }

  /** Every intent published after a restart exceeds every one published before it. */
  lemma RestartFences(before: seq<Step>, after: seq<Step>, a: Msg, b: Msg)
    requires Possible(INIT, before + ([Restart] + after)) && Unwrapped(INIT, before + ([Restart] + after))
    requires a in After(INIT, before).published
    requires b in After(INIT, before + ([Restart] + after)).published && b !in After(INIT, before).published
    requires a.node == b.node
    ensures Less(a.entry.stamp, b.entry.stamp)
  {
    RunSplits(INIT, before, [Restart] + after);
    var s := After(INIT, before);
    RunSplits(s, [Restart], after);
    RunKeepsInv(INIT, before);
    var r := After(s, [Restart]);
    assert r == Next(After(s, []), Restart);
    assert All(r) == s.published;
    NewIsLater(r, after, b);
    StaysPublished(r, after, a);
    StampsFollowCommits(before + ([Restart] + after), a, b);
  }

  lemma {:induction false} StaysPublished(s: State, steps: seq<Step>, m: Msg)
    requires m in s.published
    ensures m in After(s, steps).published
    decreases |steps|
  {
    if steps != [] {
      StaysPublished(s, steps[..|steps| - 1], m);
    }
  }

  predicate NotBack(s: State, s': State, n: NodeId) {
    n in s.agents ==>
      && n in s'.agents
      && s'.agents[n].serial >= s.agents[n].serial
      && !Less(s'.agents[n].entry.stamp, s.agents[n].entry.stamp)
  }

  lemma StepNotBack(s: State, step: Step, n: NodeId)
    requires Inv(s) && Enabled(s, step) && step != AgentRestart(n)
    ensures NotBack(s, Next(s, step), n)
  {
    if step.Deliver? && step.m.node == n && n in s.agents {
      assert step.m in All(s) && s.agents[n] in All(s);
    }
  }

  /** Until it restarts itself, an agent's converged intent never goes back to an earlier commit. */
  lemma {:induction false} AgentNeverGoesBack(s: State, steps: seq<Step>, n: NodeId)
    requires Inv(s) && Possible(s, steps) && Unwrapped(s, steps)
    requires AgentRestart(n) !in steps
    ensures NotBack(s, After(s, steps), n)
    decreases |steps|
  {
    if steps != [] {
      var front, step := steps[..|steps| - 1], steps[|steps| - 1];
      AgentNeverGoesBack(s, front, n);
      RunKeepsInv(s, front);
      StepNotBack(After(s, front), step, n);
    }
  }

  /** Replays are harmless: a message is refused, is the current one, or is a later commit. */
  lemma ReplaysAreHarmless(s: State, m: Msg)
    requires Inv(s) && m in s.published && m.node in s.agents
    ensures m == s.agents[m.node] || (Refused(s, m) <==> m.serial < s.agents[m.node].serial)
  {
    assert m in All(s) && s.agents[m.node] in All(s);
  }

  // ---------- Where 32 bits run out ----------

  /** A commit raises the stamp exactly while the generation has not reached the end of its word. */
  lemma CommitRaisesIff(e: Entry, content: Content)
    requires e.stamp.generation < WORD
    ensures Less(e.stamp, Bumped(e, content).stamp) <==> e.stamp.generation + 1 < WORD
  {
  }

  lemma ReloadRaisesIff(row: Row)
    requires row.stamp.version < WORD
    ensures Less(row.stamp, Reloaded(row).stamp) <==> row.stamp.version + 1 < WORD
  {
  }

  /** Past the end, a published commit is refused by an agent that holds its predecessor. */
  lemma WrappedCommitIsRefused(s: State, n: NodeId, kind: NodeKind, content: Content)
    requires n in s.memory && n in s.agents && s.memory[n].stamp.generation == WORD - 1
    requires s.agents[n].entry.stamp == s.memory[n].stamp
    ensures var m := Snapshot(s, n, kind, content);
            var s' := After(s, [Commit(n, kind, content), Write(m), Publish(m)]);
            Possible(s, [Commit(n, kind, content), Write(m), Publish(m)]) && m in s'.published && Refused(s', m)
  {
    var m := Snapshot(s, n, kind, content);
    var c, w, p := Commit(n, kind, content), Write(m), Publish(m);
    assert [c, w, p][..2] == [c, w] && [c, w][..1] == [c] && [c][..0] == [];
    assert After(s, [c]) == Next(s, c);
    assert After(s, [c, w]) == Next(Next(s, c), w);
    assert After(s, [c, w, p]) == Next(Next(Next(s, c), w), p);
    assert Possible(s, [c]) && Possible(s, [c, w]);
  }
}
