/** The simulator's fault map as a state machine over commands, story steps, expiries and resets. */
module Sim {
  import opened Faults

  datatype Kind = Down | Impair

  datatype Source = Manual | Story(name: string)

  datatype Fault = Fault(kind: Kind, source: Source, expiresAt: real)

  const MANUAL_FAULTS := 4
  const MANUAL_DOWN := 2

  function ManualOnes(faults: map<LinkId, Fault>): set<LinkId> {
    set l | l in faults && faults[l].source.Manual?
  }

  function ManualDowns(faults: map<LinkId, Fault>): set<LinkId> {
    set l | l in faults && faults[l].source.Manual? && faults[l].kind.Down?
  }

  /** Links some fault holds down. */
  function Downs(faults: map<LinkId, Fault>): set<LinkId> {
    set l | l in faults && faults[l].kind.Down?
  }

  /** The faults on record, and the links that really are down. */
  datatype State = State(faults: map<LinkId, Fault>, cut: set<LinkId>)

  const CLEAR := State(map[], {})

  /** How the shaping calls behind one `apply` went: all worked; undoing the previous fault failed; the
      new fault failed and was rolled back; or that failed as well. A failed call may leave the link down. */
  datatype Shaping = Works | PreviousStuck(down: bool) | RolledBack | HalfDone(down: bool)

  function WithLinkDown(cut: set<LinkId>, l: LinkId, down: bool): set<LinkId> {
    if down then cut + {l} else cut - {l}
  }

  /** Reverting touches whether a link is down only if that was the fault. */
  function AfterRevert(cut: set<LinkId>, l: LinkId, kind: Kind, stuck: bool): set<LinkId> {
    if kind.Down? && !stuck then cut - {l} else cut
  }

  /** The links down once the fault on `l`, if any, has been reverted. */
  function CutWithout(s: State, l: LinkId, stuck: bool): set<LinkId> {
    if l in s.faults then AfterRevert(s.cut, l, s.faults[l].kind, stuck) else s.cut
  }

  function Applied(s: State, l: LinkId, fault: Fault, o: Shaping): State {
    var rest := s.faults - {l};
    var cut := CutWithout(s, l, o.PreviousStuck? && o.down);
    match o
    case Works => State(rest[l := fault], if fault.kind.Down? then cut + {l} else cut)
    case PreviousStuck(_) => State(rest, cut)
    case RolledBack => State(rest, AfterRevert(cut, l, fault.kind, false))
    case HalfDone(down) => State(rest, if fault.kind.Down? then WithLinkDown(cut, l, down) else cut)
  }

  /** A fault is off the record before its revert is tried. */
  function Cleared(s: State, l: LinkId, stuck: bool): State {
    State(s.faults - {l}, CutWithout(s, l, stuck))
  }

  datatype Step =
    | Command(link: LinkId, fault: Fault, o: Shaping)
    | StoryStep(link: LinkId, fault: Fault, o: Shaping)
    | Clear(link: LinkId, stuck: bool)
    | Reset(left: set<LinkId>)

  /** `check_manual` */
  ghost predicate Allowed(lab: Lab, faults: map<LinkId, Fault>, l: LinkId, kind: Kind) {
    var others := faults - {l};
    && |ManualOnes(others)| < MANUAL_FAULTS
    && (kind.Down? ==> |ManualDowns(others)| < MANUAL_DOWN && AllConnected(lab, Downs(others) + {l}))
  }

  ghost predicate Enabled(lab: Lab, s: State, step: Step) {
    match step
    case Command(l, fault, o) =>
      l in lab.links && fault.source.Manual? && Allowed(lab, s.faults, l, fault.kind) && (o.PreviousStuck? ==> l in s.faults)
    case StoryStep(l, fault, o) => l in lab.links && fault.source.Story? && (o.PreviousStuck? ==> l in s.faults)
    case Clear(_, _) => true
    case Reset(left) => left <= s.cut
  }

  function Next(s: State, step: Step): State {
    match step
    case Command(l, fault, o) => Applied(s, l, fault, o)
    case StoryStep(l, fault, o) => Applied(s, l, fault, o)
    case Clear(l, stuck) => Cleared(s, l, stuck)
    case Reset(left) => State(map[], left)
  }

  function After(s: State, steps: seq<Step>): State {
    if steps == [] then s else Next(After(s, steps[..|steps| - 1]), steps[|steps| - 1])
  }

  ghost predicate Possible(lab: Lab, s: State, steps: seq<Step>) {
    steps != [] ==>
      && Possible(lab, s, steps[..|steps| - 1])
      && Enabled(lab, After(s, steps[..|steps| - 1]), steps[|steps| - 1])
  }

  // ---------- Limits ----------

  ghost predicate Limits(faults: map<LinkId, Fault>) {
    |ManualOnes(faults)| <= MANUAL_FAULTS && |ManualDowns(faults)| <= MANUAL_DOWN
  }

  lemma FewerFaults(faults: map<LinkId, Fault>, l: LinkId)
    ensures ManualOnes(faults - {l}) == ManualOnes(faults) - {l}
    ensures ManualDowns(faults - {l}) == ManualDowns(faults) - {l}
    ensures Downs(faults - {l}) == Downs(faults) - {l}
    ensures Limits(faults) ==> Limits(faults - {l})
  {
    SubsetSize(ManualOnes(faults) - {l}, ManualOnes(faults));
    SubsetSize(ManualDowns(faults) - {l}, ManualDowns(faults));
  }

  lemma OneMoreFault(faults: map<LinkId, Fault>, l: LinkId, fault: Fault)
    requires l !in faults
    ensures ManualOnes(faults[l := fault]) == ManualOnes(faults) + if fault.source.Manual? then {l} else {}
    ensures ManualDowns(faults[l := fault]) == ManualDowns(faults) + if fault.source.Manual? && fault.kind.Down? then {l} else {}
    ensures Downs(faults[l := fault]) == Downs(faults) + if fault.kind.Down? then {l} else {}
  {
  }

  lemma AppliedWithinLimits(lab: Lab, s: State, l: LinkId, fault: Fault, o: Shaping)
    requires Limits(s.faults) && (fault.source.Manual? ==> Allowed(lab, s.faults, l, fault.kind))
    ensures Limits(Applied(s, l, fault, o).faults)
  {
    FewerFaults(s.faults, l);
    if o.Works? {
      OneMoreFault(s.faults - {l}, l, fault);
    }
  }

  lemma NextWithinLimits(lab: Lab, s: State, step: Step)
    requires Limits(s.faults) && Enabled(lab, s, step)
    ensures Limits(Next(s, step).faults)
  {
    match step
    case Command(l, fault, o) => AppliedWithinLimits(lab, s, l, fault, o);
    case StoryStep(l, fault, o) => AppliedWithinLimits(lab, s, l, fault, o);
    case Clear(l, _) => FewerFaults(s.faults, l);
    case Reset(_) => NoFaults();
  }

  lemma NoFaults()
    ensures ManualOnes(map[]) == {} && ManualDowns(map[]) == {} && Downs(map[]) == {}
  {
  }

  /** Whatever is commanded, expires, fails or runs as a story: at most four manual faults and two
      manual cuts are on record. */
  lemma {:induction false} LimitsHold(lab: Lab, steps: seq<Step>)
    requires Possible(lab, CLEAR, steps)
    ensures Limits(After(CLEAR, steps).faults)
    decreases |steps|
  {
    if steps == [] {
      NoFaults();
    } else {
      LimitsHold(lab, steps[..|steps| - 1]);
      NextWithinLimits(lab, After(CLEAR, steps[..|steps| - 1]), steps[|steps| - 1]);
    }
  }

  // ---------- Connectivity ----------

  predicate StoryCut(step: Step) {
    step.StoryStep? && step.fault.kind.Down?
  }

  lemma AppliedKeepsConnected(lab: Lab, s: State, l: LinkId, fault: Fault, o: Shaping)
    requires AllConnected(lab, Downs(s.faults)) && (fault.kind.Down? ==> Allowed(lab, s.faults, l, Down))
    ensures AllConnected(lab, Downs(Applied(s, l, fault, o).faults))
  {
    FewerFaults(s.faults, l);
    FewerDown(lab, Downs(s.faults), Downs(s.faults) - {l});
    if o.Works? {
      OneMoreFault(s.faults - {l}, l, fault);
    }
  }

  lemma NextKeepsConnected(lab: Lab, s: State, step: Step)
    requires AllConnected(lab, {}) && AllConnected(lab, Downs(s.faults)) && Enabled(lab, s, step) && !StoryCut(step)
    ensures AllConnected(lab, Downs(Next(s, step).faults))
  {
    match step
    case Command(l, fault, o) => AppliedKeepsConnected(lab, s, l, fault, o);
    case StoryStep(l, fault, o) => AppliedKeepsConnected(lab, s, l, fault, o);
    case Clear(l, _) =>
      FewerFaults(s.faults, l);
      FewerDown(lab, Downs(s.faults), Downs(s.faults) - {l});
    case Reset(_) => NoFaults();
  }

  /** From a connected lab, runs without story cuts keep every PoP connected as far as the record goes. */
  lemma {:induction false} RecordStaysConnected(lab: Lab, steps: seq<Step>)
    requires AllConnected(lab, {}) && Possible(lab, CLEAR, steps) && forall step :: step in steps ==> !StoryCut(step)
    ensures AllConnected(lab, Downs(After(CLEAR, steps).faults))
    decreases |steps|
  {
    if steps == [] {
      NoFaults();
    } else {
      var front, step := steps[..|steps| - 1], steps[|steps| - 1];
      assert step in steps && forall x :: x in front ==> x in steps;
      RecordStaysConnected(lab, front);
      NextKeepsConnected(lab, After(CLEAR, front), step);
    }
  }

  /** A failed call leaves a link down that is then off the record. */
  predicate Leaks(s: State, l: LinkId, fault: Fault, o: Shaping) {
    || (o.PreviousStuck? && o.down && l in s.faults && s.faults[l].kind.Down?)
    || (o.HalfDone? && o.down && fault.kind.Down?)
  }

  predicate NothingLeaks(s: State, step: Step) {
    match step
    case Command(l, fault, o) => !Leaks(s, l, fault, o)
    case StoryStep(l, fault, o) => !Leaks(s, l, fault, o)
    case Clear(l, stuck) => !(stuck && l in s.faults && s.faults[l].kind.Down?)
    case Reset(left) => left == {}
  }

  ghost predicate Tight(lab: Lab, s: State, steps: seq<Step>)
    requires Possible(lab, s, steps)
  {
    steps != [] ==>
      && Tight(lab, s, steps[..|steps| - 1])
      && NothingLeaks(After(s, steps[..|steps| - 1]), steps[|steps| - 1])
  }

  /** A step keeps the record true to the fabric exactly when nothing leaks. */
  lemma RecordIsTrueIff(lab: Lab, s: State, step: Step)
    requires s.cut == Downs(s.faults) && Enabled(lab, s, step)
    ensures Next(s, step).cut == Downs(Next(s, step).faults) <==> NothingLeaks(s, step)
  {
    match step
    case Command(l, fault, o) => AppliedIff(s, l, fault, o);
    case StoryStep(l, fault, o) => AppliedIff(s, l, fault, o);
    case Clear(l, stuck) =>
      RevertedIff(s, l, stuck);
      SameBut(CutWithout(s, l, stuck), Downs(s.faults - {l}), l);
    case Reset(_) => NoFaults();
  }

  lemma RevertedIff(s: State, l: LinkId, stuck: bool)
    requires s.cut == Downs(s.faults)
    ensures l in CutWithout(s, l, stuck) <==> stuck && l in Downs(s.faults)
    ensures CutWithout(s, l, stuck) - {l} == Downs(s.faults - {l})
  {
    FewerFaults(s.faults, l);
  }

  lemma AppliedIff(s: State, l: LinkId, fault: Fault, o: Shaping)
    requires s.cut == Downs(s.faults) && (o.PreviousStuck? ==> l in s.faults)
    ensures Applied(s, l, fault, o).cut == Downs(Applied(s, l, fault, o).faults) <==> !Leaks(s, l, fault, o)
  {
    RevertedIff(s, l, o.PreviousStuck? && o.down);
    OneMoreFault(s.faults - {l}, l, fault);
    SameBut(CutWithout(s, l, o.PreviousStuck? && o.down), Downs(s.faults - {l}), l);
  }

  /** Two sets that agree apart from `l`, which is in none or one of them. */
  lemma SameBut(cut: set<LinkId>, downs: set<LinkId>, l: LinkId)
    requires cut - {l} == downs
    ensures cut == downs <==> l !in cut
    ensures cut + {l} == downs + {l} && cut + {l} != downs
    ensures l !in cut ==> cut - {l} == downs
  {
    assert l !in downs;
    assert l in cut + {l};
    assert cut + {l} == (cut - {l}) + {l};
    if l !in cut {
      assert cut - {l} == cut;
    }
  }

  lemma {:induction false} RecordIsTrue(lab: Lab, steps: seq<Step>)
    requires Possible(lab, CLEAR, steps) && Tight(lab, CLEAR, steps)
    ensures After(CLEAR, steps).cut == Downs(After(CLEAR, steps).faults)
    decreases |steps|
  {
    if steps == [] {
      NoFaults();
    } else {
      RecordIsTrue(lab, steps[..|steps| - 1]);
      RecordIsTrueIff(lab, After(CLEAR, steps[..|steps| - 1]), steps[|steps| - 1]);
    }
  }

  /** Without story cuts and leaking failures, no PoP is ever really cut off. */
  lemma FabricStaysConnected(lab: Lab, steps: seq<Step>)
    requires AllConnected(lab, {}) && Possible(lab, CLEAR, steps) && Tight(lab, CLEAR, steps)
    requires forall step :: step in steps ==> !StoryCut(step)
    ensures AllConnected(lab, After(CLEAR, steps).cut)
  {
    RecordStaysConnected(lab, steps);
    RecordIsTrue(lab, steps);
  }

  // ---------- One leak is enough ----------

  const RING := Lab(["a", "b", "c"], map["ab" := Link("a", "b"), "bc" := Link("b", "c"), "ca" := Link("c", "a")])

  lemma RingReaches(down: set<LinkId>, q: Pop)
    requires down <= {"ca"} && q in RING.pops
    ensures Reaches(RING, down, "a", q)
  {
    ReachesSelf(RING, down, "a");
    assert Joins(RING.links["ab"], "a", "b") && Adjacent(RING, down, "a", "b");
    ReachesOn(RING, down, "a", "a", "b");
    assert Joins(RING.links["bc"], "b", "c") && Adjacent(RING, down, "b", "c");
    ReachesOn(RING, down, "a", "b", "c");
  }

  lemma RingConnected(down: set<LinkId>)
    requires down <= {"ca"}
    ensures AllConnected(RING, down)
  {
    forall q | q in RING.pops
      ensures Reaches(RING, down, "a", q)
    {
      RingReaches(down, q);
    }
    ReachedFromOne(RING, down, "a");
  }

  lemma CutOff(q: Pop)
    ensures !Adjacent(RING, {"ab", "ca"}, "a", q)
  {
  }

  lemma StuckAtA(ps: seq<Pop>)
    requires IsPath(RING, {"ab", "ca"}, ps) && ps[0] == "a"
    ensures |ps| == 1
  {
    CutOff(if |ps| > 1 then ps[0 + 1] else "a");
  }

  /** A cut whose revert fails is forgotten, and the next permitted cut isolates a PoP. */
  lemma LeakDisconnects(until: real)
    ensures var cut := Fault(Down, Manual, until);
            var steps := [Command("ab", cut, Works), Clear("ab", true), Command("ca", cut, Works)];
            AllConnected(RING, {}) && Possible(RING, CLEAR, steps) && !AllConnected(RING, After(CLEAR, steps).cut)
  {
    var cut := Fault(Down, Manual, until);
    var x, y, z := Command("ab", cut, Works), Clear("ab", true), Command("ca", cut, Works);
    var s1, s2 := Next(CLEAR, x), Next(Next(CLEAR, x), y);
    var s3 := Next(s2, z);
    RingConnected({});
    FirstCutAllowed();
    SecondCutAllowed();
    assert s2.faults == map[];
    ThreeSteps(CLEAR, x, y, z);
    RingCut();
    assert s3.cut == {"ab", "ca"};
  }

  lemma ThreeSteps(s: State, x: Step, y: Step, z: Step)
    ensures After(s, [x, y, z]) == Next(Next(Next(s, x), y), z)
    ensures Possible(RING, s, [x, y, z]) <==> Enabled(RING, s, x) && Enabled(RING, Next(s, x), y) && Enabled(RING, Next(Next(s, x), y), z)
  {
    assert [x, y, z][..2] == [x, y] && [x, y][..1] == [x] && [x][..0] == [];
    assert After(s, [x]) == Next(s, x);
    assert After(s, [x, y]) == Next(Next(s, x), y);
    assert Possible(RING, s, [x]) <==> Enabled(RING, s, x);
    assert Possible(RING, s, [x, y]) <==> Enabled(RING, s, x) && Enabled(RING, Next(s, x), y);
  }

  lemma RingCut()
    ensures !AllConnected(RING, {"ab", "ca"})
  {
    if Reaches(RING, {"ab", "ca"}, "a", "b") {
      var ps :| PathBetween(RING, {"ab", "ca"}, ps, "a", "b");
      StuckAtA(ps);
    }
  }

  lemma FirstCutAllowed()
    ensures Allowed(RING, map[], "ab", Down)
  {
    NoFaults();
    var none: map<LinkId, Fault> := map[];
    assert none - {"ab"} == none;
    ConnectedWithoutAb();
    assert Downs(map[]) + {"ab"} == {"ab"};
  }

  lemma SecondCutAllowed()
    ensures Allowed(RING, map[], "ca", Down)
  {
    NoFaults();
    var none: map<LinkId, Fault> := map[];
    assert none - {"ca"} == none;
    RingConnected({"ca"});
    assert Downs(map[]) + {"ca"} == {"ca"};
  }

  lemma ConnectedWithoutAb()
    ensures AllConnected(RING, {"ab"})
  {
    ReachesSelf(RING, {"ab"}, "c");
    assert Joins(RING.links["ca"], "c", "a") && Adjacent(RING, {"ab"}, "c", "a");
    ReachesOn(RING, {"ab"}, "c", "c", "a");
    assert Joins(RING.links["bc"], "c", "b") && Adjacent(RING, {"ab"}, "c", "b");
    ReachesOn(RING, {"ab"}, "c", "c", "b");
    ReachedFromOne(RING, {"ab"}, "c");
  }
}
