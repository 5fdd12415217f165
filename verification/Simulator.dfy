/** The simulator's methods, each a run of the fault state machine. */
module Simulator {
  import opened Faults
  import opened Sim

  datatype End = End(link: LinkId, far: bool)

  /** A link is down while either of its ends is. */
  function CutBy(ends: set<End>): set<LinkId> {
    set e | e in ends :: e.link
  }

  ghost predicate Goes(lab: Lab, from: State, steps: seq<Step>, to: State) {
    Possible(lab, from, steps) && After(from, steps) == to
  }

  lemma GoesOn(lab: Lab, from: State, steps: seq<Step>, to: State, step: Step)
    requires Goes(lab, from, steps, to) && Enabled(lab, to, step)
    ensures Goes(lab, from, steps + [step], Next(to, step))
  {
    assert (steps + [step])[..|steps + [step]| - 1] == steps;
  }

  /** What calls on the ends of `l` may change. */
  ghost predicate OnlyLink(ends: set<End>, ends': set<End>, l: LinkId) {
    forall e: End :: e.link != l ==> (e in ends' <==> e in ends)
  }

  lemma CutWithLink(ends: set<End>, ends': set<End>, l: LinkId)
    requires OnlyLink(ends, ends', l)
    ensures CutBy(ends') == WithLinkDown(CutBy(ends), l, l in CutBy(ends'))
  {
    forall x | x in CutBy(ends) && x != l
      ensures x in CutBy(ends')
    {
      var e :| e in ends && e.link == x;
      assert e in ends';
    }
    forall x | x in CutBy(ends') && x != l
      ensures x in CutBy(ends)
    {
      var e :| e in ends' && e.link == x;
      assert e in ends;
    }
  }

  class Simulator {
    const lab: Lab
    var faults: map<LinkId, Fault>
    var ends: set<End>
    ghost var failures: nat

    ghost function Now(): State reads this {
      State(faults, CutBy(ends))
    }

    constructor (lab: Lab)
      ensures this.lab == lab && Now() == CLEAR
    {
      this.lab, faults, ends, failures := lab, map[], {}, 0;
    }

    /** Failed shaping calls are counted. */
    twostate predicate Counted(ok: bool)
      reads this
    {
      failures >= old(failures) && (ok <==> failures == old(failures))
    }

    /** A shaping call that leaves links up or down as they are. */
    method ShapeEnd() returns (ok: bool)
      modifies this`failures
      ensures Counted(ok)
    {
      ok := *;
      failures := failures + if ok then 0 else 1;
    }

    /** A shaping call that fails may or may not have done its work. */
    method SetUp(e: End, up: bool) returns (ok: bool)
      modifies this`ends, this`failures
      ensures Counted(ok)
      ensures ends == old(ends) || ends == if up then old(ends) - {e} else old(ends) + {e}
      ensures ok ==> ends == if up then old(ends) - {e} else old(ends) + {e}
    {
      ok := *;
      var done: bool := *;
      if ok || done {
        ends := if up then ends - {e} else ends + {e};
      }
      failures := failures + if ok then 0 else 1;
    }

    /** Both ends up, stopping at the first failure. */
    method LinkUp(l: LinkId) returns (ok: bool)
      modifies this`ends, this`failures
      ensures Counted(ok)
      ensures OnlyLink(old(ends), ends, l) && ends <= old(ends)
      ensures ok ==> l !in CutBy(ends)
    {
      ok := SetUp(End(l, false), true);
      if !ok {
        return;
      }
      ok := SetUp(End(l, true), true);
      if ok {
        assert forall e: End :: e in ends ==> e.link == l ==> e == End(l, false) || e == End(l, true);
      }
    }

    method LinkDown(l: LinkId) returns (ok: bool)
      modifies this`ends, this`failures
      ensures Counted(ok)
      ensures OnlyLink(old(ends), ends, l)
      ensures ok ==> l in CutBy(ends)
    {
      ok := SetUp(End(l, false), false);
      if !ok {
        return;
      }
      assert End(l, false) in ends;
      ok := SetUp(End(l, true), false);
      assert End(l, false) in ends;
    }

    /** `revert`; undoing an impairment does not move links up or down. */
    method Revert(l: LinkId, kind: Kind) returns (ok: bool, ghost stuck: bool)
      modifies this`ends, this`failures
      ensures Counted(ok)
      ensures CutBy(ends) == AfterRevert(old(CutBy(ends)), l, kind, stuck)
      ensures ok ==> !stuck
    {
      if kind.Impair? {
        ok := ShapeEnd();
        return ok, false;
      }
      ok := LinkUp(l);
      CutWithLink(old(ends), ends, l);
      stuck := l in CutBy(ends);
      if stuck {
        assert l in CutBy(old(ends)) && CutBy(old(ends)) + {l} == CutBy(old(ends));
      }
    }

    /** The shaping of a new fault, rolled back if it fails. */
    method Shape(l: LinkId, kind: Kind) returns (ok: bool, ghost o: Shaping)
      modifies this`ends, this`failures
      ensures Counted(ok) && (ok <==> o.Works?)
      ensures !o.PreviousStuck?
      ensures kind.Impair? ==> CutBy(ends) == old(CutBy(ends))
      ensures kind.Down? ==> CutBy(ends) == WithLinkDown(old(CutBy(ends)), l, o.Works? || (o.HalfDone? && o.down))
    {
      if kind.Impair? {
        ok := ShapeEnd();
        return ok, if ok then Works else RolledBack;
      }
      ok := LinkDown(l);
      CutWithLink(old(ends), ends, l);
      if ok {
        return true, Works;
      }
      var back := LinkUp(l);
      CutWithLink(old(ends), ends, l) by {
        assert OnlyLink(old(ends), ends, l);
      }
      o := if back then RolledBack else HalfDone(l in CutBy(ends));
    }

    /** `apply` */
    method Apply(l: LinkId, fault: Fault) returns (ok: bool, ghost o: Shaping)
      modifies this
      ensures Now() == Applied(old(Now()), l, fault, o)
      ensures Counted(ok) && (ok <==> o.Works?)
      ensures o.PreviousStuck? ==> l in old(faults)
    {
      ghost var s := Now();
      if l in faults {
        var previous := faults[l];
        faults := faults - {l};
        var reverted, stuck := Revert(l, previous.kind);
        if !reverted {
          o := PreviousStuck(stuck);
          return false, o;
        }
      }
      assert faults == s.faults - {l} && CutBy(ends) == CutWithout(s, l, false);
      ok, o := Shape(l, fault.kind);
      if ok {
        faults := faults[l := fault];
      }
    }

    /** `clear` */
    method Clear(l: LinkId) returns (ok: bool, ghost step: Step)
      modifies this
      ensures step.Clear? && step.link == l && Now() == Next(old(Now()), step)
      ensures Counted(ok) && (ok ==> !step.stuck)
    {
      ok, step := true, Step.Clear(l, false);
      if l in faults {
        var fault := faults[l];
        faults := faults - {l};
        ghost var stuck;
        ok, stuck := Revert(l, fault.kind);
        step := Step.Clear(l, stuck);
      } else {
        assert faults - {l} == faults;
      }
    }

    /** The loops of `clear_source` and `reap`: a failed revert does not stop them. */
    method ClearAll(ls: set<LinkId>) returns (ghost steps: seq<Step>)
      modifies this
      ensures Goes(lab, old(Now()), steps, Now()) && failures >= old(failures)
      ensures forall step :: step in steps ==> step.Clear? && (failures == old(failures) ==> !step.stuck)
      ensures faults == old(faults) - ls
    {
      steps := [];
      var todo := ls;
      while todo != {}
        invariant todo <= ls
        invariant Goes(lab, old(Now()), steps, Now()) && failures >= old(failures)
        invariant forall step :: step in steps ==> step.Clear? && (failures == old(failures) ==> !step.stuck)
        invariant faults == old(faults) - (ls - todo)
      {
        var l :| l in todo;
        todo := todo - {l};
        ghost var s := Now();
        var ok, step := Clear(l);
        GoesOn(lab, old(Now()), steps, s, step);
        steps := steps + [step];
        assert old(faults) - (ls - todo) == s.faults - {l};
      }
    }

    method ClearSource(source: Source) returns (ghost steps: seq<Step>)
      modifies this
      ensures Goes(lab, old(Now()), steps, Now()) && forall l :: l in faults <==> l in old(faults) && old(faults)[l].source != source
    {
      steps := ClearAll(set l | l in faults && faults[l].source == source);
    }

    /** One round of `reap`: exactly the expired faults leave the record. */
    method Reap(now: real) returns (ghost steps: seq<Step>)
      modifies this
      ensures Goes(lab, old(Now()), steps, Now()) && forall l :: l in faults <==> l in old(faults) && old(faults)[l].expiresAt > now
    {
      steps := ClearAll(set l | l in faults && faults[l].expiresAt <= now);
    }

    /** `reset`: the record is emptied at once, and every end is brought up as far as that works. */
    method Reset() returns (ghost step: Step)
      modifies this
      ensures step.Reset? && Enabled(lab, old(Now()), step) && Now() == Next(old(Now()), step)
      ensures failures == old(failures) ==> forall l :: l in lab.links ==> l !in CutBy(ends)
    {
      faults := map[];
      var todo := lab.links.Keys;
      while todo != {}
        invariant todo <= lab.links.Keys && faults == map[] && ends <= old(ends) && failures >= old(failures)
        invariant failures == old(failures) ==> forall e :: e in ends && e.link in lab.links ==> e.link in todo
      {
        var l :| l in todo;
        todo := todo - {l};
        var near := SetUp(End(l, false), true);
        var far := SetUp(End(l, true), true);
        var restored := ShapeEnd();
        assert forall e: End :: e.link == l ==> e == End(l, false) || e == End(l, true);
      }
      step := Step.Reset(CutBy(ends));
    }

    /** `check_manual` */
    method CheckManual(l: LinkId, kind: Kind) returns (ok: bool)
      requires WellFormed(lab)
      ensures ok <==> Allowed(lab, faults, l, kind)
    {
      var others := faults - {l};
      if |ManualOnes(others)| >= MANUAL_FAULTS {
        return false;
      }
      if !kind.Down? {
        return true;
      }
      if |ManualDowns(others)| >= MANUAL_DOWN {
        return false;
      }
      ok := Connected(lab, Downs(others) + {l});
    }

    /** A manual `impair` or `down` command: refused without effect for an unknown link or past the
        limits, otherwise a step of the machine. */
    method Command(l: LinkId, kind: Kind, until: real) returns (ok: bool, ghost steps: seq<Step>)
      requires WellFormed(lab)
      modifies this
      ensures Goes(lab, old(Now()), steps, Now())
      ensures steps == [] <==> l !in lab.links || !Allowed(lab, old(faults), l, kind)
      ensures ok <==> steps != [] && failures == old(failures)
      ensures ok ==> faults == old(faults)[l := Fault(kind, Manual, until)]
    {
      steps := [];
      if l !in lab.links {
        return false, steps;
      }
      var allowed := CheckManual(l, kind);
      if !allowed {
        return false, steps;
      }
      ghost var o;
      ok, o := Apply(l, Fault(kind, Manual, until));
      ghost var step := Step.Command(l, Fault(kind, Manual, until), o);
      GoesOn(lab, old(Now()), [], old(Now()), step);
      steps := [] + [step];
    }
  }
}
