/**
 When the guard ends the loop of `advance`: exactly on executions that have content, that nobody can
 evaluate, and whose remaining stages end without a single dispatch.  Everything is read off the
 execution before the call.
 */
module Guard {
  import opened Base
  import opened Spec
  import opened Records
  import opened Lifecycle
  import opened Attempts
  import opened Participants
  import opened Definition
  import opened Reports
  import opened Progress
  import opened Monotone
  import opened Invariants
  import opened Advancing
  import opened Ledger
  import opened System
  import opened Runs
  import opened Identities
  import opened Recomputation
  import opened Settling
  import Quorum
  import Consensus

  // ---- Slots that end without a dispatch ----------------------------------------------------------------

  /** The participant can neither serve nor be waited for, nor is a replacement worth waiting for. */
  predicate OutOfReach(ctx: Context, ps: seq<Participant>, id: nat, attemptsUsed: nat) {
    match FindParticipant(ps, id)
    case None => false
    case Some(j) =>
      && !ps[j].Authoritative(ctx.epoch) && !ps[j].Capable()
      && !(ctx.spec.retry.replaceParticipant && attemptsUsed < ctx.spec.retry.maxAttempts)
  }

  /** The next visit fails this declared slot. */
  predicate Hopeless(ctx: Context, ps: seq<Participant>, c: Candidate) {
    c.state == Declared && OutOfReach(ctx, ps, c.participant, c.attemptsUsed)
  }

  /** A slot declared for this participant would be failed at once. */
  predicate Gone(ctx: Context, ps: seq<Participant>, id: nat) {
    FindSpec(ctx.spec.participants, id).Some? && OutOfReach(ctx, ps, id, 0)
  }

  /** Everybody the stage lists has a slot there or, if it is still to be declared, is gone. */
  predicate StageOver(ctx: Context, ps: seq<Participant>, cs: seq<Candidate>, stage: Stage, declared: bool) {
    forall id :: id in stage.participants ==> HasSlot(cs, id, stage.id) || (!declared && Gone(ctx, ps, id))
  }

  /** Nothing in flight could still be served. */
  predicate NothingToServe(ctx: Context, ps: seq<Participant>, cs: seq<Candidate>) {
    forall c :: c in cs && InFlight(c.state) ==> Hopeless(ctx, ps, c)
  }

  /** Whether a stage of the plan counts as declared before the call. */
  predicate DeclaredAt(x: Execution, i: nat) {
    i == x.stageIndex && x.declaredCurrentStage
  }

  /** The remaining stages end one after the other, without a dispatch. */
  predicate StagesOver(ctx: Context, ps: seq<Participant>, x: Execution) {
    && NothingToServe(ctx, ps, x.candidates)
    && forall i :: x.stageIndex <= i < |Plan(ctx.spec, x)| ==>
         StageOver(ctx, ps, x.candidates, Plan(ctx.spec, x)[i], DeclaredAt(x, i))
  }

  /** In flight and not hopeless: a pass leaves such a slot in flight. */
  predicate Lasting(ctx: Context, ps: seq<Participant>, c: Candidate) {
    InFlight(c.state) && !Hopeless(ctx, ps, c)
  }

  // ---- One pass, slot by slot ------------------------------------------------------------------------------

  ghost predicate SlotVisited(ctx: Context, ps: seq<Participant>, c: Candidate, d: Candidate) {
    || d == c
    || (&& c.state == Declared && d.id == c.id && d.participant == c.participant && d.stage == c.stage && d.fallback == c.fallback
        && (|| (d.state == Declared && d.attemptsUsed == c.attemptsUsed)
            || d.state == Dispatched
            || (d.state == Failed && d.attemptsUsed == c.attemptsUsed && Hopeless(ctx, ps, c))))
  }

  ghost predicate SlotsVisited(ctx: Context, ps: seq<Participant>, cs: seq<Candidate>, ds: seq<Candidate>) {
    |ds| == |cs| && forall i :: 0 <= i < |cs| ==> SlotVisited(ctx, ps, cs[i], ds[i])
  }

  lemma VisitedTwice(ctx: Context, ps: seq<Participant>, a: seq<Candidate>, b: seq<Candidate>, c: seq<Candidate>)
    requires SlotsVisited(ctx, ps, a, b) && SlotsVisited(ctx, ps, b, c)
    ensures SlotsVisited(ctx, ps, a, c)
  {
    forall i | 0 <= i < |a| ensures SlotVisited(ctx, ps, a[i], c[i]) {
      assert SlotVisited(ctx, ps, a[i], b[i]) && SlotVisited(ctx, ps, b[i], c[i]);
    }
  }

  lemma TouchedIsVisited(ctx: Context, ps: seq<Participant>, r: Run, k: nat, p: Participant)
    requires k < |r.x.candidates| && r.x.candidates[k].state == Declared
    ensures SlotVisited(ctx, ps, r.x.candidates[k], Touched(r, k, p).x.candidates[k])
  {
  }

  lemma DispatchedIsVisited(ctx: Context, ps: seq<Participant>, r: Run, k: nat, p: Participant)
    requires k < |r.x.candidates| && r.x.candidates[k].state == Declared
    ensures SlotVisited(ctx, ps, r.x.candidates[k], DispatchAt(ctx, r, k, p).x.candidates[k])
  {
    assert DispatchAt(ctx, r, k, p).x.candidates[k] == DispatchedCandidate(r.x.candidates[k], p, ctx.epoch, SequenceValue(r.ids));
  }

  lemma GivenUpIsVisited(ctx: Context, ps: seq<Participant>, r: Run, k: nat)
    requires k < |r.x.candidates| && Hopeless(ctx, ps, r.x.candidates[k])
    ensures SlotVisited(ctx, ps, r.x.candidates[k], GiveUp(r, k).x.candidates[k])
  {
    FailureAt(r.x, k);
  }

  lemma SlotVisitedTwice(ctx: Context, ps: seq<Participant>, a: Candidate, b: Candidate, c: Candidate)
    requires SlotVisited(ctx, ps, a, b) && SlotVisited(ctx, ps, b, c)
    ensures SlotVisited(ctx, ps, a, c)
  {
  }

  /** What the three writes of a visit leave in the slot. */
  lemma ServedSlotVisited(ctx: Context, stage: Stage, r: Run, k: nat, j: nat)
    requires Serves(ctx, stage, r, k, j)
    ensures SlotVisited(ctx, r.participants, r.x.candidates[k], Visit(ctx, stage, r, k).0.x.candidates[k])
  {
    var c, p := r.x.candidates[k], r.participants[j];
    var r1 := Touched(r, k, p);
    var d := Visit(ctx, stage, r, k).0.x.candidates[k];
    VisitForms(ctx, stage, r, k, j);
    TouchedIsVisited(ctx, r.participants, r, k, p);
    DispatchedIsVisited(ctx, r.participants, r1, k, p);
    if Hopeless(ctx, r.participants, c) {
      GivenUpIsVisited(ctx, r.participants, r1, k);
    }
    SlotVisitedTwice(ctx, r.participants, c, r1.x.candidates[k], d);
  }

  lemma SlotAtVisited(ctx: Context, stage: Stage, r: Run, k: nat)
    requires k < |r.x.candidates|
    ensures SlotVisited(ctx, r.participants, r.x.candidates[k], Visit(ctx, stage, r, k).0.x.candidates[k])
  {
    var c := r.x.candidates[k];
    var found := FindParticipant(r.participants, c.participant);
    if c.stage == stage.id && c.state == Declared && found.Some? {
      ServedSlotVisited(ctx, stage, r, k, found.value);
    } else {
      assert Visit(ctx, stage, r, k) == (r, true);
    }
  }

  lemma VisitVisits(ctx: Context, stage: Stage, r: Run, k: nat)
    requires k < |r.x.candidates|
    ensures var v := Visit(ctx, stage, r, k);
            SlotsVisited(ctx, r.participants, r.x.candidates, v.0.x.candidates) && v.0.participants == r.participants
  {
    var v := Visit(ctx, stage, r, k).0;
    VisitSettles(ctx, stage, r, k);
    SlotAtVisited(ctx, stage, r, k);
    assert SameButAt(r.x.candidates, v.x.candidates, k);
  }

  lemma {:induction false} PassVisits(ctx: Context, stage: Stage, r: Run, k: nat)
    ensures var w := DispatchFrom(ctx, stage, r, k);
            SlotsVisited(ctx, r.participants, r.x.candidates, w.x.candidates) && w.participants == r.participants
    decreases |r.x.candidates| - k
  {
    if k < |r.x.candidates| {
      var v := Visit(ctx, stage, r, k);
      VisitVisits(ctx, stage, r, k);
      if v.1 {
        PassVisits(ctx, stage, v.0, k + 1);
        VisitedTwice(ctx, r.participants, r.x.candidates, v.0.x.candidates, DispatchFrom(ctx, stage, v.0, k + 1).x.candidates);
      }
    }
  }

  /** A hopeless slot of the stage is failed by its visit, and the pass goes on. */
  lemma HopelessVisit(ctx: Context, stage: Stage, r: Run, k: nat)
    requires k < |r.x.candidates| && r.x.candidates[k].stage == stage.id && Hopeless(ctx, r.participants, r.x.candidates[k])
    ensures var v := Visit(ctx, stage, r, k);
            v.1 && SameButAt(r.x.candidates, v.0.x.candidates, k) && v.0.x.candidates[k].state == Failed
            && v.0.participants == r.participants
  {
    var c := r.x.candidates[k];
    var found := FindParticipant(r.participants, c.participant);
    VisitForms(ctx, stage, r, k, found.value);
    FailureAt(Touched(r, k, r.participants[found.value]).x, k);
  }

  ghost predicate NothingInFlight(cs: seq<Candidate>) {
    forall i :: 0 <= i < |cs| ==> !InFlight(cs[i].state)
  }

  /** Whatever is in flight is hopeless, belongs to this stage, and lies at or behind `k`. */
  ghost predicate HopelessFrom(ctx: Context, stage: Stage, ps: seq<Participant>, cs: seq<Candidate>, k: nat) {
    forall i :: 0 <= i < |cs| && InFlight(cs[i].state) ==> k <= i && cs[i].stage == stage.id && Hopeless(ctx, ps, cs[i])
  }

  lemma HopelessStep(ctx: Context, stage: Stage, r: Run, k: nat)
    requires k < |r.x.candidates| && HopelessFrom(ctx, stage, r.participants, r.x.candidates, k)
    ensures var v := Visit(ctx, stage, r, k);
            v.1 && v.0.participants == r.participants && HopelessFrom(ctx, stage, r.participants, v.0.x.candidates, k + 1)
  {
    if InFlight(r.x.candidates[k].state) {
      HopelessVisit(ctx, stage, r, k);
    } else {
      assert Visit(ctx, stage, r, k) == (r, true);
    }
  }

  /** When every slot in flight is a hopeless one of this stage, a pass leaves nothing in flight. */
  lemma {:induction false} HopelessPass(ctx: Context, stage: Stage, r: Run, k: nat)
    requires HopelessFrom(ctx, stage, r.participants, r.x.candidates, k)
    ensures NothingInFlight(DispatchFrom(ctx, stage, r, k).x.candidates)
    decreases |r.x.candidates| - k
  {
    if k < |r.x.candidates| {
      var v := Visit(ctx, stage, r, k);
      HopelessStep(ctx, stage, r, k);
      HopelessPass(ctx, stage, v.0, k + 1);
      assert DispatchFrom(ctx, stage, r, k) == DispatchFrom(ctx, stage, v.0, k + 1);
    } else {
      assert DispatchFrom(ctx, stage, r, k) == r;
    }
  }

  // ---- Declaration -------------------------------------------------------------------------------------------

  /** A slot declared for one of the listed participants that had none. */
  ghost predicate FreshSlot(ctx: Context, stage: Stage, cs: seq<Candidate>, d: Candidate) {
    && d.state == Declared && d.attemptsUsed == 0 && d.stage == stage.id && d.fallback == stage.fallbackStage
    && d.participant in stage.participants && FindSpec(ctx.spec.participants, d.participant).Some?
    && !HasSlot(cs, d.participant, stage.id)
  }

  ghost predicate SlotsDeclared(ctx: Context, stage: Stage, cs: seq<Candidate>, ds: seq<Candidate>) {
    && cs <= ds
    && (forall i :: |cs| <= i < |ds| ==> FreshSlot(ctx, stage, cs, ds[i]))
    && (forall id :: id in stage.participants && FindSpec(ctx.spec.participants, id).Some? ==> HasSlot(ds, id, stage.id))
  }

  lemma SlotStays(cs: seq<Candidate>, ds: seq<Candidate>, id: nat, stage: nat)
    requires cs <= ds && HasSlot(cs, id, stage)
    ensures HasSlot(ds, id, stage)
  {
    var c :| c in cs && c.participant == id && c.stage == stage;
    assert c in ds;
  }

  lemma DeclareOneDeclares(ctx: Context, stage: Stage, r: Run, participant: nat)
    requires DeclareOne(ctx, stage, r, participant).Proceed? && participant in stage.participants
    ensures var w := DeclareOne(ctx, stage, r, participant).run;
            && r.x.candidates <= w.x.candidates && w.participants == r.participants
            && (forall i :: |r.x.candidates| <= i < |w.x.candidates| ==> FreshSlot(ctx, stage, r.x.candidates, w.x.candidates[i]))
            && (FindSpec(ctx.spec.participants, participant).Some? ==> HasSlot(w.x.candidates, participant, stage.id))
  {
    var w := DeclareOne(ctx, stage, r, participant).run;
    if w != r {
      assert w.x.candidates[|r.x.candidates|] in w.x.candidates;
    }
  }

  lemma {:induction false} DeclareDeclares(ctx: Context, stage: Stage, r: Run, k: nat)
    requires DeclareFrom(ctx, stage, r, k).Proceed?
    ensures var w := DeclareFrom(ctx, stage, r, k).run;
            && r.x.candidates <= w.x.candidates && w.participants == r.participants
            && (forall i :: |r.x.candidates| <= i < |w.x.candidates| ==> FreshSlot(ctx, stage, r.x.candidates, w.x.candidates[i]))
            && (forall i :: k <= i < |stage.participants| && FindSpec(ctx.spec.participants, stage.participants[i]).Some? ==>
                  HasSlot(w.x.candidates, stage.participants[i], stage.id))
    decreases |stage.participants| - k
  {
    if k < |stage.participants| {
      var r1 := DeclareOne(ctx, stage, r, stage.participants[k]).run;
      DeclareOneDeclares(ctx, stage, r, stage.participants[k]);
      DeclareDeclares(ctx, stage, r1, k + 1);
      var w := DeclareFrom(ctx, stage, r1, k + 1).run;
      forall i | |r.x.candidates| <= i < |w.x.candidates| ensures FreshSlot(ctx, stage, r.x.candidates, w.x.candidates[i]) {
        if i < |r1.x.candidates| {
          assert w.x.candidates[i] == r1.x.candidates[i];
        } else if HasSlot(r.x.candidates, w.x.candidates[i].participant, stage.id) {
          SlotStays(r.x.candidates, r1.x.candidates, w.x.candidates[i].participant, stage.id);
          assert false;
        }
      }
      if FindSpec(ctx.spec.participants, stage.participants[k]).Some? {
        SlotStays(r1.x.candidates, w.x.candidates, stage.participants[k], stage.id);
      }
    }
  }

  /** What declaring the current stage, unless it is declared already, adds to the slots. */
  lemma DeclarationDeclares(ctx: Context, stage: Stage, r: Run)
    requires Declare(ctx, stage, r).Proceed?
    ensures var w := Declare(ctx, stage, r).run;
            && w.participants == r.participants
            && (if r.x.declaredCurrentStage then w == r else SlotsDeclared(ctx, stage, r.x.candidates, w.x.candidates))
  {
    if !r.x.declaredCurrentStage {
      DeclareDeclares(ctx, stage, r, 0);
    }
  }

  // ---- One stage ---------------------------------------------------------------------------------------------

  lemma VisitsKeepSlots(ctx: Context, ps: seq<Participant>, cs: seq<Candidate>, ds: seq<Candidate>, id: nat, stage: nat)
    requires SlotsVisited(ctx, ps, cs, ds)
    ensures HasSlot(ds, id, stage) <==> HasSlot(cs, id, stage)
  {
    if HasSlot(cs, id, stage) {
      var c :| c in cs && c.participant == id && c.stage == stage;
      var i :| 0 <= i < |cs| && cs[i] == c;
      assert SlotVisited(ctx, ps, cs[i], ds[i]) && ds[i] in ds;
    }
    if HasSlot(ds, id, stage) {
      var d :| d in ds && d.participant == id && d.stage == stage;
      var i :| 0 <= i < |ds| && ds[i] == d;
      assert SlotVisited(ctx, ps, cs[i], ds[i]) && cs[i] in cs;
    }
  }

  /** The participants of new slots of a stage that is over are gone. */
  lemma FreshIsGone(ctx: Context, ps: seq<Participant>, stage: Stage, cs: seq<Candidate>, ds: seq<Candidate>)
    requires StageOver(ctx, ps, cs, stage, false) && SlotsDeclared(ctx, stage, cs, ds)
    ensures forall i :: |cs| <= i < |ds| ==> Gone(ctx, ps, ds[i].participant) && Hopeless(ctx, ps, ds[i])
  {
    forall i | |cs| <= i < |ds| ensures Gone(ctx, ps, ds[i].participant) && Hopeless(ctx, ps, ds[i]) {
      assert FreshSlot(ctx, stage, cs, ds[i]);
    }
  }

  /** The declared and dispatched stage. */
  function Passed(ctx: Context, stage: Stage, r: Run): Run {
    DispatchFrom(ctx, stage, Declare(ctx, stage, r).run, 0)
  }

  lemma OverStageEnds(ctx: Context, stages: seq<Stage>, r: Run)
    requires r.x.stageIndex < |stages| && BarrierInv(stages, r.x.stageIndex, r.x.candidates)
    requires Declare(ctx, stages[r.x.stageIndex], r).Proceed? && NothingToServe(ctx, r.participants, r.x.candidates)
    requires StageOver(ctx, r.participants, r.x.candidates, stages[r.x.stageIndex], r.x.declaredCurrentStage)
    ensures var w := Passed(ctx, stages[r.x.stageIndex], r);
            && StageComplete(stages[r.x.stageIndex], w.x.candidates)
            && (forall c :: c in w.x.candidates ==> !InFlight(c.state))
  {
    var stage := stages[r.x.stageIndex];
    var r1 := Declare(ctx, stage, r).run;
    var cs, ds := r.x.candidates, r1.x.candidates;
    DeclarationDeclares(ctx, stage, r);
    if !r.x.declaredCurrentStage {
      FreshIsGone(ctx, r.participants, stage, cs, ds);
    }
    forall i | 0 <= i < |ds| && InFlight(ds[i].state) ensures ds[i].stage == stage.id && Hopeless(ctx, r1.participants, ds[i]) {
      if i < |cs| {
        assert ds[i] == cs[i] && cs[i] in cs;
        assert AtStage(stages, r.x.stageIndex, cs[i]);
      }
    }
    HopelessPass(ctx, stage, r1, 0);
    PassVisits(ctx, stage, r1, 0);
    var w := Passed(ctx, stage, r);
    forall id | id in stage.participants ensures HasSlot(w.x.candidates, id, stage.id) {
      if HasSlot(cs, id, stage.id) {
        SlotStays(cs, ds, id, stage.id);
      }
      VisitsKeepSlots(ctx, r.participants, ds, w.x.candidates, id, stage.id);
    }
  }

  lemma LastingStays(ctx: Context, ps: seq<Participant>, c: Candidate, d: Candidate)
    requires SlotVisited(ctx, ps, c, d) && Lasting(ctx, ps, c)
    ensures InFlight(d.state) && d.participant == c.participant && d.stage == c.stage
  {
  }

  /** A slot that lasts keeps its stage from completing. */
  lemma LastingBlocks(ctx: Context, stage: Stage, r1: Run, i: nat)
    requires i < |r1.x.candidates| && Lasting(ctx, r1.participants, r1.x.candidates[i])
    requires r1.x.candidates[i].stage == stage.id && r1.x.candidates[i].participant in stage.participants
    ensures !StageComplete(stage, DispatchFrom(ctx, stage, r1, 0).x.candidates)
  {
    var w := DispatchFrom(ctx, stage, r1, 0);
    PassVisits(ctx, stage, r1, 0);
    LastingStays(ctx, r1.participants, r1.x.candidates[i], w.x.candidates[i]);
    assert w.x.candidates[i] in w.x.candidates;
  }

  lemma MissingBlocks(ctx: Context, stage: Stage, r1: Run, id: nat)
    requires id in stage.participants && !HasSlot(r1.x.candidates, id, stage.id)
    ensures !StageComplete(stage, DispatchFrom(ctx, stage, r1, 0).x.candidates)
  {
    PassVisits(ctx, stage, r1, 0);
    VisitsKeepSlots(ctx, r1.participants, r1.x.candidates, DispatchFrom(ctx, stage, r1, 0).x.candidates, id, stage.id);
  }

  lemma OpenStageLasts(ctx: Context, stages: seq<Stage>, r: Run)
    requires r.x.stageIndex < |stages| && BarrierInv(stages, r.x.stageIndex, r.x.candidates)
    requires Declare(ctx, stages[r.x.stageIndex], r).Proceed?
    requires !NothingToServe(ctx, r.participants, r.x.candidates)
             || !StageOver(ctx, r.participants, r.x.candidates, stages[r.x.stageIndex], r.x.declaredCurrentStage)
    ensures !StageComplete(stages[r.x.stageIndex], Passed(ctx, stages[r.x.stageIndex], r).x.candidates)
  {
    var stage := stages[r.x.stageIndex];
    var r1 := Declare(ctx, stage, r).run;
    var cs, ds := r.x.candidates, r1.x.candidates;
    DeclarationDeclares(ctx, stage, r);
    if !NothingToServe(ctx, r.participants, cs) {
      var c :| c in cs && InFlight(c.state) && !Hopeless(ctx, r.participants, c);
      var i :| 0 <= i < |cs| && cs[i] == c;
      assert ds[i] == c && AtStage(stages, r.x.stageIndex, cs[i]);
      LastingBlocks(ctx, stage, r1, i);
    } else {
      var id :| id in stage.participants && !HasSlot(cs, id, stage.id) && (r.x.declaredCurrentStage || !Gone(ctx, r.participants, id));
      assert forall k :: 0 <= k < |cs| ==> ds[k] in cs;
      if HasSlot(ds, id, stage.id) {
        var d :| d in ds && d.participant == id && d.stage == stage.id;
        var i :| 0 <= i < |ds| && ds[i] == d;
        assert FreshSlot(ctx, stage, cs, ds[i]);
        LastingBlocks(ctx, stage, r1, i);
      } else {
        MissingBlocks(ctx, stage, r1, id);
      }
    }
  }

  // ---- All stages ------------------------------------------------------------------------------------------------

  ghost predicate SlotEnded(c: Candidate, d: Candidate) {
    || d == c
    || (&& c.state == Declared && d.state == Failed && d.attemptsUsed == c.attemptsUsed && d.fallback == c.fallback
        && d.participant == c.participant && d.stage == c.stage)
  }

  /** A slot that was declared on the way and failed at once: which stage it belongs to. */
  ghost predicate EndedAt(ctx: Context, x: Execution, d: Candidate, j: nat) {
    var plan := Plan(ctx.spec, x);
    && x.stageIndex <= j < |plan| && !DeclaredAt(x, j)
    && d.stage == plan[j].id && d.fallback == plan[j].fallbackStage && d.participant in plan[j].participants
    && !HasSlot(x.candidates, d.participant, plan[j].id)
  }

  ghost predicate NewEnded(ctx: Context, ps: seq<Participant>, x: Execution, d: Candidate) {
    && d.state == Failed && d.attemptsUsed == 0 && Gone(ctx, ps, d.participant)
    && exists j: nat :: EndedAt(ctx, x, d, j)
  }

  /** What became of the slots of `x` once every remaining stage ended without a dispatch. */
  ghost predicate AllEnded(ctx: Context, ps: seq<Participant>, x: Execution, ds: seq<Candidate>) {
    && |x.candidates| <= |ds|
    && (forall i :: 0 <= i < |x.candidates| ==> SlotEnded(x.candidates[i], ds[i]))
    && (forall i :: |x.candidates| <= i < |ds| ==> NewEnded(ctx, ps, x, ds[i]))
  }

  /** A passed stage that was over: its slots ended, and what it declared is gone. */
  lemma OverStageLeaves(ctx: Context, r: Run)
    requires r.x.stageIndex < |Plan(ctx.spec, r.x)| && BarrierInv(Plan(ctx.spec, r.x), r.x.stageIndex, r.x.candidates)
    requires Declare(ctx, Plan(ctx.spec, r.x)[r.x.stageIndex], r).Proceed? && NothingToServe(ctx, r.participants, r.x.candidates)
    requires StageOver(ctx, r.participants, r.x.candidates, Plan(ctx.spec, r.x)[r.x.stageIndex], r.x.declaredCurrentStage)
    ensures var w := Passed(ctx, Plan(ctx.spec, r.x)[r.x.stageIndex], r);
            && AllEnded(ctx, r.participants, r.x, w.x.candidates) && w.participants == r.participants
            && StageComplete(Plan(ctx.spec, r.x)[r.x.stageIndex], w.x.candidates)
            && (forall c :: c in w.x.candidates ==> !InFlight(c.state))
  {
    var stages := Plan(ctx.spec, r.x);
    var stage := stages[r.x.stageIndex];
    var r1, w := Declare(ctx, stage, r).run, Passed(ctx, stage, r);
    var cs, ds, es := r.x.candidates, r1.x.candidates, w.x.candidates;
    OverStageEnds(ctx, stages, r);
    DeclarationDeclares(ctx, stage, r);
    PassVisits(ctx, stage, r1, 0);
    assert forall i :: 0 <= i < |es| ==> es[i] in es;
    forall i | 0 <= i < |cs| ensures SlotEnded(cs[i], es[i]) {
      assert SlotVisited(ctx, r.participants, ds[i], es[i]);
    }
    if !r.x.declaredCurrentStage {
      FreshIsGone(ctx, r.participants, stage, cs, ds);
      forall i | |cs| <= i < |es| ensures NewEnded(ctx, r.participants, r.x, es[i]) {
        assert FreshSlot(ctx, stage, cs, ds[i]) && SlotVisited(ctx, r.participants, ds[i], es[i]);
        assert EndedAt(ctx, r.x, es[i], r.x.stageIndex);
      }
    }
  }

  /** Slots of one participant at one stage, before and after. */
  lemma EndedSlots(ctx: Context, ps: seq<Participant>, x: Execution, ds: seq<Candidate>, id: nat, stage: nat)
    requires AllEnded(ctx, ps, x, ds)
    ensures HasSlot(x.candidates, id, stage) ==> HasSlot(ds, id, stage)
    ensures HasSlot(ds, id, stage) ==> HasSlot(x.candidates, id, stage) || (Gone(ctx, ps, id) && x.stageIndex < |Plan(ctx.spec, x)|)
  {
    if HasSlot(x.candidates, id, stage) {
      var c :| c in x.candidates && c.participant == id && c.stage == stage;
      var i :| 0 <= i < |x.candidates| && x.candidates[i] == c;
      assert SlotEnded(x.candidates[i], ds[i]) && ds[i] in ds;
    }
    if HasSlot(ds, id, stage) {
      var d :| d in ds && d.participant == id && d.stage == stage;
      var i :| 0 <= i < |ds| && ds[i] == d;
      if i < |x.candidates| {
        assert SlotEnded(x.candidates[i], ds[i]) && x.candidates[i] in x.candidates;
      } else {
        assert NewEnded(ctx, ps, x, ds[i]);
      }
    }
  }

  /** Behind a stage that was over, the rest is over exactly when it was before. */
  lemma RestOfStages(ctx: Context, ps: seq<Participant>, x: Execution, y: Execution)
    requires x.stageIndex < |Plan(ctx.spec, x)| && Plan(ctx.spec, y) == Plan(ctx.spec, x)
    requires y.stageIndex == x.stageIndex + 1 && !y.declaredCurrentStage && AllEnded(ctx, ps, x, y.candidates)
    requires forall c :: c in y.candidates ==> !InFlight(c.state)
    requires NothingToServe(ctx, ps, x.candidates)
    requires StageOver(ctx, ps, x.candidates, Plan(ctx.spec, x)[x.stageIndex], x.declaredCurrentStage)
    ensures StagesOver(ctx, ps, y) <==> StagesOver(ctx, ps, x)
  {
    var plan := Plan(ctx.spec, x);
    forall i, id | x.stageIndex < i < |plan| && id in plan[i].participants
      ensures HasSlot(y.candidates, id, plan[i].id) || Gone(ctx, ps, id) <==> HasSlot(x.candidates, id, plan[i].id) || Gone(ctx, ps, id)
    {
      EndedSlots(ctx, ps, x, y.candidates, id, plan[i].id);
    }
    forall i | x.stageIndex < i < |plan|
      ensures StageOver(ctx, ps, y.candidates, plan[i], DeclaredAt(y, i)) <==> StageOver(ctx, ps, x.candidates, plan[i], DeclaredAt(x, i))
    {
    }
  }

  lemma EndedTwice(ctx: Context, ps: seq<Participant>, x: Execution, y: Execution, ds: seq<Candidate>)
    requires AllEnded(ctx, ps, x, y.candidates) && AllEnded(ctx, ps, y, ds)
    requires Plan(ctx.spec, y) == Plan(ctx.spec, x) && x.stageIndex < y.stageIndex
    ensures AllEnded(ctx, ps, x, ds)
  {
    forall i | 0 <= i < |x.candidates| ensures SlotEnded(x.candidates[i], ds[i]) {
      assert SlotEnded(x.candidates[i], y.candidates[i]) && SlotEnded(y.candidates[i], ds[i]);
    }
    forall i | |x.candidates| <= i < |ds| ensures NewEnded(ctx, ps, x, ds[i]) {
      if i < |y.candidates| {
        assert NewEnded(ctx, ps, x, y.candidates[i]) && SlotEnded(y.candidates[i], ds[i]);
      } else {
        NewEndedEarlier(ctx, ps, x, y, ds[i]);
      }
    }
  }

  lemma NewEndedEarlier(ctx: Context, ps: seq<Participant>, x: Execution, y: Execution, d: Candidate)
    requires AllEnded(ctx, ps, x, y.candidates) && NewEnded(ctx, ps, y, d)
    requires Plan(ctx.spec, y) == Plan(ctx.spec, x) && x.stageIndex < y.stageIndex
    ensures NewEnded(ctx, ps, x, d)
  {
    var j: nat :| EndedAt(ctx, y, d, j);
    EndedSlots(ctx, ps, x, y.candidates, d.participant, Plan(ctx.spec, x)[j].id);
    assert EndedAt(ctx, x, d, j);
  }

  /** Everybody listed by a remaining stage has a slot there. */
  ghost predicate AllSlots(ctx: Context, x: Execution, ds: seq<Candidate>) {
    forall i, id :: x.stageIndex <= i < |Plan(ctx.spec, x)| && id in Plan(ctx.spec, x)[i].participants ==>
      HasSlot(ds, id, Plan(ctx.spec, x)[i].id)
  }

  /** Where the stage loop ends up, told from where it starts. */
  ghost predicate StagesEnd(ctx: Context, r: Run, w: Run) {
    && (w.x.stageIndex >= |Plan(ctx.spec, r.x)| <==> StagesOver(ctx, r.participants, r.x))
    && (StagesOver(ctx, r.participants, r.x) ==>
          && AllEnded(ctx, r.participants, r.x, w.x.candidates) && AllSlots(ctx, r.x, w.x.candidates)
          && w.x.declaredCurrentStage == DeclaredAt(r.x, |Plan(ctx.spec, r.x)|)
          && (forall c :: c in w.x.candidates ==> !InFlight(c.state)))
  }

  lemma ConsumedPlan(ctx: Context, r: Run)
    requires r.x.stageIndex >= |Plan(ctx.spec, r.x)| && BarrierInv(Plan(ctx.spec, r.x), r.x.stageIndex, r.x.candidates)
    ensures StagesEnd(ctx, r, r)
  {
    forall c | c in r.x.candidates ensures !InFlight(c.state) {
      var i :| 0 <= i < |r.x.candidates| && r.x.candidates[i] == c;
    }
  }

  lemma PassedKeeps(ctx: Context, past: seq<Action>, acc: seq<Acceptance>, r: Run)
    requires RunInv(ctx, past, acc, r) && r.x.stageIndex < |Plan(ctx.spec, r.x)|
    requires Declare(ctx, Plan(ctx.spec, r.x)[r.x.stageIndex], r).Proceed?
    ensures Keeps(ctx, past, acc, r, Passed(ctx, Plan(ctx.spec, r.x)[r.x.stageIndex], r))
    ensures Passed(ctx, Plan(ctx.spec, r.x)[r.x.stageIndex], r).x.stageIndex == r.x.stageIndex
  {
    var stage := Plan(ctx.spec, r.x)[r.x.stageIndex];
    var r1 := Declare(ctx, stage, r).run;
    var r2 := DispatchFrom(ctx, stage, r1, 0);
    DeclareStageKeeps(ctx, past, acc, stage, r);
    DispatchLoopKeeps(ctx, past, acc, stage, r1, 0, r2);
    KeepsTransitive(ctx, past, acc, r, r1, r2);
  }

  lemma StageLoopUnrolls(ctx: Context, stages: seq<Stage>, r: Run)
    requires r.x.stageIndex < |stages| && StageLoop(ctx, stages, r).Proceed?
    ensures Declare(ctx, stages[r.x.stageIndex], r).Proceed?
    ensures var w := Passed(ctx, stages[r.x.stageIndex], r);
            StageLoop(ctx, stages, r)
            == if StageComplete(stages[r.x.stageIndex], w.x.candidates) then StageLoop(ctx, stages, NextStage(w)) else Proceed(w)
  {
  }

  lemma NextIsAhead(ctx: Context, past: seq<Action>, acc: seq<Acceptance>, r: Run, w: Run)
    requires RunInv(ctx, past, acc, r) && Keeps(ctx, past, acc, r, w) && w.x.stageIndex == r.x.stageIndex < |Plan(ctx.spec, r.x)|
    requires StageComplete(Plan(ctx.spec, r.x)[r.x.stageIndex], w.x.candidates)
    ensures RunInv(ctx, past, acc, NextStage(w)) && Plan(ctx.spec, NextStage(w).x) == Plan(ctx.spec, r.x)
  {
    NextStageKeeps(ctx, past, acc, Plan(ctx.spec, r.x)[r.x.stageIndex], w);
  }

  lemma {:induction false} StageLoopEnds(ctx: Context, past: seq<Action>, acc: seq<Acceptance>, r: Run)
    requires RunInv(ctx, past, acc, r) && StageLoop(ctx, Plan(ctx.spec, r.x), r).Proceed?
    ensures StagesEnd(ctx, r, StageLoop(ctx, Plan(ctx.spec, r.x), r).run)
    decreases |Plan(ctx.spec, r.x)| - r.x.stageIndex
  {
    var plan := Plan(ctx.spec, r.x);
    if r.x.stageIndex >= |plan| {
      ConsumedPlan(ctx, r);
    } else {
      var stage := plan[r.x.stageIndex];
      var w := Passed(ctx, stage, r);
      StageLoopUnrolls(ctx, plan, r);
      PassedKeeps(ctx, past, acc, r);
      if NothingToServe(ctx, r.participants, r.x.candidates)
        && StageOver(ctx, r.participants, r.x.candidates, stage, r.x.declaredCurrentStage) {
        OverStageLeaves(ctx, r);
        NextIsAhead(ctx, past, acc, r, w);
        StageLoopEnds(ctx, past, acc, NextStage(w));
        EndsBehind(ctx, r, w, StageLoop(ctx, plan, NextStage(w)).run);
      } else {
        OpenStageLasts(ctx, plan, r);
        OpenStageIsNotOver(ctx, r);
      }
    }
  }

  lemma OpenStageIsNotOver(ctx: Context, r: Run)
    requires r.x.stageIndex < |Plan(ctx.spec, r.x)|
    requires !NothingToServe(ctx, r.participants, r.x.candidates)
             || !StageOver(ctx, r.participants, r.x.candidates, Plan(ctx.spec, r.x)[r.x.stageIndex], r.x.declaredCurrentStage)
    ensures !StagesOver(ctx, r.participants, r.x)
  {
    assert DeclaredAt(r.x, r.x.stageIndex) == r.x.declaredCurrentStage;
  }

  lemma EndsBehind(ctx: Context, r: Run, w: Run, u: Run)
    requires r.x.stageIndex < |Plan(ctx.spec, r.x)| && Plan(ctx.spec, NextStage(w).x) == Plan(ctx.spec, r.x)
    requires w.participants == r.participants && w.x.stageIndex == r.x.stageIndex
    requires AllEnded(ctx, r.participants, r.x, w.x.candidates) && forall c :: c in w.x.candidates ==> !InFlight(c.state)
    requires NothingToServe(ctx, r.participants, r.x.candidates)
    requires StageOver(ctx, r.participants, r.x.candidates, Plan(ctx.spec, r.x)[r.x.stageIndex], r.x.declaredCurrentStage)
    requires StageComplete(Plan(ctx.spec, r.x)[r.x.stageIndex], w.x.candidates)
    requires StagesEnd(ctx, NextStage(w), u)
    ensures StagesEnd(ctx, r, u)
  {
    var plan := Plan(ctx.spec, r.x);
    RestOfStages(ctx, r.participants, r.x, NextStage(w).x);
    if StagesOver(ctx, r.participants, r.x) {
      EndedTwice(ctx, r.participants, r.x, NextStage(w).x, u.x.candidates);
      forall i, id | r.x.stageIndex <= i < |plan| && id in plan[i].participants ensures HasSlot(u.x.candidates, id, plan[i].id) {
        if i == r.x.stageIndex {
          EndedSlots(ctx, r.participants, NextStage(w).x, u.x.candidates, id, plan[i].id);
        }
      }
    }
  }

  // ---- What the fallback sees behind the last stage ---------------------------------------------------------------

  predicate HasContent(x: Execution) {
    exists c :: c in x.candidates && IsContent(c.state)
  }

  /** Filtering by a property that neither declared nor failed slots have sees no difference. */
  lemma {:induction false} EndedFilter(cs: seq<Candidate>, ds: seq<Candidate>, f: Candidate -> bool)
    requires |cs| <= |ds| && forall i :: 0 <= i < |cs| ==> ds[i] == cs[i] || (!f(cs[i]) && !f(ds[i]))
    requires forall i :: |cs| <= i < |ds| ==> !f(ds[i])
    ensures Filter(ds, f) == Filter(cs, f)
  {
    if ds != [] {
      if cs == [] {
        EndedFilter([], ds[1..], f);
      } else {
        EndedFilter(cs[1..], ds[1..], f);
      }
    }
  }

  lemma EndedContent(ctx: Context, ps: seq<Participant>, x: Execution, ds: seq<Candidate>)
    requires AllEnded(ctx, ps, x, ds)
    ensures Filter(ds, (c: Candidate) => IsContent(c.state)) == Filter(x.candidates, (c: Candidate) => IsContent(c.state))
  {
    forall i | 0 <= i < |x.candidates|
      ensures ds[i] == x.candidates[i] || (!IsContent(x.candidates[i].state) && !IsContent(ds[i].state))
    {
      assert SlotEnded(x.candidates[i], ds[i]);
    }
    forall i | |x.candidates| <= i < |ds| ensures !IsContent(ds[i].state) {
      assert NewEnded(ctx, ps, x, ds[i]);
    }
    EndedFilter(x.candidates, ds, (c: Candidate) => IsContent(c.state));
  }

  lemma ContentIsFiltered(x: Execution)
    ensures HasContent(x) <==> Filter(x.candidates, (c: Candidate) => IsContent(c.state)) != []
  {
    var kept := Filter(x.candidates, (c: Candidate) => IsContent(c.state));
    if HasContent(x) {
      var c :| c in x.candidates && IsContent(c.state);
      assert c in kept;
    }
    if kept != [] {
      assert kept[0] in kept;
    }
  }

  function PlainTallies(cs: seq<Candidate>): seq<Consensus.Tally> {
    seq(|cs|, i requires 0 <= i < |cs| => EmptyTally(cs[i]))
  }

  /** Without votes the eligible tallies are those of the content, whatever else was declared. */
  lemma {:induction false} EligibleArePlain(cs: seq<Candidate>)
    ensures Consensus.EligibleTallies(PlainTallies(cs)) == PlainTallies(Filter(cs, (c: Candidate) => IsContent(c.state)))
  {
    if cs != [] {
      EligibleArePlain(cs[1..]);
      assert PlainTallies(cs)[1..] == PlainTallies(cs[1..]);
    }
  }

  lemma {:induction false} ContentIsCounted(cs: seq<Candidate>)
    ensures ValidCandidates(cs) == |Filter(cs, (c: Candidate) => IsContent(c.state))|
  {
    Quorum.FilterCounts(cs, (c: Candidate) => IsContent(c.state));
  }

  /** `y` is `x` once its stages ended: same standing, no evidence, the same content. */
  ghost predicate SameEvidenceBase(x: Execution, y: Execution) {
    && y.status == x.status && y.epoch == x.epoch && y.fallbackDepth == x.fallbackDepth
    && x.evaluations == [] && y.evaluations == []
    && Filter(y.candidates, (c: Candidate) => IsContent(c.state)) == Filter(x.candidates, (c: Candidate) => IsContent(c.state))
  }

  lemma SameQuorum(spec: RuntimeSpec, ps: seq<Participant>, x: Execution, y: Execution)
    requires SameEvidenceBase(x, y)
    ensures BareQuorum(spec, ps, y) == BareQuorum(spec, ps, x)
  {
    ContentIsCounted(x.candidates);
    ContentIsCounted(y.candidates);
  }

  lemma SameVotedState(spec: RuntimeSpec, ps: seq<Participant>, x: Execution, y: Execution)
    requires SameEvidenceBase(x, y) && HasContent(x)
    ensures VotedState(spec, false, ps, y) == VotedState(spec, false, ps, x)
  {
    SameQuorum(spec, ps, x, y);
    assert Tallies(x) == PlainTallies(x.candidates) && Tallies(y) == PlainTallies(y.candidates);
    EligibleArePlain(x.candidates);
    EligibleArePlain(y.candidates);
    ContentIsFiltered(x);
    var a, b := BareInputs(spec, false, ps, x, false), BareInputs(spec, false, ps, y, false);
    assert a.tallies == Tallies(x) && b.tallies == Tallies(y);
    Consensus.StateDependsOnAgreement(a);
    Consensus.StateDependsOnAgreement(b);
    SameVerdict(a, b);
  }

  lemma SameVerdict(a: Consensus.ConsensusInputs, b: Consensus.ConsensusInputs)
    requires b == a.(tallies := b.tallies, candidatesDeclared := b.candidatesDeclared, invalidCandidates := b.invalidCandidates)
    ensures forall n, top, sharing :: n > 0 ==>
              Consensus.StateByAgreement(b, n, top, sharing) == Consensus.StateByAgreement(a, n, top, sharing)
  {
  }

  /** The states a fallback trigger reads off recomputed reports while a fallback is still available. */
  lemma RecomputedStates(spec: RuntimeSpec, ps: seq<Participant>, x: Execution)
    requires x.fallbackDepth < spec.fallback.maxDepth
    ensures ReportsOf(spec, false, ps, x).quorum.state == BareQuorum(spec, ps, x).state
    ensures ReportsOf(spec, false, ps, x).consensus.state == VotedState(spec, false, ps, x)
  {
    ReportsShape(spec, false, ps, x);
    DemandSplits(spec, ps, x, x.reports.consensus.state);
  }

  lemma SameStates(spec: RuntimeSpec, ps: seq<Participant>, x: Execution, y: Execution)
    requires SameEvidenceBase(x, y) && HasContent(x) && x.fallbackDepth < spec.fallback.maxDepth
    ensures ReportsOf(spec, false, ps, y).quorum.state == ReportsOf(spec, false, ps, x).quorum.state
    ensures ReportsOf(spec, false, ps, y).consensus.state == ReportsOf(spec, false, ps, x).consensus.state
  {
    RecomputedStates(spec, ps, x);
    RecomputedStates(spec, ps, y);
    SameQuorum(spec, ps, x, y);
    SameVotedState(spec, ps, x, y);
  }

  // ---- Whether the fallback is due -----------------------------------------------------------------------------------

  /** A slot outside the fallback that is still to be declared. */
  predicate SlotToCome(ctx: Context, x: Execution) {
    exists j, id :: x.stageIndex <= j < |Plan(ctx.spec, x)| && id in Plan(ctx.spec, x)[j].participants
      && !DeclaredAt(x, j) && !Plan(ctx.spec, x)[j].fallbackStage && !HasSlot(x.candidates, id, Plan(ctx.spec, x)[j].id)
  }

  predicate PrimaryWithoutContent(ctx: Context, x: Execution) {
    && (forall c :: c in x.candidates && !c.fallback ==> !IsContent(c.state))
    && ((exists c :: c in x.candidates && !c.fallback) || SlotToCome(ctx, x))
  }

  /** The trigger fires once the stages are over: told from the reports as they would be recomputed now. */
  predicate Due(ctx: Context, ps: seq<Participant>, x: Execution, t: Trigger) {
    if t == TriggerAllPrimaryInvalid then PrimaryWithoutContent(ctx, x)
    else TriggerFires(t, ctx.spec, ps, WithReports(x, ctx.kernel(ctx.spec, false, ps, x)))
  }

  predicate FallbackDue(ctx: Context, ps: seq<Participant>, x: Execution) {
    && ctx.spec.fallback.enabled && !x.fallbackActivated && x.fallbackDepth < ctx.spec.fallback.maxDepth
    && exists t :: t in ctx.spec.fallback.triggers && Due(ctx, ps, x, t)
  }

  /** Everybody the fallback would call on has a slot in its stage already or is gone. */
  predicate FallbackOver(ctx: Context, ps: seq<Participant>, x: Execution) {
    StageOver(ctx, ps, x.candidates, FallbackStage(ctx.spec, x.fallbackDepth), DeclaredAt(x, |Plan(ctx.spec, x)|))
  }

  ghost predicate DistinctStages(plan: seq<Stage>) {
    forall i, j :: 0 <= i < j < |plan| ==> plan[i].id != plan[j].id
  }

  /** `ds` is what the slots of `x` became once all stages were over. */
  ghost predicate Behind(ctx: Context, ps: seq<Participant>, x: Execution, y: Execution) {
    && AllEnded(ctx, ps, x, y.candidates) && AllSlots(ctx, x, y.candidates)
    && y.status == x.status && y.epoch == x.epoch && y.fallbackDepth == x.fallbackDepth
    && x.evaluations == [] && y.evaluations == []
  }

  predicate AnyExhausted(cs: seq<Candidate>, max: nat) {
    exists c :: c in cs && c.state == Failed && c.attemptsUsed >= max
  }

  lemma ExhaustedBehind(ctx: Context, ps: seq<Participant>, x: Execution, ds: seq<Candidate>, max: nat)
    requires AllEnded(ctx, ps, x, ds) && max >= 1
    requires forall i :: 0 <= i < |x.candidates| && x.candidates[i].state == Declared ==> x.candidates[i].attemptsUsed < max
    ensures AnyExhausted(ds, max) <==> AnyExhausted(x.candidates, max)
  {
    var cs := x.candidates;
    if AnyExhausted(cs, max) {
      var c :| c in cs && c.state == Failed && c.attemptsUsed >= max;
      var i :| 0 <= i < |cs| && cs[i] == c;
      assert SlotEnded(cs[i], ds[i]) && ds[i] in ds;
    }
    forall i | |cs| <= i < |ds| ensures ds[i].attemptsUsed == 0 {
      assert NewEnded(ctx, ps, x, ds[i]);
    }
    if AnyExhausted(ds, max) {
      var d :| d in ds && d.state == Failed && d.attemptsUsed >= max;
      var i :| 0 <= i < |ds| && ds[i] == d;
      assert SlotEnded(cs[i], ds[i]) && cs[i] in cs;
    }
  }

  lemma PrimaryContentBehind(ctx: Context, ps: seq<Participant>, x: Execution, y: Execution)
    requires Behind(ctx, ps, x, y)
    ensures (forall c :: c in y.candidates && !c.fallback ==> !IsContent(c.state))
            <==> (forall c :: c in x.candidates && !c.fallback ==> !IsContent(c.state))
  {
    var f := (c: Candidate) => IsContent(c.state);
    EndedContent(ctx, ps, x, y.candidates);
    assert forall c :: c in y.candidates && IsContent(c.state) <==> c in Filter(y.candidates, f);
    assert forall c :: c in x.candidates && IsContent(c.state) <==> c in Filter(x.candidates, f);
  }

  lemma PrimaryBehind(ctx: Context, ps: seq<Participant>, x: Execution, y: Execution)
    requires Behind(ctx, ps, x, y) && DistinctStages(Plan(ctx.spec, x))
    ensures (exists c :: c in y.candidates && !c.fallback) <==> (exists c :: c in x.candidates && !c.fallback) || SlotToCome(ctx, x)
  {
    var cs, ds := x.candidates, y.candidates;
    if exists c :: c in cs && !c.fallback {
      var c :| c in cs && !c.fallback;
      var i :| 0 <= i < |cs| && cs[i] == c;
      assert SlotEnded(cs[i], ds[i]) && ds[i] in ds;
    } else if SlotToCome(ctx, x) {
      ComingSlotIsPrimary(ctx, ps, x, y);
    }
    if exists d :: d in ds && !d.fallback {
      var d :| d in ds && !d.fallback;
      var i :| 0 <= i < |ds| && ds[i] == d;
      if i < |cs| {
        assert SlotEnded(cs[i], ds[i]) && cs[i] in cs;
      } else {
        assert NewEnded(ctx, ps, x, ds[i]);
        var j: nat :| EndedAt(ctx, x, ds[i], j);
      }
    }
  }

  lemma NewSlotBelongs(ctx: Context, ps: seq<Participant>, x: Execution, d: Candidate, j: nat)
    requires NewEnded(ctx, ps, x, d) && DistinctStages(Plan(ctx.spec, x)) && j < |Plan(ctx.spec, x)|
    requires d.stage == Plan(ctx.spec, x)[j].id
    ensures d.fallback == Plan(ctx.spec, x)[j].fallbackStage
  {
    var k: nat :| EndedAt(ctx, x, d, k);
    var plan := Plan(ctx.spec, x);
    assert plan[k].id == plan[j].id;
    assert k == j;
  }

  lemma ComingSlotIsPrimary(ctx: Context, ps: seq<Participant>, x: Execution, y: Execution)
    requires AllEnded(ctx, ps, x, y.candidates) && AllSlots(ctx, x, y.candidates)
    requires DistinctStages(Plan(ctx.spec, x)) && SlotToCome(ctx, x)
    ensures exists c :: c in y.candidates && !c.fallback
  {
    var plan, cs, ds := Plan(ctx.spec, x), x.candidates, y.candidates;
    var j, id :| x.stageIndex <= j < |plan| && id in plan[j].participants && !DeclaredAt(x, j) && !plan[j].fallbackStage
                 && !HasSlot(cs, id, plan[j].id);
    assert HasSlot(ds, id, plan[j].id);
    var d :| d in ds && d.participant == id && d.stage == plan[j].id;
    var i :| 0 <= i < |ds| && ds[i] == d;
    EndedSlotIsOld(x, ds, i);
    assert NewEnded(ctx, ps, x, ds[i]);
    NewSlotBelongs(ctx, ps, x, d, j);
  }

  /** A slot at the place of an earlier one has its participant and stage. */
  lemma EndedSlotIsOld(x: Execution, ds: seq<Candidate>, i: nat)
    requires |x.candidates| <= |ds| && i < |ds| && forall k :: 0 <= k < |x.candidates| ==> SlotEnded(x.candidates[k], ds[k])
    ensures i < |x.candidates| ==> HasSlot(x.candidates, ds[i].participant, ds[i].stage)
  {
    if i < |x.candidates| {
      assert SlotEnded(x.candidates[i], ds[i]) && x.candidates[i] in x.candidates;
    }
  }

  /** Every other trigger reads the participants and the states of the reports, and no slot. */
  lemma TriggerReadsStates(t: Trigger, spec: RuntimeSpec, ps: seq<Participant>, x: Execution, y: Execution)
    requires t != TriggerRetryExhausted && t != TriggerAllPrimaryInvalid
    requires y.reports.quorum.state == x.reports.quorum.state && y.reports.consensus.state == x.reports.consensus.state
    ensures TriggerFires(t, spec, ps, y) == TriggerFires(t, spec, ps, x)
  {
  }

  lemma SlotTriggers(spec: RuntimeSpec, ps: seq<Participant>, x: Execution)
    ensures TriggerFires(TriggerRetryExhausted, spec, ps, x) <==> AnyExhausted(x.candidates, spec.retry.maxAttempts)
    ensures TriggerFires(TriggerAllPrimaryInvalid, spec, ps, x) <==>
              (exists c :: c in x.candidates && !c.fallback) && (forall c :: c in x.candidates && !c.fallback ==> !IsContent(c.state))
  {
  }

  lemma DueBehind(ctx: Context, ps: seq<Participant>, x: Execution, y: Execution, a: ReportSet, b: ReportSet, t: Trigger)
    requires Behind(ctx, ps, x, y) && DistinctStages(Plan(ctx.spec, x)) && ctx.spec.retry.maxAttempts >= 1
    requires a == ctx.kernel(ctx.spec, false, ps, x) && b.quorum.state == a.quorum.state && b.consensus.state == a.consensus.state
    requires forall i :: 0 <= i < |x.candidates| && x.candidates[i].state == Declared ==> x.candidates[i].attemptsUsed < ctx.spec.retry.maxAttempts
    ensures TriggerFires(t, ctx.spec, ps, WithReports(y, b)) <==> Due(ctx, ps, x, t)
  {
    SlotTriggers(ctx.spec, ps, WithReports(x, a));
    SlotTriggers(ctx.spec, ps, WithReports(y, b));
    if t == TriggerRetryExhausted {
      ExhaustedBehind(ctx, ps, x, y.candidates, ctx.spec.retry.maxAttempts);
    } else if t == TriggerAllPrimaryInvalid {
      PrimaryContentBehind(ctx, ps, x, y);
      PrimaryBehind(ctx, ps, x, y);
    } else {
      TriggerReadsStates(t, ctx.spec, ps, WithReports(x, a), WithReports(y, b));
    }
  }

  lemma StatesBehind(ctx: Context, ps: seq<Participant>, x: Execution, y: Execution)
    requires Faithful(ctx.kernel) && Behind(ctx, ps, x, y) && HasContent(x) && x.fallbackDepth < ctx.spec.fallback.maxDepth
    ensures var a, b := ctx.kernel(ctx.spec, false, ps, x), ctx.kernel(ctx.spec, false, ps, y);
            b.quorum.state == a.quorum.state && b.consensus.state == a.consensus.state
  {
    EndedContent(ctx, ps, x, y.candidates);
    SameStates(ctx.spec, ps, x, y);
  }

  lemma ActivationReadsTriggers(ctx: Context, ps: seq<Participant>, y: Execution)
    requires y.pending == [] && forall c :: c in y.candidates ==> !InFlight(c.state)
    ensures ActivationTrigger(ctx, ps, y).Some? <==>
              && ctx.spec.fallback.enabled && !y.fallbackActivated && y.fallbackDepth < ctx.spec.fallback.maxDepth
              && exists t :: t in ctx.spec.fallback.triggers && TriggerFires(t, ctx.spec, ps, y)
  {
  }

  /** Behind the last stage the fallback is activated exactly when it was due before, if the reports tell the same. */
  lemma ActivationBehind(ctx: Context, ps: seq<Participant>, x: Execution, y: Execution, a: ReportSet, b: ReportSet)
    requires Behind(ctx, ps, x, y) && DistinctStages(Plan(ctx.spec, x))
    requires ctx.spec.retry.maxAttempts >= 1 && y.fallbackActivated == x.fallbackActivated
    requires forall i :: 0 <= i < |x.candidates| && x.candidates[i].state == Declared ==> x.candidates[i].attemptsUsed < ctx.spec.retry.maxAttempts
    requires y.pending == [] && forall c :: c in y.candidates ==> !InFlight(c.state)
    requires a == ctx.kernel(ctx.spec, false, ps, x)
    requires x.fallbackDepth < ctx.spec.fallback.maxDepth ==> b.quorum.state == a.quorum.state && b.consensus.state == a.consensus.state
    ensures ActivationTrigger(ctx, ps, WithReports(y, b)).Some? <==> FallbackDue(ctx, ps, x)
  {
    ActivationReadsTriggers(ctx, ps, WithReports(y, b));
    if x.fallbackDepth < ctx.spec.fallback.maxDepth {
      forall t ensures TriggerFires(t, ctx.spec, ps, WithReports(y, b)) <==> Due(ctx, ps, x, t) {
        DueBehind(ctx, ps, x, y, a, b, t);
      }
    }
  }

  lemma FallbackDueBehind(ctx: Context, ps: seq<Participant>, x: Execution, y: Execution)
    requires Faithful(ctx.kernel) && Behind(ctx, ps, x, y) && HasContent(x) && DistinctStages(Plan(ctx.spec, x))
    requires ctx.spec.retry.maxAttempts >= 1 && y.fallbackActivated == x.fallbackActivated
    requires forall i :: 0 <= i < |x.candidates| && x.candidates[i].state == Declared ==> x.candidates[i].attemptsUsed < ctx.spec.retry.maxAttempts
    requires y.pending == [] && forall c :: c in y.candidates ==> !InFlight(c.state)
    ensures ActivationTrigger(ctx, ps, WithReports(y, ctx.kernel(ctx.spec, false, ps, y))).Some? <==> FallbackDue(ctx, ps, x)
  {
    if x.fallbackDepth < ctx.spec.fallback.maxDepth {
      StatesBehind(ctx, ps, x, y);
    }
    ActivationBehind(ctx, ps, x, y, ctx.kernel(ctx.spec, false, ps, x), ctx.kernel(ctx.spec, false, ps, y));
  }

  // ---- Behind the stages --------------------------------------------------------------------------------------------

  /** No evaluator has anything to evaluate, so nothing was ever planned or answered. */
  lemma BarrenIsUnasked(spec: RuntimeSpec, next: nat, x: Execution)
    requires Asked(spec, next, x) && Barren(spec) && Evaluators(spec) != []
    ensures x.pending == [] && x.evaluations == []
  {
    var d := Evaluators(spec)[0];
    assert d in Evaluators(spec) && d.roles.Evaluates() && !Productive(spec, d);
    if x.pending != [] {
      assert x.pending[0] in x.pending;
      OutOfScope(spec, x.pending[0].kind, x.pending[0].criterion);
    }
    if x.evaluations != [] {
      assert x.evaluations[0] in x.evaluations;
      OutOfScope(spec, x.evaluations[0].kind, x.evaluations[0].criterion);
    }
  }

  lemma OutOfScope(spec: RuntimeSpec, kind: CriterionKind, criterion: Criterion)
    requires Barren(spec) && Evaluators(spec) != []
    ensures !InScope(spec, kind, criterion)
  {
    var d := Evaluators(spec)[0];
    assert d in Evaluators(spec) && d.roles.Evaluates() && !Productive(spec, d);
    assert spec.evidence.mandatoryCriteria == [];
  }

  lemma UnaskedNeedsPlan(spec: RuntimeSpec, x: Execution)
    requires x.pending == [] && x.evaluations == []
    ensures NeedsPlan(spec, x) <==> Evaluators(spec) != [] && HasContent(x)
  {
    assert forall id :: !Named(x, id);
  }

  /** Content that the loop can neither plan nor leave alone. */
  predicate Stuck(ctx: Context, ps: seq<Participant>, x: Execution) {
    HasContent(x) && StagesOver(ctx, ps, x)
  }

  /** Nobody can evaluate the content, and no fallback brings the loop to a stop. */
  predicate Endless(ctx: Context, ps: seq<Participant>, x: Execution) {
    && Barren(ctx.spec) && Evaluators(ctx.spec) != []
    && Stuck(ctx, ps, x)
    && (FallbackDue(ctx, ps, x) ==> FallbackOver(ctx, ps, x))
  }

  /** The facts about a run that the theorem below starts from and hands on. */
  ghost predicate BarrenRun(ctx: Context, past: seq<Action>, acc: seq<Acceptance>, r: Run) {
    && Faithful(ctx.kernel) && WellFormed(ctx.spec) && Barren(ctx.spec) && Evaluators(ctx.spec) != []
    && RunInv(ctx, past, acc, r) && RunAsked(ctx.spec, r) && r.progress
  }

  lemma BarrenRoundKeeps(ctx: Context, past: seq<Action>, acc: seq<Acceptance>, r: Run)
    requires BarrenRun(ctx, past, acc, r)
    ensures RunInv(ctx, past, acc, Round(ctx, r).run) && RunAsked(ctx.spec, Round(ctx, r).run)
  {
    RoundKeepsInvariant(ctx, past, acc, r);
    RoundStaysAsked(ctx, r);
  }

  lemma StopHoldsQuietly(ctx: Context, round: Run -> Phase, q: Run, rounds: nat, w: Phase)
    requires RoundsStayQuiet(ctx, round) && StageQuiet(ctx, q) && w == Loop(round, q, rounds)
    ensures !Repeating(ctx, w.run)
  {
    QuietLoop(ctx, round, q, rounds);
    assert Plan(ctx.spec, w.run.x) == Plan(ctx.spec, q.x);
  }

  lemma StopHoldsAfterOne(ctx: Context, round: Run -> Phase, r: Run, r1: Run, rounds: nat, w: Phase)
    requires RoundsStayQuiet(ctx, round) && r.progress && rounds >= 1 && w == Loop(round, r, rounds)
    requires round(r) == Proceed(r1) && StageQuiet(ctx, r1)
    ensures !Repeating(ctx, w.run)
  {
    StopHoldsQuietly(ctx, round, r1, rounds - 1, w);
  }

  lemma StopHoldsAfterTwo(ctx: Context, round: Run -> Phase, r: Run, r1: Run, r2: Run, rounds: nat, w: Phase)
    requires RoundsStayQuiet(ctx, round) && r.progress && rounds >= 2 && w == Loop(round, r, rounds)
    requires round(r) == Proceed(r1) && r1.progress && round(r1) == Proceed(r2) && StageQuiet(ctx, r2)
    ensures !Repeating(ctx, w.run)
  {
    StopHoldsAfterOne(ctx, round, r1, r2, rounds - 1, w);
  }

  /** Where the first round stops at a stage that does not end. */
  lemma OpenStageStops(ctx: Context, past: seq<Action>, acc: seq<Acceptance>, r: Run)
    requires RunInv(ctx, past, acc, r) && Round(ctx, r).Proceed? && !StagesOver(ctx, r.participants, r.x)
    ensures var r1 := Round(ctx, r).run;
            StageQuiet(ctx, r1) || (r1.progress && exists m :: SequencePending(ctx, r1, m))
  {
    var plan, r0 := Plan(ctx.spec, r.x), r.(progress := false);
    var v := StageLoop(ctx, plan, r0);
    ProgressFlagKeeps(ctx, past, acc, r, false);
    StageLoopEnds(ctx, past, acc, r0);
    StageLoopStops(ctx, plan, r0);
    var r1 := v.run;
    assert Round(ctx, r) == v && Plan(ctx.spec, r1.x) == plan;
    var stage := plan[r1.x.stageIndex];
    if !QuietFrom(ctx, stage, r1.participants, r1.x.candidates, 0) {
      var m :| DispatchedBehindIdle(ctx, stage, r1, m);
      assert SequencePending(ctx, r1, m);
    }
  }

  lemma RunIsOrdered(ctx: Context, past: seq<Action>, acc: seq<Acceptance>, r: Run)
    requires RunInv(ctx, past, acc, r)
    ensures IncreasingIds(r.x.candidates) && BarrierInv(Plan(ctx.spec, r.x), r.x.stageIndex, r.x.candidates)
  {
  }

  /** The first two rounds, when a stage does not end. */
  lemma OpenStageRounds(ctx: Context, past: seq<Action>, acc: seq<Acceptance>, r: Run)
    requires RunInv(ctx, past, acc, r) && Round(ctx, r).Proceed? && !StagesOver(ctx, r.participants, r.x)
    ensures var r1 := Round(ctx, r).run;
            || StageQuiet(ctx, r1)
            || (r1.progress && Round(ctx, r1).Proceed? && StageQuiet(ctx, Round(ctx, r1).run))
  {
    var r1 := Round(ctx, r).run;
    OpenStageStops(ctx, past, acc, r);
    if !StageQuiet(ctx, r1) {
      var m :| SequencePending(ctx, r1, m);
      RoundKeepsInvariant(ctx, past, acc, r);
      RunIsOrdered(ctx, past, acc, r1);
      SequencedRoundSettles(ctx, r1, m);
    }
  }

  /** A stage that does not end holds the loop: it stops there, and without the guard. */
  lemma OpenStageHolds(ctx: Context, past: seq<Action>, acc: seq<Acceptance>, r: Run, rounds: nat, w: Phase)
    requires Faithful(ctx.kernel) && RunInv(ctx, past, acc, r) && r.progress && rounds >= 2
    requires Round(ctx, r).Proceed? && !StagesOver(ctx, r.participants, r.x) && w == Loop(RoundOf(ctx), r, rounds)
    ensures !Repeating(ctx, w.run)
  {
    var r1 := Round(ctx, r).run;
    OpenStageRounds(ctx, past, acc, r);
    QuietRounds(ctx);
    assert RoundOf(ctx)(r) == Proceed(r1);
    if StageQuiet(ctx, r1) {
      StopHoldsAfterOne(ctx, RoundOf(ctx), r, r1, rounds, w);
    } else {
      var r2 := Round(ctx, r1).run;
      assert RoundOf(ctx)(r1) == Proceed(r2);
      StopHoldsAfterTwo(ctx, RoundOf(ctx), r, r1, r2, rounds, w);
    }
  }

  // ---- Behind the last stage ------------------------------------------------------------------------------------------

  /** The state in which the first round reaches the fallback decision. */
  ghost predicate ReadyToFallBack(ctx: Context, r: Run, r2: Run) {
    && Behind(ctx, r.participants, r.x, r2.x) && r2.participants == r.participants
    && r2.x.stageIndex == |Plan(ctx.spec, r.x)| && r2.x.extraStages == r.x.extraStages
    && r2.x.fallbackActivated == r.x.fallbackActivated && r2.x.pending == []
    && r2.x.declaredCurrentStage == DeclaredAt(r.x, |Plan(ctx.spec, r.x)|)
    && (forall c :: c in r2.x.candidates ==> !InFlight(c.state))
    && PlanQuiet(ctx.spec, r2.x) && (NeedsPlan(ctx.spec, r2.x) ==> r2.progress)
  }

  lemma PreparationIsPlain(ctx: Context, v: Run)
    requires Barren(ctx.spec) && v.x.pending == [] && PlanStep(ctx, v).Proceed?
    ensures var r2 := PlanStep(ctx, v).run;
            && r2.x == v.x.(planningComplete := true) && r2.participants == v.participants
            && PlanQuiet(ctx.spec, r2.x) && (NeedsPlan(ctx.spec, r2.x) ==> r2.progress)
            && EmitFrom(ctx, r2, 0) == r2
  {
    PlanStepSettles(ctx, v);
    var r1 := v.(x := v.x.(planningComplete := true), progress := true);
    BarrenPlansNothing(ctx, r1, v.x.candidates, 0);
  }

  lemma OverReachesFallback(ctx: Context, past: seq<Action>, acc: seq<Acceptance>, r: Run) returns (r2: Run)
    requires BarrenRun(ctx, past, acc, r) && Round(ctx, r).Proceed? && StagesOver(ctx, r.participants, r.x)
    ensures ReadyToFallBack(ctx, r, r2) && Round(ctx, r) == Proceed(FallbackStep(ctx, r2))
  {
    var plan, r0 := Plan(ctx.spec, r.x), r.(progress := false);
    var v := StageLoop(ctx, plan, r0);
    ProgressFlagKeeps(ctx, past, acc, r, false);
    StageLoopEnds(ctx, past, acc, r0);
    StageLoopKeeps(ctx, past, acc, plan, r0);
    StagesStayAsked(ctx, plan, r0);
    BarrenIsUnasked(ctx.spec, r.ids.evaluation, r.x);
    BarrenIsUnasked(ctx.spec, v.run.ids.evaluation, v.run.x);
    assert Round(ctx, r) == EvaluationPhase(ctx, v.run);
    PreparationIsPlain(ctx, v.run);
    r2 := PlanStep(ctx, v.run).run;
    OverIsBehind(ctx, r0, v.run, r2);
  }

  lemma OverIsBehind(ctx: Context, r: Run, v: Run, r2: Run)
    requires StagesEnd(ctx, r, v) && StagesOver(ctx, r.participants, r.x) && RunAdvances(r, v)
    requires r.x.evaluations == [] && v.x.evaluations == [] && v.x.pending == [] && v.x.stageIndex <= |Plan(ctx.spec, r.x)|
    requires v.x.fallbackDepth == r.x.fallbackDepth
    requires r2.x == v.x.(planningComplete := true) && r2.participants == v.participants
    requires PlanQuiet(ctx.spec, r2.x) && (NeedsPlan(ctx.spec, r2.x) ==> r2.progress)
    ensures ReadyToFallBack(ctx, r, r2)
  {
  }

  lemma FallbackRests(ctx: Context, r: Run, r2: Run)
    requires Faithful(ctx.kernel) && ReadyToFallBack(ctx, r, r2)
    requires ActivationTrigger(ctx, r2.participants, Recomputed(ctx, r2).x).None?
    ensures var r1 := FallbackStep(ctx, r2);
            Quiet(ctx, r1) && (Repeating(ctx, r1) <==> NeedsPlan(ctx.spec, r2.x))
  {
    var r1 := Recomputed(ctx, r2);
    assert Plan(ctx.spec, r2.x) == Plan(ctx.spec, r.x);
    assert Plan(ctx.spec, r1.x) == Plan(ctx.spec, r.x);
    assert KeptUpTo(ctx, r2.participants, r2.x.candidates, r2.x.pending, 0);
    RecomputedIsQuiet(ctx, r2, r1);
    PlanIgnoresReports(ctx.spec, r2.x, r1.x);
    assert FallbackStep(ctx, r2) == r1;
  }

  lemma ContentBehind(ctx: Context, ps: seq<Participant>, x: Execution, y: Execution)
    requires AllEnded(ctx, ps, x, y.candidates)
    ensures HasContent(y) <==> HasContent(x)
  {
    EndedContent(ctx, ps, x, y.candidates);
    ContentIsFiltered(x);
    ContentIsFiltered(y);
  }

  /** Marking the announced participants changes nobody's standing. */
  lemma {:induction false} MarkedFound(ps: seq<Participant>, qs: seq<Participant>, id: nat)
    requires OnlyMarked(ps, qs)
    ensures FindParticipant(qs, id) == FindParticipant(ps, id)
  {
    if ps != [] {
      assert qs[0] == ps[0].(fallbackActivated := qs[0].fallbackActivated);
      forall i | 0 <= i < |ps| - 1 ensures qs[1..][i] == ps[1..][i].(fallbackActivated := qs[1..][i].fallbackActivated) {
        assert qs[i + 1] == ps[i + 1].(fallbackActivated := qs[i + 1].fallbackActivated);
      }
      MarkedFound(ps[1..], qs[1..], id);
    }
  }

  lemma MarkedReach(ctx: Context, ps: seq<Participant>, qs: seq<Participant>, id: nat, used: nat)
    requires OnlyMarked(ps, qs)
    ensures OutOfReach(ctx, qs, id, used) == OutOfReach(ctx, ps, id, used)
  {
    MarkedFound(ps, qs, id);
    var j := FindParticipant(ps, id);
    if j.Some? {
      assert qs[j.value] == ps[j.value].(fallbackActivated := qs[j.value].fallbackActivated);
    }
  }

  /** After the activation only the fallback stage is left, and whether it is over could be told before. */
  lemma ActivatedIsOver(ctx: Context, r: Run, r2: Run, r1: Run)
    requires ReadyToFallBack(ctx, r, r2) && OnlyMarked(r.participants, r1.participants)
    requires r1.x.candidates == r2.x.candidates && r1.x.stageIndex == |Plan(ctx.spec, r.x)|
    requires r1.x.declaredCurrentStage == r2.x.declaredCurrentStage
    requires r1.x.extraStages == r.x.extraStages + [FallbackStage(ctx.spec, r.x.fallbackDepth)]
    ensures StagesOver(ctx, r1.participants, r1.x) <==> FallbackOver(ctx, r.participants, r.x)
  {
    var stage, declared := FallbackStage(ctx.spec, r.x.fallbackDepth), r1.x.declaredCurrentStage;
    assert Plan(ctx.spec, r1.x) == Plan(ctx.spec, r.x) + [stage];
    assert declared ==> r.x.stageIndex >= |Plan(ctx.spec, r.x)|;
    forall id
      ensures HasSlot(r1.x.candidates, id, stage.id) || (!declared && Gone(ctx, r1.participants, id))
              <==> HasSlot(r.x.candidates, id, stage.id) || (!declared && Gone(ctx, r.participants, id))
    {
      EndedSlots(ctx, r.participants, r.x, r2.x.candidates, id, stage.id);
      MarkedReach(ctx, r.participants, r1.participants, id, 0);
    }
    assert StageOver(ctx, r1.participants, r1.x.candidates, stage, declared) <==> FallbackOver(ctx, r.participants, r.x);
    LastStageIsOver(ctx, r1.participants, r1.x, stage);
  }

  lemma LastStageIsOver(ctx: Context, ps: seq<Participant>, x: Execution, stage: Stage)
    requires x.stageIndex == |Plan(ctx.spec, x)| - 1 && Plan(ctx.spec, x)[x.stageIndex] == stage
    requires forall c :: c in x.candidates ==> !InFlight(c.state)
    ensures StagesOver(ctx, ps, x) <==> StageOver(ctx, ps, x.candidates, stage, x.declaredCurrentStage)
  {
    assert DeclaredAt(x, x.stageIndex) == x.declaredCurrentStage;
  }

  /** What an activation leaves for the next round. */
  lemma ActivationLeaves(ctx: Context, r2: Run)
    requires ActivationTrigger(ctx, r2.participants, Recomputed(ctx, r2).x).Some?
    ensures var r1 := FallbackStep(ctx, r2);
            && r1.x.candidates == r2.x.candidates && r1.x.stageIndex == r2.x.stageIndex
            && r1.x.declaredCurrentStage == r2.x.declaredCurrentStage && r1.progress && r1.x.fallbackActivated && !r2.x.fallbackActivated
            && r1.x.extraStages == r2.x.extraStages + [FallbackStage(ctx.spec, r2.x.fallbackDepth)]
  {
    var y := Recomputed(ctx, r2);
    var trigger := ActivationTrigger(ctx, y.participants, y.x).value;
    AnnounceKeepsExecution(ctx, Extended(ctx, y), trigger, 0);
    assert FallbackStep(ctx, r2) == AnnounceFrom(ctx, Extended(ctx, y), trigger, 0);
  }

  lemma PlanIsDistinct(spec: RuntimeSpec, x: Execution)
    requires WellFormed(spec) && FallbackInv(spec, x) && !x.fallbackActivated
    ensures DistinctStages(Plan(spec, x))
  {
    assert Plan(spec, x) == EffectiveStages(spec);
  }

  /** The state the fallback decision is taken in, told from before the call. */
  lemma DecisionForeseen(ctx: Context, past: seq<Action>, acc: seq<Acceptance>, r: Run, r2: Run)
    requires BarrenRun(ctx, past, acc, r) && ReadyToFallBack(ctx, r, r2)
    ensures NeedsPlan(ctx.spec, r2.x) <==> HasContent(r.x)
    ensures HasContent(r.x) ==> (ActivationTrigger(ctx, r2.participants, Recomputed(ctx, r2).x).Some? <==> FallbackDue(ctx, r.participants, r.x))
  {
    ContentBehind(ctx, r.participants, r.x, r2.x);
    UnaskedNeedsPlan(ctx.spec, r2.x);
    if HasContent(r.x) && !r.x.fallbackActivated {
      PlanIsDistinct(ctx.spec, r.x);
      DeclaredHasBudget(ctx, past, acc, r);
      FallbackDueBehind(ctx, r.participants, r.x, r2.x);
    }
  }

  lemma DeclaredHasBudget(ctx: Context, past: seq<Action>, acc: seq<Acceptance>, r: Run)
    requires RunInv(ctx, past, acc, r)
    ensures forall i :: 0 <= i < |r.x.candidates| && r.x.candidates[i].state == Declared ==>
              r.x.candidates[i].attemptsUsed < ctx.spec.retry.maxAttempts
  {
    forall i | 0 <= i < |r.x.candidates| && r.x.candidates[i].state == Declared
      ensures r.x.candidates[i].attemptsUsed < ctx.spec.retry.maxAttempts
    {
      assert BudgetInv(ctx.spec.retry.maxAttempts, past + r.actions, r.x.candidates[i]);
    }
  }

  lemma LoopStarts(round: Run -> Phase, r: Run, rounds: nat, w: Phase)
    requires r.progress && rounds >= 1 && w == Loop(round, r, rounds) && w.Proceed?
    ensures round(r).Proceed? && w == Loop(round, round(r).run, rounds - 1)
  {
  }

  lemma ActivatedForeseen(ctx: Context, past: seq<Action>, acc: seq<Acceptance>, r: Run, r2: Run, r1: Run)
    requires BarrenRun(ctx, past, acc, r) && ReadyToFallBack(ctx, r, r2) && Round(ctx, r) == Proceed(r1) && r1 == FallbackStep(ctx, r2)
    requires ActivationTrigger(ctx, r2.participants, Recomputed(ctx, r2).x).Some?
    ensures HasContent(r1.x) <==> HasContent(r.x)
    ensures StagesOver(ctx, r1.participants, r1.x) <==> FallbackOver(ctx, r.participants, r.x)
    ensures !FallbackDue(ctx, r1.participants, r1.x)
  {
    ActivationLeaves(ctx, r2);
    RoundKeepsInvariant(ctx, past, acc, r);
    ContentBehind(ctx, r.participants, r.x, r2.x);
    ActivatedIsOver(ctx, r, r2, r1);
  }

  lemma EndlessAtRest(ctx: Context, past: seq<Action>, acc: seq<Acceptance>, r: Run, r2: Run)
    requires BarrenRun(ctx, past, acc, r) && ReadyToFallBack(ctx, r, r2) && StagesOver(ctx, r.participants, r.x)
    requires ActivationTrigger(ctx, r2.participants, Recomputed(ctx, r2).x).None?
    ensures Endless(ctx, r.participants, r.x) <==> NeedsPlan(ctx.spec, r2.x)
  {
    DecisionForeseen(ctx, past, acc, r, r2);
  }

  lemma EndlessAfterActivation(ctx: Context, past: seq<Action>, acc: seq<Acceptance>, r: Run, r2: Run, r1: Run)
    requires BarrenRun(ctx, past, acc, r) && ReadyToFallBack(ctx, r, r2) && StagesOver(ctx, r.participants, r.x)
    requires Round(ctx, r) == Proceed(r1) && r1 == FallbackStep(ctx, r2)
    requires ActivationTrigger(ctx, r2.participants, Recomputed(ctx, r2).x).Some?
    ensures BarrenRun(ctx, past, acc, r1) && r1.x.fallbackActivated && !r.x.fallbackActivated
    ensures Stuck(ctx, r1.participants, r1.x) <==> Endless(ctx, r.participants, r.x)
  {
    DecisionForeseen(ctx, past, acc, r, r2);
    ActivationLeaves(ctx, r2);
    BarrenRoundKeeps(ctx, past, acc, r);
    ActivatedForeseen(ctx, past, acc, r, r2, r1);
  }

  lemma RestDecides(ctx: Context, r1: Run, rounds: nat, w: Phase)
    requires Faithful(ctx.kernel) && Quiet(ctx, r1) && w == Loop(RoundOf(ctx), r1, rounds)
    ensures w.Proceed? && Repeating(ctx, w.run) == Repeating(ctx, r1)
  {
    QuietRounds(ctx);
    QuietLoop(ctx, RoundOf(ctx), r1, rounds);
  }

  /** From here the loop ends without an error, however many rounds it gets, and `answer` says whether it keeps asking. */
  ghost predicate RestsWith(ctx: Context, r1: Run, answer: bool) {
    forall n: nat {:trigger Loop(RoundOf(ctx), r1, n)} ::
      Loop(RoundOf(ctx), r1, n).Proceed? && (Repeating(ctx, Loop(RoundOf(ctx), r1, n).run) <==> answer)
  }

  lemma QuietRests(ctx: Context, r1: Run)
    requires Faithful(ctx.kernel) && Quiet(ctx, r1)
    ensures RestsWith(ctx, r1, Repeating(ctx, r1))
  {
    forall n: nat
      ensures Loop(RoundOf(ctx), r1, n).Proceed? && (Repeating(ctx, Loop(RoundOf(ctx), r1, n).run) <==> Repeating(ctx, r1))
    {
      RestDecides(ctx, r1, n, Loop(RoundOf(ctx), r1, n));
    }
  }

  lemma RestsBehind(ctx: Context, r: Run, r2: Run)
    requires Faithful(ctx.kernel) && ReadyToFallBack(ctx, r, r2)
    requires ActivationTrigger(ctx, r2.participants, Recomputed(ctx, r2).x).None?
    ensures RestsWith(ctx, FallbackStep(ctx, r2), NeedsPlan(ctx.spec, r2.x))
  {
    FallbackRests(ctx, r, r2);
    QuietRests(ctx, FallbackStep(ctx, r2));
  }

  lemma FirstRound(ctx: Context, r: Run, rounds: nat, w: Phase)
    requires r.progress && rounds >= 1 && w == Loop(RoundOf(ctx), r, rounds) && w.Proceed?
    ensures Round(ctx, r).Proceed? && w == Loop(RoundOf(ctx), Round(ctx, r).run, rounds - 1)
  {
    LoopStarts(RoundOf(ctx), r, rounds, w);
    assert RoundOf(ctx)(r) == Round(ctx, r);
  }

  lemma OpenDecides(ctx: Context, past: seq<Action>, acc: seq<Acceptance>, r: Run, rounds: nat, w: Phase)
    requires BarrenRun(ctx, past, acc, r) && rounds >= 2 && w == Loop(RoundOf(ctx), r, rounds) && w.Proceed?
    requires !StagesOver(ctx, r.participants, r.x)
    ensures !Repeating(ctx, w.run)
  {
    FirstRound(ctx, r, rounds, w);
    OpenStageHolds(ctx, past, acc, r, rounds, w);
  }

  /** Once the fallback is used, a round over stages that are over comes to rest. */
  lemma UsedRoundRests(ctx: Context, past: seq<Action>, acc: seq<Acceptance>, r: Run, r1: Run)
    requires BarrenRun(ctx, past, acc, r) && r.x.fallbackActivated && Round(ctx, r) == Proceed(r1)
    requires StagesOver(ctx, r.participants, r.x)
    ensures RestsWith(ctx, r1, HasContent(r.x))
  {
    var r2 := OverReachesFallback(ctx, past, acc, r);
    DecisionForeseen(ctx, past, acc, r, r2);
    RestsBehind(ctx, r, r2);
  }

  lemma UsedStep(ctx: Context, past: seq<Action>, acc: seq<Acceptance>, r: Run, rounds: nat, w: Phase)
    requires BarrenRun(ctx, past, acc, r) && r.x.fallbackActivated && rounds >= 1
    requires w == Loop(RoundOf(ctx), r, rounds) && w.Proceed? && StagesOver(ctx, r.participants, r.x)
    ensures Repeating(ctx, w.run) <==> HasContent(r.x)
  {
    FirstRound(ctx, r, rounds, w);
    UsedRoundRests(ctx, past, acc, r, Round(ctx, r).run);
  }

  lemma StuckWhenUsed(ctx: Context, past: seq<Action>, acc: seq<Acceptance>, r: Run, rounds: nat, w: Phase)
    requires BarrenRun(ctx, past, acc, r) && r.x.fallbackActivated && rounds >= 2
    requires w == Loop(RoundOf(ctx), r, rounds) && w.Proceed?
    ensures Repeating(ctx, w.run) <==> Stuck(ctx, r.participants, r.x)
  {
    if StagesOver(ctx, r.participants, r.x) {
      UsedStep(ctx, past, acc, r, rounds, w);
    } else {
      OpenDecides(ctx, past, acc, r, rounds, w);
    }
  }

  /** From here, given two more rounds, `answer` says whether the loop keeps asking for a plan. */
  ghost predicate AnswersWith(ctx: Context, r1: Run, answer: bool) {
    forall n: nat {:trigger Loop(RoundOf(ctx), r1, n)} ::
      n >= 2 && Loop(RoundOf(ctx), r1, n).Proceed? ==> (Repeating(ctx, Loop(RoundOf(ctx), r1, n).run) <==> answer)
  }

  lemma UsedAnswers(ctx: Context, past: seq<Action>, acc: seq<Acceptance>, r1: Run, answer: bool)
    requires BarrenRun(ctx, past, acc, r1) && r1.x.fallbackActivated && (Stuck(ctx, r1.participants, r1.x) <==> answer)
    ensures AnswersWith(ctx, r1, answer)
  {
    forall n: nat | n >= 2 && Loop(RoundOf(ctx), r1, n).Proceed?
      ensures Repeating(ctx, Loop(RoundOf(ctx), r1, n).run) <==> answer
    {
      StuckWhenUsed(ctx, past, acc, r1, n, Loop(RoundOf(ctx), r1, n));
    }
  }

  lemma ActivatedAnswers(ctx: Context, past: seq<Action>, acc: seq<Acceptance>, r: Run, r2: Run, r1: Run)
    requires BarrenRun(ctx, past, acc, r) && ReadyToFallBack(ctx, r, r2) && StagesOver(ctx, r.participants, r.x)
    requires Round(ctx, r) == Proceed(r1) && r1 == FallbackStep(ctx, r2)
    requires ActivationTrigger(ctx, r2.participants, Recomputed(ctx, r2).x).Some?
    ensures AnswersWith(ctx, r1, Endless(ctx, r.participants, r.x))
  {
    EndlessAfterActivation(ctx, past, acc, r, r2, r1);
    UsedAnswers(ctx, past, acc, r1, Endless(ctx, r.participants, r.x));
  }

  /** A round over stages that are over either rests or activates the fallback, and says so in advance. */
  lemma OverRoundAnswers(ctx: Context, past: seq<Action>, acc: seq<Acceptance>, r: Run, r1: Run)
    requires BarrenRun(ctx, past, acc, r) && Round(ctx, r) == Proceed(r1) && StagesOver(ctx, r.participants, r.x)
    ensures AnswersWith(ctx, r1, Endless(ctx, r.participants, r.x))
  {
    var r2 := OverReachesFallback(ctx, past, acc, r);
    if ActivationTrigger(ctx, r2.participants, Recomputed(ctx, r2).x).None? {
      RestsBehind(ctx, r, r2);
      EndlessAtRest(ctx, past, acc, r, r2);
    } else {
      ActivatedAnswers(ctx, past, acc, r, r2, r1);
    }
  }

  lemma OverAnswers(ctx: Context, past: seq<Action>, acc: seq<Acceptance>, r: Run, rounds: nat, w: Phase)
    requires BarrenRun(ctx, past, acc, r) && rounds >= 3 && w == Loop(RoundOf(ctx), r, rounds) && w.Proceed?
    requires StagesOver(ctx, r.participants, r.x)
    ensures Repeating(ctx, w.run) <==> Endless(ctx, r.participants, r.x)
  {
    FirstRound(ctx, r, rounds, w);
    OverRoundAnswers(ctx, past, acc, r, Round(ctx, r).run);
  }

  /** The loop ends still asking for a plan exactly when that could be told before it began. */
  lemma EndlessExactly(ctx: Context, past: seq<Action>, acc: seq<Acceptance>, r: Run, rounds: nat, w: Phase)
    requires BarrenRun(ctx, past, acc, r) && rounds >= 3 && w == Loop(RoundOf(ctx), r, rounds) && w.Proceed?
    ensures Repeating(ctx, w.run) <==> Endless(ctx, r.participants, r.x)
  {
    if StagesOver(ctx, r.participants, r.x) {
      OverAnswers(ctx, past, acc, r, rounds, w);
    } else {
      OpenDecides(ctx, past, acc, r, rounds, w);
    }
  }

  // ---- The guard ----------------------------------------------------------------------------------------------------------

  lemma OnlyBarrenIsEndless(ctx: Context, past: seq<Action>, acc: seq<Acceptance>, r: Run, w: Phase)
    requires Faithful(ctx.kernel) && WellFormed(ctx.spec) && RunInv(ctx, past, acc, r) && RunAsked(ctx.spec, r) && r.progress
    requires w == Loop(RoundOf(ctx), r, GUARD) && w.Proceed?
    ensures w.run.progress <==> Endless(ctx, r.participants, r.x)
    ensures !w.run.progress ==> LoopStable(RoundOf(ctx), r, 3, w)
  {
    LoopSettles(ctx, past, acc, r, GUARD);
    if Barren(ctx.spec) && Evaluators(ctx.spec) != [] {
      EndlessExactly(ctx, past, acc, r, GUARD, w);
    } else if Repeating(ctx, w.run) {
      OnlyBarrenSpecificationsRepeat(ctx, w.run);
      assert false;
    }
  }

  /**
   The guard, exactly, told from before the call: when the loop of an advance on a reachable open
   execution does not run out of identities or slots, the guard of 64 rounds is what ends it if and
   only if all evaluators are verifiers without a mandatory criterion, some candidate has content,
   whatever is in flight and whatever the remaining stages would declare is out of reach of its
   participant, and the fallback is not due or would be over at once as well.  In every other case
   three rounds are always enough.
   */
  lemma GuardEndsTheLoopExactlyWhen(trace: seq<System>, ops: seq<Op>, n: nat, id: nat, w: Phase)
    requires IsRun(trace, ops) && n < |trace| && id in trace[n].fabric.ensembles
    requires HasOpenExecution(trace[n].fabric.ensembles[id])
    requires var s := trace[n].fabric;
             w == Loop(RoundOf(ContextOf(s, s.ensembles[id])), StartOf(s, s.ensembles[id]).(progress := true), GUARD)
    requires w.Proceed?
    ensures var s := trace[n].fabric;
            var e := s.ensembles[id];
            && (w.run.progress <==> Endless(ContextOf(s, e), e.participants, e.execution.value))
            && (!w.run.progress ==> LoopStable(RoundOf(ContextOf(s, e)), StartOf(s, e).(progress := true), 3, w))
  {
    var s := trace[n].fabric;
    var e := s.ensembles[id];
    var ctx, start := ContextOf(s, e), StartOf(s, e);
    ReachableIsGood(trace, ops, n);
    At(trace[n], id);
    assert RecordedAt(s, id);
    StartHolds(s, trace[n].logs[id], id, e);
    ProgressFlagKeeps(ctx, trace[n].logs[id].actions, trace[n].logs[id].accepted, start, true);
    OnlyBarrenIsEndless(ctx, trace[n].logs[id].actions, trace[n].logs[id].accepted, start.(progress := true), w);
  }
}
