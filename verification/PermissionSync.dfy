/**
 Timed and permanent group membership jobs: plans, answers and convergence (PermissionSync.cpp,
 BuildPlan and ClassifyResult).

 Unlike a give, a permission job is run again when a crash leaves its record unfinished, so its
 plan must converge: running any part of it any number of times and then all of it must leave
 what running it once leaves.
 */
module PermissionSync {
  import opened Options

  datatype Action = Add | Remove

  datatype RevokeScope = All | Timed | Permanent

  // expiresAt is an absolute time in seconds; None is a permanent grant.
  datatype Request = Request(kind: Action, expiresAt: Option<int>, scope: RevokeScope)

  datatype StepKind = AddPermanent | AddTimed | RemovePermanent | RemoveTimed

  datatype Step = Step(kind: StepKind, seconds: int)

  datatype Plan = Plan(steps: seq<Step>, noOp: bool, verifyInGroup: bool)

  const INT_MAX: int := 2147483647

  function BuildPlan(req: Request, now: int, timedSupported: bool): (plan: Plan)
    ensures plan.noOp <==> plan.steps == []
    // Every grant that does anything is checked afterwards.
    ensures plan.verifyInGroup <==> req.kind == Add && !plan.noOp
  {
    if req.kind == Add then
      if req.expiresAt.Some? && req.expiresAt.value - now <= 0 then Plan([], true, false)
      else if req.expiresAt.Some? && timedSupported then
        var remaining := req.expiresAt.value - now;
        Plan([Step(RemovePermanent, 0), Step(RemoveTimed, 0),
              Step(AddTimed, if remaining > INT_MAX then INT_MAX else remaining)], false, true)
      else Plan([Step(AddPermanent, 0)], false, true)
    else
      var steps := (if timedSupported && req.scope != Permanent then [Step(RemoveTimed, 0)] else []) +
                   (if req.scope != Timed then [Step(RemovePermanent, 0)] else []);
      Plan(steps, steps == [], false)
  }

  // ---------------------------------------------------------------- the group plugin

  // One player's hold on one group. A timed hold ends at an absolute second.
  datatype Membership = Membership(permanent: bool, timed: Option<int>)

  function Current(m: Membership, at: int): Membership {
    if m.timed.Some? && m.timed.value <= at then m.(timed := None) else m
  }

  function InGroup(m: Membership, at: int): bool {
    m.permanent || Current(m, at).timed.Some?
  }

  // What a call does at second `at`, and the message it returns; None is success.
  // Adding time to a running timer extends it, and a permanent hold blocks a timed one.
  function Call(m0: Membership, step: Step, at: int): (Membership, Option<string>) {
    var m := Current(m0, at);
    match step.kind
    case AddPermanent =>
      if m.permanent then (m, Some("Player was already added")) else (m.(permanent := true), None)
    case AddTimed =>
      if m.permanent then (m, Some("Player is already permanently in this group."))
      else (m.(timed := Some((if m.timed.Some? then m.timed.value else at) + step.seconds)), None)
    case RemovePermanent =>
      if m.permanent then (m.(permanent := false), None) else (m, Some("Player is not in group"))
    case RemoveTimed =>
      if m.timed.Some? then (m.(timed := None), None) else (m, Some("Player is not in timed group"))
  }

  datatype StepOutcome = Applied | AlreadyInState | Error

  function LowerChar(c: char): char {
    if 'A' <= c <= 'Z' then c + 32 as char else c
  }

  predicate MatchesAt(text: string, needle: string, i: nat) {
    i + |needle| <= |text| && forall j :: 0 <= j < |needle| ==> LowerChar(text[i + j]) == needle[j]
  }

  // A case-insensitive search for a lower-case needle.
  predicate Contains(text: string, needle: string) {
    exists i :: 0 <= i <= |text| && MatchesAt(text, needle, i)
  }

  function ClassifyResult(kind: StepKind, message: Option<string>): StepOutcome {
    if message.None? then Applied
    else if kind == AddPermanent || kind == AddTimed then
      if Contains(message.value, "already") then AlreadyInState else Error
    else
      if Contains(message.value, "not in") || Contains(message.value, "does not exist") then AlreadyInState else Error
  }

  lemma EmptyIsError(kind: StepKind)
    ensures ClassifyResult(kind, Some("")) == Error
  {
    assert forall i, needle: string :: needle != "" ==> !MatchesAt("", needle, i);
  }

  // A part of the text reads as `word`, whatever its case.
  ghost predicate Says(text: string, word: string) {
    exists pre: string, part: string, post: string ::
      text == pre + part + post && |part| == |word| && forall i :: 0 <= i < |word| ==> LowerChar(part[i]) == word[i]
  }

  lemma ContainsIffSays(text: string, word: string)
    ensures Contains(text, word) <==> Says(text, word)
  {
    if Contains(text, word) {
      var i :| 0 <= i <= |text| && MatchesAt(text, word, i);
      assert text == text[..i] + text[i..i + |word|] + text[i + |word|..];
    }
    if Says(text, word) {
      var pre, part, post :| text == pre + part + post && |part| == |word| && forall i :: 0 <= i < |word| ==> LowerChar(part[i]) == word[i];
      assert forall j :: 0 <= j < |word| ==> text[|pre| + j] == part[j];
      assert MatchesAt(text, word, |pre|);
    }
  }

  /**
   An answer is an error exactly when it has a text that nowhere says the player is in the
   state asked for already, and applied exactly when it has none.
   */
  lemma ErrorExactly(kind: StepKind, message: Option<string>)
    ensures ClassifyResult(kind, message) == Applied <==> message.None?
    ensures ClassifyResult(kind, message) == Error <==>
            && message.Some?
            && (kind == AddPermanent || kind == AddTimed ==> !Says(message.value, "already"))
            && (kind == RemovePermanent || kind == RemoveTimed ==>
                  !Says(message.value, "not in") && !Says(message.value, "does not exist"))
  {
    if message.Some? {
      ContainsIffSays(message.value, "already");
      ContainsIffSays(message.value, "not in");
      ContainsIffSays(message.value, "does not exist");
    }
  }

  lemma AddedAlready()
    ensures Contains("Player was already added", "already")
  {
    assert MatchesAt("Player was already added", "already", 11);
  }

  lemma PermanentAlready()
    ensures Contains("Player is already permanently in this group.", "already")
  {
    assert MatchesAt("Player is already permanently in this group.", "already", 10);
  }

  lemma NotInGroup()
    ensures Contains("Player is not in group", "not in")
  {
    assert MatchesAt("Player is not in group", "not in", 10);
  }

  lemma NotInTimedGroup()
    ensures Contains("Player is not in timed group", "not in")
  {
    assert MatchesAt("Player is not in timed group", "not in", 10);
  }

  /** Every answer the plugin gives for a call it carried out counts as success. */
  lemma AnswersAreSuccess(m: Membership, step: Step, at: int)
    ensures ClassifyResult(step.kind, Call(m, step, at).1) != Error
    ensures ClassifyResult(step.kind, Call(m, step, at).1) == AlreadyInState ==> Call(m, step, at).0 == Current(m, at)
  {
    match step.kind
    case AddPermanent => AddedAlready();
    case AddTimed => PermanentAlready();
    case RemovePermanent => NotInGroup();
    case RemoveTimed => NotInTimedGroup();
  }

  function RunSteps(m: Membership, steps: seq<Step>, at: int): Membership
    decreases |steps|
  {
    if steps == [] then m else RunSteps(Call(m, steps[0], at).0, steps[1..], at)
  }

  lemma RunUpToThree(m: Membership, a: Step, b: Step, c: Step, at: int)
    ensures RunSteps(m, [], at) == m
    ensures RunSteps(m, [a], at) == Call(m, a, at).0
    ensures RunSteps(m, [a, b], at) == Call(Call(m, a, at).0, b, at).0
    ensures RunSteps(m, [a, b, c], at) == Call(Call(Call(m, a, at).0, b, at).0, c, at).0
  {
    var m1 := Call(m, a, at).0;
    var m2 := Call(m1, b, at).0;
    assert [a][1..] == [] && [a, b][1..] == [b] && [a, b, c][1..] == [b, c];
    assert [b][1..] == [] && [b, c][1..] == [c] && [c][1..] == [];
    assert RunSteps(m2, [c], at) == RunSteps(Call(m2, c, at).0, [], at);
    assert RunSteps(m1, [b], at) == RunSteps(m2, [], at);
    assert RunSteps(m1, [b, c], at) == RunSteps(m2, [c], at);
  }

  lemma {:induction false} RunStepsAppend(m: Membership, steps: seq<Step>, last: Step, at: int)
    ensures RunSteps(m, steps + [last], at) == Call(RunSteps(m, steps, at), last, at).0
    decreases |steps|
  {
    if steps == [] {
      assert steps + [last] == [last] && [last][1..] == [];
    } else {
      assert (steps + [last])[0] == steps[0] && (steps + [last])[1..] == steps[1..] + [last];
      RunStepsAppend(Call(m, steps[0], at).0, steps[1..], last, at);
    }
  }

  // ---------------------------------------------------------------- convergence

  // One try: planned at `now`, carried out at `at`, cut off after `ran` steps.
  datatype Attempt = Attempt(now: int, at: int, timedSupported: bool, ran: nat)

  predicate Fits(req: Request, a: Attempt) {
    a.now <= a.at && a.ran <= |BuildPlan(req, a.now, a.timedSupported).steps|
  }

  function AfterAttempt(m: Membership, req: Request, a: Attempt): Membership
    requires Fits(req, a)
  {
    RunSteps(m, BuildPlan(req, a.now, a.timedSupported).steps[..a.ran], a.at)
  }

  predicate AllFit(req: Request, tries: seq<Attempt>) {
    forall i :: 0 <= i < |tries| ==> Fits(req, tries[i])
  }

  function AfterAll(m: Membership, req: Request, tries: seq<Attempt>): Membership
    requires AllFit(req, tries)
    decreases |tries|
  {
    if tries == [] then m else AfterAll(AfterAttempt(m, req, tries[0]), req, tries[1..])
  }

  predicate Whole(req: Request, a: Attempt) {
    Fits(req, a) && a.ran == |BuildPlan(req, a.now, a.timedSupported).steps|
  }

  /**
   A timed grant lands on its absolute end: whatever the player held before, whatever unfinished
   tries came first, a whole try before the end leaves no permanent hold and a timed one that
   ends at expiresAt, plus only the seconds between planning and calling. Never stacked time.
   It does so exactly when the group plugin knows timed groups and the time left fits an int;
   an older plugin makes the grant permanent. A try at or after the end changes nothing.
   */
  lemma TimedGrantConverges(m: Membership, req: Request, tries: seq<Attempt>, last: Attempt)
    requires req.kind == Add && req.expiresAt.Some?
    requires AllFit(req, tries) && Whole(req, last)
    ensures var mid := AfterAll(m, req, tries);
            var end := AfterAttempt(mid, req, last);
            var left := req.expiresAt.value - last.now;
            && (left <= 0 ==> end == mid)
            && (left > 0 ==>
                  (end == Membership(false, Some(req.expiresAt.value + (last.at - last.now))) <==>
                   last.timedSupported && left <= INT_MAX))
            && (left > INT_MAX && last.timedSupported ==> end == Membership(false, Some(last.at + INT_MAX)))
            && (left > 0 && !last.timedSupported ==> end == Current(mid, last.at).(permanent := true))
  {
    var mid := AfterAll(m, req, tries);
    if last.now >= req.expiresAt.value {
      assert BuildPlan(req, last.now, last.timedSupported).steps[..last.ran] == [];
    } else if last.timedSupported {
      TimedGrantWhole(mid, req, last);
    } else {
      PermanentGrantWhole(mid, req, last);
    }
  }

  // Without timed groups a timed grant is a permanent one.
  lemma PermanentGrantWhole(m: Membership, req: Request, a: Attempt)
    requires req.kind == Add && Fits(req, a)
    requires req.expiresAt.Some? ==> !a.timedSupported && a.now < req.expiresAt.value
    ensures AfterAttempt(m, req, a) == if a.ran == 0 then m else Current(m, a.at).(permanent := true)
  {
    var steps := BuildPlan(req, a.now, a.timedSupported).steps;
    RunUpToThree(m, steps[0], steps[0], steps[0], a.at);
    assert steps[..0] == [] && steps[..1] == [steps[0]];
  }

  /**
   The input on which a timed grant is not timed: with an older group plugin a player without
   any hold gets a permanent one, a revoke of the timed kind succeeds and leaves it, and so
   the player is in the group at every later second.
   */
  lemma OlderPluginOutlivesTheEnd(expiresAt: int, now: int, later: int)
    requires now < expiresAt && now <= later
    ensures var grant, revoke := Request(Add, Some(expiresAt), All), Request(Remove, None, RevokeScope.Timed);
            var first, second := Attempt(now, now, false, 1), Attempt(later, later, false, 0);
            && Whole(grant, first) && Whole(revoke, second)
            && forall at :: InGroup(AfterAttempt(AfterAttempt(Membership(false, None), grant, first), revoke, second), at)
  {
    var grant, revoke := Request(Add, Some(expiresAt), All), Request(Remove, None, RevokeScope.Timed);
    PermanentGrantWhole(Membership(false, None), grant, Attempt(now, now, false, 1));
    assert BuildPlan(revoke, later, false).steps[..0] == [];
  }

  lemma TimedGrantWhole(m: Membership, req: Request, a: Attempt)
    requires req.kind == Add && req.expiresAt.Some? && Fits(req, a)
    requires a.timedSupported && a.now < req.expiresAt.value
    ensures a.ran == 0 ==> AfterAttempt(m, req, a) == m
    ensures a.ran == 1 ==> AfterAttempt(m, req, a) == Current(m, a.at).(permanent := false)
    ensures a.ran == 2 ==> AfterAttempt(m, req, a) == Membership(false, None)
    ensures a.ran == 3 ==>
              AfterAttempt(m, req, a) ==
              Membership(false, Some(a.at + if req.expiresAt.value - a.now > INT_MAX then INT_MAX else req.expiresAt.value - a.now))
  {
    var steps := BuildPlan(req, a.now, true).steps;
    RunUpToThree(m, steps[0], steps[1], steps[2], a.at);
    assert steps[..0] == [] && steps[..1] == [steps[0]] && steps[..2] == [steps[0], steps[1]] && steps[..3] == steps;
  }

  // The latest end any of the tries can have set.
  predicate EndsAsAsked(end: int, req: Request, tries: seq<Attempt>) {
    req.expiresAt.Some? &&
    exists i :: 0 <= i < |tries| && end <= req.expiresAt.value + (tries[i].at - tries[i].now)
  }

  /**
   Also half way: after any run of cut-off tries of a timed grant, the timed hold is the one
   the player started with, gone, or one that ends at expiresAt plus the delay of a single try.
   */
  lemma {:induction false} NeverStacked(m: Membership, req: Request, tries: seq<Attempt>)
    requires req.kind == Add && req.expiresAt.Some? && AllFit(req, tries)
    ensures var end := AfterAll(m, req, tries).timed;
            end == None || end == m.timed || EndsAsAsked(end.value, req, tries)
    decreases |tries|
  {
    if tries != [] {
      var a := tries[0];
      var mid := AfterAttempt(m, req, a);
      if a.now >= req.expiresAt.value {
        assert a.ran == 0;
      } else if a.timedSupported {
        TimedGrantWhole(m, req, a);
      } else {
        PermanentGrantWhole(m, req, a);
      }
      assert mid.timed == None || mid.timed == m.timed || mid.timed.value <= req.expiresAt.value + (a.at - a.now);
      NeverStacked(mid, req, tries[1..]);
      var end := AfterAll(m, req, tries).timed;
      assert end == AfterAll(mid, req, tries[1..]).timed;
      if end != None && end != mid.timed {
        var i :| 0 <= i < |tries[1..]| && end.value <= req.expiresAt.value + (tries[1..][i].at - tries[1..][i].now);
        assert tries[1..][i] == tries[i + 1];
      } else if end != None && end != m.timed {
        assert end.value <= req.expiresAt.value + (tries[0].at - tries[0].now);
      }
    }
  }

  /** Without the removal a second try would extend the running timer past the asked end. */
  lemma RemovalIsNeeded(m: Membership, at: int, remaining: int)
    requires !m.permanent && m.timed == None && remaining > 0
    ensures RunSteps(m, [Step(AddTimed, remaining), Step(AddTimed, remaining)], at).timed == Some(at + 2 * remaining)
  {
    var step := Step(AddTimed, remaining);
    RunUpToThree(m, step, step, step, at);
  }

  ghost predicate StillRunning(m: Membership, tries: seq<Attempt>) {
    forall i :: 0 <= i < |tries| && m.timed.Some? ==> m.timed.value > tries[i].at
  }

  /**
   Each revoke scope removes exactly its kinds: after any unfinished tries and one whole try,
   a kind in scope is gone and a kind out of scope is as it was (a timed hold may only have run
   out). For the timed kind that needs a group plugin that knows timed groups: with an older
   one the try succeeds and the hold is gone exactly if it was gone before.
   */
  lemma RevokeRemovesItsScope(m: Membership, req: Request, tries: seq<Attempt>, last: Attempt)
    requires req.kind == Remove && AllFit(req, tries) && Whole(req, last)
    ensures var mid := AfterAll(m, req, tries);
            var end := AfterAttempt(mid, req, last);
            && (req.scope != Timed ==> !end.permanent)
            && (req.scope != Permanent ==>
                  (Current(end, last.at).timed == None <==> last.timedSupported || Current(mid, last.at).timed == None))
            && (req.scope != Permanent && last.timedSupported ==> end.timed == None)
            && (req.scope == Timed ==> end.permanent == m.permanent)
            && (req.scope == Permanent ==> end.timed == None || end.timed == m.timed)
            && ((req.scope == Permanent && m.timed.Some? && m.timed.value > last.at && StillRunning(m, tries)) ==> end.timed == m.timed)
  {
    RevokesOnlyRemove(m, req, tries);
    var mid := AfterAll(m, req, tries);
    RevokeStep(mid, req, last);
  }

  // What one try of a revoke may leave of the membership.
  predicate RevokeLeaves(m: Membership, req: Request, a: Attempt, r: Membership) {
    && (r.timed == None || r.timed == m.timed)
    && (r.permanent ==> m.permanent)
    && (req.scope == Timed ==> r.permanent == m.permanent)
    && (req.scope == Permanent && m.timed.Some? && m.timed.value > a.at ==> r.timed == m.timed)
    && (Whole(req, a) && req.scope != Timed ==> !r.permanent)
    && (Whole(req, a) && a.timedSupported && req.scope != Permanent ==> r.timed == None)
    && (!a.timedSupported ==> Current(r, a.at).timed == Current(m, a.at).timed)
  }

  lemma RevokeStep(m: Membership, req: Request, a: Attempt)
    requires req.kind == Remove && Fits(req, a)
    ensures RevokeLeaves(m, req, a, AfterAttempt(m, req, a))
  {
    var steps := BuildPlan(req, a.now, a.timedSupported).steps;
    if a.ran == 0 {
      assert steps[..0] == [];
    } else if a.ran == 1 {
      RevokeOne(m, req, a);
    } else {
      RevokeTwo(m, req, a);
    }
  }

  lemma RevokeOne(m: Membership, req: Request, a: Attempt)
    requires req.kind == Remove && Fits(req, a) && a.ran == 1
    ensures RevokeLeaves(m, req, a, AfterAttempt(m, req, a))
  {
    var steps := BuildPlan(req, a.now, a.timedSupported).steps;
    RunUpToThree(m, steps[0], steps[0], steps[0], a.at);
    assert steps[..1] == [steps[0]];
  }

  lemma RevokeTwo(m: Membership, req: Request, a: Attempt)
    requires req.kind == Remove && Fits(req, a) && a.ran == 2
    ensures RevokeLeaves(m, req, a, AfterAttempt(m, req, a))
  {
    var steps := BuildPlan(req, a.now, a.timedSupported).steps;
    RunUpToThree(m, steps[0], steps[1], steps[1], a.at);
    assert steps[..2] == [steps[0], steps[1]];
  }

  lemma {:induction false} RevokesOnlyRemove(m: Membership, req: Request, tries: seq<Attempt>)
    requires req.kind == Remove && AllFit(req, tries)
    ensures var r := AfterAll(m, req, tries);
            && (r.timed == None || r.timed == m.timed)
            && (r.permanent ==> m.permanent)
            && (req.scope == Timed ==> r.permanent == m.permanent)
            && ((req.scope == Permanent && m.timed.Some? && StillRunning(m, tries)) ==> r.timed == m.timed)
    decreases |tries|
  {
    if tries != [] {
      RevokeStep(m, req, tries[0]);
      assert forall i :: 0 <= i < |tries[1..]| ==> tries[1..][i] == tries[i + 1];
      RevokesOnlyRemove(AfterAttempt(m, req, tries[0]), req, tries[1..]);
    }
  }

  /** When the group plugin answers every call, a timed grant before its end is in force. */
  lemma WholeGrantIsInForce(m: Membership, req: Request, a: Attempt)
    requires req.kind == Add && Whole(req, a)
    requires req.expiresAt.Some? ==> a.now < req.expiresAt.value
    ensures InGroup(AfterAttempt(m, req, a), a.at)
  {
    var steps := BuildPlan(req, a.now, a.timedSupported).steps;
    if req.expiresAt.Some? && a.timedSupported {
      TimedGrantWhole(m, req, a);
    } else if req.expiresAt.Some? {
      PermanentGrantWhole(m, req, a);
    } else {
      RunUpToThree(m, steps[0], steps[0], steps[0], a.at);
      assert steps[..1] == [steps[0]];
    }
  }

  // How a job ended for the backend: complete, lease handed back, or an attempt consumed.
  datatype JobReply = AckJob | ReleaseJob | FailJob
}
