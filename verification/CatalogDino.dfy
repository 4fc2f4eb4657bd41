/**
 Cryopod delivery of a catalog dino (CatalogDino.cpp, RunCryopodDelivery).

 The game side is a runner whose steps may each fail; a step that reports success did take
 effect, and one that reports failure changed nothing. Every state the world passes through is
 recorded, so the ordering claim is about each prefix of a run, not only its end.
 */
module CatalogDino {

  datatype Outcome = DeliveredInCryopod | DeliveredAsLiveTame | Deferred | Failed

  datatype PreflightResult = Ready | Defer | FallbackToLiveSpawn | Fail

  // What exists of one delivery: the live tame, a pod in nobody's inventory, a pod the buyer holds.
  datatype Assets = Assets(dinoAlive: bool, podHeldBack: bool, podInInventory: bool)

  const NOTHING: Assets := Assets(false, false, false)

  ghost predicate NeverBoth(history: seq<Assets>) {
    forall i :: 0 <= i < |history| ==> !(history[i].dinoAlive && history[i].podInInventory)
  }

  // How many assets the buyer can use.
  function Reachable(a: Assets): nat {
    (if a.dinoAlive then 1 else 0) + (if a.podInInventory then 1 else 0)
  }

  datatype Step = Spawn | Build | Destroy | HandOver

  /**
   The game as the steps see it; `history` is every state so far, the present one last,
   `failed` are the steps that were tried and failed, and `discards` is how often a pod that
   nobody got was to be discarded.
   */
  class Game {
    var assets: Assets
    ghost var history: seq<Assets>
    ghost var failed: set<Step>
    ghost var discards: nat

    ghost predicate Valid()
      reads this
    {
      |history| > 0 && history[|history| - 1] == assets
    }

    constructor ()
      ensures Valid() && assets == NOTHING && history == [NOTHING] && failed == {} && discards == 0
    {
      assets := NOTHING;
      history := [NOTHING];
      failed, discards := {}, 0;
    }

    method SpawnDino() returns (ok: bool)
      requires Valid()
      modifies this
      ensures Valid() && history == old(history) + [assets]
      ensures discards == old(discards) && failed == old(failed) + if ok then {} else {Spawn}
      ensures assets == if ok then old(assets).(dinoAlive := true) else old(assets)
    {
      ok := *;
      failed := failed + if ok then {} else {Spawn};
      assets := if ok then assets.(dinoAlive := true) else assets;
      history := history + [assets];
    }

    // A failed build may leave a half-made pod behind, still in no inventory.
    method BuildCryopod() returns (ok: bool)
      requires Valid()
      modifies this
      ensures Valid() && history == old(history) + [assets]
      ensures discards == old(discards) && failed == old(failed) + if ok then {} else {Build}
      ensures ok ==> assets == old(assets).(podHeldBack := true)
      ensures !ok ==> assets == old(assets) || assets == old(assets).(podHeldBack := true)
    {
      ok := *;
      failed := failed + if ok then {} else {Build};
      var half := *;
      assets := if ok || half then assets.(podHeldBack := true) else assets;
      history := history + [assets];
    }

    method DestroyDino() returns (ok: bool)
      requires Valid()
      modifies this
      ensures Valid() && history == old(history) + [assets]
      ensures discards == old(discards) && failed == old(failed) + if ok then {} else {Destroy}
      ensures assets == if ok then old(assets).(dinoAlive := false) else old(assets)
    {
      ok := *;
      failed := failed + if ok then {} else {Destroy};
      assets := if ok then assets.(dinoAlive := false) else assets;
      history := history + [assets];
    }

    method AddCryopodToInventory() returns (ok: bool)
      requires Valid() && assets.podHeldBack
      modifies this
      ensures Valid() && history == old(history) + [assets]
      ensures discards == old(discards) && failed == old(failed) + if ok then {} else {HandOver}
      ensures assets == if ok then old(assets).(podHeldBack := false, podInInventory := true) else old(assets)
    {
      ok := *;
      failed := failed + if ok then {} else {HandOver};
      assets := if ok then assets.(podHeldBack := false, podInInventory := true) else assets;
      history := history + [assets];
    }

    // Whether or not it manages to release the pod, the pod stays out of every inventory.
    method DiscardCryopod()
      requires Valid()
      modifies this
      ensures Valid() && history == old(history) + [assets]
      ensures assets == old(assets) || assets == old(assets).(podHeldBack := false)
      ensures failed == old(failed) && discards == old(discards) + 1
    {
      discards := discards + 1;
      var released := *;
      assets := if released then assets.(podHeldBack := false) else assets;
      history := history + [assets];
    }
  }

  // What the buyer has when these steps fail and the others succeed.
  function OutcomeOf(preflight: PreflightResult, failed: set<Step>): Outcome {
    match preflight
    case Defer => Deferred
    case Fail => Failed
    case FallbackToLiveSpawn => if Spawn in failed then Failed else DeliveredAsLiveTame
    case Ready =>
      if Spawn in failed then Failed
      else if Destroy in failed then DeliveredAsLiveTame
      else if Build in failed || HandOver in failed then Failed
      else DeliveredInCryopod
  }

  /**
   Whatever each step does, no prefix of the run has both a live dino and a pod in the
   inventory, and the outcome names exactly what the buyer ends up with: the pod whenever the
   pre-flight is Ready and nothing fails, the live dino only when it could not be removed or
   no pod can be made.
   */
  method RunCryopodDelivery(game: Game, preflight: PreflightResult) returns (outcome: Outcome)
    requires game.Valid() && game.assets == NOTHING && game.failed == {}
    modifies game
    ensures game.Valid() && old(game.history) <= game.history
    ensures NeverBoth(game.history[|old(game.history)|..])
    ensures outcome == DeliveredInCryopod <==> game.assets.podInInventory
    ensures outcome == DeliveredAsLiveTame <==> game.assets.dinoAlive
    ensures Reachable(game.assets) == if outcome.DeliveredInCryopod? || outcome.DeliveredAsLiveTame? then 1 else 0
    ensures outcome == OutcomeOf(preflight, game.failed)
    // A pod that was tried for and not handed over is discarded, once.
    ensures game.discards == old(game.discards) +
                             if preflight == Ready && Spawn !in game.failed && outcome != DeliveredInCryopod then 1 else 0
    // A deferral touched nothing at all, and only a pre-flight Ready can produce a pod.
    ensures outcome == Deferred <==> preflight == Defer
    ensures outcome == Deferred ==> game.history == old(game.history)
    ensures outcome == DeliveredInCryopod ==> preflight == Ready
    ensures preflight == Fail ==> outcome == Failed && game.history == old(game.history)
  {
    match preflight {
      case Ready =>
      case Defer => return Deferred;
      case FallbackToLiveSpawn =>
        var spawned := game.SpawnDino();
        return if spawned then DeliveredAsLiveTame else Failed;
      case Fail => return Failed;
    }

    var spawned := game.SpawnDino();
    if !spawned {
      return Failed;
    }

    var built := game.BuildCryopod();
    if !built {
      game.DiscardCryopod();
      var removed := game.DestroyDino();
      return if removed then Failed else DeliveredAsLiveTame;
    }

    // The live dino goes before the pod becomes reachable.
    var destroyed := game.DestroyDino();
    if !destroyed {
      game.DiscardCryopod();
      return DeliveredAsLiveTame;
    }

    var added := game.AddCryopodToInventory();
    if !added {
      game.DiscardCryopod();
      return Failed;
    }
    return DeliveredInCryopod;
  }
}
