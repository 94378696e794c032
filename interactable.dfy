/**
 * The Interactable component of src/interactable.hpp and
 * src/interactable.cpp: an entity the player can use, holding an ordered list
 * of actions that run when it is used. An action shows a message, stores a
 * field for a level entity, ends the level or heals the player.
 */
module Interactables {
  import opened Wrappers
  import opened Component
  import opened Colors
  import opened LevelDefinitions
  import opened Masks
  import opened PhysicsBody
  import Games
  import Levels
  import Hurtables

  datatype Action =
    | ActionMessage(message: string, color: Color)
    | ActionLevelStore(entityLevelId: LevelEntityId, key: string, field: Field)
    | ActionEndLevel
    | HealthPickup(value: int)

  /** An ActionMessage built with only its text: shown in the palette's white. */
  function MessageAction(message: string): (a: Action)
    ensures a.ActionMessage? && a.message == message && a.color == PALETTE_WHITE
  {
    ActionMessage(message, PALETTE_WHITE)
  }

  /**
   * What the actions act on: the game's message queue, the level's stored
   * entity fields, the number of times the level was ended, and the first
   * player's health (none when there is no player, or it is not Hurtable).
   */
  datatype Effects = Effects(
    messages: seq<Games.Message>,
    entityFields: Levels.EntityFields,
    levelsEnded: nat,
    player: Option<Hurtables.HurtState>)

  /** execute_action. */
  function ExecuteSpec(e: Effects, a: Action): (r: Effects)
  {
    match a
    case ActionMessage(m, c) => e.(messages := e.messages + [Games.Message(m, c)])
    case ActionLevelStore(id, key, f) => e.(entityFields := Levels.StoreField(e.entityFields, id, key, f))
    case ActionEndLevel => e.(levelsEnded := e.levelsEnded + 1)
    case HealthPickup(v) => if e.player.None? then e else e.(player := Some(Hurtables.AddHealthSpec(e.player.value, v)))
  }

  /** The actions executed one after another, in list order. */
  function InteractSpec(e: Effects, actions: seq<Action>): (r: Effects)
  {
    if |actions| == 0 then e else ExecuteSpec(InteractSpec(e, actions[..|actions| - 1]), actions[|actions| - 1])
  }

  /** The messages of the actions, in order. */
  function MessagesOf(actions: seq<Action>): (r: seq<Games.Message>)
    ensures |r| <= |actions|
  {
    if |actions| == 0 then []
    else
      var last := match actions[|actions| - 1]
        case ActionMessage(m, c) => [Games.Message(m, c)]
        case _ => [];
      MessagesOf(actions[..|actions| - 1]) + last
  }

  /** How many of the actions end the level. */
  function EndLevelCount(actions: seq<Action>): (n: nat)
    ensures n <= |actions|
  {
    if |actions| == 0 then 0
    else EndLevelCount(actions[..|actions| - 1]) + if actions[|actions| - 1].ActionEndLevel? then 1 else 0
  }

  /** Running two lists of actions is running the first, then the second. */
  lemma {:induction false} InteractSplits(e: Effects, xs: seq<Action>, ys: seq<Action>)
    ensures InteractSpec(e, xs + ys) == InteractSpec(InteractSpec(e, xs), ys)
  {
    if |ys| == 0 {
      assert xs + ys == xs;
    } else {
      InteractSplits(e, xs, ys[..|ys| - 1]);
      assert (xs + ys)[..|xs + ys| - 1] == xs + ys[..|ys| - 1];
      assert (xs + ys)[|xs + ys| - 1] == ys[|ys| - 1];
    }
  }

  /** Every message action queues its message once, in list order, behind the messages already queued. */
  lemma {:induction false} InteractQueuesMessages(e: Effects, actions: seq<Action>)
    ensures InteractSpec(e, actions).messages == e.messages + MessagesOf(actions)
  {
    if |actions| > 0 {
      InteractQueuesMessages(e, actions[..|actions| - 1]);
    }
  }

  /** Every end-level action ends the level once. */
  lemma {:induction false} InteractEndsLevels(e: Effects, actions: seq<Action>)
    ensures InteractSpec(e, actions).levelsEnded == e.levelsEnded + EndLevelCount(actions)
  {
    if |actions| > 0 {
      InteractEndsLevels(e, actions[..|actions| - 1]);
    }
  }

  /** Without a hurtable player a pickup does nothing, and with one, non-negative pickups keep health in bounds. */
  lemma {:induction false} PickupsKeepHealthBounded(e: Effects, actions: seq<Action>)
    ensures e.player.None? ==> InteractSpec(e, actions).player.None?
    ensures e.player.Some? ==> InteractSpec(e, actions).player.Some?
    ensures e.player.Some? && Hurtables.Bounded(e.player.value) &&
            (forall i :: 0 <= i < |actions| && actions[i].HealthPickup? ==> actions[i].value >= 0) ==>
            Hurtables.Bounded(InteractSpec(e, actions).player.value)
  {
    if |actions| > 0 {
      PickupsKeepHealthBounded(e, actions[..|actions| - 1]);
      var before := InteractSpec(e, actions[..|actions| - 1]);
      var a := actions[|actions| - 1];
      if a.HealthPickup? && before.player.Some? && Hurtables.Bounded(before.player.value) && a.value >= 0 {
        Hurtables.OperationsKeepBounds(before.player.value, 0, a.value, 0);
      }
    }
  }

  /** A store action makes the field read back for that entity, until another store of the same key. */
  lemma StoreReadsBack(e: Effects, id: LevelEntityId, key: string, f: Field, out: Field)
    ensures Levels.LoadField(ExecuteSpec(e, ActionLevelStore(id, key, f)).entityFields, id, key, out) == f
  {
  }

  /** The effects as the objects hold them. */
  function EffectsOf(game: Games.Game, store: Levels.FieldStore, hurtable: Hurtables.Hurtable?): (e: Effects)
    reads game`messages, game`levelsEnded, store, hurtable
  {
    Effects(game.messages, store.entityFields, game.levelsEnded, if hurtable == null then None else Some(hurtable.State()))
  }

  /**
   * execute_action: hurtable is the first player's Hurtable component, null
   * when there is no player or it has none.
   */
  method ExecuteAction(a: Action, game: Games.Game, store: Levels.FieldStore, hurtable: Hurtables.Hurtable?)
    modifies game`messages, game`levelsEnded, store, hurtable
    ensures EffectsOf(game, store, hurtable) == ExecuteSpec(old(EffectsOf(game, store, hurtable)), a)
  {
    match a
    case ActionMessage(m, c) =>
      game.QueueMessage(m, c);
    case ActionLevelStore(id, key, f) =>
      store.Store(id, key, f);
    case ActionEndLevel =>
      game.EndLevel();
    case HealthPickup(v) =>
      if hurtable != null {
        hurtable.AddHealth(v);
      }
  }

  class Interactable {
    const entity: Entity
    var enabled: bool
    var interacted: bool
    var actions: seq<Action>

    /** Enabled, never used, holding the given actions in order. */
    constructor (entity: Entity, actions: seq<Action>)
      ensures this.entity == entity && this.actions == actions
      ensures IsEnabled() && !IsUsed()
    {
      this.entity := entity;
      this.actions := actions;
      enabled := true;
      interacted := false;
    }

    predicate IsEnabled()
      reads this
    {
      enabled
    }

    predicate IsUsed()
      reads this
    {
      interacted
    }

    method Enable()
      modifies this`enabled
      ensures IsEnabled() && IsUsed() == old(IsUsed())
    {
      enabled := true;
    }

    method Disable()
      modifies this`enabled
      ensures !IsEnabled() && IsUsed() == old(IsUsed())
    {
      enabled := false;
    }

    /** add: one more action, after the existing ones. */
    method Add(a: Action)
      modifies this`actions
      ensures actions == old(actions) + [a]
      ensures actions[..|old(actions)|] == old(actions)
    {
      actions := actions + [a];
    }

    /**
     * can_interact: physics is the entity's Physics component, if any. The
     * component interacts when it is enabled and its body's rectangle
     * overlaps the given one.
     */
    predicate CanInteract(other: Rect, physics: Option<Body>)
      reads this
    {
      enabled && physics.Some? && Overlap(physics.value.mask.RectAt(physics.value.x, physics.value.y), other)
    }

    /** interact: when enabled, marks the component used and executes each action once, in order. */
    method Interact(game: Games.Game, store: Levels.FieldStore, hurtable: Hurtables.Hurtable?)
      modifies this`interacted, game`messages, game`levelsEnded, store, hurtable
      ensures !old(IsEnabled()) ==> IsUsed() == old(IsUsed()) && EffectsOf(game, store, hurtable) == old(EffectsOf(game, store, hurtable))
      ensures old(IsEnabled()) ==> IsUsed() && EffectsOf(game, store, hurtable) == InteractSpec(old(EffectsOf(game, store, hurtable)), actions)
    {
      if !enabled {
        return;
      }
      interacted := true;
      ghost var start := EffectsOf(game, store, hurtable);
      for i := 0 to |actions|
        invariant interacted
        invariant EffectsOf(game, store, hurtable) == InteractSpec(start, actions[..i])
      {
        ExecuteAction(actions[i], game, store, hurtable);
        assert actions[..i + 1][..i] == actions[..i];
      }
      assert actions[..|actions|] == actions;
    }
  }

  /** Whatever the rectangle, a disabled component or one without a body cannot be interacted with. */
  lemma CannotInteract(i: Interactable, other: Rect, physics: Option<Body>)
    requires !i.IsEnabled() || physics.None?
    ensures !i.CanInteract(other, physics)
  {
  }

  /** Interaction is the overlap test either way round, so it does not depend on which side asks. */
  lemma InteractSymmetric(i: Interactable, other: Rect, b: Body)
    requires i.IsEnabled()
    ensures i.CanInteract(other, Some(b)) <==> Overlap(other, b.mask.RectAt(b.x, b.y))
  {
    OverlapSymmetric(b.mask.RectAt(b.x, b.y), other);
  }

  /**
   * get_position: the middle of the top edge of a body whose mask is not
   * offset, with the half width truncated; the origin without a body.
   */
  function GetPosition(physics: Option<Body>): (p: Point)
    ensures physics.None? ==> p == Point(0, 0)
    ensures physics.Some? ==> p.y == physics.value.y
    ensures physics.Some? && physics.value.mask.width >= 0 ==>
      physics.value.x <= p.x <= physics.value.x + physics.value.mask.width &&
      p.x - physics.value.x == physics.value.mask.width - (p.x - physics.value.x) - physics.value.mask.width % 2
  {
    match physics
    case None => Point(0, 0)
    case Some(b) => Point(b.x + CDiv(b.mask.width, 2), b.y)
  }
}
