/**
 * The Hurtable component of src/hurtable.hpp: a health counter bounded by a
 * maximum, and a one-shot timer that hurt raises and process consumes.
 * The source's fields are 32-bit ints; they are unbounded here.
 */
module Hurtables {
  const DEFAULT_MAX_HEALTH: int := 100

  /** The three fields of a Hurtable. */
  datatype HurtState = HurtState(maxHealth: int, health: int, hurtTimer: int)

  /** A fresh Hurtable: full health of 100, no pending hurt. */
  function Initial(): (s: HurtState)
    ensures s.health == s.maxHealth == DEFAULT_MAX_HEALTH && s.hurtTimer == 0
  {
    HurtState(DEFAULT_MAX_HEALTH, DEFAULT_MAX_HEALTH, 0)
  }

  /** Health lies between zero and the maximum. */
  predicate Bounded(s: HurtState)
  {
    0 <= s.health <= s.maxHealth
  }

  /** process: reports whether a hurt was pending, and consumes one tick of it. */
  function ProcessSpec(s: HurtState): (r: (bool, HurtState))
    ensures r.0 <==> s.hurtTimer > 0
    ensures !r.0 ==> r.1 == s
    ensures r.0 ==> r.1 == s.(hurtTimer := s.hurtTimer - 1) && r.1.hurtTimer >= 0
  {
    if s.hurtTimer <= 0 then (false, s)
    else (true, s.(hurtTimer := if s.hurtTimer - 1 > 0 then s.hurtTimer - 1 else 0))
  }

  /** is_dead */
  predicate Dead(s: HurtState)
  {
    s.health <= 0
  }

  /** hurt: health drops by the damage but never below zero; one hurt becomes pending. */
  function HurtSpec(s: HurtState, damage: int): (r: HurtState)
    ensures r.maxHealth == s.maxHealth && r.hurtTimer == 1
    ensures r.health >= 0
    ensures r.health == s.health - damage || (r.health == 0 && s.health - damage < 0)
    ensures damage >= 0 && s.health >= 0 ==> r.health <= s.health
    ensures Dead(r) <==> s.health <= damage
  {
    HurtState(s.maxHealth, if s.health - damage > 0 then s.health - damage else 0, 1)
  }

  /** reset: back to full health; the timer is untouched. */
  function ResetSpec(s: HurtState): (r: HurtState)
    ensures r.health == r.maxHealth == s.maxHealth && r.hurtTimer == s.hurtTimer
  {
    s.(health := s.maxHealth)
  }

  /** add_health: health rises by the amount but never above the maximum. */
  function AddHealthSpec(s: HurtState, amount: int): (r: HurtState)
    ensures r.maxHealth == s.maxHealth && r.hurtTimer == s.hurtTimer
    ensures r.health <= r.maxHealth
    ensures r.health == s.health + amount || (r.health == s.maxHealth && s.health + amount > s.maxHealth)
  {
    s.(health := if s.maxHealth < s.health + amount then s.maxHealth else s.health + amount)
  }

  /** set_max_health: the new maximum, with health cut down to it when above. */
  function SetMaxHealthSpec(s: HurtState, newMax: int): (r: HurtState)
    ensures r.maxHealth == newMax && r.hurtTimer == s.hurtTimer
    ensures r.health <= newMax
    ensures r.health == s.health || (r.health == newMax && s.health > newMax)
  {
    HurtState(newMax, if newMax < s.health then newMax else s.health, s.hurtTimer)
  }

  /** After a hurt, process reports it exactly once, whatever the timer was before. */
  lemma HurtReportedOnce(s: HurtState, damage: int)
    ensures ProcessSpec(HurtSpec(s, damage)).0
    ensures !ProcessSpec(ProcessSpec(HurtSpec(s, damage)).1).0
    ensures ProcessSpec(HurtSpec(s, damage)).1.health == HurtSpec(s, damage).health
  {
  }

  /** process never changes health, so a pending hurt cannot kill or revive. */
  lemma ProcessKeepsHealth(s: HurtState)
    ensures ProcessSpec(s).1.health == s.health && ProcessSpec(s).1.maxHealth == s.maxHealth
    ensures Dead(ProcessSpec(s).1) <==> Dead(s)
  {
  }

  /** Each of the health-changing operations keeps health within its bounds, given non-negative arguments. */
  lemma OperationsKeepBounds(s: HurtState, damage: int, amount: int, newMax: int)
    requires Bounded(s)
    ensures damage >= 0 ==> Bounded(HurtSpec(s, damage))
    ensures amount >= 0 ==> Bounded(AddHealthSpec(s, amount))
    ensures newMax >= 0 ==> Bounded(SetMaxHealthSpec(s, newMax))
    ensures Bounded(ResetSpec(s)) && Bounded(ProcessSpec(s).1)
  {
  }

  class Hurtable {
    var maxHealth: int
    var health: int
    var hurtTimer: int

    function State(): (s: HurtState)
      reads this
    {
      HurtState(maxHealth, health, hurtTimer)
    }

    constructor ()
      ensures State() == Initial() && Bounded(State())
    {
      maxHealth := DEFAULT_MAX_HEALTH;
      health := DEFAULT_MAX_HEALTH;
      hurtTimer := 0;
    }

    method Process() returns (pending: bool)
      modifies this
      ensures (pending, State()) == ProcessSpec(old(State()))
    {
      if hurtTimer <= 0 {
        return false;
      }
      hurtTimer := if hurtTimer - 1 > 0 then hurtTimer - 1 else 0;
      return true;
    }

    predicate IsDead()
      reads this
    {
      Dead(State())
    }

    method Hurt(damage: int)
      modifies this
      ensures State() == HurtSpec(old(State()), damage)
    {
      health := if health - damage > 0 then health - damage else 0;
      hurtTimer := 1;
    }

    method Reset()
      modifies this
      ensures State() == ResetSpec(old(State()))
    {
      health := maxHealth;
    }

    method AddHealth(amount: int)
      modifies this
      ensures State() == AddHealthSpec(old(State()), amount)
    {
      health := if maxHealth < health + amount then maxHealth else health + amount;
    }

    method SetMaxHealth(newMax: int)
      modifies this
      ensures State() == SetMaxHealthSpec(old(State()), newMax)
    {
      maxHealth := newMax;
      health := if maxHealth < health then maxHealth else health;
    }
  }
}
