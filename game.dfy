/**
 * The per-frame bookkeeping of src/game.cpp: timers that fire after a number
 * of updates, draws deferred to the end of a frame, the queue of messages a
 * typewriter reveals one character at a time, skipped ticks, the move to a
 * neighbouring level when the player leaves the screen, and the order of the
 * phases of one update. Callbacks are identified by a number and the calls a
 * frame makes on the entity manager are recorded as phases.
 */
module Games {
  import opened Wrappers
  import opened Component
  import opened Colors
  import opened LevelDefinitions

  /** A size_t. */
  type USize = x: int | 0 <= x < U64

  /** A std::function the game calls back, identified by a number; what it does is not modelled. */
  type Callback = nat

  // Elements kept in order while a predicate holds, as std::erase_if leaves them

  function Filter<T>(s: seq<T>, keep: T -> bool): (r: seq<T>)
    ensures |r| <= |s|
  {
    if |s| == 0 then [] else Filter(s[..|s| - 1], keep) + (if keep(s[|s| - 1]) then [s[|s| - 1]] else [])
  }

  lemma {:induction false} FilterMembers<T>(s: seq<T>, keep: T -> bool, x: T)
    ensures x in Filter(s, keep) <==> x in s && keep(x)
  {
    if |s| > 0 {
      FilterMembers(s[..|s| - 1], keep, x);
      assert s == s[..|s| - 1] + [s[|s| - 1]];
    }
  }

  /** Every element is either kept by a predicate or by its negation, exactly once. */
  lemma {:induction false} FilterSplits<T>(s: seq<T>, keep: T -> bool, drop: T -> bool)
    requires forall x :: drop(x) <==> !keep(x)
    ensures |Filter(s, keep)| + |Filter(s, drop)| == |s|
  {
    if |s| > 0 {
      FilterSplits(s[..|s| - 1], keep, drop);
    }
  }

  // Timers

  datatype Timer = Timer(entity: Entity, callback: Callback, frames: USize)

  /** The timers and the callbacks one update_timers leaves and fires. */
  datatype TimersOutcome = TimersOutcome(timers: seq<Timer>, fired: seq<Callback>)

  /** frames -= 1 on a size_t as written: a timer at zero wraps round to the largest count. */
  function CountDownAsWritten(t: Timer): (r: Timer)
    ensures r.entity == t.entity && r.callback == t.callback
    ensures t.frames > 0 ==> r.frames == t.frames - 1
    ensures t.frames == 0 ==> r.frames == U64 - 1
  {
    t.(frames := (t.frames - 1) % U64)
  }

  /** The decrement that stops at zero: a timer already at zero is due. */
  function CountDown(t: Timer): (r: Timer)
    ensures r.entity == t.entity && r.callback == t.callback
    ensures r.frames == 0 <==> t.frames <= 1
    ensures t.frames > 1 ==> r.frames == t.frames - 1
  {
    t.(frames := if t.frames == 0 then 0 else t.frames - 1)
  }

  /** The callbacks of the timers at zero, in order. */
  function Due(timers: seq<Timer>): (r: seq<Callback>)
    ensures |r| <= |timers|
  {
    if |timers| == 0 then []
    else Due(timers[..|timers| - 1]) + (if timers[|timers| - 1].frames == 0 then [timers[|timers| - 1].callback] else [])
  }

  lemma {:induction false} DueMembers(timers: seq<Timer>, c: Callback)
    ensures c in Due(timers) <==> exists t :: t in timers && t.frames == 0 && t.callback == c
  {
    if |timers| > 0 {
      DueMembers(timers[..|timers| - 1], c);
      assert timers == timers[..|timers| - 1] + [timers[|timers| - 1]];
    }
  }

  lemma {:induction false} DueCount(timers: seq<Timer>)
    ensures |Due(timers)| == |Filter(timers, (t: Timer) => t.frames == 0)|
  {
    if |timers| > 0 {
      DueCount(timers[..|timers| - 1]);
    }
  }

  predicate Exists(live: set<Entity>, t: Timer) { t.entity in live }
  predicate Pending(t: Timer) { t.frames > 0 }

  /** update_timers as written: drop dead entities' timers, count down with wrap-around, fire at zero, drop the expired. */
  function UpdateTimersAsWritten(timers: seq<Timer>, live: set<Entity>): (r: TimersOutcome)
    ensures |r.fired| <= |timers| && |r.timers| <= |timers|
  {
    var kept := Filter(timers, t => Exists(live, t));
    var counted := seq(|kept|, i requires 0 <= i < |kept| => CountDownAsWritten(kept[i]));
    TimersOutcome(Filter(counted, Pending), Due(counted))
  }

  /** A timer added for zero frames is never fired and never dropped as written. */
  lemma ZeroFrameTimerNeverFires(e: Entity, c: Callback)
    ensures UpdateTimersAsWritten([Timer(e, c, 0)], {e}) == TimersOutcome([Timer(e, c, U64 - 1)], [])
  {
    var kept := Filter([Timer(e, c, 0)], t => Exists({e}, t));
    assert kept == [Timer(e, c, 0)] by {
      assert [Timer(e, c, 0)][..0] == [];
    }
    var counted := seq(|kept|, i requires 0 <= i < |kept| => CountDownAsWritten(kept[i]));
    assert counted == [Timer(e, c, U64 - 1)];
    assert counted[..0] == [];
  }

  /** update_timers with the decrement stopping at zero. */
  function UpdateTimersSpec(timers: seq<Timer>, live: set<Entity>): (r: TimersOutcome)
    ensures |r.fired| <= |timers| && |r.timers| <= |timers|
  {
    var kept := Filter(timers, t => Exists(live, t));
    var counted := seq(|kept|, i requires 0 <= i < |kept| => CountDown(kept[i]));
    TimersOutcome(Filter(counted, Pending), Due(counted))
  }

  /** For timers of at least one frame, which is all the game ever adds, the two agree. */
  lemma AgreesFromOneFrame(timers: seq<Timer>, live: set<Entity>)
    requires forall i :: 0 <= i < |timers| ==> timers[i].frames >= 1
    ensures UpdateTimersAsWritten(timers, live) == UpdateTimersSpec(timers, live)
  {
    var kept := Filter(timers, t => Exists(live, t));
    forall i | 0 <= i < |kept|
      ensures CountDownAsWritten(kept[i]) == CountDown(kept[i])
    {
      FilterMembers(timers, t => Exists(live, t), kept[i]);
    }
    assert seq(|kept|, i requires 0 <= i < |kept| => CountDownAsWritten(kept[i]))
        == seq(|kept|, i requires 0 <= i < |kept| => CountDown(kept[i]));
  }

  /** A timer at zero fires at the next update and is dropped. */
  lemma ZeroFrameTimerFiresOnce(e: Entity, c: Callback)
    ensures UpdateTimersSpec([Timer(e, c, 0)], {e}) == TimersOutcome([], [c])
  {
    var kept := Filter([Timer(e, c, 0)], t => Exists({e}, t));
    assert kept == [Timer(e, c, 0)] by {
      assert [Timer(e, c, 0)][..0] == [];
    }
    var counted := seq(|kept|, i requires 0 <= i < |kept| => CountDown(kept[i]));
    assert counted == [Timer(e, c, 0)];
    assert counted[..0] == [];
  }

  /**
   * The fate of each timer in one update: a timer of a dead entity is gone
   * without firing; a live one due within a frame fires; a live one with
   * more frames stays, one frame closer; and nothing else appears.
   */
  lemma TimerFate(timers: seq<Timer>, live: set<Entity>, t: Timer)
    ensures t in timers && t.entity in live && t.frames <= 1 ==> t.callback in UpdateTimersSpec(timers, live).fired
    ensures t in timers && t.entity in live && t.frames > 1 ==> t.(frames := t.frames - 1) in UpdateTimersSpec(timers, live).timers
    ensures t in UpdateTimersSpec(timers, live).timers ==>
      t.entity in live && t.frames > 0 &&
      exists u :: u in timers && u.entity == t.entity && u.callback == t.callback && u.frames == t.frames + 1
  {
    var kept := Filter(timers, u => Exists(live, u));
    var counted := seq(|kept|, i requires 0 <= i < |kept| => CountDown(kept[i]));
    FilterMembers(timers, u => Exists(live, u), t);
    if t in timers && t.entity in live {
      var i :| 0 <= i < |kept| && kept[i] == t;
      assert counted[i] == CountDown(t);
      if t.frames <= 1 {
        DueMembers(counted, t.callback);
      } else {
        FilterMembers(counted, Pending, CountDown(t));
      }
    }
    FilterMembers(counted, Pending, t);
    if t in UpdateTimersSpec(timers, live).timers {
      var i :| 0 <= i < |counted| && counted[i] == t;
      assert kept[i].entity == t.entity && kept[i].callback == t.callback && kept[i].frames == t.frames + 1;
      FilterMembers(timers, u => Exists(live, u), kept[i]);
    }
  }

  /** Every callback fired belongs to a timer of a live entity that was due within a frame. */
  lemma FiredOnlyDue(timers: seq<Timer>, live: set<Entity>, c: Callback)
    requires c in UpdateTimersSpec(timers, live).fired
    ensures exists t :: t in timers && t.entity in live && t.frames <= 1 && t.callback == c
  {
    var kept := Filter(timers, u => Exists(live, u));
    var counted := seq(|kept|, i requires 0 <= i < |kept| => CountDown(kept[i]));
    DueMembers(counted, c);
    var u :| u in counted && u.frames == 0 && u.callback == c;
    var i :| 0 <= i < |counted| && counted[i] == u;
    FilterMembers(timers, v => Exists(live, v), kept[i]);
  }

  /** Each timer of a live entity either fires or stays, never both and never neither. */
  lemma FiresOrStays(timers: seq<Timer>, live: set<Entity>)
    ensures |UpdateTimersSpec(timers, live).fired| + |UpdateTimersSpec(timers, live).timers|
         == |Filter(timers, t => Exists(live, t))|
  {
    var kept := Filter(timers, u => Exists(live, u));
    var counted := seq(|kept|, i requires 0 <= i < |kept| => CountDown(kept[i]));
    DueCount(counted);
    FilterSplits(counted, Pending, (u: Timer) => u.frames == 0);
  }

  // Deferred draws

  datatype DeferredDraw = DeferredDraw(entity: Entity, callback: Callback)

  /** The callbacks draw_deferred runs: those of existing entities, in order. */
  function DrawnCallbacks(draws: seq<DeferredDraw>, live: set<Entity>): (r: seq<Callback>)
    ensures |r| <= |draws|
  {
    if |draws| == 0 then []
    else (DrawnCallbacks(draws[..|draws| - 1], live)
      + (if draws[|draws| - 1].entity in live then [draws[|draws| - 1].callback] else []))
  }

  /** A callback runs exactly when a deferred draw of an existing entity carries it. */
  lemma {:induction false} DrawnOnlyExisting(draws: seq<DeferredDraw>, live: set<Entity>, c: Callback)
    ensures c in DrawnCallbacks(draws, live) <==> exists d :: d in draws && d.entity in live && d.callback == c
  {
    if |draws| > 0 {
      DrawnOnlyExisting(draws[..|draws| - 1], live, c);
      assert draws == draws[..|draws| - 1] + [draws[|draws| - 1]];
    }
  }

  // Messages

  datatype Message = Message(text: string, color: Color)

  /** The frames the typewriter waits between two characters. */
  const MAX_DELAY: int := 4

  /** A value-initialised Color, as drawn_message starts with. */
  const NO_COLOR: Color := Color(0, 0, 0, 0)

  /**
   * The message queue (front first), the text shown so far, whether the
   * front message is fully shown, and the two statics of update_messages.
   */
  datatype Typewriter = Typewriter(messages: seq<Message>, drawn: Message, ready: bool, delay: int, skipping: bool)

  const INITIAL_TYPEWRITER: Typewriter := Typewriter([], Message("", NO_COLOR), false, 0, false)

  /** std::string::substr(0, n). */
  function Substr(s: string, n: nat): (r: string)
    ensures r <= s && |r| == if n <= |s| then n else |s|
  {
    if n <= |s| then s[..n] else s
  }

  /** queue_message: the message joins the back of the queue. */
  function QueueSpec(t: Typewriter, m: Message): (r: Typewriter)
    ensures r.messages == t.messages + [m]
    ensures r.drawn == t.drawn && r.ready == t.ready && r.delay == t.delay && r.skipping == t.skipping
  {
    t.(messages := t.messages + [m])
  }

  /** update_messages for one frame, given whether jump, shoot or special was pressed. */
  function UpdateMessagesSpec(t: Typewriter, actionPressed: bool): (r: Typewriter)
  {
    if |t.messages| == 0 then t
    else
      var skipping := t.skipping || (!t.ready && actionPressed);
      var front := t.messages[0];
      if !t.ready then
        if t.drawn.text != front.text then
          var drawn := if t.delay == 0 then Message(Substr(front.text, |t.drawn.text| + 1), front.color) else t.drawn;
          var delay := if skipping then 0 else if t.delay == 0 then MAX_DELAY else t.delay - 1;
          t.(drawn := drawn, delay := delay, skipping := skipping)
        else
          t.(ready := true, drawn := front, skipping := skipping)
      else if actionPressed then
        var rest := t.messages[1..];
        var drawn := if |rest| > 0 && |rest[0].text| > 0 then Message([rest[0].text[0]], rest[0].color) else Message("", PALETTE_WHITE);
        t.(messages := rest, ready := false, drawn := drawn, skipping := false)
      else
        t
  }

  /**
   * What the typewriter keeps: with no message nothing is shown; a ready
   * message is shown whole; otherwise the shown text is a prefix of the
   * front message.
   */
  ghost predicate Shows(t: Typewriter)
  {
    (|t.messages| == 0 ==> t.drawn.text == [] && !t.ready) &&
    (|t.messages| > 0 && t.ready ==> t.drawn == t.messages[0]) &&
    (|t.messages| > 0 && !t.ready ==> t.drawn.text <= t.messages[0].text)
  }

  lemma InitialShows()
    ensures Shows(INITIAL_TYPEWRITER)
  {
  }

  lemma QueueShows(t: Typewriter, m: Message)
    requires Shows(t)
    ensures Shows(QueueSpec(t, m))
  {
  }

  lemma UpdateShows(t: Typewriter, actionPressed: bool)
    requires Shows(t)
    ensures Shows(UpdateMessagesSpec(t, actionPressed))
  {
  }

  /** The queue changes only when a ready message is dismissed, and then loses exactly its front. */
  lemma MessagesFifo(t: Typewriter, actionPressed: bool)
    ensures var r := UpdateMessagesSpec(t, actionPressed);
      (r.messages != t.messages <==> |t.messages| > 0 && t.ready && actionPressed) &&
      (r.messages != t.messages ==> r.messages == t.messages[1..])
  {
    var r := UpdateMessagesSpec(t, actionPressed);
    if |t.messages| > 0 && t.ready && actionPressed {
      assert |r.messages| < |t.messages|;
    }
  }

  /** A reveal shows one more character of the front message, in its colour. */
  lemma RevealGrows(t: Typewriter, actionPressed: bool)
    requires Shows(t) && |t.messages| > 0 && !t.ready && t.drawn.text != t.messages[0].text && t.delay == 0
    ensures var r := UpdateMessagesSpec(t, actionPressed);
      !r.ready && r.messages == t.messages &&
      |r.drawn.text| == |t.drawn.text| + 1 && r.drawn.text <= t.messages[0].text &&
      r.drawn.color == t.messages[0].color
  {
  }

  /** Between reveals the text waits; skipping makes every frame a reveal. */
  lemma DelayBetweenReveals(t: Typewriter, actionPressed: bool)
    requires |t.messages| > 0 && !t.ready && t.drawn.text != t.messages[0].text && t.delay != 0
    ensures var r := UpdateMessagesSpec(t, actionPressed);
      r.drawn == t.drawn && !r.ready &&
      (r.skipping <==> t.skipping || actionPressed) &&
      (r.skipping ==> r.delay == 0) && (!r.skipping ==> r.delay == t.delay - 1)
  {
  }

  /** Once the whole front message is shown, it becomes ready and is shown in its own colour. */
  lemma ReadyWhenComplete(t: Typewriter, actionPressed: bool)
    requires |t.messages| > 0 && !t.ready && t.drawn.text == t.messages[0].text
    ensures var r := UpdateMessagesSpec(t, actionPressed);
      r.ready && r.drawn == t.messages[0] && r.messages == t.messages
  {
  }

  /** A ready message waits for an action; the action pops it and starts the next at its first character. */
  lemma DismissReady(t: Typewriter, actionPressed: bool)
    requires |t.messages| > 0 && t.ready
    ensures var r := UpdateMessagesSpec(t, actionPressed);
      (!actionPressed ==> r == t) &&
      (actionPressed ==>
        r.messages == t.messages[1..] && !r.ready && !r.skipping &&
        (|r.messages| > 0 ==> r.drawn.text <= r.messages[0].text && |r.drawn.text| == if |r.messages[0].text| > 0 then 1 else 0) &&
        (|r.messages| == 0 ==> r.drawn == Message("", PALETTE_WHITE)))
  {
  }

  // The player at the level's edge

  datatype Position = Position(x: int, y: int)

  datatype LevelSize = LevelSize(width: int, height: int)

  /** The edge a player position crosses, the first of West, East, North, South that applies. */
  function EdgeDirection(p: Position, size: LevelSize): (d: Option<Direction>)
    ensures d.None? <==> 4 <= p.x < size.width - 4 && 0 <= p.y < size.height
    ensures d.Some? ==> d.value in {West, East, North, South}
    ensures d == Some(West) <==> p.x < 4
    ensures d == Some(East) <==> 4 <= p.x && p.x >= size.width - 4
  {
    if p.x < 4 then Some(West)
    else if p.x >= size.width - 4 then Some(East)
    else if p.y < 0 then Some(North)
    else if p.y >= size.height then Some(South)
    else None
  }

  /** Where the player lands after crossing edge d into a level of the given size (an int64 narrowed to int). */
  function Arrival(p: Position, d: Direction, size: LevelSize): (q: Position)
  {
    match d
    case West => p.(x := ToInt32(size.width - 5))
    case East => p.(x := 5)
    case North => p.(y := ToInt32(size.height - 16))
    case South => p.(y := 2)
    case _ => p
  }

  /** The player lands inside the new level on the axis it crossed, so it does not cross straight back. */
  lemma ArrivalInside(p: Position, d: Direction, size: LevelSize)
    requires d in {West, East, North, South}
    requires 10 <= size.width < 0x8000_0000 && 17 <= size.height < 0x8000_0000
    ensures var q := Arrival(p, d, size);
      (d in {West, East} ==> 4 <= q.x < size.width - 4 && q.y == p.y) &&
      (d in {North, South} ==> 0 <= q.y < size.height && q.x == p.x)
  {
  }

  // One update

  /** What one update does outside the game's own state, in order. */
  datatype Phase =
    | LoadNeighbour(direction: Direction)
    | ClearParticles
    | CallDestroy
    | CallInit
    | CallPreUpdate
    | CallUpdate
    | CallPostUpdate

  ghost predicate UpdatePhase(ph: Phase) { ph.CallPreUpdate? || ph.CallUpdate? || ph.CallPostUpdate? }

  /**
   * The game's state: the tick counter, the ticks still to skip, timers,
   * the callbacks run so far, deferred draws, the typewriter, the current
   * level's size and the front player's position (none without a player).
   */
  datatype GameState = GameState(
    ticks: USize, skipTicks: USize, timers: seq<Timer>, fired: seq<Callback>, deferred: seq<DeferredDraw>,
    typewriter: Typewriter, size: LevelSize, player: Option<Position>)

  /**
   * The level-edge transition: the neighbour in the crossed direction is
   * loaded, when there is one, and gives the new size, and the player lands
   * inside it.
   */
  function EdgeSpec(s: GameState, neighbours: map<Direction, LevelSize>): (r: GameState)
    ensures r.skipTicks == s.skipTicks && r.typewriter == s.typewriter && r.timers == s.timers && r.fired == s.fired
  {
    if s.player.None? then s
    else match EdgeDirection(s.player.value, s.size)
      case None => s
      case Some(d) =>
        var size := if d in neighbours then neighbours[d] else s.size;
        s.(size := size, player := Some(Arrival(s.player.value, d, size)))
  }

  /** The typewriter while messages are queued, then the timers. */
  function StepSpec(s: GameState, actionPressed: bool, live: set<Entity>): (r: GameState)
  {
    var s1 := if |s.typewriter.messages| == 0 then s else s.(typewriter := UpdateMessagesSpec(s.typewriter, actionPressed));
    var t := UpdateTimersSpec(s1.timers, live);
    s1.(timers := t.timers, fired := s1.fired + t.fired)
  }

  /**
   * G_update_game. live is the set of entities that exist when the timers
   * are updated; neighbours gives the size of each neighbouring level.
   */
  function UpdateSpec(s: GameState, actionPressed: bool, live: set<Entity>, neighbours: map<Direction, LevelSize>): (r: GameState)
  {
    SkipOrStepSpec(EdgeSpec(s.(ticks := (s.ticks + 1) % U64), neighbours), actionPressed, live)
  }

  /** A skipped tick only counts the skip down; otherwise the update steps run. */
  function SkipOrStepSpec(s: GameState, actionPressed: bool, live: set<Entity>): (r: GameState)
  {
    if s.skipTicks > 0 then s.(skipTicks := s.skipTicks - 1) else StepSpec(s, actionPressed, live)
  }

  /** The phases the edge check appends: the neighbour load, particles cleared, new components initialised. */
  function EdgePhases(s: GameState): (r: seq<Phase>)
  {
    if s.player.Some? && EdgeDirection(s.player.value, s.size).Some?
    then [LoadNeighbour(EdgeDirection(s.player.value, s.size).value), ClearParticles, CallInit]
    else []
  }

  /** The phases after the skip check: the update phases while no message is queued, then init. */
  function StepPhases(s: GameState): (r: seq<Phase>)
  {
    if s.skipTicks > 0 then []
    else if |s.typewriter.messages| == 0 then [CallPreUpdate, CallUpdate, CallPostUpdate, CallInit]
    else [CallInit]
  }

  /** The phases one update runs, in order: the edge check, destroy and init, then the update steps. */
  function UpdatePhases(s: GameState): (r: seq<Phase>)
  {
    EdgePhases(s) + [CallDestroy, CallInit] + StepPhases(s)
  }

  lemma Associative<T>(a: seq<T>, b: seq<T>, c: seq<T>, d: seq<T>)
    ensures a + b + c + d == a + (b + c + d)
  {
  }

  /** An update loads at most one neighbour, first of all, and exactly when the player is past an edge. */
  lemma AtMostOneNeighbour(s: GameState)
    ensures var p := UpdatePhases(s);
      |p| > 0 &&
      (forall i :: 0 < i < |p| ==> !p[i].LoadNeighbour?) &&
      (p[0].LoadNeighbour? <==> s.player.Some? && EdgeDirection(s.player.value, s.size).Some?) &&
      (p[0].LoadNeighbour? ==> p[0].direction == EdgeDirection(s.player.value, s.size).value)
  {
  }

  /** The update phases run exactly when no tick is skipped and no message is queued, in the order pre, update, post. */
  lemma PhasesOnlyWhenIdle(s: GameState)
    ensures var p := UpdatePhases(s);
      ((exists i :: 0 <= i < |p| && UpdatePhase(p[i])) <==> s.skipTicks == 0 && |s.typewriter.messages| == 0) &&
      (s.skipTicks == 0 && |s.typewriter.messages| == 0 ==> p[|p| - 4..] == [CallPreUpdate, CallUpdate, CallPostUpdate, CallInit])
  {
    var p := UpdatePhases(s);
    if s.skipTicks == 0 && |s.typewriter.messages| == 0 {
      assert UpdatePhase(p[|p| - 4]);
    }
  }

  /** A skipped tick counts the skip down and leaves timers, callbacks and messages alone. */
  lemma SkippedTick(s: GameState, actionPressed: bool, live: set<Entity>, neighbours: map<Direction, LevelSize>)
    requires s.skipTicks > 0
    ensures var r := UpdateSpec(s, actionPressed, live, neighbours);
      r.skipTicks == s.skipTicks - 1 && r.timers == s.timers && r.fired == s.fired && r.typewriter == s.typewriter
  {
  }

  /** n updates in a row with the same inputs. */
  function Updates(s: GameState, n: nat, actionPressed: bool, live: set<Entity>, neighbours: map<Direction, LevelSize>): (r: GameState)
    decreases n
  {
    if n == 0 then s else Updates(UpdateSpec(s, actionPressed, live, neighbours), n - 1, actionPressed, live, neighbours)
  }

  /** skip_ticks(n): n more ticks to skip, on a size_t. */
  function SkipTicksSpec(s: GameState, n: USize): (r: GameState)
    ensures r == s.(skipTicks := r.skipTicks)
    ensures s.skipTicks + n < U64 ==> r.skipTicks == s.skipTicks + n
  {
    s.(skipTicks := (s.skipTicks + n) % U64)
  }

  /**
   * With n ticks to skip, each of the next n updates runs no update phase
   * and touches no timer, callback or message, and then nothing is left to
   * skip.
   */
  lemma {:induction false} SkipsExactly(s: GameState, n: nat, actionPressed: bool, live: set<Entity>, neighbours: map<Direction, LevelSize>)
    requires s.skipTicks == n
    decreases n
    ensures forall k :: 0 <= k < n ==>
      Updates(s, k, actionPressed, live, neighbours).skipTicks == n - k &&
      (forall ph :: ph in UpdatePhases(Updates(s, k, actionPressed, live, neighbours)) ==> !UpdatePhase(ph))
    ensures var r := Updates(s, n, actionPressed, live, neighbours);
      r.skipTicks == 0 && r.timers == s.timers && r.fired == s.fired && r.typewriter == s.typewriter
  {
    if n > 0 {
      var s1 := UpdateSpec(s, actionPressed, live, neighbours);
      SkippedTick(s, actionPressed, live, neighbours);
      SkipsExactly(s1, n - 1, actionPressed, live, neighbours);
      forall k | 0 <= k < n
        ensures Updates(s, k, actionPressed, live, neighbours).skipTicks == n - k
        ensures forall ph :: ph in UpdatePhases(Updates(s, k, actionPressed, live, neighbours)) ==> !UpdatePhase(ph)
      {
        if k > 0 {
          assert Updates(s, k, actionPressed, live, neighbours) == Updates(s1, k - 1, actionPressed, live, neighbours);
        }
      }
    }
  }

  /** The first erase_if of update_timers: the timers of entities that still exist. */
  method EraseDead(timers: seq<Timer>, live: set<Entity>) returns (kept: seq<Timer>)
    ensures kept == Filter(timers, t => Exists(live, t))
  {
    kept := [];
    for i := 0 to |timers|
      invariant kept == Filter(timers[..i], t => Exists(live, t))
    {
      assert timers[..i + 1][..i] == timers[..i];
      if timers[i].entity in live {
        kept := kept + [timers[i]];
      }
    }
    assert timers[..|timers|] == timers;
  }

  /** The loop of update_timers: each timer counts down once, and fires when it reaches zero. */
  method CountDownEach(timers: seq<Timer>) returns (counted: seq<Timer>, due: seq<Callback>)
    ensures counted == seq(|timers|, i requires 0 <= i < |timers| => CountDown(timers[i]))
    ensures due == Due(counted)
  {
    counted, due := timers, [];
    for i := 0 to |counted|
      invariant |counted| == |timers|
      invariant forall j :: 0 <= j < i ==> counted[j] == CountDown(timers[j])
      invariant forall j :: i <= j < |counted| ==> counted[j] == timers[j]
      invariant due == Due(counted[..i])
    {
      counted := counted[i := CountDown(counted[i])];
      assert counted[..i + 1][..i] == counted[..i];
      if counted[i].frames == 0 {
        due := due + [counted[i].callback];
      }
    }
    assert counted[..|counted|] == counted;
  }

  /** The second erase_if of update_timers: the timers still counting. */
  method EraseExpired(timers: seq<Timer>) returns (pending: seq<Timer>)
    ensures pending == Filter(timers, Pending)
  {
    pending := [];
    for i := 0 to |timers|
      invariant pending == Filter(timers[..i], Pending)
    {
      assert timers[..i + 1][..i] == timers[..i];
      if timers[i].frames > 0 {
        pending := pending + [timers[i]];
      }
    }
    assert timers[..|timers|] == timers;
  }

  /** The game's frame state. */
  class Game {
    var ticks: USize
    var skipTicks: USize
    var timers: seq<Timer>
    var fired: seq<Callback>
    var deferred: seq<DeferredDraw>
    var messages: seq<Message>
    var drawn: Message
    var ready: bool
    var delay: int
    var skipping: bool
    var size: LevelSize
    var player: Option<Position>
    var phases: seq<Phase>
    /** How many times end_level was called; what it does is not part of this model. */
    var levelsEnded: nat

    function TypewriterView(): (t: Typewriter)
      reads this`messages, this`drawn, this`ready, this`delay, this`skipping
    {
      Typewriter(messages, drawn, ready, delay, skipping)
    }

    function State(): (s: GameState)
      reads this`ticks, this`skipTicks, this`timers, this`fired, this`deferred, this`size, this`player
      reads this`messages, this`drawn, this`ready, this`delay, this`skipping
    {
      GameState(ticks, skipTicks, timers, fired, deferred, Typewriter(messages, drawn, ready, delay, skipping), size, player)
    }

    /** A game before its first frame, in a level of the given size. */
    constructor (size: LevelSize, player: Option<Position>)
      ensures State() == GameState(0, 0, [], [], [], INITIAL_TYPEWRITER, size, player) && phases == [] && levelsEnded == 0
    {
      ticks, skipTicks, timers, fired, deferred := 0, 0, [], [], [];
      messages, drawn, ready, delay, skipping := [], Message("", NO_COLOR), false, 0, false;
      this.size, this.player, phases, levelsEnded := size, player, [], 0;
    }

    method AddTimer(entity: Entity, callback: Callback, frames: USize)
      modifies this`timers
      ensures timers == old(timers) + [Timer(entity, callback, frames)]
    {
      timers := timers + [Timer(entity, callback, frames)];
    }

    /** update_timers, with the decrement stopping at zero. */
    method UpdateTimers(live: set<Entity>)
      modifies this`timers, this`fired
      ensures timers == UpdateTimersSpec(old(timers), live).timers
      ensures fired == old(fired) + UpdateTimersSpec(old(timers), live).fired
    {
      timers := EraseDead(timers, live);
      var due;
      timers, due := CountDownEach(timers);
      fired := fired + due;
      timers := EraseExpired(timers);
    }

    method DeferDraw(entity: Entity, callback: Callback)
      modifies this`deferred
      ensures deferred == old(deferred) + [DeferredDraw(entity, callback)]
    {
      deferred := deferred + [DeferredDraw(entity, callback)];
    }

    method DrawDeferred(live: set<Entity>)
      modifies this`deferred, this`fired
      ensures fired == old(fired) + DrawnCallbacks(old(deferred), live)
      ensures deferred == []
    {
      var draws := deferred;
      ghost var firedBefore := fired;
      for i := 0 to |draws|
        invariant fired == firedBefore + DrawnCallbacks(draws[..i], live)
      {
        assert draws[..i + 1][..i] == draws[..i];
        if draws[i].entity in live {
          fired := fired + [draws[i].callback];
        }
      }
      assert draws[..|draws|] == draws;
      deferred := [];
    }

    method QueueMessage(text: string, color: Color)
      modifies this`messages
      ensures TypewriterView() == QueueSpec(old(TypewriterView()), Message(text, color))
    {
      messages := messages + [Message(text, color)];
    }

    method UpdateMessages(actionPressed: bool)
      modifies this`messages, this`drawn, this`ready, this`delay, this`skipping
      ensures TypewriterView() == UpdateMessagesSpec(old(TypewriterView()), actionPressed)
    {
      if |messages| == 0 {
        return;
      }
      if !ready && actionPressed {
        skipping := true;
      }
      if !ready {
        if drawn.text != messages[0].text {
          if delay == 0 {
            delay := MAX_DELAY;
            drawn := Message(Substr(messages[0].text, |drawn.text| + 1), messages[0].color);
          } else {
            delay := delay - 1;
          }
          if skipping {
            delay := 0;
          }
        } else {
          ready := true;
          drawn := messages[0];
        }
      } else if actionPressed {
        skipping := false;
        messages := messages[1..];
        ready := false;
        drawn := Message("", PALETTE_WHITE);
        if |messages| > 0 && |messages[0].text| > 0 {
          drawn := Message([messages[0].text[0]], messages[0].color);
        }
      }
    }

    method SkipTicks(count: USize)
      modifies this`skipTicks
      ensures State() == SkipTicksSpec(old(State()), count)
    {
      skipTicks := (skipTicks + count) % U64;
    }

    method EndLevel()
      modifies this`levelsEnded
      ensures levelsEnded == old(levelsEnded) + 1
    {
      levelsEnded := levelsEnded + 1;
    }

    /** The level-edge check of G_update_game. */
    method CrossEdge(neighbours: map<Direction, LevelSize>)
      modifies this`size, this`player, this`phases
      ensures State() == EdgeSpec(old(State()), neighbours)
      ensures phases == old(phases) + EdgePhases(old(State()))
    {
      if player.None? {
        return;
      }
      var p := player.value;
      var edge := EdgeDirection(p, size);
      if edge.None? {
        return;
      }
      var d := edge.value;
      phases := phases + [LoadNeighbour(d)];
      if d in neighbours {
        size := neighbours[d];
      }
      player := Some(Arrival(p, d, size));
      phases := phases + [ClearParticles, CallInit];
    }

    /** G_update_game. */
    method Update(actionPressed: bool, live: set<Entity>, neighbours: map<Direction, LevelSize>)
      modifies this`ticks, this`size, this`player, this`phases, this`skipTicks
      modifies this`messages, this`drawn, this`ready, this`delay, this`skipping, this`timers, this`fired
      ensures State() == UpdateSpec(old(State()), actionPressed, live, neighbours)
      ensures phases == old(phases) + UpdatePhases(old(State()))
      ensures levelsEnded == old(levelsEnded)
    {
      ghost var s := State();
      ghost var s0 := s.(ticks := (ticks + 1) % U64);
      ticks := (ticks + 1) % U64;
      assert State() == s0;
      assert EdgePhases(s0) == EdgePhases(s);
      CrossEdge(neighbours);
      ghost var s1 := EdgeSpec(s0, neighbours);
      assert State() == s1;
      phases := phases + [CallDestroy, CallInit];
      assert StepPhases(s1) == StepPhases(s);
      ghost var p1 := phases;
      SkipOrStep(actionPressed, live);
      assert State() == SkipOrStepSpec(s1, actionPressed, live);
      assert phases == p1 + StepPhases(s);
      Associative(old(phases), EdgePhases(s), [CallDestroy, CallInit], StepPhases(s));
    }

    /** The skip check of G_update_game and what follows it. */
    method SkipOrStep(actionPressed: bool, live: set<Entity>)
      modifies this`skipTicks, this`phases, this`messages, this`drawn, this`ready, this`delay, this`skipping, this`timers, this`fired
      ensures State() == SkipOrStepSpec(old(State()), actionPressed, live)
      ensures phases == old(phases) + StepPhases(old(State()))
    {
      if skipTicks > 0 {
        skipTicks := skipTicks - 1;
      } else {
        Step(actionPressed, live);
      }
    }

    /** The part of G_update_game after the skip check. */
    method Step(actionPressed: bool, live: set<Entity>)
      requires skipTicks == 0
      modifies this`phases, this`messages, this`drawn, this`ready, this`delay, this`skipping, this`timers, this`fired
      ensures State() == StepSpec(old(State()), actionPressed, live)
      ensures phases == old(phases) + StepPhases(old(State()))
    {
      ghost var s0 := State();
      if |messages| == 0 {
        phases := phases + [CallPreUpdate, CallUpdate, CallPostUpdate];
      } else {
        UpdateMessages(actionPressed);
      }
      ghost var s1 := State();
      assert s1 == s0.(typewriter := s1.typewriter);
      phases := phases + [CallInit];
      UpdateTimers(live);
      assert State() == s1.(timers := timers, fired := fired);
    }
  }
}
