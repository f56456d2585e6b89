/** The player's health with a short invincibility window after each hit
    (Assets/Scripts/PlayerHealth.cs). Frames arrive with their delta time;
    the game-over screen, sound and camera shake are reduced to the request
    that TakeDamage makes. */
module PlayerHealth {

  /** Serialized defaults of the component. */
  const MaxHealth: int := 2
  const InvincibilityDuration: real := 2.0

  const EnemyTag: string := "Enemy"

  /** The three fields the component updates. */
  datatype HealthState = HealthState(currentHealth: int, isInvincible: bool, invincibilityTimer: real)

  /** What reaches the component: a trigger contact with a tagged collider,
      or a frame of the given length. */
  datatype Event = Contact(tag: string) | Frame(deltaTime: real)

  /** The timer never exceeds a full window and is positive while the
      player is invincible. */
  predicate Valid(s: HealthState) {
    s.invincibilityTimer <= InvincibilityDuration &&
    (s.isInvincible ==> 0.0 < s.invincibilityTimer)
  }

  /** TakeDamage on a state: ignored while invincible, otherwise one point
      is lost and a full invincibility window starts. */
  function Hit(s: HealthState): (r: HealthState)
    ensures s.isInvincible ==> r == s
    ensures !s.isInvincible ==>
      r.currentHealth == s.currentHealth - 1 && r.isInvincible &&
      r.invincibilityTimer == InvincibilityDuration
    ensures Valid(s) ==> Valid(r)
  {
    if s.isInvincible then s
    else HealthState(s.currentHealth - 1, true, InvincibilityDuration)
  }

  /** HandleInvincibility on a state: while invincible the timer runs down
      by the frame time and the window closes once it reaches zero. */
  function Tick(s: HealthState, deltaTime: real): (r: HealthState)
    requires deltaTime >= 0.0
    ensures r.currentHealth == s.currentHealth
    ensures !s.isInvincible ==> r == s
    ensures s.isInvincible ==>
      r.invincibilityTimer == s.invincibilityTimer - deltaTime &&
      (r.isInvincible <==> r.invincibilityTimer > 0.0)
    ensures Valid(s) ==> Valid(r)
  {
    if s.isInvincible then
      var timer := s.invincibilityTimer - deltaTime;
      HealthState(s.currentHealth, timer > 0.0, timer)
    else s
  }

  /** One event: an enemy contact hits, any other contact is ignored, and a
      frame ticks. */
  function Step(s: HealthState, e: Event): HealthState
    requires e.Frame? ==> e.deltaTime >= 0.0
  {
    match e
    case Contact(tag) => if tag == EnemyTag then Hit(s) else s
    case Frame(dt) => Tick(s, dt)
  }

  predicate Forward(events: seq<Event>) {
    forall k :: 0 <= k < |events| ==> (events[k].Frame? ==> events[k].deltaTime >= 0.0)
  }

  function Run(s: HealthState, events: seq<Event>): HealthState
    requires Forward(events)
    decreases events
  {
    if events == [] then s else Run(Step(s, events[0]), events[1..])
  }

  /** Time covered by the frames among the events. */
  function Elapsed(events: seq<Event>): real {
    if events == [] then 0.0
    else (if events[0].Frame? then events[0].deltaTime else 0.0) + Elapsed(events[1..])
  }

  /** What is left of the current invincibility window. */
  function Lock(s: HealthState): real {
    if s.isInvincible then s.invincibilityTimer else 0.0
  }

  /** Runs keep the state valid and never raise health. */
  lemma {:induction false} RunValid(s: HealthState, events: seq<Event>)
    requires Valid(s) && Forward(events)
    ensures Valid(Run(s, events))
    ensures Run(s, events).currentHealth <= s.currentHealth
    decreases events
  {
    if events != [] {
      RunValid(Step(s, events[0]), events[1..]);
    }
  }

  /** Health is lost at most once per window: every point lost costs a full
      window, paid for by elapsed frame time and by the change in what is
      left of the window. */
  lemma {:induction false} LossNeedsTime(s: HealthState, events: seq<Event>)
    requires Valid(s) && Forward(events)
    ensures var t := Run(s, events);
      InvincibilityDuration * (s.currentHealth - t.currentHealth) as real
        <= Elapsed(events) + Lock(t) - Lock(s)
    decreases events
  {
    if events != [] {
      var s1 := Step(s, events[0]);
      LossNeedsTime(s1, events[1..]);
    }
  }

  /** While the window is open, contacts cost nothing until frames covering
      what is left of it have passed. */
  lemma {:induction false} ShieldedWhileInvincible(s: HealthState, events: seq<Event>)
    requires Valid(s) && Forward(events) && s.isInvincible
    requires Elapsed(events) < s.invincibilityTimer
    ensures Run(s, events).currentHealth == s.currentHealth
  {
    RunValid(s, events);
    LossNeedsTime(s, events);
  }

  /** From a fresh start, reaching game over takes MaxHealth hits spread over
      at least MaxHealth - 1 full windows of frame time. */
  lemma GameOverNeedsTime(events: seq<Event>)
    requires Forward(events)
    requires Run(HealthState(MaxHealth, false, 0.0), events).currentHealth <= 0
    ensures Elapsed(events) >= (MaxHealth - 1) as real * InvincibilityDuration
  {
    var s := HealthState(MaxHealth, false, 0.0);
    RunValid(s, events);
    LossNeedsTime(s, events);
  }

  class PlayerHealth {
    var currentHealth: int
    var isInvincible: bool
    var invincibilityTimer: real

    function State(): HealthState
      reads this
    {
      HealthState(currentHealth, isInvincible, invincibilityTimer)
    }

    /** Field defaults before Start runs. */
    constructor ()
      ensures State() == HealthState(0, false, 0.0)
    {
      currentHealth := 0;
      isInvincible := false;
      invincibilityTimer := 0.0;
    }

    method Start()
      modifies this`currentHealth
      ensures currentHealth == MaxHealth
    {
      currentHealth := MaxHealth;
    }

    /** Per-frame update. */
    method Update(deltaTime: real)
      requires deltaTime >= 0.0
      modifies this
      ensures State() == Tick(old(State()), deltaTime)
    {
      HandleInvincibility(deltaTime);
    }

    /** Only a collider tagged "Enemy" deals damage. */
    method OnTriggerEnter(tag: string) returns (gameOver: bool)
      modifies this
      ensures State() == Step(old(State()), Contact(tag))
      ensures gameOver ==> tag == EnemyTag
      ensures gameOver <==> tag == EnemyTag && !old(isInvincible) && currentHealth <= 0
    {
      gameOver := false;
      if tag == EnemyTag {
        gameOver := TakeDamage();
      }
    }

    /** Returns whether game over is requested: exactly on a hit that leaves
        no health. */
    method TakeDamage() returns (gameOver: bool)
      modifies this
      ensures State() == Hit(old(State()))
      ensures gameOver <==> !old(isInvincible) && currentHealth <= 0
    {
      if isInvincible {
        return false;
      }
      currentHealth := currentHealth - 1;
      isInvincible := true;
      invincibilityTimer := InvincibilityDuration;
      gameOver := currentHealth <= 0;
    }

    method HandleInvincibility(deltaTime: real)
      requires deltaTime >= 0.0
      modifies this
      ensures State() == Tick(old(State()), deltaTime)
    {
      if isInvincible {
        invincibilityTimer := invincibilityTimer - deltaTime;
        if invincibilityTimer <= 0.0 {
          isInvincible := false;
        }
      }
    }
  }
}
