/** The player's flashlight (Assets/Scripts/FlashLightDetector.cs): each
    frame it switches off the monsters it lit last frame, casts a fan of rays
    and lights every monster a ray hits squarely and unobstructed, keeping a
    record of each monster's light state. Monsters are numbered; their
    IsInLight flags live in a shared array indexed by that number. The
    physics queries are inputs: `cast` gives the hits along each ray. */
module Flashlight {
  import opened Engine

  /** A hit counts only if its direction is within 60 degrees of forward. */
  const MinDotProduct: real := 0.5
  /** The obstruction ray stops this short of the hit. */
  const ObstructionMargin: real := 0.1

  datatype Axis = UpAxis | RightAxis

  /** A detection ray: straight ahead, or the forward direction turned by
      `angle` degrees about one of the light's axes. */
  datatype Ray = Forward | Tilted(axis: Axis, angle: real)

  /** One hit of a ray: the monster hit (if the collider is one), its
      distance, the dot product of forward with the direction to the hit
      point, and the nearest obstacle towards the hit point, if any. */
  datatype Hit = Hit(monster: Option<nat>, distance: real, dot: real, obstacle: Option<real>)

  /** CastRay's test for lighting a monster. */
  predicate Qualifies(h: Hit) {
    h.monster.Some? && h.dot > MinDotProduct &&
    !(h.obstacle.Some? && h.obstacle.value <= h.distance - ObstructionMargin)
  }

  /** The monsters lit by the hits of one ray. */
  function Lit(hits: seq<Hit>): (ids: set<nat>)
    ensures forall m :: m in ids <==>
      exists k :: 0 <= k < |hits| && Qualifies(hits[k]) && hits[k].monster.value == m
  {
    if hits == [] then {}
    else
      var last := hits[|hits| - 1];
      Lit(hits[..|hits| - 1]) + (if Qualifies(last) then {last.monster.value} else {})
  }

  /** The monsters lit by a sequence of rays. */
  function LitBy(rays: seq<Ray>, cast: Ray -> seq<Hit>): (ids: set<nat>)
    ensures forall m :: m in ids <==> exists k :: 0 <= k < |rays| && m in Lit(cast(rays[k]))
  {
    if rays == [] then {}
    else LitBy(rays[..|rays| - 1], cast) + Lit(cast(rays[|rays| - 1]))
  }

  lemma LitByStep(rays: seq<Ray>, r: Ray, cast: Ray -> seq<Hit>)
    ensures LitBy(rays + [r], cast) == LitBy(rays, cast) + Lit(cast(r))
  {
    assert (rays + [r])[..|rays|] == rays;
  }

  /** The four rays of loop round i: turned by +-(i / rayCount) * coneAngle
      about the up axis, then about the right axis. */
  function Group(rayCount: int, coneAngle: real, i: nat): seq<Ray>
    requires rayCount > 0
  {
    var angle := (i as real / rayCount as real) * coneAngle;
    [Tilted(UpAxis, angle), Tilted(UpAxis, -angle), Tilted(RightAxis, angle), Tilted(RightAxis, -angle)]
  }

  /** The tilted rays of the first n loop rounds, in casting order. */
  function Tilts(rayCount: int, coneAngle: real, n: nat): (rays: seq<Ray>)
    requires rayCount > 0 || n == 0
    ensures |rays| == 4 * n
  {
    if n == 0 then [] else Tilts(rayCount, coneAngle, n - 1) + Group(rayCount, coneAngle, n - 1)
  }

  /** Ray k of the tilted rays is ray k % 4 of round k / 4. */
  lemma {:induction false} TiltsAt(rayCount: int, coneAngle: real, n: nat, k: nat)
    requires rayCount > 0 && k < 4 * n
    ensures Tilts(rayCount, coneAngle, n)[k] == Group(rayCount, coneAngle, k / 4)[k % 4]
  {
    if k < 4 * (n - 1) {
      TiltsAt(rayCount, coneAngle, n - 1, k);
    }
  }

  /** Every ray of a frame, in casting order. */
  function Plan(rayCount: int, coneAngle: real): seq<Ray> {
    [Forward] + Tilts(rayCount, coneAngle, if rayCount > 0 then rayCount else 0)
  }

  /** A frame casts one forward ray and four per loop round; round i turns
      by (i / rayCount) * coneAngle both ways about both axes, so every
      tilted ray is turned by less than the cone angle. */
  lemma PlanShape(rayCount: int, coneAngle: real)
    ensures var rays := Plan(rayCount, coneAngle);
      |rays| == 1 + 4 * (if rayCount > 0 then rayCount else 0) && rays[0] == Forward &&
      forall k :: 1 <= k < |rays| ==>
        rays[k].Tilted? && (coneAngle > 0.0 ==> -coneAngle < rays[k].angle < coneAngle)
  {
    var rays := Plan(rayCount, coneAngle);
    var tilts := Tilts(rayCount, coneAngle, if rayCount > 0 then rayCount else 0);
    forall k | 1 <= k < |rays|
      ensures rays[k].Tilted? && (coneAngle > 0.0 ==> -coneAngle < rays[k].angle < coneAngle)
    {
      var i := (k - 1) / 4;
      assert i < rayCount;
      TiltsAt(rayCount, coneAngle, rayCount, k - 1);
      assert rays[k] == tilts[k - 1] == Group(rayCount, coneAngle, i)[(k - 1) % 4];
      if coneAngle > 0.0 {
        TurnInsideCone(i, rayCount, coneAngle);
      }
    }
  }

  /** Round i of rayCount turns by at least zero and less than the cone angle. */
  lemma TurnInsideCone(i: nat, rayCount: int, coneAngle: real)
    requires i < rayCount && coneAngle > 0.0
    ensures 0.0 <= (i as real / rayCount as real) * coneAngle < coneAngle
  {
    var f := i as real / rayCount as real;
    assert f * rayCount as real == i as real;
    assert 0.0 <= f < 1.0;
    assert f * coneAngle < 1.0 * coneAngle;
  }

  /** Every monster a hit names is one of the n monsters. */
  predicate Known(hits: seq<Hit>, n: nat) {
    forall k :: 0 <= k < |hits| && hits[k].monster.Some? ==> hits[k].monster.value < n
  }

  /** The record only grows: old entries keep their values, new ones start
      out false, and the new keys are exactly `added`. */
  predicate Recorded(before: map<nat, bool>, after: map<nat, bool>, added: set<nat>) {
    after.Keys == before.Keys + added &&
    forall m :: m in after ==> after[m] == (if m in before then before[m] else false)
  }

  /** Starting from lit0 and prev0, the monsters `ids` have been lit and recorded. */
  predicate Tracked(lit0: set<nat>, prev0: map<nat, bool>, lit: set<nat>, prev: map<nat, bool>, ids: set<nat>) {
    lit == lit0 + ids && Recorded(prev0, prev, ids - prev0.Keys)
  }

  lemma TrackedStep(lit0: set<nat>, prev0: map<nat, bool>, lit1: set<nat>, prev1: map<nat, bool>,
                    lit2: set<nat>, prev2: map<nat, bool>, a: set<nat>, b: set<nat>)
    requires Tracked(lit0, prev0, lit1, prev1, a) && Tracked(lit1, prev1, lit2, prev2, b)
    ensures Tracked(lit0, prev0, lit2, prev2, a + b)
  {
  }

  class FlashlightDetector {
    const rayCount: int
    const coneAngle: real
    /** IsInLight of each monster. */
    const inLight: array<bool>
    var litMonsters: set<nat>
    var previousLightStates: map<nat, bool>

    /** A monster is lit exactly when this detector lists it, and every
        listed monster has a recorded state. */
    ghost predicate Valid()
      reads this, inLight
    {
      (forall m :: m in previousLightStates ==> m < inLight.Length) &&
      litMonsters <= previousLightStates.Keys &&
      forall m :: 0 <= m < inLight.Length ==> (inLight[m] <==> m in litMonsters)
    }

    constructor (rayCount: int, coneAngle: real, inLight: array<bool>)
      requires forall m :: 0 <= m < inLight.Length ==> !inLight[m]
      ensures this.rayCount == rayCount && this.coneAngle == coneAngle && this.inLight == inLight
      ensures litMonsters == {} && previousLightStates == map[]
      ensures Valid()
    {
      this.rayCount := rayCount;
      this.coneAngle := coneAngle;
      this.inLight := inLight;
      litMonsters := {};
      previousLightStates := map[];
    }

    /** One frame. With the light off or missing, every lit monster is
        switched off and recorded as unlit. Otherwise the monsters lit last
        frame are switched off, the rays light exactly the monsters with a
        qualifying hit, and the record is brought in line with every
        monster's flag. */
    method Update(enabled: bool, cast: Ray -> seq<Hit>)
      requires Valid() && forall r :: Known(cast(r), inLight.Length)
      modifies this`litMonsters, this`previousLightStates, inLight
      ensures Valid()
      ensures !enabled ==>
        litMonsters == {} &&
        previousLightStates == old(previousLightStates) + map m | m in old(litMonsters) :: false
      ensures enabled ==>
        litMonsters == LitBy(Plan(rayCount, coneAngle), cast) &&
        previousLightStates.Keys == old(previousLightStates.Keys) + litMonsters &&
        forall m :: m in previousLightStates ==> previousLightStates[m] == inLight[m]
    {
      if !enabled {
        ResetMonsterLighting();
        return;
      }
      ClearPreviousLighting();
      CastDetectionRays(cast);
      SyncLightStates();
    }

    /** Writes each recorded monster's current flag into the record where
        the two differ. */
    method SyncLightStates()
      requires forall m :: m in previousLightStates ==> m < inLight.Length
      modifies this`previousLightStates
      ensures previousLightStates.Keys == old(previousLightStates.Keys)
      ensures forall m :: m in previousLightStates ==> previousLightStates[m] == inLight[m]
    {
      var keys := previousLightStates.Keys;
      var monstersToUpdate: set<nat> := {};
      while keys != {}
        invariant keys <= previousLightStates.Keys
        invariant monstersToUpdate ==
          set m | m in previousLightStates.Keys - keys && inLight[m] != previousLightStates[m]
        decreases keys
      {
        var monster :| monster in keys;
        if inLight[monster] != previousLightStates[monster] {
          monstersToUpdate := monstersToUpdate + {monster};
        }
        keys := keys - {monster};
      }

      ghost var states := previousLightStates;
      var pending := monstersToUpdate;
      while pending != {}
        invariant pending <= monstersToUpdate
        invariant previousLightStates.Keys == states.Keys
        invariant forall m :: m in previousLightStates ==>
          previousLightStates[m] == if m in monstersToUpdate - pending then inLight[m] else states[m]
        decreases pending
      {
        var monster :| monster in pending;
        previousLightStates := previousLightStates[monster := inLight[monster]];
        pending := pending - {monster};
      }
    }

    /** The forward ray, then four rays per round for rayCount rounds. */
    method CastDetectionRays(cast: Ray -> seq<Hit>)
      requires Valid() && forall r :: Known(cast(r), inLight.Length)
      modifies this`litMonsters, this`previousLightStates, inLight
      ensures Valid()
      ensures Tracked(old(litMonsters), old(previousLightStates), litMonsters, previousLightStates,
                      LitBy(Plan(rayCount, coneAngle), cast))
    {
      ghost var lit0, prev0 := litMonsters, previousLightStates;
      ghost var rays := [];
      rays := CastTracked(cast, Forward, lit0, prev0, rays);
      var i := 0;
      while i < rayCount
        invariant 0 <= i && (rayCount > 0 || i == 0) && (i <= rayCount || rayCount <= 0)
        invariant Valid()
        invariant rays == [Forward] + Tilts(rayCount, coneAngle, i)
        invariant Tracked(lit0, prev0, litMonsters, previousLightStates, LitBy(rays, cast))
      {
        rays := CastRound(cast, i, lit0, prev0, rays);
        i := i + 1;
      }
      assert i == if rayCount > 0 then rayCount else 0;
      assert rays == Plan(rayCount, coneAngle);
    }

    /** One round of the loop: the four rays turned by (i / rayCount) * coneAngle. */
    method CastRound(cast: Ray -> seq<Hit>, i: nat, ghost lit0: set<nat>, ghost prev0: map<nat, bool>,
                     ghost rays0: seq<Ray>) returns (ghost rays: seq<Ray>)
      requires rayCount > 0
      requires Valid() && forall r :: Known(cast(r), inLight.Length)
      requires Tracked(lit0, prev0, litMonsters, previousLightStates, LitBy(rays0, cast))
      modifies this`litMonsters, this`previousLightStates, inLight
      ensures Valid() && rays == rays0 + Group(rayCount, coneAngle, i)
      ensures Tracked(lit0, prev0, litMonsters, previousLightStates, LitBy(rays, cast))
    {
      var angle := (i as real / rayCount as real) * coneAngle;
      rays := CastTracked(cast, Tilted(UpAxis, angle), lit0, prev0, rays0);
      rays := CastTracked(cast, Tilted(UpAxis, -angle), lit0, prev0, rays);
      rays := CastTracked(cast, Tilted(RightAxis, angle), lit0, prev0, rays);
      rays := CastTracked(cast, Tilted(RightAxis, -angle), lit0, prev0, rays);
    }

    /** CastRay along one ray, keeping count of the rays cast so far. */
    method CastTracked(cast: Ray -> seq<Hit>, ray: Ray, ghost lit0: set<nat>, ghost prev0: map<nat, bool>,
                       ghost rays0: seq<Ray>) returns (ghost rays: seq<Ray>)
      requires Valid() && Known(cast(ray), inLight.Length)
      requires Tracked(lit0, prev0, litMonsters, previousLightStates, LitBy(rays0, cast))
      modifies this`litMonsters, this`previousLightStates, inLight
      ensures Valid() && rays == rays0 + [ray]
      ensures Tracked(lit0, prev0, litMonsters, previousLightStates, LitBy(rays, cast))
    {
      ghost var lit1, prev1 := litMonsters, previousLightStates;
      CastRay(cast(ray));
      TrackedStep(lit0, prev0, lit1, prev1, litMonsters, previousLightStates, LitBy(rays0, cast), Lit(cast(ray)));
      LitByStep(rays0, ray, cast);
      rays := rays0 + [ray];
    }

    /** Lights every monster with a qualifying hit on this ray and records
        each newly seen one as unlit. */
    method CastRay(hits: seq<Hit>)
      requires Valid() && Known(hits, inLight.Length)
      modifies this`litMonsters, this`previousLightStates, inLight
      ensures Valid()
      ensures Tracked(old(litMonsters), old(previousLightStates), litMonsters, previousLightStates, Lit(hits))
    {
      for i := 0 to |hits|
        invariant Valid()
        invariant Tracked(old(litMonsters), old(previousLightStates), litMonsters, previousLightStates, Lit(hits[..i]))
      {
        assert hits[..i + 1][..i] == hits[..i];
        var hit := hits[i];
        if hit.monster.Some? {
          var monster := hit.monster.value;
          if hit.dot > MinDotProduct &&
             !(hit.obstacle.Some? && hit.obstacle.value <= hit.distance - ObstructionMargin) {
            inLight[monster] := true;
            litMonsters := litMonsters + {monster};
            if monster !in previousLightStates {
              previousLightStates := previousLightStates[monster := false];
            }
          }
        }
      }
      assert hits[..|hits|] == hits;
    }

    /** Switches off every monster lit last frame and empties the list. */
    method ClearPreviousLighting()
      requires Valid()
      modifies this`litMonsters, inLight
      ensures Valid() && litMonsters == {}
    {
      var pending := litMonsters;
      while pending != {}
        invariant pending <= old(litMonsters)
        invariant forall m :: 0 <= m < inLight.Length ==> (inLight[m] <==> m in pending)
        decreases pending
      {
        var monster :| monster in pending;
        inLight[monster] := false;
        pending := pending - {monster};
      }
      litMonsters := {};
    }

    /** Switches off every monster lit last frame, records it as unlit and
        empties the list. */
    method ResetMonsterLighting()
      requires Valid()
      modifies this`litMonsters, this`previousLightStates, inLight
      ensures Valid() && litMonsters == {}
      ensures previousLightStates == old(previousLightStates) + map m | m in old(litMonsters) :: false
    {
      var pending := litMonsters;
      while pending != {}
        invariant pending <= old(litMonsters)
        invariant forall m :: 0 <= m < inLight.Length ==> (inLight[m] <==> m in pending)
        invariant previousLightStates ==
          old(previousLightStates) + map m | m in old(litMonsters) - pending :: false
        decreases pending
      {
        var monster :| monster in pending;
        inLight[monster] := false;
        previousLightStates := previousLightStates[monster := false];
        pending := pending - {monster};
      }
      litMonsters := {};
    }
  }
}
