/** The enemy's sight (Assets/Scripts/AIVisionCone.cs): a per-frame scan of
    the colliders inside the view radius, and a point query. The physics
    queries are inputs: each collider comes with the angle between the
    enemy's forward direction and the direction to it, its distance, and the
    distance of the nearest obstacle along that direction, if any. */
module VisionCone {
  import opened Engine

  /** Serialized defaults of the component. */
  const ViewRadius: real := 5.0
  const ViewAngle: real := 90.0

  /** A collider returned by the radius query, as the scan measures it. */
  datatype Candidate = Candidate(target: nat, position: Vec3, angle: real, distance: real, obstacle: Option<real>)

  /** An obstacle ray of the given length reports a hit. */
  predicate RayBlocked(obstacle: Option<real>, length: real) {
    obstacle.Some? && obstacle.value <= length
  }

  /** The scan's test: strictly inside half the view angle, and no obstacle
      on the ray up to the target. */
  predicate Qualifies(c: Candidate) {
    c.angle < ViewAngle / 2.0 && !RayBlocked(c.obstacle, c.distance)
  }

  /** The last candidate that passes the scan's test, if any. */
  function LastQualifying(candidates: seq<Candidate>): (r: Option<nat>)
    ensures r.Some? ==>
      r.value < |candidates| && Qualifies(candidates[r.value]) &&
      forall k :: r.value < k < |candidates| ==> !Qualifies(candidates[k])
    ensures r.None? <==> forall k :: 0 <= k < |candidates| ==> !Qualifies(candidates[k])
  {
    if candidates == [] then None
    else if Qualifies(candidates[|candidates| - 1]) then Some(|candidates| - 1)
    else LastQualifying(candidates[..|candidates| - 1])
  }

  /** IsPositionInSight, given the distance to the position, the angle to
      it and the nearest obstacle along the way. */
  function IsPositionInSight(distance: real, angle: real, obstacle: Option<real>): (r: bool)
    ensures r ==> distance <= ViewRadius && angle <= ViewAngle / 2.0
    ensures r <==>
      distance <= ViewRadius && angle <= ViewAngle / 2.0 &&
      !(obstacle.Some? && obstacle.value < distance)
  {
    if distance > ViewRadius then false
    else if angle > ViewAngle / 2.0 then false
    else if RayBlocked(obstacle, ViewRadius) then !(obstacle.value < distance)
    else true
  }

  /** A target the scan sees inside the radius passes the point query too. */
  lemma ScanStricterThanQuery(c: Candidate)
    requires c.distance <= ViewRadius && Qualifies(c)
    ensures IsPositionInSight(c.distance, c.angle, c.obstacle)
  {
  }

  /** The converse fails on the edges: a position at exactly half the view
      angle, or with an obstacle exactly at its distance, passes the point
      query but not the scan. */
  lemma QueryLooserOnEdges(c: Candidate)
    requires c.distance <= ViewRadius
    requires (c.angle == ViewAngle / 2.0 && c.obstacle.None?) || (c.angle < ViewAngle / 2.0 && c.obstacle == Some(c.distance))
    ensures IsPositionInSight(c.distance, c.angle, c.obstacle) && !Qualifies(c)
  {
  }

  class EnemyVisionCone {
    var currentTarget: Option<nat>
    var lastKnownTargetPosition: Vec3
    var targetInSight: bool

    constructor ()
      ensures currentTarget.None? && !targetInSight
      ensures lastKnownTargetPosition == Vec3(0.0, 0.0, 0.0)
    {
      currentTarget := None;
      lastKnownTargetPosition := Vec3(0.0, 0.0, 0.0);
      targetInSight := false;
    }

    /** Rebuilds the sight from this frame's candidates. There is no early
        exit, so the last qualifying candidate wins; when none qualifies the
        last known position is kept from earlier frames. */
    method FindVisibleTargets(candidates: seq<Candidate>)
      modifies this
      ensures targetInSight <==> exists k :: 0 <= k < |candidates| && Qualifies(candidates[k])
      ensures match LastQualifying(candidates)
        case None => currentTarget.None? && lastKnownTargetPosition == old(lastKnownTargetPosition)
        case Some(k) => currentTarget == Some(candidates[k].target) && lastKnownTargetPosition == candidates[k].position
    {
      targetInSight := false;
      currentTarget := None;

      for i := 0 to |candidates|
        invariant LastQualifying(candidates[..i]).None? ==>
          !targetInSight && currentTarget.None? && lastKnownTargetPosition == old(lastKnownTargetPosition)
        invariant LastQualifying(candidates[..i]).Some? ==>
          var k := LastQualifying(candidates[..i]).value;
          targetInSight && currentTarget == Some(candidates[k].target) &&
          lastKnownTargetPosition == candidates[k].position
      {
        assert candidates[..i + 1][..i] == candidates[..i];
        var target := candidates[i];
        if target.angle < ViewAngle / 2.0 {
          var dstToTarget := target.distance;
          if !RayBlocked(target.obstacle, dstToTarget) {
            targetInSight := true;
            currentTarget := Some(target.target);
            lastKnownTargetPosition := target.position;
          }
        }
      }
      assert candidates[..|candidates|] == candidates;
    }
  }
}
