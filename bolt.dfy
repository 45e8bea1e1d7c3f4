/**
  Bolt (Bolt.h, Bolt.cpp): a laser shot, drawn as a spike, that collides
  with the radius given by its size and dies when it leaves the field.
*/
module Bolts {
  import opened Geometry
  import opened Objects

  /** Bolt::Bolt */
  method New(config: BoltConfig) returns (b: GraphObj)
    ensures fresh(b)
    ensures b.kind == BoltKind && DiesOutOfBounds(b.kind) && !ExplodesOnDeath(b.kind)
    ensures b.shapes == [Spike(config.size, config.color)]
    ensures b.collisionRadius == config.size
    ensures b.alive && b.team == 0 && b.center == Origin && b.velocity == Origin
    ensures b.angle == 0.0 && b.radialVelocity == 0.0
    ensures b.Valid()
  {
    b := new GraphObj(BoltKind);
    b.shapes := [Spike(config.size, config.color)];
    b.collisionRadius := config.size;
  }

  /** A bolt collides exactly when its size is positive. */
  lemma {:induction false} BoltCollidesIffSized(config: BoltConfig, b: GraphObj)
    requires b.kind == BoltKind && b.collisionRadius == config.size
    ensures b.CanCollide() <==> 0.0 < config.size
  {
  }
}
