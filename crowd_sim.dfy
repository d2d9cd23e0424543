/**
 * The wrap-around movement of the crowd demo (Simulation.cpp): every agent
 * moves by its velocity times the time step, and an agent that leaves the
 * screen `[0, screenWidth] x [0, screenHeight]` reappears at the opposite
 * edge. Floats are reals; the screen size is an `int` compared as a float.
 */
module CrowdSim {
  import opened Geometry

  /** An agent of the demo: a position and a velocity. */
  datatype Body = Body(pos: Vec2, vel: Vec2)

  /**
   * One coordinate after `screenWrap`: the two tests run one after the
   * other, so a coordinate below 0 first jumps to `size` and is then
   * compared against `size` again.
   */
  function WrapCoord(p: real, size: real): (r: real)
    ensures size >= 0.0 ==> 0.0 <= r <= size
    ensures 0.0 <= p <= size ==> r == p
    ensures p < 0.0 ==> r == size
    ensures size >= 0.0 && p > size ==> r == 0.0
  {
    var afterLow := if p < 0.0 then size else p;
    if afterLow > size then 0.0 else afterLow
  }

  /** The screen rectangle, edges included. */
  predicate OnScreen(pos: Vec2, width: int, height: int) {
    0.0 <= pos.x <= width as real && 0.0 <= pos.y <= height as real
  }

  /** A position after `screenWrap`. */
  function Wrap(pos: Vec2, width: int, height: int): (r: Vec2)
    ensures width >= 0 && height >= 0 ==> OnScreen(r, width, height)
    ensures OnScreen(pos, width, height) ==> r == pos
  {
    Vec2(WrapCoord(pos.x, width as real), WrapCoord(pos.y, height as real))
  }

  /** Wrapping a wrapped position changes nothing, whatever the screen size. */
  lemma WrapIdempotent(pos: Vec2, width: int, height: int)
    ensures Wrap(Wrap(pos, width, height), width, height) == Wrap(pos, width, height)
  {
    var w, h := width as real, height as real;
    assert WrapCoord(WrapCoord(pos.x, w), w) == WrapCoord(pos.x, w);
    assert WrapCoord(WrapCoord(pos.y, h), h) == WrapCoord(pos.y, h);
  }

  /** An agent after `updateMovement`: displaced by exactly `vel * dt`, with its velocity kept. */
  function Moved(b: Body, dt: real): (r: Body)
    ensures r.vel == b.vel
    ensures Sub(r.pos, b.pos) == Scale(b.vel, dt)
  {
    AddUndoneBySub(b.pos, Scale(b.vel, dt));
    b.(pos := Add(b.pos, Scale(b.vel, dt)))
  }

  /** One agent after an `update` step: moved, then wrapped; the velocity is kept. */
  function Step(b: Body, dt: real, width: int, height: int): (r: Body)
    ensures r.vel == b.vel
    ensures width >= 0 && height >= 0 ==> OnScreen(r.pos, width, height)
    ensures OnScreen(Moved(b, dt).pos, width, height) ==> Sub(r.pos, b.pos) == Scale(b.vel, dt)
  {
    var m := Moved(b, dt);
    m.(pos := Wrap(m.pos, width, height))
  }

  class Simulation {
    const screenWidth: int
    const screenHeight: int
    var agents: seq<Body>
    var debugGrid: bool

    constructor(w: int, h: int)
      ensures screenWidth == w && screenHeight == h
      ensures agents == [] && !debugGrid
    {
      screenWidth, screenHeight := w, h;
      agents := [];
      debugGrid := false;
    }

    /** `updateMovement` of agent `i`: its position advances by `vel * dt`; nothing else changes. */
    method UpdateMovement(i: nat, dt: real)
      requires i < |agents|
      modifies this
      ensures agents == old(agents)[i := Moved(old(agents[i]), dt)] && debugGrid == old(debugGrid)
    {
      var a := agents[i];
      var x := a.pos.x + a.vel.x * dt;
      var y := a.pos.y + a.vel.y * dt;
      assert Vec2(x, y) == Add(a.pos, Scale(a.vel, dt));
      agents := agents[i := a.(pos := Vec2(x, y))];
    }

    /** `screenWrap` of agent `i`: the position is brought back onto the screen; nothing else changes. */
    method ScreenWrap(i: nat)
      requires i < |agents|
      modifies this
      ensures agents == old(agents)[i := old(agents[i]).(pos := Wrap(old(agents[i].pos), screenWidth, screenHeight))]
      ensures debugGrid == old(debugGrid)
    {
      var p := agents[i].pos;
      if p.x < 0.0 {
        p := p.(x := screenWidth as real);
      }
      if p.x > screenWidth as real {
        p := p.(x := 0.0);
      }
      if p.y < 0.0 {
        p := p.(y := screenHeight as real);
      }
      if p.y > screenHeight as real {
        p := p.(y := 0.0);
      }
      agents := agents[i := agents[i].(pos := p)];
    }

    /**
     * `update`: move then wrap every agent, in order. The number of agents
     * is kept, and each agent ends where `Step` puts it, so on a screen of
     * non-negative size every agent ends on the screen.
     */
    method Update(dt: real)
      modifies this
      ensures |agents| == |old(agents)| && debugGrid == old(debugGrid)
      ensures forall k :: 0 <= k < |agents| ==> agents[k] == Step(old(agents[k]), dt, screenWidth, screenHeight)
      ensures screenWidth >= 0 && screenHeight >= 0 ==>
        forall k :: 0 <= k < |agents| ==> OnScreen(agents[k].pos, screenWidth, screenHeight)
    {
      var i := 0;
      while i < |agents|
        invariant 0 <= i <= |agents| == |old(agents)|
        invariant debugGrid == old(debugGrid)
        invariant forall k :: 0 <= k < i ==> agents[k] == Step(old(agents[k]), dt, screenWidth, screenHeight)
        invariant forall k :: i <= k < |agents| ==> agents[k] == old(agents[k])
      {
        StepAgent(i, dt);
        i := i + 1;
      }
    }

    /** The body of the `update` loop for agent `i`: `updateMovement`, then `screenWrap`. */
    method StepAgent(i: nat, dt: real)
      requires i < |agents|
      modifies this
      ensures agents == old(agents)[i := Step(old(agents[i]), dt, screenWidth, screenHeight)]
      ensures debugGrid == old(debugGrid)
    {
      UpdateMovement(i, dt);
      ScreenWrap(i);
    }

    /** Flip the debug overlay: two toggles restore it. */
    method ToggleDebugGrid()
      modifies this
      ensures debugGrid == !old(debugGrid) && agents == old(agents)
    {
      debugGrid := !debugGrid;
    }
  }
}
