/**
 * One ball's own per-frame state changes: the wall bounce with drag and
 * gravity of `check_bounds`, and the speed-to-colour staircase of
 * `update_color`.
 */
module Balls {
  import opened Constants

  /** An RGB display colour. */
  datatype Color = Color(r: int, g: int, b: int)

  // ---------------------------------------------------------------------------
  // Colour staircase

  /** The colour `update_color` gives a ball moving at `speed`. */
  function SpeedColor(speed: real): (c: Color)
    ensures c.b == 255
    ensures 0 <= c.g <= c.r <= 175
  {
    if speed > 600.0 then Color(175, 175, 255)
    else if speed > 550.0 then Color(160, 160, 255)
    else if speed > 500.0 then Color(145, 145, 255)
    else if speed > 450.0 then Color(130, 100, 255)
    else if speed > 400.0 then Color(115, 115, 255)
    else if speed > 350.0 then Color(100, 100, 255)
    else if speed > 300.0 then Color(85, 85, 255)
    else if speed > 250.0 then Color(70, 70, 255)
    else if speed > 200.0 then Color(55, 55, 255)
    else if speed > 150.0 then Color(40, 40, 255)
    else if speed > 100.0 then Color(25, 25, 255)
    else if speed > 50.0 then Color(10, 10, 255)
    else Color(0, 0, 255)
  }

  /** How many of the thresholds 50, 100, ..., 50 * k the speed strictly exceeds. */
  function Exceeded(speed: real, k: nat): (n: nat)
    ensures n <= k
  {
    if k == 0 then 0
    else Exceeded(speed, k - 1) + (if speed > 50.0 * k as real then 1 else 0)
  }

  /** The 50-unit speed band: 0 up to 50, then one more per 50 units, capped at 12 above 600. */
  function Band(speed: real): nat
  {
    Exceeded(speed, 12)
  }

  /**
   * Reference colour of a band: red and green climb 15 per band from 10,
   * blue stays 255; band 9 keeps a green of 100.
   */
  function BandColor(band: nat): Color
  {
    if band == 0 then Color(0, 0, 255)
    else if band == 9 then Color(130, 100, 255)
    else Color(15 * band - 5, 15 * band - 5, 255)
  }

  /** A speed above the m-th threshold and at most the (m+1)-th lies in band m. */
  lemma {:induction false} ExceededBetween(speed: real, k: nat, m: nat)
    requires m <= k
    requires m == 0 || speed > 50.0 * m as real
    requires m == k || speed <= 50.0 * (m + 1) as real
    ensures Exceeded(speed, k) == m
  {
    if k > 0 {
      if m == k {
        ExceededBetween(speed, k - 1, m - 1);
      } else {
        ExceededBetween(speed, k - 1, m);
      }
    }
  }

  /** A faster ball never lies in a lower band. */
  lemma {:induction false} ExceededMonotone(s: real, t: real, k: nat)
    requires s <= t
    ensures Exceeded(s, k) <= Exceeded(t, k)
  {
    if k > 0 {
      ExceededMonotone(s, t, k - 1);
    }
  }

  /** The if-chain of `update_color` is exactly the band staircase. */
  lemma SpeedColorIsBandColor(speed: real)
    ensures SpeedColor(speed) == BandColor(Band(speed))
  {
    var m: nat :=
      if speed > 600.0 then 12
      else if speed > 550.0 then 11
      else if speed > 500.0 then 10
      else if speed > 450.0 then 9
      else if speed > 400.0 then 8
      else if speed > 350.0 then 7
      else if speed > 300.0 then 6
      else if speed > 250.0 then 5
      else if speed > 200.0 then 4
      else if speed > 150.0 then 3
      else if speed > 100.0 then 2
      else if speed > 50.0 then 1
      else 0;
    ExceededBetween(speed, 12, m);
  }

  /** Red never falls as speed rises. */
  lemma SpeedColorRedMonotone(s: real, t: real)
    requires s <= t
    ensures SpeedColor(s).r <= SpeedColor(t).r
  {
    SpeedColorIsBandColor(s);
    SpeedColorIsBandColor(t);
    ExceededMonotone(s, t, 12);
  }

  /** Red and green agree in every band but (450, 500], which alone keeps green at 100. */
  lemma SpeedColorGreenOutlier(speed: real)
    ensures SpeedColor(speed).r != SpeedColor(speed).g <==> 450.0 < speed <= 500.0
    ensures 450.0 < speed <= 500.0 ==> SpeedColor(speed) == Color(130, 100, 255)
  {
  }

  /** Thresholds are strict: exactly 600 is still the (550, 600] colour. */
  lemma SpeedColorSamples()
    ensures SpeedColor(625.0) == Color(175, 175, 255)
    ensures SpeedColor(600.0) == Color(160, 160, 255)
    ensures SpeedColor(450.1) == Color(130, 100, 255)
    ensures SpeedColor(50.0) == Color(0, 0, 255)
    ensures SpeedColor(10.0) == Color(0, 0, 255)
  {
  }

  // ---------------------------------------------------------------------------
  // Wall bounce, one axis

  /** Position and velocity of a ball along one axis. */
  datatype Axis = Axis(pos: real, vel: real)

  /** Whether the ball's edge touches or crosses the far wall or the near wall of an axis. */
  predicate HitsWall(p: real, r: real, extent: real)
  {
    p + r >= extent || p - r <= 0.0
  }

  /**
   * The wall test of `check_bounds` on one axis: the far wall is examined first
   * and the near wall only otherwise, so at most one side fires.
   */
  function WallAxis(p: real, v: real, r: real, extent: real, e: real): (s: Axis)
    ensures extent >= 2.0 * r ==> r <= s.pos <= extent - r
    ensures HitsWall(p, r, extent) ==> s.vel == -e * v
    ensures !HitsWall(p, r, extent) ==> s == Axis(p, v)
    ensures p + r >= extent ==> s.pos + r == extent
    ensures p + r < extent && p - r <= 0.0 ==> s.pos - r == 0.0
  {
    if p + r >= extent then Axis(extent - r, v * -e)
    else if p - r <= 0.0 then Axis(r, v * -e)
    else Axis(p, v)
  }

  /** Clamping a clamped position again leaves it where it is. */
  lemma WallAxisPosIdempotent(p: real, v: real, r: real, extent: real, e: real, v': real)
    requires extent >= 2.0 * r
    ensures WallAxis(WallAxis(p, v, r, extent, e).pos, v', r, extent, e).pos
         == WallAxis(p, v, r, extent, e).pos
  {
  }

  /** A ball left on a wall touches it again, so the next test reflects it once more. */
  lemma WallAxisStaysOnWall(p: real, v: real, r: real, extent: real, e: real)
    requires HitsWall(p, r, extent)
    ensures HitsWall(WallAxis(p, v, r, extent, e).pos, r, extent)
  {
  }

  /** With restitution in [0, 1] a bounce never speeds the ball up, and with e > 0 it reverses it. */
  lemma WallAxisBounceSlows(p: real, v: real, r: real, extent: real, e: real)
    requires 0.0 <= e <= 1.0
    ensures var s := WallAxis(p, v, r, extent, e);
      -(if v < 0.0 then -v else v) <= s.vel <= (if v < 0.0 then -v else v)
    ensures var s := WallAxis(p, v, r, extent, e);
      HitsWall(p, r, extent) && e > 0.0 && v != 0.0 ==> (s.vel < 0.0 <==> v > 0.0)
  {
  }

  // ---------------------------------------------------------------------------
  // The ball

  class Ball {
    var pos: Vec
    var vel: Vec
    var color: Color
    const radius: real

    constructor (color: Color, pos: Vec, vel: Vec, cfg: Config)
      ensures this.color == color && this.pos == pos && this.vel == vel
      ensures radius == cfg.radius
    {
      this.radius := cfg.radius;
      this.color := color;
      this.pos := pos;
      this.vel := vel;
    }

    /**
     * `check_bounds`: bounce off the walls of each axis independently, then
     * scale the velocity by the drag factor (`AIR_RES ** dt`, given here as
     * `drag`) and add gravity times `dt`.
     */
    method CheckBounds(cfg: Config, gravity: Vec, dt: real, drag: real)
      modifies this
      ensures var sx := WallAxis(old(pos.x), old(vel.x), radius, cfg.screenWidth, cfg.elasticity);
              var sy := WallAxis(old(pos.y), old(vel.y), radius, cfg.screenHeight, cfg.elasticity);
              pos == Vec(sx.pos, sy.pos)
              && vel == Vec(sx.vel * drag + gravity.x * dt, sy.vel * drag + gravity.y * dt)
      ensures cfg.screenWidth >= 2.0 * radius ==> radius <= pos.x <= cfg.screenWidth - radius
      ensures cfg.screenHeight >= 2.0 * radius ==> radius <= pos.y <= cfg.screenHeight - radius
      ensures color == old(color)
    {
      // The steps work on copies of the two vectors, written back at the end.
      var p, v := pos, vel;
      if p.x + radius >= cfg.screenWidth {
        p := p.(x := cfg.screenWidth - radius);
        v := v.(x := v.x * -cfg.elasticity);
      } else if p.x - radius <= 0.0 {
        p := p.(x := radius);
        v := v.(x := v.x * -cfg.elasticity);
      }

      if p.y + radius >= cfg.screenHeight {
        p := p.(y := cfg.screenHeight - radius);
        v := v.(y := v.y * -cfg.elasticity);
      } else if p.y - radius <= 0.0 {
        p := p.(y := radius);
        v := v.(y := v.y * -cfg.elasticity);
      }

      v := v.(x := v.x * drag);
      v := v.(y := v.y * drag);
      v := v.(x := v.x + gravity.x * dt);
      v := v.(y := v.y + gravity.y * dt);
      pos, vel := p, v;
    }

    /**
     * `update_color`, with the magnitude of the velocity given as `speed`
     * instead of computed by a square root.
     */
    method UpdateColor(speed: real)
      requires speed >= 0.0 && speed * speed == vel.x * vel.x + vel.y * vel.y
      modifies this`color
      ensures color == SpeedColor(speed)
      ensures color.b == 255
    {
      color := SpeedColor(speed);
    }
  }
}
