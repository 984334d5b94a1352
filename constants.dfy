/** The tunables that ball.py reads from its `constants` module, passed as one explicit value. */
module Constants {

  /** A 2D vector of the simulation (pygame's Vector2), with exact real coordinates. */
  datatype Vec = Vec(x: real, y: real)

  /** Screen extent, ball radius, wall restitution and grid resolution. */
  datatype Config = Config(
    screenWidth: real,
    screenHeight: real,
    radius: real,
    elasticity: real,
    matrixWidth: int,
    matrixHeight: int)
  {
    /** What bucketing needs to divide and index: a non-empty screen and at least one cell per axis. */
    predicate GridReady()
    {
      matrixWidth >= 1 && matrixHeight >= 1 && screenWidth > 0.0 && screenHeight > 0.0
    }

    /** Screen width of one grid column. */
    function CellWidth(): real
      requires GridReady()
    {
      screenWidth / matrixWidth as real
    }

    /** Screen height of one grid row. */
    function CellHeight(): real
      requires GridReady()
    {
      screenHeight / matrixHeight as real
    }
  }
}
