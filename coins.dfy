/** The floating coins (`Moneda`): each one bobs up and down around the height it was created
    at, reversing when it leaves its band, and is held inside the arena by a hard clamp.
    Coordinates and velocities are exact reals. */
module Coins {
  import opened Boxes

  const LadoMoneda := 30.0  // width and height of a coin
  const Techo := 30.0       // highest y the clamp allows
  const Fondo := 570.0      // lowest y the clamp allows

  /** The fields of a `Moneda`: position, vertical velocity, the height it was created at and
      the half-width of the band it bobs in. */
  datatype CoinState = CoinState(x: real, y: real, velocidadY: real, yOriginal: real, rangoMovimiento: real)
  {
    /** y lies strictly outside the band [yOriginal - rangoMovimiento, yOriginal + rangoMovimiento]. */
    predicate OutsideBand() {
      y > yOriginal + rangoMovimiento || y < yOriginal - rangoMovimiento
    }
  }

  function Abs(r: real): real {
    if r < 0.0 then -r else r
  }

  /** The ranges the constructor draws its random values from: x in [50, 1150], y in
      [50, 550], a speed between 1 and 3 of either sign, a band half-width in [30, 70]. */
  predicate Spawnable(x: real, y: real, velocidadY: real, rangoMovimiento: real) {
    50.0 <= x <= 1150.0 && 50.0 <= y <= 550.0 &&
    1.0 <= Abs(velocidadY) <= 3.0 && 30.0 <= rangoMovimiento <= 70.0
  }

  /** What holds of every coin at every tick: its creation parameters stay in range, it never
      overshoots its band by more than one step, outside the band it is always heading back,
      and it is inside the arena. */
  predicate Orbit(c: CoinState) {
    var s := Abs(c.velocidadY);
    var lo := c.yOriginal - c.rangoMovimiento;
    var hi := c.yOriginal + c.rangoMovimiento;
    Spawnable(c.x, c.yOriginal, c.velocidadY, c.rangoMovimiento) &&
    lo - s <= c.y <= hi + s &&
    (c.y > hi ==> c.velocidadY < 0.0) &&
    (c.y < lo ==> c.velocidadY > 0.0) &&
    Techo <= c.y <= Fondo
  }

  /** The first half of `mover`: move by the velocity, then reverse the velocity if the new y
      has left the band. */
  function Drift(c: CoinState): (r: CoinState)
    ensures r.y == c.y + c.velocidadY
    ensures Abs(r.velocidadY) == Abs(c.velocidadY)
    ensures c.velocidadY != 0.0 ==> (r.velocidadY != c.velocidadY <==> r.OutsideBand())
    ensures r.(y := c.y, velocidadY := c.velocidadY) == c
  {
    var moved := c.(y := c.y + c.velocidadY);
    if moved.OutsideBand() then moved.(velocidadY := moved.velocidadY * -1.0) else moved
  }

  /** The second half of `mover`: clamp y into [30, 570], turning the velocity inwards. */
  function Clamp(c: CoinState): (r: CoinState)
    ensures Techo <= r.y <= Fondo
    ensures c.y < Techo ==> r.y == Techo && r.velocidadY >= 0.0
    ensures c.y > Fondo ==> r.y == Fondo && r.velocidadY <= 0.0
    ensures Techo <= c.y <= Fondo ==> r == c
    ensures Abs(r.velocidadY) == Abs(c.velocidadY)
    ensures r.(y := c.y, velocidadY := c.velocidadY) == c
  {
    var top := if c.y < Techo then c.(y := Techo, velocidadY := Abs(c.velocidadY)) else c;
    if top.y > Fondo then top.(y := Fondo, velocidadY := -Abs(top.velocidadY)) else top
  }

  /** One `mover` call: the drift, then the clamp. */
  function Step(c: CoinState): (r: CoinState)
    ensures Techo <= r.y <= Fondo
    ensures r.x == c.x && r.yOriginal == c.yOriginal && r.rangoMovimiento == c.rangoMovimiento
    ensures Abs(r.velocidadY) == Abs(c.velocidadY)
    ensures c.y + c.velocidadY < Techo ==> r.y == Techo && r.velocidadY >= 0.0
    ensures c.y + c.velocidadY > Fondo ==> r.y == Fondo && r.velocidadY <= 0.0
  {
    Clamp(Drift(c))
  }

  /** A new coin starts at its own band centre, so it is in orbit. */
  lemma SpawnInOrbit(x: real, y: real, velocidadY: real, rangoMovimiento: real)
    requires Spawnable(x, y, velocidadY, rangoMovimiento)
    ensures Orbit(CoinState(x, y, velocidadY, y, rangoMovimiento))
  {
  }

  /** Every `mover` step keeps a coin in orbit. */
  lemma StepKeepsOrbit(c: CoinState)
    requires Orbit(c)
    ensures Orbit(Step(c))
  {
  }

  /** The band is not itself invariant: a coin one pixel inside its band moving outwards at
      speed 3 ends the step two pixels outside it (before turning back on the next step). */
  lemma BandOvershoot()
    ensures var c := CoinState(600.0, 349.0, 3.0, 300.0, 50.0);
      Orbit(c) && !c.OutsideBand() && Step(c).y == 352.0 && Step(c).OutsideBand()
  {
  }

  class Moneda {
    var x: real
    var y: real
    var velocidadY: real
    var yOriginal: real
    var rangoMovimiento: real

    function State(): CoinState
      reads this
    {
      CoinState(x, y, velocidadY, yOriginal, rangoMovimiento)
    }

    ghost predicate Valid()
      reads this
    {
      Orbit(State())
    }

    /** The constructor, with the values it draws at random passed in. */
    constructor (x: real, y: real, velocidadY: real, rangoMovimiento: real)
      requires Spawnable(x, y, velocidadY, rangoMovimiento)
      ensures Valid()
      ensures State() == CoinState(x, y, velocidadY, y, rangoMovimiento)
    {
      this.x := x;
      this.y := y;
      this.velocidadY := velocidadY;
      this.yOriginal := y;
      this.rangoMovimiento := rangoMovimiento;
      new;
      SpawnInOrbit(x, y, velocidadY, rangoMovimiento);
    }

    function Box(): Boxes.Box
      reads this
    {
      Boxes.Box(x, y, LadoMoneda, LadoMoneda)
    }

    /** `mover`: one step of the floating motion. */
    method Mover()
      requires Valid()
      modifies this
      ensures Valid()
      ensures State() == Step(old(State()))
    {
      y := y + velocidadY;
      if y > yOriginal + rangoMovimiento || y < yOriginal - rangoMovimiento {
        velocidadY := velocidadY * -1.0;
      }
      if y < Techo {
        y := Techo;
        velocidadY := Abs(velocidadY);
      }
      if y > Fondo {
        y := Fondo;
        velocidadY := -Abs(velocidadY);
      }
      StepKeepsOrbit(old(State()));
    }
  }
}
