/** The player character (`Personaje`): horizontal moves on key presses and the jump, which the
    game runs as two 20 ms intervals, an ascent and then a fall. Each interval callback is one
    step here; which of the two is running is the explicit `Phase`. */
module Character {
  import opened Boxes

  const Velocidad := 10     // horizontal step per key press
  const Suelo := 480        // ground line: the fall stops here, and the character starts here
  const AlturaSalto := 450  // the ascent aims this far above the take-off point
  const PasoSubida := 20    // y decrease per ascent tick
  const PasoCaida := 10     // y increase per fall tick
  const LadoPersonaje := 50 // width and height of the character

  /** Which jump interval is running. `Ascending` carries `alturaMaxima`, the target fixed
      when the jump started. */
  datatype Phase = Idle | Ascending(alturaMaxima: int) | Falling

  /** The fields of a `Personaje` that its methods change. */
  datatype Pose = Pose(x: int, y: int, saltando: bool, phase: Phase)

  /** What every reachable pose satisfies: the character is never below the ground, its height
      stays on the 10-pixel grid the steps move on, `saltando` tells whether a jump interval is
      running, and at rest the character stands on the ground. */
  predicate Reachable(p: Pose) {
    p.y <= Suelo && p.y % PasoCaida == 0 &&
    (p.saltando <==> !p.phase.Idle?) &&
    (p.phase.Idle? ==> p.y == Suelo)
  }

  /** `saltar`: mark the jump and start the ascent towards 450 pixels above the current height. */
  function TakeOff(p: Pose): Pose {
    p.(saltando := true, phase := Ascending(p.y - AlturaSalto))
  }

  /** `mover`: the effect of one key press. */
  function Move(p: Pose, key: string): Pose {
    if key == "ArrowRight" then p.(x := p.x + Velocidad)
    else if key == "ArrowLeft" then p.(x := p.x - Velocidad)
    else if key == "ArrowUp" then TakeOff(p)
    else p
  }

  /** One 20 ms tick of whichever jump interval is running: the ascent interval steps up
      until the target is reached and then hands over to the fall (`caer`); the fall interval
      steps down until the ground and then ends the jump. */
  function Tick(p: Pose): Pose {
    match p.phase
    case Idle => p
    case Ascending(alturaMaxima) =>
      if p.y > alturaMaxima then p.(y := p.y - PasoSubida) else p.(phase := Falling)
    case Falling =>
      if p.y < Suelo then p.(y := p.y + PasoCaida) else p.(saltando := false, phase := Idle)
  }

  /** The pose after n ticks. */
  function Ticks(p: Pose, n: nat): Pose
    decreases n
  {
    if n == 0 then p else Ticks(Tick(p), n - 1)
  }

  /** Horizontal keys move by exactly one step either way, never clamped, so x may go
      negative; any key other than the three arrows changes nothing. */
  lemma MoveKeys(p: Pose, key: string)
    ensures key == "ArrowRight" ==> Move(p, key) == p.(x := p.x + 10)
    ensures key == "ArrowLeft" ==> Move(p, key) == p.(x := p.x - 10)
    ensures key == "ArrowUp" ==> Move(p, key) == p.(saltando := true, phase := Ascending(p.y - 450))
    ensures key !in {"ArrowRight", "ArrowLeft", "ArrowUp"} ==> Move(p, key) == p
    ensures Move(p, key).y == p.y
  {
  }

  /** A left press undoes a right press and vice versa. */
  lemma MoveLeftUndoesRight(p: Pose)
    ensures Move(Move(p, "ArrowRight"), "ArrowLeft") == p
    ensures Move(Move(p, "ArrowLeft"), "ArrowRight") == p
  {
  }

  /** Key presses and jump ticks keep a pose reachable. */
  lemma StepsKeepReachable(p: Pose, key: string)
    requires Reachable(p)
    ensures Reachable(Move(p, key)) && Reachable(Tick(p))
  {
  }

  lemma {:induction false} TicksAdd(p: Pose, a: nat, b: nat)
    ensures Ticks(p, a + b) == Ticks(Ticks(p, a), b)
    decreases a
  {
    if a > 0 {
      TicksAdd(Tick(p), a - 1, b);
    }
  }

  /** While still above its target, the ascent lowers y by 20 per tick. */
  lemma {:induction false} Climb(p: Pose, k: nat)
    requires p.phase.Ascending?
    requires k == 0 || p.y - PasoSubida * (k - 1) > p.phase.alturaMaxima
    ensures Ticks(p, k) == p.(y := p.y - PasoSubida * k)
    decreases k
  {
    if k > 0 {
      Climb(Tick(p), k - 1);
    }
  }

  /** While still above the ground, the fall raises y by 10 per tick. */
  lemma {:induction false} Descend(p: Pose, k: nat)
    requires p.phase == Falling
    requires k == 0 || p.y + PasoCaida * (k - 1) < Suelo
    ensures Ticks(p, k) == p.(y := p.y + PasoCaida * k)
    decreases k
  {
    if k > 0 {
      Descend(Tick(p), k - 1);
    }
  }

  /** A jump from the ground, tick by tick: 23 ascent steps of 20 down to the apex 20 (the
      first value not above 480 - 450 = 30), one tick that starts the fall, 46 fall steps of
      10 back to exactly 480, and a last tick that clears `saltando`. */
  lemma {:induction false} JumpFromGround(x: int)
    ensures var s := TakeOff(Pose(x, Suelo, false, Idle));
      && (forall k :: 0 <= k <= 23 ==> Ticks(s, k) == Pose(x, 480 - 20 * k, true, Ascending(30)))
      && (forall k :: 24 <= k <= 70 ==> Ticks(s, k) == Pose(x, 20 + 10 * (k - 24), true, Falling))
      && Ticks(s, 71) == Pose(x, 480, false, Idle)
  {
    var s := TakeOff(Pose(x, Suelo, false, Idle));
    forall k | 0 <= k <= 23
      ensures Ticks(s, k) == Pose(x, 480 - 20 * k, true, Ascending(30))
    {
      Climb(s, k);
    }
    var apex := Ticks(s, 23);
    TicksAdd(s, 23, 1);
    assert Ticks(apex, 1) == Tick(apex);
    var top := Ticks(s, 24);
    assert top == Pose(x, 20, true, Falling);
    forall k | 24 <= k <= 70
      ensures Ticks(s, k) == Pose(x, 20 + 10 * (k - 24), true, Falling)
    {
      TicksAdd(s, 24, k - 24);
      Descend(top, k - 24);
    }
    TicksAdd(s, 70, 1);
    assert Ticks(Ticks(s, 70), 1) == Tick(Ticks(s, 70));
  }

  /** The shape of that jump: y strictly decreases on every ascent step and strictly increases
      on every fall step, the apex is 20, and the jump is still running before tick 71. */
  lemma JumpShape(x: int)
    ensures var s := TakeOff(Pose(x, Suelo, false, Idle));
      && (forall k :: 0 <= k < 23 ==> Ticks(s, k + 1).y < Ticks(s, k).y)
      && (forall k :: 24 <= k < 70 ==> Ticks(s, k + 1).y > Ticks(s, k).y)
      && (forall k :: 0 <= k <= 71 ==> Ticks(s, k).y >= 20)
      && Ticks(s, 23).y == 20
      && (forall k :: 0 <= k < 71 ==> Ticks(s, k).saltando)
  {
    JumpFromGround(x);
  }

  class Personaje {
    var x: int
    var y: int
    var saltando: bool
    var phase: Phase

    function State(): Pose
      reads this
    {
      Pose(x, y, saltando, phase)
    }

    ghost predicate Valid()
      reads this
    {
      Reachable(State())
    }

    /** The character starts on the ground at x = 50, not jumping. */
    constructor ()
      ensures Valid() && State() == Pose(50, Suelo, false, Idle)
    {
      x, y, saltando, phase := 50, Suelo, false, Idle;
    }

    function Box(): Boxes.Box
      reads this
    {
      Boxes.Box(x as real, y as real, LadoPersonaje as real, LadoPersonaje as real)
    }

    /** `colisionaCon`, against the box of another entity. */
    predicate ColisionaCon(objeto: Boxes.Box)
      reads this
    {
      Collides(Box(), objeto)
    }

    /** `mover`: the key-down handler. */
    method Mover(key: string)
      requires Valid()
      modifies this
      ensures Valid()
      ensures State() == Move(old(State()), key)
    {
      if key == "ArrowRight" {
        x := x + Velocidad;
      } else if key == "ArrowLeft" {
        x := x - Velocidad;
      } else if key == "ArrowUp" {
        Saltar();
      }
    }

    /** `saltar`, without the interval it registers: the ascent phase stands for it. */
    method Saltar()
      requires Valid()
      modifies this
      ensures Valid()
      ensures State() == TakeOff(old(State()))
      ensures x == old(x) && y == old(y) && saltando
    {
      saltando := true;
      var alturaMaxima := y - AlturaSalto;
      phase := Ascending(alturaMaxima);
    }

    /** `caer`, without the interval it registers: the fall phase stands for it. The code
        calls it only from the running ascent, so `saltando` is set. */
    method Caer()
      requires Valid() && saltando
      modifies this
      ensures Valid()
      ensures State() == old(State()).(phase := Falling)
    {
      phase := Falling;
    }

    /** The body of the ascent interval: one step up, or the hand-over to the fall. */
    method AscentTick()
      requires Valid() && phase.Ascending?
      modifies this
      ensures Valid()
      ensures State() == Tick(old(State()))
      ensures y < old(y) || (y == old(y) && phase == Falling)
    {
      if y > phase.alturaMaxima {
        y := y - PasoSubida;
      } else {
        Caer();
      }
    }

    /** The body of the fall interval: one step down, or the end of the jump. */
    method FallTick()
      requires Valid() && phase == Falling
      modifies this
      ensures Valid()
      ensures State() == Tick(old(State()))
      ensures y > old(y) || (y == old(y) && phase == Idle && !saltando)
    {
      if y < Suelo {
        y := y + PasoCaida;
      } else {
        saltando := false;
        phase := Idle;
      }
    }

    /** A whole jump from rest: press "ArrowUp", then run the interval bodies until the jump
        is over. It takes 71 ticks and ends where it began. */
    method Jump() returns (ticks: nat)
      requires Valid() && phase == Idle
      modifies this
      ensures Valid()
      ensures State() == Ticks(TakeOff(old(State())), ticks)
      ensures ticks == 71 && State() == old(State())
    {
      ghost var start := TakeOff(State());
      JumpFromGround(x);
      Saltar();
      ticks := 0;
      while phase != Idle
        invariant Valid() && ticks <= 71
        invariant State() == Ticks(start, ticks)
        decreases 71 - ticks
      {
        if phase.Ascending? {
          AscentTick();
        } else {
          FallTick();
        }
        TicksAdd(start, ticks, 1);
        ticks := ticks + 1;
      }
    }
  }
}
