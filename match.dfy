/** The match (`Game`): the score, the countdown and the end-of-game flag, and the bodies of
    the three periodic callbacks the game registers: the collision poll (every 100 ms), the
    coin motion (every 50 ms) and the countdown (every second). */
module Match {
  import opened Character
  import opened Coins

  const Recompensa := 10  // points per collected coin
  const Meta := 100       // a score at least this high wins
  const Duracion := 60    // seconds on the clock at the start
  const NumMonedas := 20  // coins created at the start

  /** The values one `Moneda` constructor call draws at random. */
  datatype Spawn = Spawn(x: real, y: real, velocidadY: real, rangoMovimiento: real)

  predicate Distinct<T(==)>(s: seq<T>) {
    forall i, j :: 0 <= i < j < |s| ==> s[i] != s[j]
  }

  /** `monedas.forEach(...)` whose callback splices out every element in `touching`, from
      index k on. forEach visits each index below the length the array had when it began
      that still exists when reached; since the array only shrinks, the walk is over once k
      reaches the current length. A removed element's successor slides into index k, and the
      walk goes on at k + 1, so that successor is not examined in this pass. */
  function Sweep<T(==)>(s: seq<T>, touching: set<T>, k: nat): seq<T>
    decreases |s| - k
  {
    if k >= |s| then s
    else if s[k] in touching then Sweep(s[..k] + s[k + 1..], touching, k + 1)
    else Sweep(s, touching, k + 1)
  }

  /** Reference reading of that pass, in the original order: an examined element in
      `touching` is dropped and the next element is not examined; any other element is kept
      and the next one is examined. Nothing outside `touching` is ever dropped. */
  function Survivors<T(==)>(s: seq<T>, touching: set<T>, examine: bool): seq<T>
  {
    if s == [] then []
    else if examine && s[0] in touching then Survivors(s[1..], touching, false)
    else [s[0]] + Survivors(s[1..], touching, true)
  }

  /** Nothing outside `touching` is ever dropped, and nothing is added. */
  lemma {:induction false} SurvivorsDropOnlyTouching<T>(s: seq<T>, touching: set<T>, examine: bool)
    ensures var r := Survivors(s, touching, examine);
      && |r| <= |s|
      && multiset(r) <= multiset(s)
      && forall x :: x in multiset(s) && x !in touching ==> multiset(r)[x] == multiset(s)[x]
  {
    if s != [] {
      assert s == [s[0]] + s[1..];
      SurvivorsDropOnlyTouching(s[1..], touching, !(examine && s[0] in touching));
    }
  }

  /** Survivors of a sequence that starts with an examined touching element. */
  lemma SurvivorsAfterHit<T>(s: seq<T>, touching: set<T>, k: nat)
    requires k + 1 < |s| && s[k] in touching
    ensures Survivors(s[k..], touching, true) == [s[k + 1]] + Survivors(s[k + 2..], touching, true)
  {
    assert s[k..][1..] == s[k + 1..];
    assert s[k + 1..][1..] == s[k + 2..];
  }

  /** One step of the pass at a touching element that has a successor. */
  lemma SweepFromHit<T>(s: seq<T>, touching: set<T>, k: nat)
    requires k + 1 < |s| && s[k] in touching
    requires var s' := s[..k] + s[k + 1..];
      Sweep(s', touching, k + 1) == s'[..k + 1] + Survivors(s'[k + 1..], touching, true)
    ensures Sweep(s, touching, k) == s[..k] + Survivors(s[k..], touching, true)
  {
    var s' := s[..k] + s[k + 1..];
    assert Sweep(s, touching, k) == Sweep(s', touching, k + 1);
    assert s'[..k + 1] == s[..k] + [s[k + 1]];
    assert s'[k + 1..] == s[k + 2..];
    SurvivorsAfterHit(s, touching, k);
  }

  /** One step of the pass at an element that does not touch. */
  lemma SweepFromMiss<T>(s: seq<T>, touching: set<T>, k: nat)
    requires k < |s| && s[k] !in touching
    requires Sweep(s, touching, k + 1) == s[..k + 1] + Survivors(s[k + 1..], touching, true)
    ensures Sweep(s, touching, k) == s[..k] + Survivors(s[k..], touching, true)
  {
    assert s[..k + 1] == s[..k] + [s[k]];
    assert s[k..][1..] == s[k + 1..];
    assert Survivors(s[k..], touching, true) == [s[k]] + Survivors(s[k + 1..], touching, true);
  }

  lemma {:induction false} SweepFrom<T>(s: seq<T>, touching: set<T>, k: nat)
    requires k <= |s|
    ensures Sweep(s, touching, k) == s[..k] + Survivors(s[k..], touching, true)
    decreases |s| - k
  {
    if k == |s| {
      assert s[..k] == s;
      assert s[k..] == [];
    } else if s[k] !in touching {
      SweepFrom(s, touching, k + 1);
      SweepFromMiss(s, touching, k);
    } else if k + 1 < |s| {
      SweepFrom(s[..k] + s[k + 1..], touching, k + 1);
      SweepFromHit(s, touching, k);
    } else {
      assert s[..k] + s[k + 1..] == s[..k];
      assert s[k..][1..] == [];
    }
  }

  /** The splice-in-forEach pass from the start is the reference reading. */
  lemma SweepIsSurvivors<T>(s: seq<T>, touching: set<T>)
    ensures Sweep(s, touching, 0) == Survivors(s, touching, true)
  {
    SweepFrom(s, touching, 0);
    assert s[0..] == s;
  }

  /** The coin that slides into a collected coin's index is skipped in that pass: it
      survives whether it touches the character or not. */
  lemma SlidCoinSkipped<T>(a: T, b: T, rest: seq<T>, touching: set<T>)
    requires a in touching
    ensures Sweep([a, b] + rest, touching, 0) == [b] + Sweep(rest, touching, 0)
  {
    SweepIsSurvivors([a, b] + rest, touching);
    SweepIsSurvivors(rest, touching);
    assert ([a, b] + rest)[1..] == [b] + rest;
    assert ([b] + rest)[1..] == rest;
  }

  lemma {:induction false} SurvivorsCatchIsolated<T>(s: seq<T>, touching: set<T>, examine: bool)
    requires forall i :: 0 <= i < |s| - 1 ==> !(s[i] in touching && s[i + 1] in touching)
    requires !examine ==> s == [] || s[0] !in touching
    ensures forall x :: x in Survivors(s, touching, examine) ==> x !in touching
  {
    if s != [] {
      SurvivorsCatchIsolated(s[1..], touching, !(examine && s[0] in touching));
    }
  }

  /** When no two touching coins are neighbours, one pass collects every touching coin. */
  lemma IsolatedHitsAllCollected<T>(s: seq<T>, touching: set<T>)
    requires forall i :: 0 <= i < |s| - 1 ==> !(s[i] in touching && s[i + 1] in touching)
    ensures forall x :: x in Sweep(s, touching, 0) ==> x !in touching
  {
    SweepIsSurvivors(s, touching);
    SurvivorsCatchIsolated(s, touching, true);
  }

  /** A pass over [a, x, b] where a and b touch the character collects both
      (`Game.CollectPastWin` applies this to a game at 90 points). */
  lemma BothEndsCollected<T>(a: T, x: T, b: T, touching: set<T>)
    requires a in touching && x !in touching && b in touching
    ensures Sweep([a, x, b], touching, 0) == [x]
  {
    SweepIsSurvivors([a, x, b], touching);
    assert [a, x, b][1..] == [x, b] && [x, b][1..] == [b] && [b][1..] == [];
    assert Survivors([b], touching, true) == [];
    assert Survivors([x, b], touching, false) == [x];
  }

  /** The countdown's part of the match state. */
  datatype Timer = Timer(tiempoRestante: int, juegoTerminado: bool)

  /** The body of the one-second interval. */
  function CountdownTick(c: Timer): (r: Timer)
    ensures c.juegoTerminado ==> r == c
    ensures r.juegoTerminado == (c.juegoTerminado || c.tiempoRestante <= 0)
    ensures r.tiempoRestante == c.tiempoRestante - (if c.juegoTerminado || c.tiempoRestante <= 0 then 0 else 1)
    ensures c.tiempoRestante >= 0 ==> r.tiempoRestante >= 0
  {
    if c.tiempoRestante > 0 && !c.juegoTerminado then c.(tiempoRestante := c.tiempoRestante - 1)
    else if c.tiempoRestante <= 0 && !c.juegoTerminado then c.(juegoTerminado := true)
    else c
  }

  /** The clock after n countdown ticks. */
  function Countdown(c: Timer, n: nat): Timer
    decreases n
  {
    if n == 0 then c else Countdown(CountdownTick(c), n - 1)
  }

  /** Each of the first t ticks takes one second off a running clock showing t. */
  lemma {:induction false} CountdownRuns(t: int, k: nat)
    requires k <= t
    ensures Countdown(Timer(t, false), k) == Timer(t - k, false)
    decreases k
  {
    if k > 0 {
      CountdownRuns(t - 1, k - 1);
    }
  }

  /** A finished countdown stays as it is. */
  lemma {:induction false} FinishedTimerStays(c: Timer, n: nat)
    requires c.juegoTerminado
    ensures Countdown(c, n) == c
    decreases n
  {
    if n > 0 {
      FinishedTimerStays(c, n - 1);
    }
  }

  /** Starting from t seconds, the game is still running after t ticks with the clock at 0,
      the tick after that ends it, and from then on the clock stays at 0 and over: from 60,
      the 61st tick ends the game. */
  lemma {:induction false} CountdownEnds(t: nat, m: nat)
    ensures Countdown(Timer(t, false), t) == Timer(0, false)
    ensures Countdown(Timer(t, false), t + 1 + m) == Timer(0, true)
  {
    CountdownRuns(t, t);
    CountdownSplit(Timer(t, false), t, 1 + m);
    FinishedTimerStays(Timer(0, true), m);
  }

  lemma {:induction false} CountdownSplit(c: Timer, a: nat, b: nat)
    ensures Countdown(c, a + b) == Countdown(Countdown(c, a), b)
    decreases a
  {
    if a > 0 {
      CountdownSplit(CountdownTick(c), a - 1, b);
    }
  }

  class Game {
    const personaje: Personaje
    var monedas: seq<Moneda>
    var puntuacion: int
    var tiempoRestante: int
    var juegoTerminado: bool

    /** The match invariant: a valid character, distinct valid coins, a score that is a
        non-negative multiple of ten and that has ended the game once it reached 100, and a
        clock between 0 and 60. */
    ghost predicate Valid()
      reads this, personaje, monedas
    {
      personaje.Valid() &&
      Distinct(monedas) &&
      (forall c :: c in monedas ==> c.Valid()) &&
      0 <= puntuacion && puntuacion % Recompensa == 0 &&
      (puntuacion >= Meta ==> juegoTerminado) &&
      0 <= tiempoRestante <= Duracion
    }

    /** The coins the character overlaps right now. */
    ghost function Touching(): set<Moneda>
      reads this, personaje, monedas
    {
      set c | c in monedas && personaje.ColisionaCon(c.Box())
    }

    function TimerState(): Timer
      reads this
    {
      Timer(tiempoRestante, juegoTerminado)
    }

    /** The constructor, with the random draws of the 20 coins passed in: the character at its
        start, the coins as drawn, no points, a full clock, the game running. */
    constructor (spawns: seq<Spawn>)
      requires |spawns| == NumMonedas
      requires forall i :: 0 <= i < |spawns| ==>
        Spawnable(spawns[i].x, spawns[i].y, spawns[i].velocidadY, spawns[i].rangoMovimiento)
      ensures Valid()
      ensures fresh(personaje) && personaje.State() == Pose(50, Suelo, false, Idle)
      ensures |monedas| == NumMonedas
      ensures forall i :: 0 <= i < |monedas| ==>
        fresh(monedas[i]) &&
        monedas[i].State() == CoinState(spawns[i].x, spawns[i].y, spawns[i].velocidadY, spawns[i].y, spawns[i].rangoMovimiento)
      ensures puntuacion == 0 && tiempoRestante == Duracion && !juegoTerminado
    {
      var p := new Personaje();
      var coins: seq<Moneda> := [];
      var i := 0;
      while i < NumMonedas
        invariant 0 <= i <= NumMonedas && |coins| == i
        invariant Distinct(coins)
        invariant forall j :: 0 <= j < i ==>
          fresh(coins[j]) && coins[j].Valid() &&
          coins[j].State() == CoinState(spawns[j].x, spawns[j].y, spawns[j].velocidadY, spawns[j].y, spawns[j].rangoMovimiento)
        invariant p.Valid() && p.State() == Pose(50, Suelo, false, Idle)
      {
        var moneda := new Moneda(spawns[i].x, spawns[i].y, spawns[i].velocidadY, spawns[i].rangoMovimiento);
        coins := coins + [moneda];
        i := i + 1;
      }
      personaje := p;
      monedas := coins;
      puntuacion := 0;
      tiempoRestante := Duracion;
      juegoTerminado := false;
    }

    /** `actualizarPuntuacion`: add the points and win once the score reaches 100. */
    method ActualizarPuntuacion(puntos: int)
      modifies this
      ensures puntuacion == old(puntuacion) + puntos
      ensures juegoTerminado == (old(juegoTerminado) || puntuacion >= Meta)
      ensures monedas == old(monedas) && tiempoRestante == old(tiempoRestante)
    {
      puntuacion := puntuacion + puntos;
      if puntuacion >= Meta && !juegoTerminado {
        GanarJuego();
      }
    }

    /** `ganarJuego`: end the game (the timer cancellation and the message are left out). */
    method GanarJuego()
      modifies this
      ensures juegoTerminado
      ensures monedas == old(monedas) && puntuacion == old(puntuacion) && tiempoRestante == old(tiempoRestante)
    {
      juegoTerminado := true;
    }

    /** `terminarJuego`: end the game when time is up (the message is left out). */
    method TerminarJuego()
      modifies this
      ensures juegoTerminado
      ensures monedas == old(monedas) && puntuacion == old(puntuacion) && tiempoRestante == old(tiempoRestante)
    {
      juegoTerminado := true;
    }

    /** The body of the 100 ms collision poll. The end-of-game flag is read once, before the
        pass; in the pass every touching coin the walk reaches is removed and scores 10. */
    method CheckColisionesTick()
      requires Valid()
      modifies this
      ensures Valid()
      ensures old(juegoTerminado) ==> unchanged(this)
      ensures !old(juegoTerminado) ==>
        && monedas == Sweep(old(monedas), old(Touching()), 0)
        && puntuacion == old(puntuacion) + Recompensa * (|old(monedas)| - |monedas|)
        && juegoTerminado == (puntuacion >= Meta)
      ensures !old(juegoTerminado) ==>
        && multiset(monedas) <= multiset(old(monedas))
        && forall c :: c in old(monedas) && c !in old(Touching()) ==> c in monedas
      ensures puntuacion >= old(puntuacion) && (old(juegoTerminado) ==> juegoTerminado)
      ensures tiempoRestante == old(tiempoRestante)
    {
      if !juegoTerminado {
        ghost var touching := Touching();
        ghost var start := monedas;
        var len := |monedas|;
        var index := 0;
        while index < len
          invariant 0 <= index <= len && |monedas| <= len
          invariant Sweep(monedas, touching, index) == Sweep(start, touching, 0)
          invariant forall c :: c in monedas ==> c in start
          invariant forall c :: c in start ==> (c in touching <==> personaje.ColisionaCon(c.Box()))
          invariant Distinct(monedas)
          invariant puntuacion == old(puntuacion) + Recompensa * (|start| - |monedas|)
          invariant juegoTerminado == (puntuacion >= Meta)
          invariant tiempoRestante == old(tiempoRestante)
        {
          if index < |monedas| && personaje.ColisionaCon(monedas[index].Box()) {
            assert monedas[index] in touching;
            RemoveKeepsDistinct(monedas, index);
            monedas := monedas[..index] + monedas[index + 1..];
            ActualizarPuntuacion(Recompensa);
          } else if index < |monedas| {
            assert monedas[index] in start;
            assert monedas[index] !in touching;
          }
          index := index + 1;
        }
        SweepIsSurvivors(start, touching);
        SurvivorsDropOnlyTouching(start, touching, true);
        forall c | c in start && c !in touching
          ensures c in monedas
        {
          assert c in multiset(start);
        }
      }
    }

    /** A win does not stop the running pass: at 90 points, with coins [a, x, b] where a and
        b touch the character and x does not, collecting a wins the game and b is still
        collected, so the tick ends at 110 points with only x left. */
    method CollectPastWin()
      requires Valid() && !juegoTerminado && puntuacion == 90 && |monedas| == 3
      requires monedas[0] in Touching() && monedas[1] !in Touching() && monedas[2] in Touching()
      modifies this
      ensures monedas == [old(monedas[1])]
      ensures puntuacion == 110 && juegoTerminado
    {
      ghost var s := monedas;
      ghost var t := Touching();
      assert s == [s[0], s[1], s[2]];
      BothEndsCollected(s[0], s[1], s[2], t);
      CheckColisionesTick();
    }

    /** The body of the 50 ms coin-motion interval: every coin makes one `mover` step, unless
        the game is over. */
    method MoverMonedasTick()
      requires Valid()
      modifies monedas
      ensures Valid()
      ensures old(juegoTerminado) ==> unchanged(monedas)
      ensures !old(juegoTerminado) ==>
        forall i :: 0 <= i < |monedas| ==> monedas[i].State() == Step(old(monedas[i].State()))
    {
      if !juegoTerminado {
        var i := 0;
        while i < |monedas|
          invariant 0 <= i <= |monedas|
          invariant forall j :: 0 <= j < i ==> monedas[j].Valid() && monedas[j].State() == Step(old(monedas[j].State()))
          invariant forall j :: i <= j < |monedas| ==> monedas[j].State() == old(monedas[j].State())
        {
          monedas[i].Mover();
          i := i + 1;
        }
      }
    }

    /** The body of the one-second countdown interval. */
    method TemporizadorTick()
      requires Valid()
      modifies this
      ensures Valid()
      ensures TimerState() == CountdownTick(old(TimerState()))
      ensures old(juegoTerminado) ==> unchanged(this)
      ensures monedas == old(monedas) && puntuacion == old(puntuacion)
    {
      if tiempoRestante > 0 && !juegoTerminado {
        tiempoRestante := tiempoRestante - 1;
      } else if tiempoRestante <= 0 && !juegoTerminado {
        TerminarJuego();
      }
    }
  }

  lemma RemoveKeepsDistinct<T>(s: seq<T>, k: nat)
    requires Distinct(s) && k < |s|
    ensures Distinct(s[..k] + s[k + 1..])
    ensures forall x :: x in s[..k] + s[k + 1..] ==> x in s
  {
    var r := s[..k] + s[k + 1..];
    forall i, j | 0 <= i < j < |r|
      ensures r[i] != r[j]
    {
      var i' := if i < k then i else i + 1;
      var j' := if j < k then j else j + 1;
      assert r[i] == s[i'] && r[j] == s[j'];
    }
  }
}
