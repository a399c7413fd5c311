/** A player's attributes (src/player.rs): a name and three counters that
    the game only ever lowers, never below zero. */
module Players {

  /** The value of a player at one moment. */
  datatype PlayerView = PlayerView(name: string, vitality: nat, speed: nat, strength: nat)

  /** Unsigned subtraction that stops at zero instead of wrapping. */
  function SaturatingSub(x: nat, amount: nat): (r: nat)
    ensures r <= x
    ensures r == 0 <==> x <= amount
    ensures r > 0 ==> r + amount == x
  {
    if amount < x then x - amount else 0
  }

  class Player {
    var name: string
    var vitality: nat
    var speed: nat
    var strength: nat

    /** A player with exactly the given name and attributes. */
    constructor (name: string, vitality: nat, speed: nat, strength: nat)
      ensures View() == PlayerView(name, vitality, speed, strength)
    {
      this.name := name;
      this.vitality := vitality;
      this.speed := speed;
      this.strength := strength;
    }

    ghost function View(): PlayerView
      reads this
    {
      PlayerView(name, vitality, speed, strength)
    }

    function Name(): string
      reads this
    {
      name
    }

    function Vitality(): nat
      reads this
    {
      vitality
    }

    function Speed(): nat
      reads this
    {
      speed
    }

    function Strength(): nat
      reads this
    {
      strength
    }

    /** Loses `amount` vitality, stopping at zero; nothing else changes. */
    method DecreaseVitality(amount: nat)
      modifies this`vitality
      ensures View() == old(View()).(vitality := SaturatingSub(old(vitality), amount))
    {
      vitality := SaturatingSub(vitality, amount);
    }

    /** Loses `amount` speed, stopping at zero; nothing else changes. */
    method DecreaseSpeed(amount: nat)
      modifies this`speed
      ensures View() == old(View()).(speed := SaturatingSub(old(speed), amount))
    {
      speed := SaturatingSub(speed, amount);
    }

    /** Loses `amount` strength, stopping at zero; nothing else changes. */
    method DecreaseStrength(amount: nat)
      modifies this`strength
      ensures View() == old(View()).(strength := SaturatingSub(old(strength), amount))
    {
      strength := SaturatingSub(strength, amount);
    }
  }

  /** The decrements of the source's unit tests: 100 - 30 is 70 and a
      further 100 stops at 0; 50 - 20 is 30 and a further 50 stops at 0;
      50 - 10 is 40 and a further 50 stops at 0. */
  method DecrementExamples() returns (vitalities: seq<nat>, speeds: seq<nat>, strengths: seq<nat>)
    ensures vitalities == [70, 0] && speeds == [30, 0] && strengths == [40, 0]
  {
    var p := new Player("TestPlayer", 100, 50, 50);
    p.DecreaseVitality(30);
    vitalities := [p.Vitality()];
    p.DecreaseVitality(100);
    vitalities := vitalities + [p.Vitality()];
    p.DecreaseSpeed(20);
    speeds := [p.Speed()];
    p.DecreaseSpeed(50);
    speeds := speeds + [p.Speed()];
    p.DecreaseStrength(10);
    strengths := [p.Strength()];
    p.DecreaseStrength(50);
    strengths := strengths + [p.Strength()];
  }
}
