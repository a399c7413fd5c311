/** Rounds, penalties and the end of the game (src/game.rs). The two
    players' turns, the random targets and the prompts are outside this
    model: each round arrives as the two players' average scores and the
    penalty the round's winner picks. */
module Games {

  import opened Players

  datatype Option<T> = None | Some(value: T)

  /** Index of the penalty that takes speed; the other one, 1, takes strength. */
  const SpeedPenalty: nat := 0

  /** How much a penalty takes away. */
  const PenaltyAmount: nat := 5

  /** The game at one moment: both players, whether a speed knock-out has
      ended it, and who won by that knock-out. */
  datatype GameState = GameState(players: seq<PlayerView>, gameOver: bool, winnerIdx: Option<nat>)

  /** What one round brings in from outside: both players' turn scores and
      the penalty (0 or 1) the round's winner would choose. */
  datatype RoundInput = RoundInput(p1Score: nat, p2Score: nat, choice: nat)

  /** Two players, and a recorded winner that names one of them. */
  predicate WellFormed(g: GameState)
  {
    |g.players| == 2 && (g.winnerIdx.Some? ==> g.winnerIdx.value < 2)
  }

  /** A game is over exactly when a winner is recorded. */
  predicate Consistent(g: GameState)
  {
    WellFormed(g) && (g.gameOver <==> g.winnerIdx.Some?)
  }

  /** Every round's penalty is one of the two offered. */
  predicate ValidChoices(rounds: seq<RoundInput>)
  {
    forall i :: 0 <= i < |rounds| ==> rounds[i].choice <= 1
  }

  /** Both players start with the same attributes and nobody has won; the
      first round is played exactly when the starting vitality is positive. */
  function NewGame(name1: string, name2: string, vitality: nat, speed: nat, strength: nat): (g: GameState)
    ensures Consistent(g) && g.winnerIdx == None
    ensures Continues(g) <==> vitality > 0
  {
    GameState([PlayerView(name1, vitality, speed, strength), PlayerView(name2, vitality, speed, strength)], false, None)
  }

  /** The game loop's guard: another round is played while both players
      have vitality left and nobody has been knocked out by speed. */
  predicate Continues(g: GameState): (c: bool)
    requires WellFormed(g)
    ensures Consistent(g) ==> (c <==> g.winnerIdx == None && g.players[0].vitality > 0 && g.players[1].vitality > 0)
  {
    g.players[0].vitality > 0 && g.players[1].vitality > 0 && !g.gameOver
  }

  /** The winner the game announces: the speed knock-out winner if there is
      one, else player 1 if they still have vitality, else player 2. */
  function WinnerIndex(g: GameState): (w: nat)
    requires WellFormed(g)
    ensures w < 2
  {
    match g.winnerIdx
    case Some(i) => i
    case None => if g.players[0].vitality > 0 then 0 else 1
  }

  /** The round's winner makes the loser pay: 5 speed (and the game ends if
      that leaves no speed) or 5 strength. */
  function PenaltyOutcome(g: GameState, winner: nat, loser: nat, choice: nat): (r: GameState)
    requires WellFormed(g) && winner < 2 && loser < 2 && winner != loser && choice <= 1
    ensures WellFormed(r)
  {
    var p := g.players[loser];
    if choice == SpeedPenalty then
      var slowed := p.(speed := SaturatingSub(p.speed, PenaltyAmount));
      var g' := g.(players := g.players[loser := slowed]);
      if slowed.speed == 0 then g'.(gameOver := true, winnerIdx := Some(winner)) else g'
    else
      g.(players := g.players[loser := p.(strength := SaturatingSub(p.strength, PenaltyAmount))])
  }

  /** The loser of a decided round loses `diff` vitality and, if still
      alive, takes the winner's penalty. */
  function DecidedRound(g: GameState, winner: nat, loser: nat, diff: nat, choice: nat): (r: GameState)
    requires WellFormed(g) && winner < 2 && loser < 2 && winner != loser && choice <= 1
    ensures WellFormed(r)
  {
    var p := g.players[loser];
    var hit := g.(players := g.players[loser := p.(vitality := SaturatingSub(p.vitality, diff))]);
    if hit.players[loser].vitality > 0 then PenaltyOutcome(hit, winner, loser, choice) else hit
  }

  /** One round: the higher score wins, the difference is the damage. */
  function RoundOutcome(g: GameState, p1Score: nat, p2Score: nat, choice: nat): (r: GameState)
    requires WellFormed(g) && choice <= 1
    ensures WellFormed(r)
  {
    if p1Score > p2Score then DecidedRound(g, 0, 1, SaturatingSub(p1Score, p2Score), choice)
    else if p2Score > p1Score then DecidedRound(g, 1, 0, SaturatingSub(p2Score, p1Score), choice)
    else g
  }

  /** The game loop: rounds are played while the guard holds and rounds
      remain. */
  function PlayRounds(g: GameState, rounds: seq<RoundInput>): (r: GameState)
    requires WellFormed(g) && ValidChoices(rounds)
    ensures WellFormed(r)
    decreases |rounds|
  {
    if rounds == [] || !Continues(g) then g
    else PlayRounds(RoundOutcome(g, rounds[0].p1Score, rounds[0].p2Score, rounds[0].choice), rounds[1..])
  }

  /** The end of a game has a rightful winner: the announced winner still has
      vitality, and the other player has none left or has no speed left. */
  predicate Decided(g: GameState)
    requires WellFormed(g)
  {
    var w := WinnerIndex(g);
    g.players[w].vitality > 0 && (g.players[1 - w].vitality == 0 || g.players[1 - w].speed == 0)
  }

  /** A new game gives both players the same attributes, is not over, and
      has rounds to play exactly when the starting vitality is positive. */
  lemma NewGameStart(name1: string, name2: string, vitality: nat, speed: nat, strength: nat)
    ensures var g := NewGame(name1, name2, vitality, speed, strength);
      && Consistent(g) && !g.gameOver
      && g.players[0].name == name1 && g.players[1].name == name2
      && g.players[1] == g.players[0].(name := name2)
      && g.players[0].vitality == vitality && g.players[0].speed == speed && g.players[0].strength == strength
      && (Continues(g) <==> vitality > 0)
  {
  }

  /** In a decided round the winner is untouched and the loser loses the
      score difference in vitality, stopping at zero. */
  lemma DecisiveRoundDamagesLoser(g: GameState, p1Score: nat, p2Score: nat, choice: nat)
    requires WellFormed(g) && choice <= 1 && p1Score != p2Score
    ensures var r := RoundOutcome(g, p1Score, p2Score, choice);
      var w := if p1Score > p2Score then 0 else 1;
      var diff := if p1Score > p2Score then p1Score - p2Score else p2Score - p1Score;
      && r.players[w] == g.players[w]
      && r.players[1 - w].vitality == SaturatingSub(g.players[1 - w].vitality, diff)
      && r.players[1 - w].name == g.players[1 - w].name
  {
  }

  /** A draw changes nothing at all. */
  lemma DrawChangesNothing(g: GameState, score: nat, choice: nat)
    requires WellFormed(g) && choice <= 1
    ensures RoundOutcome(g, score, score, choice) == g
  {
  }

  /** A loser knocked out by the damage takes no penalty, and the game flags
      stay as they were. */
  lemma NoPenaltyAfterKnockout(g: GameState, p1Score: nat, p2Score: nat, choice: nat)
    requires WellFormed(g) && choice <= 1 && p1Score != p2Score
    ensures var r := RoundOutcome(g, p1Score, p2Score, choice);
      var l := if p1Score > p2Score then 1 else 0;
      r.players[l].vitality == 0 ==>
        && r.players[l] == g.players[l].(vitality := 0)
        && r.gameOver == g.gameOver && r.winnerIdx == g.winnerIdx
  {
  }

  /** A surviving loser who is given the speed penalty loses 5 speed; if
      that leaves none, the game is over and the round's winner is the
      game's winner, otherwise the game flags stay as they were. */
  lemma SpeedPenaltyRule(g: GameState, p1Score: nat, p2Score: nat)
    requires WellFormed(g) && p1Score != p2Score
    ensures var r := RoundOutcome(g, p1Score, p2Score, SpeedPenalty);
      var w := if p1Score > p2Score then 0 else 1;
      r.players[1 - w].vitality > 0 ==>
        && r.players[1 - w].speed == SaturatingSub(g.players[1 - w].speed, PenaltyAmount)
        && r.players[1 - w].strength == g.players[1 - w].strength
        && (r.players[1 - w].speed == 0 ==> r.gameOver && r.winnerIdx == Some(w))
        && (r.players[1 - w].speed > 0 ==> r.gameOver == g.gameOver && r.winnerIdx == g.winnerIdx)
  {
  }

  /** A surviving loser who is given the strength penalty loses 5 strength;
      the game flags stay as they were. */
  lemma StrengthPenaltyRule(g: GameState, p1Score: nat, p2Score: nat)
    requires WellFormed(g) && p1Score != p2Score
    ensures var r := RoundOutcome(g, p1Score, p2Score, 1);
      var w := if p1Score > p2Score then 0 else 1;
      && r.gameOver == g.gameOver && r.winnerIdx == g.winnerIdx
      && r.players[1 - w].speed == g.players[1 - w].speed
      && (r.players[1 - w].vitality > 0 ==>
            r.players[1 - w].strength == SaturatingSub(g.players[1 - w].strength, PenaltyAmount))
  {
  }

  /** Player `i`'s attributes in `after` are at most those in `before`, and
      the name is the same. */
  predicate NoAttributeRaised(before: GameState, after: GameState, i: nat)
    requires i < |before.players| && i < |after.players|
  {
    var p, q := before.players[i], after.players[i];
    q.name == p.name && q.vitality <= p.vitality && q.speed <= p.speed && q.strength <= p.strength
  }

  /** No round ever raises an attribute or renames a player. */
  lemma RoundNeverRaisesAttributes(g: GameState, p1Score: nat, p2Score: nat, choice: nat)
    requires WellFormed(g) && choice <= 1
    ensures var r := RoundOutcome(g, p1Score, p2Score, choice);
      NoAttributeRaised(g, r, 0) && NoAttributeRaised(g, r, 1)
  {
  }

  /** No number of rounds ever raises an attribute or renames a player. */
  lemma {:induction false} RoundsNeverRaiseAttributes(g: GameState, rounds: seq<RoundInput>)
    requires WellFormed(g) && ValidChoices(rounds)
    ensures var r := PlayRounds(g, rounds);
      NoAttributeRaised(g, r, 0) && NoAttributeRaised(g, r, 1)
    decreases |rounds|
  {
    if rounds != [] && Continues(g) {
      var x := rounds[0];
      var g' := RoundOutcome(g, x.p1Score, x.p2Score, x.choice);
      RoundNeverRaisesAttributes(g, x.p1Score, x.p2Score, x.choice);
      RoundsNeverRaiseAttributes(g', rounds[1..]);
    }
  }

  /** A round played under the loop guard keeps "over exactly when a winner
      is recorded", and if the game ends there its winner is rightful. */
  lemma RoundEndsWithRightfulWinner(g: GameState, p1Score: nat, p2Score: nat, choice: nat)
    requires Consistent(g) && Continues(g) && choice <= 1
    ensures var r := RoundOutcome(g, p1Score, p2Score, choice);
      Consistent(r) && (!Continues(r) ==> Decided(r))
  {
  }

  /** However the rounds go, a game that ends has a rightful winner. */
  lemma {:induction false} GameEndsWithRightfulWinner(g: GameState, rounds: seq<RoundInput>)
    requires Consistent(g) && Continues(g) && ValidChoices(rounds)
    ensures var r := PlayRounds(g, rounds);
      Consistent(r) && (!Continues(r) ==> Decided(r))
    decreases |rounds|
  {
    if rounds != [] {
      var x := rounds[0];
      var g' := RoundOutcome(g, x.p1Score, x.p2Score, x.choice);
      RoundEndsWithRightfulWinner(g, x.p1Score, x.p2Score, x.choice);
      if Continues(g') {
        GameEndsWithRightfulWinner(g', rounds[1..]);
      }
    }
  }

  /** Playing one more round after `rounds`, when the guard still allows it. */
  lemma {:induction false} PlayOneMore(g: GameState, rounds: seq<RoundInput>, x: RoundInput)
    requires WellFormed(g) && ValidChoices(rounds) && x.choice <= 1
    requires Continues(PlayRounds(g, rounds))
    ensures ValidChoices(rounds + [x])
    ensures PlayRounds(g, rounds + [x]) == RoundOutcome(PlayRounds(g, rounds), x.p1Score, x.p2Score, x.choice)
    decreases |rounds|
  {
    assert ValidChoices(rounds + [x]) by {
      forall i | 0 <= i < |rounds + [x]| ensures (rounds + [x])[i].choice <= 1 {
        if i < |rounds| {
          assert (rounds + [x])[i] == rounds[i];
        }
      }
    }
    if rounds != [] {
      assert (rounds + [x])[1..] == rounds[1..] + [x];
      var y := rounds[0];
      PlayOneMore(RoundOutcome(g, y.p1Score, y.p2Score, y.choice), rounds[1..], x);
    }
  }

  /** The game: two players held in a fixed array, and the speed knock-out
      flags. */
  class Game {
    const players: array<Player>
    const targetCount: nat
    var gameOver: bool
    var winnerIdx: Option<nat>

    /** Two distinct players, and a recorded winner that names one of them. */
    ghost predicate Valid()
      reads this, players
    {
      players.Length == 2 && players[0] != players[1]
      && (winnerIdx.Some? ==> winnerIdx.value < 2)
    }

    ghost function State(): (g: GameState)
      reads this, players, set i | 0 <= i < players.Length :: players[i]
      requires Valid()
      ensures WellFormed(g)
    {
      GameState([players[0].View(), players[1].View()], gameOver, winnerIdx)
    }

    /** Both players with the given attributes; nobody has won yet. */
    constructor (name1: string, name2: string, vitality: nat, speed: nat, strength: nat, targetCount: nat)
      ensures Valid() && fresh(players) && fresh(players[0]) && fresh(players[1])
      ensures State() == NewGame(name1, name2, vitality, speed, strength)
      ensures this.targetCount == targetCount
    {
      var first := new Player(name1, vitality, speed, strength);
      var second := new Player(name2, vitality, speed, strength);
      players := new Player[2] [first, second];
      this.targetCount := targetCount;
      gameOver := false;
      winnerIdx := None;
    }

    /** The winner's chosen penalty is applied to the loser. */
    method ApplyPenalty(winner: nat, loser: nat, choice: nat)
      requires Valid() && winner < 2 && loser < 2 && winner != loser && choice <= 1
      modifies this, players[loser]
      ensures Valid()
      ensures State() == PenaltyOutcome(old(State()), winner, loser, choice)
    {
      if choice == SpeedPenalty {
        players[loser].DecreaseSpeed(PenaltyAmount);
        if players[loser].Speed() == 0 {
          gameOver := true;
          winnerIdx := Some(winner);
        }
      } else {
        players[loser].DecreaseStrength(PenaltyAmount);
      }
    }

    /** The higher score wins the round; the loser loses the difference in
        vitality and, if still alive, takes the winner's penalty. */
    method ProcessRoundResult(p1Score: nat, p2Score: nat, choice: nat)
      requires Valid() && choice <= 1
      modifies this, players[0], players[1]
      ensures Valid()
      ensures State() == RoundOutcome(old(State()), p1Score, p2Score, choice)
    {
      if p1Score > p2Score {
        var diff := SaturatingSub(p1Score, p2Score);
        players[1].DecreaseVitality(diff);
        if players[1].Vitality() > 0 {
          ApplyPenalty(0, 1, choice);
        }
      } else if p2Score > p1Score {
        var diff := SaturatingSub(p2Score, p1Score);
        players[0].DecreaseVitality(diff);
        if players[0].Vitality() > 0 {
          ApplyPenalty(1, 0, choice);
        }
      }
    }

    /** The game loop over the given rounds, then the announced winner.
        The source's loop ends only when its guard fails; here it also ends
        when the rounds run out, and then no winner is announced. */
    method Run(rounds: seq<RoundInput>) returns (played: nat, winner: Option<nat>)
      requires Valid() && ValidChoices(rounds)
      modifies this, players[0], players[1]
      ensures Valid()
      ensures played <= |rounds|
      ensures State() == PlayRounds(old(State()), rounds)
      ensures State() == PlayRounds(old(State()), rounds[..played])
      ensures played < |rounds| ==> !Continues(State())
      ensures winner == None <==> Continues(State())
      ensures !Continues(State()) ==> winner == Some(WinnerIndex(State()))
      ensures Consistent(old(State())) && Continues(old(State())) && !Continues(State()) ==> Decided(State())
    {
      played := 0;
      while played < |rounds| && players[0].Vitality() > 0 && players[1].Vitality() > 0 && !gameOver
        invariant Valid() && played <= |rounds|
        invariant ValidChoices(rounds[..played])
        invariant PlayRounds(State(), rounds[played..]) == PlayRounds(old(State()), rounds)
        invariant State() == PlayRounds(old(State()), rounds[..played])
        decreases |rounds| - played
      {
        var x := rounds[played];
        assert rounds[played..][1..] == rounds[played + 1..];
        PlayOneMore(old(State()), rounds[..played], x);
        assert rounds[..played] + [x] == rounds[..played + 1];
        ProcessRoundResult(x.p1Score, x.p2Score, x.choice);
        played := played + 1;
      }
      assert played == |rounds| ==> rounds[played..] == [];
      if Consistent(old(State())) && Continues(old(State())) {
        GameEndsWithRightfulWinner(old(State()), rounds);
      }
      if players[0].Vitality() > 0 && players[1].Vitality() > 0 && !gameOver {
        winner := None;
      } else {
        match winnerIdx
        case Some(i) => winner := Some(i);
        case None => winner := Some(if players[0].Vitality() > 0 then 0 else 1);
      }
    }
  }
}
