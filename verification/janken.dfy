/** The rock-paper-scissors page of src/ts/janken.ts: the rules and the
    scoreboard. The computer's hand is an input instead of `Math.random`. */
module Janken {

  datatype Hand = Rock | Paper | Scissors

  datatype Result = Win | Lose | Draw

  /** `determineWinner`, from the player's side. */
  function DetermineWinner(playerChoice: Hand, computerChoice: Hand): (r: Result)
    ensures r == Draw <==> playerChoice == computerChoice
  {
    if playerChoice == computerChoice then Draw
    else if (playerChoice == Rock && computerChoice == Scissors)
         || (playerChoice == Paper && computerChoice == Rock)
         || (playerChoice == Scissors && computerChoice == Paper) then Win
    else Lose
  }

  /** The hand that `h` defeats. */
  function Beats(h: Hand): (v: Hand)
    ensures v != h
  {
    match h
    case Rock => Scissors
    case Paper => Rock
    case Scissors => Paper
  }

  /** Position in the cycle rock, paper, scissors: each beats the one before it. */
  function Rank(h: Hand): int {
    match h
    case Rock => 0
    case Paper => 1
    case Scissors => 2
  }

  const AllHands: set<Hand> := {Rock, Paper, Scissors}

  /** The result the other player sees. */
  function Opposite(r: Result): Result {
    match r
    case Win => Lose
    case Lose => Win
    case Draw => Draw
  }

  /** Rock beats scissors, paper beats rock, scissors beats paper, and every
      other unequal pair loses. */
  lemma WinningPairs(p: Hand, c: Hand)
    ensures DetermineWinner(p, c) == Win <==> c == Beats(p)
    ensures DetermineWinner(p, c) == Lose <==> p == Beats(c)
  {
  }

  /** The rules agree with the cyclic reading: a hand wins against the
      hand one place before it in the cycle and loses against the next. */
  lemma CyclicRule(p: Hand, c: Hand)
    ensures DetermineWinner(p, c) == Win <==> (Rank(p) - Rank(c)) % 3 == 1
    ensures DetermineWinner(p, c) == Lose <==> (Rank(p) - Rank(c)) % 3 == 2
  {
  }

  /** Swapping the hands swaps win and lose. */
  lemma Antisymmetry(a: Hand, b: Hand)
    ensures DetermineWinner(b, a) == Opposite(DetermineWinner(a, b))
    ensures a != b ==> (DetermineWinner(a, b) == Win <==> DetermineWinner(b, a) == Lose)
  {
  }

  /** Each hand wins against exactly one hand, loses against exactly one
      and draws against exactly one. */
  lemma Balance(h: Hand)
    ensures (set c | c in AllHands && DetermineWinner(h, c) == Win) == {Beats(h)}
    ensures (set c | c in AllHands && DetermineWinner(h, c) == Lose) == {Beats(Beats(h))}
    ensures (set c | c in AllHands && DetermineWinner(h, c) == Draw) == {h}
  {
    var wins := set c | c in AllHands && DetermineWinner(h, c) == Win;
    var losses := set c | c in AllHands && DetermineWinner(h, c) == Lose;
    var draws := set c | c in AllHands && DetermineWinner(h, c) == Draw;
    forall c | c in AllHands
      ensures c in wins <==> c == Beats(h)
      ensures c in losses <==> c == Beats(Beats(h))
      ensures c in draws <==> c == h
    {
      WinningPairs(h, c);
    }
  }

  /** The three counters. */
  datatype Score = Score(wins: nat, draws: nat, losses: nat)

  function Total(s: Score): nat {
    s.wins + s.draws + s.losses
  }

  /** `updateScore`. */
  function Tally(s: Score, r: Result): (t: Score)
    ensures Total(t) == Total(s) + 1
  {
    match r
    case Win => s.(wins := s.wins + 1)
    case Lose => s.(losses := s.losses + 1)
    case Draw => s.(draws := s.draws + 1)
  }

  /** Exactly the counter of the result moves, and by one. */
  lemma TallyOneCounter(s: Score, r: Result)
    ensures var t := Tally(s, r);
      && (t.wins != s.wins <==> r == Win)
      && (t.draws != s.draws <==> r == Draw)
      && (t.losses != s.losses <==> r == Lose)
      && t.wins <= s.wins + 1 && t.draws <= s.draws + 1 && t.losses <= s.losses + 1
      && s.wins <= t.wins && s.draws <= t.draws && s.losses <= t.losses
  {
  }

  /** A series of rounds, scored in order. */
  function TallyAll(s: Score, rs: seq<Result>): Score
    decreases |rs|
  {
    if rs == [] then s else TallyAll(Tally(s, rs[0]), rs[1..])
  }

  function Count(rs: seq<Result>, r: Result): nat {
    if rs == [] then 0 else (if rs[0] == r then 1 else 0) + Count(rs[1..], r)
  }

  /** After a series of rounds each counter has grown by the number of
      rounds with its result, and the total by the number of rounds. */
  lemma {:induction false} TallyAllCounts(s: Score, rs: seq<Result>)
    ensures var t := TallyAll(s, rs);
      && t.wins == s.wins + Count(rs, Win)
      && t.draws == s.draws + Count(rs, Draw)
      && t.losses == s.losses + Count(rs, Lose)
      && Total(t) == Total(s) + |rs|
    decreases |rs|
  {
    if rs != [] {
      TallyAllCounts(Tally(s, rs[0]), rs[1..]);
    }
  }

  /** `JankenGame`, without its DOM elements. */
  class JankenGame {
    var wins: nat
    var draws: nat
    var losses: nat

    function Scoreboard(): Score
      reads this
    {
      Score(wins, draws, losses)
    }

    constructor ()
      ensures Scoreboard() == Score(0, 0, 0)
    {
      wins, draws, losses := 0, 0, 0;
    }

    /** `play`, with the computer's hand given; the result is what
        `displayResult` shows. */
    method Play(playerChoice: Hand, computerChoice: Hand) returns (result: Result)
      modifies this
      ensures result == DetermineWinner(playerChoice, computerChoice)
      ensures Scoreboard() == Tally(old(Scoreboard()), result)
      ensures Total(Scoreboard()) == Total(old(Scoreboard())) + 1
    {
      result := DetermineWinner(playerChoice, computerChoice);
      UpdateScore(result);
    }

    method UpdateScore(result: Result)
      modifies this
      ensures Scoreboard() == Tally(old(Scoreboard()), result)
    {
      match result {
        case Win => wins := wins + 1;
        case Lose => losses := losses + 1;
        case Draw => draws := draws + 1;
      }
    }

    method ResetGame()
      modifies this
      ensures wins == 0 && draws == 0 && losses == 0
    {
      wins := 0;
      draws := 0;
      losses := 0;
    }
  }
}
