/** The earlier number contest without chips: the same round with numbers and
    decisions only, resolved into a winner and the decision counts. */
module ClassicRound {
  import opened Wrappers
  import opened Contest
  import NumberContest

  /** The fields of one peer's game manager. */
  datatype State = State(numbers: map<int, int>, decisions: map<int, string>, roundActive: bool)

  /** Opens a round: clears both maps and deals `draws[i]` to `players[i]`. */
  function StartRound(s: State, players: seq<int>, draws: seq<int>): (t: State)
    requires |draws| == |players|
    requires forall i :: 0 <= i < |draws| ==> InDealRange(draws[i])
    ensures t.roundActive
    ensures t.decisions == map[]
    ensures t.numbers.Keys == set p | p in players
    ensures forall p :: p in t.numbers ==> InDealRange(t.numbers[p])
    ensures Distinct(players) ==> forall i :: 0 <= i < |players| ==> t.numbers[players[i]] == draws[i]
  {
    assert Distinct(players) ==> forall i :: 0 <= i < |players| ==> Deal(players, draws)[players[i]] == draws[i] by {
      if Distinct(players) {
        DealAssigns(players, draws);
      }
    }
    State(Deal(players, draws), map[], true)
  }

  /** What a client sends: its actor number and decision. */
  datatype Vote = Vote(actorId: int, decision: string)

  /** The client-side `RegisterDecision`: nothing is sent while this peer's round is closed. */
  function RegisterDecision(local: State, localId: int, decision: string): (v: Option<Vote>)
    ensures v.None? <==> !local.roundActive
    ensures v.Some? ==> v.value == Vote(localId, decision)
  {
    if !local.roundActive then None else Some(Vote(localId, decision))
  }

  /** The master's `RPC_RegisterDecision`: the latest decision of a player replaces the
      earlier one; ignored once the round is closed. */
  function Receive(s: State, v: Vote): (t: State)
    ensures !s.roundActive ==> t == s
    ensures t.numbers == s.numbers && t.roundActive == s.roundActive
    ensures s.roundActive ==> v.actorId in t.decisions && t.decisions[v.actorId] == v.decision
    ensures forall id :: id != v.actorId ==>
              (id in t.decisions <==> id in s.decisions) && (id in s.decisions ==> t.decisions[id] == s.decisions[id])
  {
    if !s.roundActive then s else s.(decisions := s.decisions[v.actorId := v.decision])
  }

  /** A later decision of the same player overrides an earlier one entirely. */
  lemma LastVoteWins(s: State, first: Vote, second: Vote)
    requires first.actorId == second.actorId
    ensures Receive(Receive(s, first), second) == Receive(s, second)
  {
  }

  /** The structured part of the result line. */
  datatype RoundResult = RoundResult(outcome: Outcome, totalPlayers: int, contested: int, folded: int, noDecision: int)

  /** The sort's choice may be any contender with the highest number. */
  predicate ValidTop(s: State, players: seq<int>, top: int) {
    var cs := Partition(s.numbers, s.decisions, players).contenders;
    |cs| >= 2 ==> IsTop(cs, top)
  }

  /** `DecideWinner`: classify the players and pick the winner; nothing is written. */
  function DecideWinner(s: State, players: seq<int>, top: int): (r: RoundResult)
    requires ValidTop(s, players, top)
    ensures r.totalPlayers == |players|
    ensures r.contested + r.folded + r.noDecision == r.totalPlayers && 0 <= r.noDecision
    ensures r.outcome.NoContestants? <==> r.contested == 0
    ensures r.outcome.WinsByDefault? <==> r.contested == 1
    ensures !r.outcome.NoContestants? ==>
              var w := r.outcome.winner;
              && w.id in players
              && Contends(s.numbers, s.decisions, w.id)
              && w.number == s.numbers[w.id]
              && forall p :: p in players && Contends(s.numbers, s.decisions, p) ==> s.numbers[p] <= w.number
    ensures Distinct(players) ==>
              && r.contested == |ContendingSet(s.numbers, s.decisions, players)|
              && r.folded == |FoldingSet(s.decisions, players)|
  {
    var sp := Partition(s.numbers, s.decisions, players);
    var cs := sp.contenders;
    var o := Pick(cs, top);
    assert !o.NoContestants? ==> forall p :: p in players && Contends(s.numbers, s.decisions, p) ==> s.numbers[p] <= o.winner.number by {
      if !o.NoContestants? {
        forall p | p in players && Contends(s.numbers, s.decisions, p) ensures s.numbers[p] <= o.winner.number {
          var k :| 0 <= k < |cs| && cs[k].id == p;
        }
      }
    }
    assert Distinct(players) ==>
             && |cs| == |ContendingSet(s.numbers, s.decisions, players)|
             && sp.folded == |FoldingSet(s.decisions, players)| by {
      if Distinct(players) {
        PartitionCounts(s.numbers, s.decisions, players);
      }
    }
    RoundResult(o, |players|, |cs|, sp.folded, |players| - |cs| - sp.folded)
  }

  /** The decision window ends: the round closes and is resolved; the number and
      decision maps are only read. */
  function CloseRound(s: State, players: seq<int>, top: int): (res: (State, RoundResult))
    requires ValidTop(s, players, top)
    ensures !res.0.roundActive
    ensures res.0.numbers == s.numbers && res.0.decisions == s.decisions
    ensures res.1 == DecideWinner(s, players, top)
  {
    var closed := s.(roundActive := false);
    (closed, DecideWinner(closed, players, top))
  }

  /** The chip-less round is the chip round with the ledger ignored: on the same numbers
      and decisions both report the same winner and counts. */
  lemma AgreesWithChipRound(c: NumberContest.State, players: seq<int>, top: int)
    requires NumberContest.ValidTop(c, players, top)
    ensures ValidTop(State(c.numbers, c.decisions, c.roundActive), players, top)
    ensures var classic := DecideWinner(State(c.numbers, c.decisions, c.roundActive), players, top);
            var chips := NumberContest.DecideWinner(c, players, top).result;
            && classic.outcome == chips.outcome
            && classic.contested == chips.contested
            && classic.folded == chips.folded
            && classic.noDecision == chips.noDecision
  {
  }
}
