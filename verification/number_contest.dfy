/** The number contest with chips: the master's round state, dealing a round,
    clamping and recording decisions, and resolving the round into a result
    and new balances. */
module NumberContest {
  import opened Wrappers
  import opened Contest
  import opened ChipLedger

  const MINIMUM_BET: int := 5

  /** One peer's game-manager fields. Only the master's copy is authoritative. */
  datatype State = State(
    numbers: map<int, int>,
    decisions: map<int, string>,
    chips: map<int, int>,
    bets: map<int, int>,
    roundActive: bool)

  /** The master's state when the scene starts: every listed player holds the
      starting balance, nothing else is recorded and no round is open. */
  function Initial(players: seq<int>): (s: State)
    ensures s.chips.Keys == set p | p in players
    ensures forall p :: p in players ==> s.chips[p] == STARTING_CHIPS
    ensures s.numbers == map[] && s.decisions == map[] && s.bets == map[] && !s.roundActive
  {
    State(map[], map[], map p | p in players :: STARTING_CHIPS, map[], false)
  }

  /** Opens a round: clears the per-round maps, seats newcomers in the ledger and
      deals `draws[i]` to `players[i]`. */
  function StartRound(s: State, players: seq<int>, draws: seq<int>): (t: State)
    requires |draws| == |players|
    requires forall i :: 0 <= i < |draws| ==> InDealRange(draws[i])
    ensures t.roundActive
    ensures t.decisions == map[] && t.bets == map[]
    ensures t.numbers.Keys == set p | p in players
    ensures forall p :: p in t.numbers ==> InDealRange(t.numbers[p])
    ensures t.chips.Keys == s.chips.Keys + (set p | p in players)
    ensures forall id :: id in s.chips ==> t.chips[id] == s.chips[id]
    ensures forall p :: p in players && p !in s.chips ==> t.chips[p] == STARTING_CHIPS
    ensures Distinct(players) ==> forall i :: 0 <= i < |players| ==> t.numbers[players[i]] == draws[i]
  {
    assert Distinct(players) ==> forall i :: 0 <= i < |players| ==> Deal(players, draws)[players[i]] == draws[i] by {
      if Distinct(players) {
        DealAssigns(players, draws);
      }
    }
    State(Deal(players, draws), map[], Seat(s.chips, players), map[], true)
  }

  /** The bet a client sends for "Contest": raised to the minimum, then capped by
      what the client believes is available. */
  function ClampBet(requested: int, available: int): (bet: int)
    ensures bet <= available
    ensures available >= MINIMUM_BET ==> MINIMUM_BET <= bet
    ensures MINIMUM_BET <= requested <= available ==> bet == requested
    ensures available < MINIMUM_BET ==> bet == available
  {
    var raised := if requested < MINIMUM_BET then MINIMUM_BET else requested;
    if raised < available then raised else available
  }

  function Abs(x: int): nat {
    if x < 0 then -x else x
  }

  /** When a legal bet exists, the clamped bet is the legal bet closest to the request. */
  lemma ClampBetNearest(requested: int, available: int, other: int)
    requires MINIMUM_BET <= other <= available
    ensures MINIMUM_BET <= ClampBet(requested, available) <= available
    ensures Abs(ClampBet(requested, available) - requested) <= Abs(other - requested)
  {
  }

  /** What a client sends to the master: its actor number, decision and bet. */
  datatype Message = Message(actorId: int, decision: string, bet: int)

  /** The client-side `RegisterDecision`, run on the peer whose state is `local`.
      Nothing is sent while that peer's round is closed. */
  function RegisterDecision(local: State, localId: int, decision: string, betAmount: int): (m: Option<Message>)
    ensures m.None? <==> !local.roundActive
    ensures m.Some? ==> m.value.actorId == localId && m.value.decision == decision
    ensures m.Some? && decision != CONTEST ==> m.value.bet == 0
    ensures m.Some? && decision == CONTEST ==>
              && m.value.bet <= Balance(local.chips, localId)
              && (Balance(local.chips, localId) >= MINIMUM_BET ==> m.value.bet >= MINIMUM_BET)
    ensures m.Some? && decision == CONTEST ==> m.value.bet == ClampBet(betAmount, Balance(local.chips, localId))
  {
    if !local.roundActive then None
    else if decision == CONTEST then
      Some(Message(localId, decision, ClampBet(betAmount, Balance(local.chips, localId))))
    else
      Some(Message(localId, decision, 0))
  }

  /** The master's `RPC_RegisterDecision`: records the decision (last write wins) and,
      for "Contest", the bet. Ignored once the round is closed. */
  function Receive(s: State, m: Message): (t: State)
    ensures !s.roundActive ==> t == s
    ensures t.numbers == s.numbers && t.chips == s.chips && t.roundActive == s.roundActive
    ensures s.roundActive ==> m.actorId in t.decisions && t.decisions[m.actorId] == m.decision
    ensures forall id :: id != m.actorId ==>
              (id in t.decisions <==> id in s.decisions) && (id in s.decisions ==> t.decisions[id] == s.decisions[id])
    ensures s.roundActive && m.decision == CONTEST ==> m.actorId in t.bets && t.bets[m.actorId] == m.bet
    ensures m.decision != CONTEST ==> t.bets == s.bets
    ensures forall id :: id != m.actorId ==>
              (id in t.bets <==> id in s.bets) && (id in s.bets ==> t.bets[id] == s.bets[id])
  {
    if !s.roundActive then s
    else
      var decisions := s.decisions[m.actorId := m.decision];
      if m.decision == CONTEST then s.(decisions := decisions, bets := s.bets[m.actorId := m.bet])
      else s.(decisions := decisions)
  }

  /** Receiving the same message twice is the same as receiving it once. */
  lemma ReceiveIdempotent(s: State, m: Message)
    ensures Receive(Receive(s, m), m) == Receive(s, m)
  {
  }

  /** What the round reports to everybody. `noDecision` is computed as in the result
      line: players minus contested minus folded. */
  datatype RoundResult = RoundResult(
    outcome: Outcome,
    winnerId: int,
    pot: int,
    totalPlayers: int,
    contested: int,
    folded: int,
    noDecision: int,
    balances: seq<int>)

  /** The state after resolution together with the result sent out. */
  datatype Resolution = Resolution(state: State, result: RoundResult)

  /** The sort's choice may be any contender with the highest number. */
  predicate ValidTop(s: State, players: seq<int>, top: int) {
    var cs := Partition(s.numbers, s.decisions, players).contenders;
    |cs| >= 2 ==> IsTop(cs, top)
  }

  /** `DecideWinner`: classify the players, take the contenders' bets into the pot,
      pick the winner and credit the pot to them. */
  function DecideWinner(s: State, players: seq<int>, top: int): (res: Resolution)
    requires ValidTop(s, players, top)
    ensures res.state == s.(chips := res.state.chips)
    ensures res.state.chips.Keys == s.chips.Keys
    ensures var r := res.result;
            && r.totalPlayers == |players|
            && r.contested + r.folded + r.noDecision == r.totalPlayers
            && 0 <= r.noDecision
            && r.winnerId == WinnerId(r.outcome)
            && r.pot == SumBets(s.bets, Partition(s.numbers, s.decisions, players).contenders)
            && |r.balances| == |players|
            && (forall i :: 0 <= i < |players| ==> r.balances[i] == Balance(res.state.chips, players[i]))
    ensures res.result.contested == 0 <==> res.result.outcome.NoContestants?
    ensures res.result.contested == 0 ==> res.state.chips == s.chips && res.result.pot == 0 && res.result.winnerId == -1
    ensures !res.result.outcome.NoContestants? ==>
              var w := res.result.outcome.winner;
              && w.id in players
              && Contends(s.numbers, s.decisions, w.id)
              && w.number == s.numbers[w.id]
              && forall p :: p in players && Contends(s.numbers, s.decisions, p) ==> s.numbers[p] <= w.number
    ensures res.result.contested == 1 ==> res.result.outcome.WinsByDefault?
  {
    var sp := Partition(s.numbers, s.decisions, players);
    var cs := sp.contenders;
    var d := Debit(s.chips, s.bets, cs);
    var o := Pick(cs, top);
    var chips := Credit(d.chips, o, d.pot);
    assert !o.NoContestants? ==> forall p :: p in players && Contends(s.numbers, s.decisions, p) ==> s.numbers[p] <= o.winner.number by {
      if !o.NoContestants? {
        forall p | p in players && Contends(s.numbers, s.decisions, p) ensures s.numbers[p] <= o.winner.number {
          var k :| 0 <= k < |cs| && cs[k].id == p;
        }
      }
    }
    var r := RoundResult(o, WinnerId(o), d.pot, |players|, |cs|, sp.folded,
                         |players| - |cs| - sp.folded, Balances(chips, players));
    Resolution(s.(chips := chips), r)
  }

  /** With distinct actor numbers the reported counts are the numbers of contending and
      of folding players, and the undecided count is what remains. */
  lemma ResolutionCounts(s: State, players: seq<int>, top: int)
    requires ValidTop(s, players, top)
    requires Distinct(players)
    ensures var r := DecideWinner(s, players, top).result;
            && r.contested == |ContendingSet(s.numbers, s.decisions, players)|
            && r.folded == |FoldingSet(s.decisions, players)|
            && r.noDecision == |players| - |ContendingSet(s.numbers, s.decisions, players)| - |FoldingSet(s.decisions, players)|
  {
    PartitionCounts(s.numbers, s.decisions, players);
  }

  /** The decision window ends: the round closes and is resolved. */
  function CloseRound(s: State, players: seq<int>, top: int): (res: Resolution)
    requires ValidTop(s, players, top)
    ensures !res.state.roundActive
    ensures res.state.numbers == s.numbers && res.state.decisions == s.decisions && res.state.bets == s.bets
  {
    DecideWinner(s.(roundActive := false), players, top)
  }

  /** A decision that arrives after the window closed changes nothing. */
  lemma LateDecisionIgnored(s: State, players: seq<int>, top: int, m: Message)
    requires ValidTop(s, players, top)
    ensures Receive(CloseRound(s, players, top).state, m) == CloseRound(s, players, top).state
  {
  }

  /** Every listed player has a ledger entry, as after `StartRound`. */
  predicate AllSeated(s: State, players: seq<int>) {
    forall p :: p in players ==> p in s.chips
  }

  /** How resolution moves each listed player's balance: a contender loses their bet,
      the winner gains the pot, and nobody else's entry changes. */
  lemma SettlementPerPlayer(s: State, players: seq<int>, top: int)
    requires ValidTop(s, players, top)
    requires Distinct(players)
    ensures var res := DecideWinner(s, players, top);
            forall p :: p in s.chips && p in players ==>
              res.state.chips[p] == s.chips[p]
                                    - (if Contends(s.numbers, s.decisions, p) then BetOf(s.bets, p) else 0)
                                    + (if p == res.result.winnerId then res.result.pot else 0)
    ensures var res := DecideWinner(s, players, top);
            forall id :: id in s.chips && id !in players ==> res.state.chips[id] == s.chips[id]
  {
    var sp := Partition(s.numbers, s.decisions, players);
    var cs := sp.contenders;
    var d := Debit(s.chips, s.bets, cs);
    var o := Pick(cs, top);
    var res := DecideWinner(s, players, top);
    assert res.state.chips == Credit(d.chips, o, d.pot);
    forall p | p in s.chips && p in players
      ensures res.state.chips[p] == s.chips[p]
                                    - (if Contends(s.numbers, s.decisions, p) then BetOf(s.bets, p) else 0)
                                    + (if p == res.result.winnerId then res.result.pot else 0)
    {
      if Contends(s.numbers, s.decisions, p) {
        var k :| 0 <= k < |cs| && cs[k].id == p;
        assert d.chips[p] == s.chips[p] - BetOf(s.bets, p);
      } else {
        assert !Mentions(cs, p);
        assert d.chips[p] == s.chips[p];
      }
    }
    forall id | id in s.chips && id !in players ensures res.state.chips[id] == s.chips[id] {
      assert !Mentions(cs, id);
    }
  }

  /** The winner ends with their balance minus their own bet plus the whole pot. */
  lemma WinnerBalance(s: State, players: seq<int>, top: int)
    requires ValidTop(s, players, top)
    requires Distinct(players)
    requires !DecideWinner(s, players, top).result.outcome.NoContestants?
    requires DecideWinner(s, players, top).result.winnerId in s.chips
    ensures var res := DecideWinner(s, players, top);
            var w := res.result.winnerId;
            res.state.chips[w] == s.chips[w] - BetOf(s.bets, w) + res.result.pot
  {
    SettlementPerPlayer(s, players, top);
  }

  /** Resolution neither creates nor destroys chips among seated, distinct players. */
  lemma {:induction false} ResolutionConservesChips(s: State, players: seq<int>, top: int)
    requires ValidTop(s, players, top)
    requires Distinct(players) && AllSeated(s, players)
    ensures Total(DecideWinner(s, players, top).state.chips, players) == Total(s.chips, players)
  {
    var sp := Partition(s.numbers, s.decisions, players);
    var cs := sp.contenders;
    var d := Debit(s.chips, s.bets, cs);
    var o := Pick(cs, top);
    var after := Credit(d.chips, o, d.pot);
    assert DecideWinner(s, players, top).state.chips == after;
    DebitConserves(s.chips, s.bets, cs, players);
    CreditConserves(d.chips, o, d.pot, players);
    if o.NoContestants? {
      assert cs == [];
    }
  }

  /** The recorded Contest bets of the listed players are covered by their balances. */
  predicate BetsCovered(s: State, players: seq<int>) {
    forall p :: p in players && Contends(s.numbers, s.decisions, p) ==>
      0 <= BetOf(s.bets, p) <= Held(s.chips, p)
  }

  /** Balances the ledger did not let go negative stay non-negative through resolution
      when every contender's bet is covered. */
  lemma BalancesStayNonNegative(s: State, players: seq<int>, top: int)
    requires ValidTop(s, players, top)
    requires Distinct(players) && AllSeated(s, players)
    requires forall p :: p in players ==> s.chips[p] >= 0
    requires BetsCovered(s, players)
    ensures var res := DecideWinner(s, players, top);
            forall p :: p in players ==> res.state.chips[p] >= 0
  {
    var cs := Partition(s.numbers, s.decisions, players).contenders;
    SumBetsNonNegative(s.bets, cs);
    SettlementPerPlayer(s, players, top);
  }

  /** A Contest message the master clamps against its own ledger keeps the bets covered. */
  lemma ClampedContestKeepsBetsCovered(s: State, players: seq<int>, id: int, requested: int)
    requires s.roundActive && id in s.chips && s.chips[id] >= 0
    requires BetsCovered(s, players)
    ensures var m := RegisterDecision(s, id, CONTEST, requested);
            m.Some? && BetsCovered(Receive(s, m.value), players)
  {
  }

  /** Resolution does not read the recorded bet of a player who does not contend. */
  lemma ResolutionIgnoresStaleBet(s: State, players: seq<int>, top: int, id: int, v: int)
    requires ValidTop(s, players, top)
    requires !Contends(s.numbers, s.decisions, id)
    ensures ValidTop(s.(bets := s.bets[id := v]), players, top)
    ensures DecideWinner(s.(bets := s.bets[id := v]), players, top).result == DecideWinner(s, players, top).result
    ensures DecideWinner(s.(bets := s.bets[id := v]), players, top).state.chips == DecideWinner(s, players, top).state.chips
  {
    var cs := Partition(s.numbers, s.decisions, players).contenders;
    assert !Mentions(cs, id);
    DebitIgnoresOthers(s.chips, s.bets, cs, id, v);
  }

  /** Last write wins: when a player decides twice, the round resolves exactly as if
      only the second decision had been sent. */
  lemma LastDecisionWins(s: State, first: Message, second: Message, players: seq<int>, top: int)
    requires first.actorId == second.actorId
    requires ValidTop(Receive(s, second), players, top)
    ensures ValidTop(Receive(Receive(s, first), second), players, top)
    ensures DecideWinner(Receive(Receive(s, first), second), players, top).result
         == DecideWinner(Receive(s, second), players, top).result
    ensures DecideWinner(Receive(Receive(s, first), second), players, top).state.chips
         == DecideWinner(Receive(s, second), players, top).state.chips
  {
    var once := Receive(s, second);
    var id := second.actorId;
    if s.roundActive && second.decision != CONTEST && first.decision == CONTEST {
      assert Receive(Receive(s, first), second) == once.(bets := once.bets[id := first.bet]);
      LabelsDiffer();
      ResolutionIgnoresStaleBet(once, players, top, id, first.bet);
    } else {
      assert Receive(Receive(s, first), second) == once;
    }
  }

  /** Receives a sequence of messages in order. */
  function ReceiveAll(s: State, ms: seq<Message>): (t: State)
    ensures t.numbers == s.numbers && t.chips == s.chips && t.roundActive == s.roundActive
    decreases |ms|
  {
    if |ms| == 0 then s else ReceiveAll(Receive(s, ms[0]), ms[1..])
  }

  /** A whole round, from dealing through any decisions to resolution, keeps the chips
      in play: the players' total equals what they held after seating. */
  lemma RoundConservesChips(s: State, players: seq<int>, draws: seq<int>, ms: seq<Message>, top: int)
    requires |draws| == |players|
    requires forall i :: 0 <= i < |draws| ==> InDealRange(draws[i])
    requires Distinct(players)
    requires ValidTop(ReceiveAll(StartRound(s, players, draws), ms), players, top)
    ensures var open := ReceiveAll(StartRound(s, players, draws), ms);
            Total(CloseRound(open, players, top).state.chips, players) == Total(Seat(s.chips, players), players)
  {
    var open := ReceiveAll(StartRound(s, players, draws), ms);
    ResolutionConservesChips(open.(roundActive := false), players, top);
  }

  /** The state of the three-player example once every decision has arrived. */
  function ExampleDecided(): State {
    State(map[1 := 80, 2 := 45, 3 := 30], map[1 := CONTEST, 2 := CONTEST, 3 := FOLD],
          map[1 := 100, 2 := 100, 3 := 100], map[1 := 20, 2 := 10], true)
  }

  /** Three fresh players are dealt 80, 45 and 30; the first two contest with 20 and
      10 chips and the third folds. */
  lemma ExampleDecisions()
    ensures var players := [1, 2, 3];
            var open := StartRound(Initial(players), players, [80, 45, 30]);
            ReceiveAll(open, [Message(1, CONTEST, 20), Message(2, CONTEST, 10), Message(3, FOLD, 0)])
              == ExampleDecided()
  {
    var players := [1, 2, 3];
    var open := StartRound(Initial(players), players, [80, 45, 30]);
    DealAssigns(players, [80, 45, 30]);
    assert open.numbers == map[1 := 80, 2 := 45, 3 := 30];
    assert open.chips == map[1 := 100, 2 := 100, 3 := 100];
    LabelsDiffer();
    var ms := [Message(1, CONTEST, 20), Message(2, CONTEST, 10), Message(3, FOLD, 0)];
    var s1 := Receive(open, ms[0]);
    var s2 := Receive(s1, ms[1]);
    var s3 := Receive(s2, ms[2]);
    assert ms[1..] == [ms[1], ms[2]] && ms[1..][1..] == [ms[2]] && ms[1..][1..][1..] == [];
    assert ReceiveAll(s3, []) == s3;
    assert ReceiveAll(s2, [ms[2]]) == s3;
    assert ReceiveAll(s1, [ms[1], ms[2]]) == s3;
    assert s3.decisions == map[1 := CONTEST, 2 := CONTEST, 3 := FOLD];
    assert s3.bets == map[1 := 20, 2 := 10];
  }

  lemma ExamplePartition()
    ensures Partition(ExampleDecided().numbers, ExampleDecided().decisions, [1, 2, 3])
         == Split([Entry(1, 80), Entry(2, 45)], 1)
  {
    var s := ExampleDecided();
    LabelsDiffer();
    assert [1, 2, 3][..2] == [1, 2] && [1, 2][..1] == [1] && [1][..0] == [];
    assert Partition(s.numbers, s.decisions, [1]) == Split([Entry(1, 80)], 0);
    assert Partition(s.numbers, s.decisions, [1, 2]) == Split([Entry(1, 80), Entry(2, 45)], 0);
  }

  lemma ExampleDebit()
    ensures Debit(ExampleDecided().chips, ExampleDecided().bets, [Entry(1, 80), Entry(2, 45)])
         == Settlement(map[1 := 80, 2 := 90, 3 := 100], 30)
  {
    var s := ExampleDecided();
    var cs := [Entry(1, 80), Entry(2, 45)];
    assert cs[..1] == [Entry(1, 80)] && cs[..1][..0] == [];
    assert Debit(s.chips, s.bets, cs[..1]) == Settlement(map[1 := 80, 2 := 100, 3 := 100], 20);
  }

  lemma ExampleBalances()
    ensures var b := Balances(Credit(map[1 := 80, 2 := 90, 3 := 100], Wins(Entry(1, 80)), 30), [1, 2, 3]);
            |b| == 3 && b[0] == 110 && b[1] == 90 && b[2] == 100
  {
    var chips := Credit(map[1 := 80, 2 := 90, 3 := 100], Wins(Entry(1, 80)), 30);
    assert chips[1] == 110 && chips[2] == 90 && chips[3] == 100;
  }

  /** The example reports two contested, one folded and nobody undecided. */
  lemma ExampleCounts()
    ensures ValidTop(ExampleDecided(), [1, 2, 3], 0)
    ensures var r := CloseRound(ExampleDecided(), [1, 2, 3], 0).result;
            r.contested == 2 && r.folded == 1 && r.noDecision == 0
  {
    ExamplePartition();
    var s := ExampleDecided().(roundActive := false);
    assert Partition(s.numbers, s.decisions, [1, 2, 3]) == Split([Entry(1, 80), Entry(2, 45)], 1);
    assert IsTop([Entry(1, 80), Entry(2, 45)], 0);
  }

  /** Closing a round resolves it on the open round's split: the outcome is the winner
      choice over its contenders and the pot the sum of their bets. */
  lemma CloseRoundResult(s: State, players: seq<int>, top: int)
    requires ValidTop(s, players, top)
    ensures var cs := Partition(s.numbers, s.decisions, players).contenders;
            var r := CloseRound(s, players, top).result;
            r.outcome == Pick(cs, top) && r.pot == SumBets(s.bets, cs)
  {
  }

  /** The example resolves with the highest number winning. */
  lemma ExampleResolution()
    ensures ValidTop(ExampleDecided(), [1, 2, 3], 0)
    ensures CloseRound(ExampleDecided(), [1, 2, 3], 0).result.outcome == Wins(Entry(1, 80))
  {
    ExamplePartition();
    var cs := [Entry(1, 80), Entry(2, 45)];
    assert IsTop(cs, 0);
    CloseRoundResult(ExampleDecided(), [1, 2, 3], 0);
  }

  /** The pot of the example is 30. */
  lemma ExamplePot()
    ensures ValidTop(ExampleDecided(), [1, 2, 3], 0)
    ensures CloseRound(ExampleDecided(), [1, 2, 3], 0).result.pot == 30
  {
    ExamplePartition();
    ExampleDebit();
    assert IsTop([Entry(1, 80), Entry(2, 45)], 0);
    CloseRoundResult(ExampleDecided(), [1, 2, 3], 0);
  }

  /** After the example round the balances reported are 110, 90 and 100. */
  lemma ExampleFinalBalances()
    ensures ValidTop(ExampleDecided(), [1, 2, 3], 0)
    ensures var b := CloseRound(ExampleDecided(), [1, 2, 3], 0).result.balances;
            |b| == 3 && b[0] == 110 && b[1] == 90 && b[2] == 100
  {
    ExamplePartition();
    ExampleDebit();
    ExampleBalances();
  }
}
