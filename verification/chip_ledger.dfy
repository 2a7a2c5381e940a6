/** The chip balances the number-contest master keeps per actor number, and the
    two settlement steps that change them: debiting contenders' bets into the pot
    and crediting the pot to the winner. */
module ChipLedger {
  import opened Contest

  /** Balance given to a player the ledger has not seen yet. */
  const STARTING_CHIPS: int := 100

  /** The balance reported for `id`: its entry, or the starting balance when it has none. */
  function Balance(chips: map<int, int>, id: int): int {
    if id in chips then chips[id] else STARTING_CHIPS
  }

  /** The chips a player actually holds in the ledger; no entry holds nothing. */
  function Held(chips: map<int, int>, id: int): int {
    if id in chips then chips[id] else 0
  }

  /** Gives every listed player without an entry the starting balance. */
  function Seat(chips: map<int, int>, players: seq<int>): (seated: map<int, int>)
    ensures seated.Keys == chips.Keys + (set p | p in players)
    ensures forall id :: id in chips ==> seated[id] == chips[id]
    ensures forall p :: p in players && p !in chips ==> seated[p] == STARTING_CHIPS
  {
    map id | id in chips.Keys + (set p | p in players) :: Balance(chips, id)
  }

  /** Seating changes no balance anybody can observe: an existing entry stays, and a
      new one holds exactly the default a lookup would have reported anyway. */
  lemma SeatKeepsBalances(chips: map<int, int>, players: seq<int>)
    ensures forall id :: Balance(Seat(chips, players), id) == Balance(chips, id)
    ensures forall p :: p in players ==> p in Seat(chips, players)
  {
  }

  /** Sum of the chips held by the listed players. */
  function Total(chips: map<int, int>, players: seq<int>): int {
    if |players| == 0 then 0
    else Total(chips, players[..|players| - 1]) + Held(chips, players[|players| - 1])
  }

  /** Changing the entry of one listed player (listed once) changes the total by the
      difference. */
  lemma {:induction false} TotalUpdate(chips: map<int, int>, players: seq<int>, id: int, v: int)
    requires Distinct(players)
    ensures Total(chips[id := v], players)
         == Total(chips, players) + (if id in players then v - Held(chips, id) else 0)
  {
    if |players| > 0 {
      var n := |players| - 1;
      DistinctPrefix(players, n);
      TotalUpdate(chips, players[..n], id, v);
      assert players == players[..n] + [players[n]];
      if id in players[..n] {
        var i :| 0 <= i < n && players[..n][i] == id;
        assert players[i] == id;
      }
    }
  }

  /** The bet recorded for a player; no recorded bet counts as nothing. */
  function BetOf(bets: map<int, int>, id: int): int {
    if id in bets then bets[id] else 0
  }

  /** Reference definition of a pot: the recorded bets of the contenders added up. */
  function SumBets(bets: map<int, int>, cs: seq<Entry>): int {
    if |cs| == 0 then 0 else SumBets(bets, cs[..|cs| - 1]) + BetOf(bets, cs[|cs| - 1].id)
  }

  /** Balances after the contenders' bets were taken, and the pot they form. */
  datatype Settlement = Settlement(chips: map<int, int>, pot: int)

  /** Takes each contender's recorded bet into the pot, in order, and debits it from
      their entry when they have one. */
  function Debit(chips: map<int, int>, bets: map<int, int>, cs: seq<Entry>): (d: Settlement)
    ensures d.pot == SumBets(bets, cs)
    ensures d.chips.Keys == chips.Keys
    ensures forall id :: id in chips && !Mentions(cs, id) ==> d.chips[id] == chips[id]
    ensures DistinctIds(cs) ==>
              forall k :: 0 <= k < |cs| && cs[k].id in chips ==>
                d.chips[cs[k].id] == chips[cs[k].id] - BetOf(bets, cs[k].id)
  {
    if |cs| == 0 then Settlement(chips, 0)
    else
      var n := |cs| - 1;
      var d := Debit(chips, bets, cs[..n]);
      var id := cs[n].id;
      assert forall q :: Mentions(cs[..n], q) ==> Mentions(cs, q) by {
        forall q | Mentions(cs[..n], q) ensures Mentions(cs, q) {
          var k :| 0 <= k < n && cs[..n][k].id == q;
          assert cs[k].id == q;
        }
      }
      assert Mentions(cs, id) by { assert cs[n].id == id; }
      assert DistinctIds(cs) ==> DistinctIds(cs[..n]) && !Mentions(cs[..n], id) by {
        if DistinctIds(cs) {
          forall i, j | 0 <= i < j < n ensures cs[..n][i].id != cs[..n][j].id {
            assert cs[..n][i] == cs[i] && cs[..n][j] == cs[j];
          }
        }
      }
      if id in bets then
        var bet := bets[id];
        Settlement(if id in d.chips then d.chips[id := d.chips[id] - bet] else d.chips, d.pot + bet)
      else
        d
  }

  /** Debiting moves chips from the contenders into the pot without creating or
      destroying any, provided every contender is a listed player with an entry. */
  lemma {:induction false} DebitConserves(chips: map<int, int>, bets: map<int, int>, cs: seq<Entry>, players: seq<int>)
    requires Distinct(players) && DistinctIds(cs)
    requires forall k :: 0 <= k < |cs| ==> cs[k].id in players && cs[k].id in chips
    ensures Total(Debit(chips, bets, cs).chips, players) + Debit(chips, bets, cs).pot == Total(chips, players)
  {
    if |cs| > 0 {
      var n := |cs| - 1;
      assert DistinctIds(cs[..n]) by {
        forall i, j | 0 <= i < j < n ensures cs[..n][i].id != cs[..n][j].id {
          assert cs[..n][i] == cs[i] && cs[..n][j] == cs[j];
        }
      }
      DebitConserves(chips, bets, cs[..n], players);
      var d := Debit(chips, bets, cs[..n]);
      var id := cs[n].id;
      if id in bets {
        TotalUpdate(d.chips, players, id, d.chips[id] - bets[id]);
      }
    }
  }

  /** Debiting reads the recorded bets of the contenders only. */
  lemma {:induction false} DebitIgnoresOthers(chips: map<int, int>, bets: map<int, int>, cs: seq<Entry>, id: int, v: int)
    requires !Mentions(cs, id)
    ensures Debit(chips, bets[id := v], cs) == Debit(chips, bets, cs)
  {
    if |cs| > 0 {
      var n := |cs| - 1;
      assert !Mentions(cs[..n], id);
      assert cs[n].id != id;
      DebitIgnoresOthers(chips, bets, cs[..n], id, v);
    }
  }

  /** A pot of bets none of which is negative is not negative. */
  lemma {:induction false} SumBetsNonNegative(bets: map<int, int>, cs: seq<Entry>)
    requires forall k :: 0 <= k < |cs| ==> BetOf(bets, cs[k].id) >= 0
    ensures SumBets(bets, cs) >= 0
  {
    if |cs| > 0 {
      SumBetsNonNegative(bets, cs[..|cs| - 1]);
    }
  }

  /** Gives the whole pot to the winner when there is one and the ledger knows them. */
  function Credit(chips: map<int, int>, o: Outcome, pot: int): (credited: map<int, int>)
    ensures credited.Keys == chips.Keys
    ensures forall id :: id in chips && id != WinnerId(o) ==> credited[id] == chips[id]
    ensures !o.NoContestants? && o.winner.id in chips ==> credited[o.winner.id] == chips[o.winner.id] + pot
    ensures o.NoContestants? ==> credited == chips
  {
    if !o.NoContestants? && o.winner.id in chips then chips[o.winner.id := chips[o.winner.id] + pot]
    else chips
  }

  /** Crediting a listed winner with an entry adds exactly the pot to the players' total;
      with no winner the total stays as it is. */
  lemma CreditConserves(chips: map<int, int>, o: Outcome, pot: int, players: seq<int>)
    requires Distinct(players)
    requires !o.NoContestants? ==> o.winner.id in players && o.winner.id in chips
    ensures Total(Credit(chips, o, pot), players)
         == Total(chips, players) + (if o.NoContestants? then 0 else pot)
  {
    if !o.NoContestants? {
      TotalUpdate(chips, players, o.winner.id, chips[o.winner.id] + pot);
    }
  }

  /** The balances sent to every listed player after the round. */
  function Balances(chips: map<int, int>, players: seq<int>): (reported: seq<int>)
    ensures |reported| == |players|
    ensures forall i :: 0 <= i < |players| ==> reported[i] == Balance(chips, players[i])
  {
    seq(|players|, i requires 0 <= i < |players| => Balance(chips, players[i]))
  }
}
