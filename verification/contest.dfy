/** The round logic both game managers share: dealing the secret numbers,
    splitting the player list by decision, and choosing the winner. */
module Contest {

  /** The two decision labels the round logic recognises. Any other label,
      or no label at all, counts as "No Decision". */
  const CONTEST: string := "Contest"
  const FOLD: string := "Fold"

  /** `Random.Range(1, 101)` on integers excludes its upper bound. */
  const LOWEST_NUMBER: int := 1
  const HIGHEST_NUMBER: int := 100

  predicate InDealRange(n: int) {
    LOWEST_NUMBER <= n <= HIGHEST_NUMBER
  }

  /** Actor numbers in the player list are pairwise different. */
  predicate Distinct(ids: seq<int>) {
    forall i, j :: 0 <= i < j < |ids| ==> ids[i] != ids[j]
  }

  lemma DistinctPrefix(ids: seq<int>, n: nat)
    requires Distinct(ids) && n <= |ids|
    ensures Distinct(ids[..n])
  {
    forall i, j | 0 <= i < j < n ensures ids[..n][i] != ids[..n][j] {
      assert ids[..n][i] == ids[i] && ids[..n][j] == ids[j];
    }
  }

  /** Deals `draws[i]` to `players[i]`, one player after the other, into a
      fresh map. The draws stand for the random numbers of the round. */
  function Deal(players: seq<int>, draws: seq<int>): (numbers: map<int, int>)
    requires |draws| == |players|
    requires forall i :: 0 <= i < |draws| ==> InDealRange(draws[i])
    ensures numbers.Keys == set p | p in players
    ensures forall p :: p in numbers ==> InDealRange(numbers[p])
  {
    if |players| == 0 then map[]
    else
      var n := |players| - 1;
      var earlier := Deal(players[..n], draws[..n]);
      assert players == players[..n] + [players[n]];
      earlier[players[n] := draws[n]]
  }

  /** With distinct actor numbers every player holds exactly the number drawn for them. */
  lemma {:induction false} DealAssigns(players: seq<int>, draws: seq<int>)
    requires |draws| == |players|
    requires forall i :: 0 <= i < |draws| ==> InDealRange(draws[i])
    requires Distinct(players)
    ensures forall i :: 0 <= i < |players| ==> Deal(players, draws)[players[i]] == draws[i]
  {
    if |players| > 0 {
      var n := |players| - 1;
      DistinctPrefix(players, n);
      DealAssigns(players[..n], draws[..n]);
      var earlier := Deal(players[..n], draws[..n]);
      assert Deal(players, draws) == earlier[players[n] := draws[n]];
      forall i | 0 <= i < |players|
        ensures Deal(players, draws)[players[i]] == draws[i]
      {
        if i < n {
          assert players[..n][i] == players[i];
          assert draws[..n][i] == draws[i];
          assert earlier[players[i]] == draws[i];
          assert players[i] != players[n];
        }
      }
    }
  }

  /** A player takes part in the contest: decided "Contest" and holds a dealt number. */
  predicate Contends(numbers: map<int, int>, decisions: map<int, string>, id: int) {
    id in decisions && decisions[id] == CONTEST && id in numbers
  }

  /** A player folded. */
  predicate Folds(decisions: map<int, string>, id: int) {
    id in decisions && decisions[id] == FOLD
  }

  /** A contender and the number they hold. */
  datatype Entry = Entry(id: int, number: int)

  predicate DistinctIds(cs: seq<Entry>) {
    forall i, j :: 0 <= i < j < |cs| ==> cs[i].id != cs[j].id
  }

  /** Whether `id` is among the contenders. */
  predicate Mentions(cs: seq<Entry>, id: int) {
    exists k :: 0 <= k < |cs| && cs[k].id == id
  }

  /** The contenders in player-list order, and how many players folded. */
  datatype Split = Split(contenders: seq<Entry>, folded: nat)

  /** The classification pass over the player list. */
  function Partition(numbers: map<int, int>, decisions: map<int, string>, players: seq<int>): (sp: Split)
    ensures |sp.contenders| + sp.folded <= |players|
    ensures forall k :: 0 <= k < |sp.contenders| ==>
              && sp.contenders[k].id in players
              && Contends(numbers, decisions, sp.contenders[k].id)
              && sp.contenders[k].number == numbers[sp.contenders[k].id]
    ensures forall p :: p in players && Contends(numbers, decisions, p) ==> Mentions(sp.contenders, p)
    ensures Distinct(players) ==> DistinctIds(sp.contenders)
  {
    if |players| == 0 then Split([], 0)
    else
      var n := |players| - 1;
      var sp := Partition(numbers, decisions, players[..n]);
      var p := players[n];
      assert players == players[..n] + [p];
      assert Distinct(players) ==> Distinct(players[..n]) by {
        if Distinct(players) {
          forall i, j | 0 <= i < j < n ensures players[..n][i] != players[..n][j] {
            assert players[..n][i] == players[i] && players[..n][j] == players[j];
          }
        }
      }
      if p in decisions then
        if decisions[p] == CONTEST && p in numbers then
          var cs := sp.contenders + [Entry(p, numbers[p])];
          assert Mentions(cs, p) by { assert cs[|cs| - 1].id == p; }
          assert forall q :: Mentions(sp.contenders, q) ==> Mentions(cs, q) by {
            forall q | Mentions(sp.contenders, q) ensures Mentions(cs, q) {
              var k :| 0 <= k < |sp.contenders| && sp.contenders[k].id == q;
              assert cs[k].id == q;
            }
          }
          assert Distinct(players) ==> DistinctIds(cs) by {
            if Distinct(players) {
              forall k | 0 <= k < |sp.contenders| ensures sp.contenders[k].id != p {
                var q := sp.contenders[k].id;
                assert q in players[..n];
                var i :| 0 <= i < n && players[..n][i] == q;
                assert players[i] == q;
              }
            }
          }
          Split(cs, sp.folded)
        else if decisions[p] == FOLD then
          Split(sp.contenders, sp.folded + 1)
        else
          sp
      else
        sp
  }

  /** The players the round counts as contenders, as folders. */
  function ContendingSet(numbers: map<int, int>, decisions: map<int, string>, players: seq<int>): set<int> {
    set p | p in players && Contends(numbers, decisions, p)
  }

  function FoldingSet(decisions: map<int, string>, players: seq<int>): set<int> {
    set p | p in players && Folds(decisions, p)
  }

  lemma LabelsDiffer()
    ensures CONTEST != FOLD
  {
    assert CONTEST[0] != FOLD[0];
  }

  /** Extending the list by one player extends each classification set by at most that player. */
  lemma SetsSnoc(numbers: map<int, int>, decisions: map<int, string>, players: seq<int>, p: int)
    ensures ContendingSet(numbers, decisions, players + [p])
         == ContendingSet(numbers, decisions, players) + (if Contends(numbers, decisions, p) then {p} else {})
    ensures FoldingSet(decisions, players + [p])
         == FoldingSet(decisions, players) + (if Folds(decisions, p) then {p} else {})
  {
    assert forall q :: q in players + [p] <==> q in players || q == p;
  }

  /** One more player in the list changes the split only by that player's own decision. */
  lemma PartitionSnoc(numbers: map<int, int>, decisions: map<int, string>, prefix: seq<int>, p: int)
    ensures |Partition(numbers, decisions, prefix + [p]).contenders|
         == |Partition(numbers, decisions, prefix).contenders| + (if Contends(numbers, decisions, p) then 1 else 0)
    ensures Partition(numbers, decisions, prefix + [p]).folded
         == Partition(numbers, decisions, prefix).folded + (if Folds(decisions, p) then 1 else 0)
  {
    LabelsDiffer();
    assert (prefix + [p])[..|prefix|] == prefix;
  }

  /** Adding a player not yet listed grows each classification set by one exactly when
      that player contends or folds, and never both. */
  lemma SetSizesSnoc(numbers: map<int, int>, decisions: map<int, string>, prefix: seq<int>, p: int)
    requires p !in prefix
    ensures |ContendingSet(numbers, decisions, prefix + [p])|
         == |ContendingSet(numbers, decisions, prefix)| + (if Contends(numbers, decisions, p) then 1 else 0)
    ensures |FoldingSet(decisions, prefix + [p])|
         == |FoldingSet(decisions, prefix)| + (if Folds(decisions, p) then 1 else 0)
    ensures !(Contends(numbers, decisions, p) && Folds(decisions, p))
  {
    SetsSnoc(numbers, decisions, prefix, p);
    LabelsDiffer();
    assert p !in ContendingSet(numbers, decisions, prefix);
    assert p !in FoldingSet(decisions, prefix);
  }

  /** With distinct actor numbers the contested count is the number of contending players
      and the folded count the number of folding players; both together never exceed the list. */
  lemma {:induction false} PartitionCounts(numbers: map<int, int>, decisions: map<int, string>, players: seq<int>)
    requires Distinct(players)
    ensures |Partition(numbers, decisions, players).contenders| == |ContendingSet(numbers, decisions, players)|
    ensures Partition(numbers, decisions, players).folded == |FoldingSet(decisions, players)|
    ensures |ContendingSet(numbers, decisions, players)| + |FoldingSet(decisions, players)| <= |players|
  {
    if |players| > 0 {
      var n := |players| - 1;
      var p := players[n];
      var prefix := players[..n];
      assert players == prefix + [p];
      DistinctPrefix(players, n);
      PartitionCounts(numbers, decisions, prefix);
      assert p !in prefix;
      SetSizesSnoc(numbers, decisions, prefix, p);
      PartitionSnoc(numbers, decisions, prefix, p);
    }
  }

  /** `k` indexes a contender whose number no other contender beats: the entries
      a descending sort may put first. */
  predicate IsTop(cs: seq<Entry>, k: int) {
    0 <= k < |cs| && forall j :: 0 <= j < |cs| ==> cs[j].number <= cs[k].number
  }

  /** The three result branches of the winner decision. */
  datatype Outcome = NoContestants | WinsByDefault(winner: Entry) | Wins(winner: Entry)

  /** Chooses the winner. `top` is the index the unstable descending sort brings
      to the front; any contender with the highest number may be that one, so it is
      an input here rather than a tie-break of the model's own. */
  function Pick(cs: seq<Entry>, top: int): (o: Outcome)
    requires |cs| >= 2 ==> IsTop(cs, top)
    ensures o.NoContestants? <==> |cs| == 0
    ensures o.WinsByDefault? <==> |cs| == 1
    ensures |cs| == 1 ==> o.winner == cs[0]
    ensures !o.NoContestants? ==>
              && o.winner in cs
              && forall j :: 0 <= j < |cs| ==> cs[j].number <= o.winner.number
  {
    if |cs| == 0 then NoContestants
    else if |cs| == 1 then WinsByDefault(cs[0])
    else Wins(cs[top])
  }

  /** The actor number reported as winner, -1 when nobody contested. */
  function WinnerId(o: Outcome): int {
    if o.NoContestants? then -1 else o.winner.id
  }
}
