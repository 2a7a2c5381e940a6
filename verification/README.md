# Number contest and dice helpers: a Dafny model

This project models the game logic of a small Unity game collection. It covers two things.

The first is the **number contest**. It has two versions:
- an earlier chip-less version;
- a later version with a chip ledger.

Each round runs on the master client:
1. Every player in the room is dealt a secret number from 1 to 100.
2. During a decision window each player answers "Contest" or "Fold". In the chip version a contest comes with a bet.
3. When the window closes the master splits the players into contenders, folders and undecided players, and picks the contender with the highest number as the winner.
4. In the chip version the contenders' bets are taken into a pot, and the pot goes to the winner.

Both rounds share the module `Contest`, which holds dealing, the partition of the player list and the winner choice. `ChipLedger` holds the balances, the debit into the pot and the credit to the winner. `NumberContest` and `ClassicRound` are the two game managers.

The model also covers the client-side player controllers:
- `BetController` is the bet state with its increase, decrease and clamp buttons.
- `LegacyController` is the chip-less controller.
- `NumberBand` is the colour a player's own number is shown in.

The second thing is the **dice game's** helpers:
- `DiceConfig` holds the winning and losing totals.
- `DiceScore` holds the win, loss and roll counters. These are 32-bit integers with wrap-around.

Modelling choices:
- **Players.** The room's player list is a `seq<int>` of actor numbers. The lemmas that need it assume the actor numbers are distinct.
- **Random draws.** The random numbers of a round are an input sequence `draws`, each element in [1, 100].
- **Tie-break.** The winner with two or more contenders comes from an unstable descending sort. Its choice is an input index `top`, and `IsTop` requires that entry to hold a highest number. No tie-break is invented.
- **Peers.** Each peer's game manager is a `State` value. A client-side operation takes the calling peer's own state. A master-side operation takes the master's state.
- **Messages.** A remote call becomes a message value that the master's `Receive` consumes.
- **Result line.** The result message is reduced to its structured content:
  - the outcome branch and the winning entry;
  - the winner id, with -1 for no winner;
  - the pot;
  - the player, contested, folded and no-decision counts;
  - the balances sent back.

Behaviour of the code the model keeps as it is:
- **No insufficient-funds check.** A contest bet is clamped only on the sending client, and the master debits whatever bet it recorded, so a recorded bet larger than the balance drives that balance negative. The model therefore proves non-negativity only under the explicit assumption `BetsCovered` (`NumberContest.BalancesStayNonNegative`).
- **`roundActive` only on the master.** In both versions `roundActive` is set only by the master's round coroutine, and the client-side `RegisterDecision` of both versions reads the calling peer's own flag. A non-master peer therefore returns early unless something else sets its flag. `NumberContest.RegisterDecision` and `ClassicRound.RegisterDecision` gate the client step on the calling peer's own `State`, as the code does.
- **Client clamp with no ledger entry.** On a client, `playerChips` is never filled, so the client clamp falls back to 100 chips. `BetController.ContestBetPassesClamp` shows that a legal controller bet passes through unchanged whenever the balance the client sees equals the controller's chips.
- **Short stacks.** When a player holds fewer than 5 chips, the controller's `Mathf.Clamp(amount, 5, chips)` and the game manager's `min(max(bet, 5), available)` disagree (`BetController.ShortStackClampsDiffer`, `BetController.SetChipsShortStack`).

## Model

| member | source | states |
|---|---|---|
| Contest.Deal | Assets/Scripts/MultiplayerNumberContest/GameManager.cs:69-72 | every listed player, and nobody else, gets a number, and every number lies in [1, 100] |
| Contest.DealAssigns | Assets/Scripts/GameManager.cs:44-50 | with distinct actor numbers each player holds exactly the draw made for them |
| Contest.Partition | Assets/Scripts/MultiplayerNumberContest/GameManager.cs:160-190 | contenders are exactly the listed players who decided "Contest" and hold a number, each with that number; contenders plus folders never exceed the player count; distinct players give distinct contenders |
| Contest.PartitionCounts | Assets/Scripts/GameManager.cs:99-115 | the contested count equals the number of contending players, the folded count equals the number of players who decided "Fold", and together they are at most the player count |
| Contest.Pick | Assets/Scripts/MultiplayerNumberContest/GameManager.cs:192-223 | no contenders gives no winner; one contender wins by default; otherwise the winner is a contender whose number no contender beats |
| ChipLedger.Seat | Assets/Scripts/MultiplayerNumberContest/GameManager.cs:59-64 | every listed player gains an entry, new entries hold 100, and existing balances are unchanged |
| ChipLedger.SeatKeepsBalances | Assets/Scripts/MultiplayerNumberContest/GameManager.cs:59-64 | seating changes no balance a lookup with the 100-chip default reports |
| ChipLedger.Debit | Assets/Scripts/MultiplayerNumberContest/GameManager.cs:172-183 | the pot is the sum of the contenders' recorded bets, each contender with an entry loses exactly their bet, and nobody else's entry changes |
| ChipLedger.DebitConserves | Assets/Scripts/MultiplayerNumberContest/GameManager.cs:172-183 | the players' total after the debit plus the pot equals the total before |
| ChipLedger.DebitIgnoresOthers | Assets/Scripts/MultiplayerNumberContest/GameManager.cs:173-176 | the debit reads only the contenders' bets |
| ChipLedger.Credit | Assets/Scripts/MultiplayerNumberContest/GameManager.cs:206-222 | the winner, when there is one with an entry, gains the pot; nobody else changes; with no contenders nothing changes |
| ChipLedger.CreditConserves | Assets/Scripts/MultiplayerNumberContest/GameManager.cs:206-222 | crediting a listed winner with an entry raises the players' total by exactly the pot; with no winner the total is unchanged |
| ChipLedger.Balances | Assets/Scripts/MultiplayerNumberContest/GameManager.cs:242-246 | one reported balance per listed player, their entry or 100 when they have none |
| NumberContest.Initial | Assets/Scripts/MultiplayerNumberContest/GameManager.cs:36-42 | the master starts every listed player at 100 chips with no round open |
| NumberContest.StartRound | Assets/Scripts/MultiplayerNumberContest/GameManager.cs:50-75 | numbers, decisions and bets are emptied, the round is active, every listed player is seated without changing existing balances, and each holds their draw in [1, 100] |
| NumberContest.ClampBet | Assets/Scripts/MultiplayerNumberContest/GameManager.cs:117-125 | the sent bet never exceeds the available chips, is at least 5 whenever 5 chips are available, and leaves an already legal request unchanged |
| NumberContest.ClampBetNearest | Assets/Scripts/MultiplayerNumberContest/GameManager.cs:117-125 | when a legal bet exists the clamped bet is legal and the legal bet nearest the request |
| NumberContest.RegisterDecision | Assets/Scripts/MultiplayerNumberContest/GameManager.cs:108-134 | nothing is sent while the peer's round is closed; a contest sends exactly `ClampBet` of the requested bet against the peer's view of its balance (100 when unknown), which is at most that balance and at least 5 when 5 are available; any other decision sends 0 |
| NumberContest.Receive | Assets/Scripts/MultiplayerNumberContest/GameManager.cs:136-149 | a no-op once the round is closed; otherwise the sender's decision is overwritten, a bet is stored only for "Contest", and other players' entries are untouched |
| NumberContest.ReceiveIdempotent | Assets/Scripts/MultiplayerNumberContest/GameManager.cs:136-149 | receiving the same message twice equals receiving it once |
| NumberContest.DecideWinner | Assets/Scripts/MultiplayerNumberContest/GameManager.cs:151-246 | the undecided count is never negative; the pot is the sum of contenders' bets; no contenders means winner -1 and no balance change, the winner is a contender with the highest number, one contender wins by default, only chips change, and balances are reported per player |
| NumberContest.ResolutionCounts | Assets/Scripts/MultiplayerNumberContest/GameManager.cs:160-190 | for distinct players the contested and folded counts are the numbers of contending and folding players, and the undecided count is the rest of the player list |
| NumberContest.CloseRound | Assets/Scripts/MultiplayerNumberContest/GameManager.cs:80-81 | closing leaves the round inactive and the numbers, decisions and bets as they were |
| NumberContest.LateDecisionIgnored | Assets/Scripts/MultiplayerNumberContest/GameManager.cs:136-139 | a decision arriving after the window closed changes nothing |
| NumberContest.SettlementPerPlayer | Assets/Scripts/MultiplayerNumberContest/GameManager.cs:172-222 | each seated player ends with their balance minus their bet if they contended plus the pot if they won; unlisted entries keep their balance |
| NumberContest.WinnerBalance | Assets/Scripts/MultiplayerNumberContest/GameManager.cs:206-222 | the winner ends with their balance minus their own bet plus the pot |
| NumberContest.ResolutionConservesChips | Assets/Scripts/MultiplayerNumberContest/GameManager.cs:172-222 | with distinct, seated players the sum of balances is the same before and after resolution |
| NumberContest.BalancesStayNonNegative | Assets/Scripts/MultiplayerNumberContest/GameManager.cs:172-222 | non-negative balances stay non-negative when every contender's bet is covered by their balance |
| NumberContest.ClampedContestKeepsBetsCovered | Assets/Scripts/MultiplayerNumberContest/GameManager.cs:108-149 | a contest clamped against the master's own ledger keeps every bet covered |
| NumberContest.ResolutionIgnoresStaleBet | Assets/Scripts/MultiplayerNumberContest/GameManager.cs:164-183 | a stored bet of a player who no longer contends does not affect the result or the balances |
| NumberContest.LastDecisionWins | Assets/Scripts/MultiplayerNumberContest/GameManager.cs:136-149 | when a player decides twice the round resolves exactly as if only the second decision had been sent |
| NumberContest.ReceiveAll | Assets/Scripts/MultiplayerNumberContest/GameManager.cs:136-149 | any sequence of decisions leaves numbers, chips and the round flag unchanged |
| NumberContest.RoundConservesChips | Assets/Scripts/MultiplayerNumberContest/GameManager.cs:50-81 | a whole round, from dealing through any decisions to resolution, keeps the players' total as it was after seating |
| NumberContest.ExampleDecisions | Assets/Scripts/MultiplayerNumberContest/GameManager.cs:50-149 | a three-player round with draws 80, 45 and 30 and decisions Contest 20, Contest 10 and Fold records those decisions and bets |
| NumberContest.ExamplePartition | Assets/Scripts/MultiplayerNumberContest/GameManager.cs:160-190 | in that example players 1 and 2 contend and one player folded |
| NumberContest.ExampleDebit | Assets/Scripts/MultiplayerNumberContest/GameManager.cs:172-183 | in that example the pot is 30 and the contenders hold 80 and 90 before the credit |
| NumberContest.ExampleBalances | Assets/Scripts/MultiplayerNumberContest/GameManager.cs:242-246 | in that example, crediting the pot of 30 to player 1 gives reported balances 110, 90 and 100 |
| NumberContest.ExampleCounts | Assets/Scripts/MultiplayerNumberContest/GameManager.cs:160-236 | in that example the counts are 2 contested, 1 folded and 0 undecided |
| NumberContest.ExampleResolution | Assets/Scripts/MultiplayerNumberContest/GameManager.cs:192-236 | in that example player 1 wins with 80 |
| NumberContest.ExamplePot | Assets/Scripts/MultiplayerNumberContest/GameManager.cs:172-183 | the pot of that example round is 30 |
| NumberContest.ExampleFinalBalances | Assets/Scripts/MultiplayerNumberContest/GameManager.cs:206-246 | closing that example round reports balances 110, 90 and 100 |
| ClassicRound.StartRound | Assets/Scripts/GameManager.cs:37-50 | numbers and decisions are cleared, the round is active, and each listed player holds their draw in [1, 100] |
| ClassicRound.RegisterDecision | Assets/Scripts/GameManager.cs:77-81 | nothing is sent while the peer's round is closed; otherwise the peer's actor number and decision are sent |
| ClassicRound.Receive | Assets/Scripts/GameManager.cs:84-89 | a no-op once the round is closed; otherwise the sender's decision is overwritten and nobody else's changes |
| ClassicRound.LastVoteWins | Assets/Scripts/GameManager.cs:84-89 | a second decision by the same player replaces the first entirely |
| ClassicRound.DecideWinner | Assets/Scripts/GameManager.cs:91-139 | the undecided count is never negative and, for distinct players, the contested and folded counts are the numbers of contending and folding players; no contenders gives no winner, one contender wins by default, and otherwise the winner is a contender with the highest number |
| ClassicRound.CloseRound | Assets/Scripts/GameManager.cs:55-56 | the round closes, numbers and decisions are only read, and the result is that of the open state |
| ClassicRound.AgreesWithChipRound | Assets/Scripts/GameManager.cs:91-133 | on the same numbers and decisions the chip-less round reports the same outcome and counts as the chip round |
| NumberBand.BandOf | Assets/Scripts/MultiplayerNumberContest/PlayerController.cs:43-52 | at least 75 is green, 50 to 74 yellow, 25 to 49 orange, below 25 red, and exactly one band applies |
| NumberBand.ColourHex | Assets/Scripts/PlayerController.cs:31-40 | the colour code chosen for a number is the code of that number's band |
| NumberBand.HexRoundTrip | Assets/Scripts/MultiplayerNumberContest/PlayerController.cs:44-52 | reading back a band's colour code gives that band |
| NumberBand.HexInjective | Assets/Scripts/PlayerController.cs:32-40 | different bands have different colour codes |
| NumberBand.BandMonotone | Assets/Scripts/MultiplayerNumberContest/PlayerController.cs:43-52 | a higher number is never shown in a redder band |
| BetController.Spawned | Assets/Scripts/MultiplayerNumberContest/PlayerController.cs:12-14 | a new controller holds 100 chips and the minimum bet 5 |
| BetController.UnityClamp | Assets/Scripts/MultiplayerNumberContest/PlayerController.cs:99 | the result lies between the bounds when they are ordered; with crossed bounds a value below the minimum gives the minimum and any other gives the maximum |
| BetController.SetBet | Assets/Scripts/MultiplayerNumberContest/PlayerController.cs:96-102 | the bet lies in [5, chips] whenever chips are at least 5, an amount already in range is kept, and chips are unchanged |
| BetController.SetBetMatchesClampBet | Assets/Scripts/MultiplayerNumberContest/PlayerController.cs:96-99 | with at least 5 chips the controller's clamp equals the game manager's bet clamp |
| BetController.ShortStackClampsDiffer | Assets/Scripts/MultiplayerNumberContest/PlayerController.cs:96-99 | with fewer than 5 chips and a request below 5, the controller's bet is 5 and exceeds the chips, while the game manager's clamp gives the chips |
| BetController.IncreaseBet | Assets/Scripts/MultiplayerNumberContest/PlayerController.cs:75-83 | the bet rises by the amount exactly when it then stays within the chips, otherwise nothing changes; chips never change |
| BetController.DecreaseBet | Assets/Scripts/MultiplayerNumberContest/PlayerController.cs:85-94 | the bet falls by the amount exactly when it then stays at least 5, otherwise nothing changes; chips never change |
| BetController.StepsKeepValid | Assets/Scripts/MultiplayerNumberContest/PlayerController.cs:75-94 | raising or lowering by a non-negative step keeps 5 ≤ bet ≤ chips |
| BetController.IncreaseThenDecrease | Assets/Scripts/MultiplayerNumberContest/PlayerController.cs:75-94 | a raise that went through is undone by lowering by the same step |
| BetController.SetChips | Assets/Scripts/MultiplayerNumberContest/PlayerController.cs:59-73 | the new chips are stored, the bet changes only on the owning client and only when it exceeded the new chips, and then it becomes the new chips when they are at least 5 and the minimum bet 5 otherwise |
| BetController.SetChipsKeepsValid | Assets/Scripts/MultiplayerNumberContest/PlayerController.cs:59-73 | a new balance of at least 5 leaves a bet of at least 5 legal |
| BetController.SetChipsShortStack | Assets/Scripts/MultiplayerNumberContest/PlayerController.cs:59-73 | a new balance below 5 leaves the bet at 5, above the balance |
| BetController.SetNumber | Assets/Scripts/MultiplayerNumberContest/PlayerController.cs:38-57 | the number is stored, and only the owning client shows it, in its band's colour |
| BetController.ChooseFold | Assets/Scripts/MultiplayerNumberContest/PlayerController.cs:104-112 | only the owning client submits, and it submits "Fold" with bet 0 |
| BetController.ChooseContest | Assets/Scripts/MultiplayerNumberContest/PlayerController.cs:114-122 | only the owning client submits, and it submits "Contest" with the current bet |
| BetController.ContestBetPassesClamp | Assets/Scripts/MultiplayerNumberContest/PlayerController.cs:114-122 | a legal controller bet reaches the master unchanged when the client's view of its balance equals the controller's chips |
| BetController.FoldSendsNothing | Assets/Scripts/MultiplayerNumberContest/PlayerController.cs:104-112 | a fold reaches the master as a fold with bet 0 |
| LegacyController.SetNumber | Assets/Scripts/PlayerController.cs:26-45 | the number is stored, and only the owning client shows it, in a colour code that reads back to the number's band |
| LegacyController.ChooseFold | Assets/Scripts/PlayerController.cs:47-55 | only the owning client registers, and it registers "Fold" |
| LegacyController.ChooseContest | Assets/Scripts/PlayerController.cs:57-65 | only the owning client registers, and it registers "Contest" |
| LegacyController.ContestCounts | Assets/Scripts/PlayerController.cs:57-65 | a contest chosen in an open round makes a player holding a number a contender at the master |
| LegacyController.FoldCounts | Assets/Scripts/PlayerController.cs:47-55 | a fold chosen in an open round counts as folded at the master and never as contending |
| DiceConfig.Default | Assets/Scripts/DiceRollingGame/DiceGameConfig.cs:7-8 | the default winning totals are 7 and 11 and the losing totals 2, 3 and 12 |
| DiceConfig.Occurs | Assets/Scripts/DiceRollingGame/DiceGameConfig.cs:21-26 | the front-to-back scan finds the number exactly when it occurs in the array |
| DiceConfig.IsWinningNumber | Assets/Scripts/DiceRollingGame/DiceGameConfig.cs:19-27 | true exactly when the total is a winning number; false for an empty array |
| DiceConfig.IsLosingNumber | Assets/Scripts/DiceRollingGame/DiceGameConfig.cs:29-37 | true exactly when the total is a losing number; false for an empty array |
| DiceConfig.DefaultsDisjoint | Assets/Scripts/DiceRollingGame/DiceGameConfig.cs:7-8 | under the defaults no total is both winning and losing |
| DiceScore.Inc | Assets/Scripts/DiceRollingGame/DiceScoreManager.cs:24-25 | a counter below the 32-bit maximum grows by one; at the maximum it wraps to the minimum |
| DiceScore.AddWin | Assets/Scripts/DiceRollingGame/DiceScoreManager.cs:22-28 | wins and rolls grow by one below the 32-bit maximum, and losses are unchanged |
| DiceScore.AddLoss | Assets/Scripts/DiceRollingGame/DiceScoreManager.cs:30-36 | losses and rolls grow by one below the 32-bit maximum, and wins are unchanged |
| DiceScore.AddRoll | Assets/Scripts/DiceRollingGame/DiceScoreManager.cs:38-43 | only rolls grow by one |
| DiceScore.ResetStats | Assets/Scripts/DiceRollingGame/DiceScoreManager.cs:45-52 | all three counters become 0, which is consistent |
| DiceScore.UpdatesKeepConsistent | Assets/Scripts/DiceRollingGame/DiceScoreManager.cs:22-43 | from counters that are non-negative with wins plus losses at most rolls, each update keeps that while rolls can still grow |
| DiceScore.UndecidedRolls | Assets/Scripts/DiceRollingGame/DiceScoreManager.cs:22-43 | a win or a loss leaves the number of undecided rolls unchanged, and a plain roll adds one |
| DiceScore.RollCounterWraps | Assets/Scripts/DiceRollingGame/DiceScoreManager.cs:38-43 | at the 32-bit maximum another roll wraps the counter and breaks consistency |

## Left out

- Photon networking is not modelled: remote-call dispatch and targeting, master-client checks, player instantiation and room joining. Remote calls become message values, and the player list is an input.
- Coroutines and timers are not modelled: the 10-second decision window, the 5-second delay before the next round, and the countdown. The window closing is a single `CloseRound` step.
- `Random.Range` is not modelled. The dealt numbers are inputs restricted to [1, 100].
- The result line's rich-text formatting, colour markup and debug logging are left out. Only their structured content is modelled.
- The UI managers, UI updates, button wiring and the dice animator are left out; they are presentation only.
- The dice score manager's `PlayerPrefs` saving and loading is left out because it is storage I/O. Loaded counters are unconstrained, so consistency is a precondition.
- The win-rate display is left out because it is floating point.
- The dice configuration's colour and animation fields are left out; they are presentation only.
- The dice game driver that rolls and calls these helpers is not part of this model.
- Contest.Pick: when two or more contenders share the highest number, the sort's choice among them is an input, because the sort is unstable and the code fixes no tie-break.
- ChipLedger.Debit: balances and the pot are unbounded integers, so 32-bit overflow of the chip counts is not modelled. The 100-chip start and chip conservation keep covered bets far below that range.
- ChipLedger.Credit: uses unbounded integers for the same reason as the debit.
- NumberContest.BalancesStayNonNegative: non-negativity holds only under `BetsCovered`, because the code has no insufficient-funds rejection.
- DiceScore.UpdatesKeepConsistent: requires the roll counter to be below the 32-bit maximum, because at the maximum it wraps (`DiceScore.RollCounterWraps`).
- The model does not track which peer runs which step. The fact that a non-master peer never sets its own `roundActive` is described above, not proved.
