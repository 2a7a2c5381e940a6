/** The client-side player controller of the number contest with chips: the number
    this player was dealt, the chips the controller believes the player holds, and the
    bet it will submit. */
module BetController {
  import opened Wrappers
  import opened Contest
  import NumberBand
  import NumberContest
  import ChipLedger

  const MINIMUM_BET: int := NumberContest.MINIMUM_BET

  datatype Controller = Controller(number: int, chips: int, currentBet: int)

  /** A freshly spawned controller: no number yet, 100 chips, the minimum bet. */
  function Spawned(): (c: Controller)
    ensures c.chips == 100 && c.currentBet == MINIMUM_BET
  {
    Controller(0, ChipLedger.STARTING_CHIPS, MINIMUM_BET)
  }

  /** Unity's integer clamp: the lower bound is compared first, so when `min > max`
      the result is `min` for values below it and `max` otherwise. */
  function UnityClamp(value: int, min: int, max: int): (r: int)
    ensures min <= max ==> min <= r <= max
    ensures min <= value <= max ==> r == value
    ensures value < min ==> r == min
    ensures min <= value && max < value ==> r == max
  {
    if value < min then min
    else if value > max then max
    else value
  }

  /** The bet the controller keeps between the minimum and its chips. */
  predicate Valid(c: Controller) {
    MINIMUM_BET <= c.currentBet <= c.chips
  }

  /** `SetBet`: the requested amount clamped between the minimum bet and the chips. */
  function SetBet(c: Controller, amount: int): (r: Controller)
    ensures r.number == c.number && r.chips == c.chips
    ensures c.chips >= MINIMUM_BET ==> Valid(r)
    ensures MINIMUM_BET <= amount <= c.chips ==> r.currentBet == amount
  {
    c.(currentBet := UnityClamp(amount, MINIMUM_BET, c.chips))
  }

  /** Whenever a legal bet exists, the controller's clamp and the game manager's
      clamp agree. */
  lemma SetBetMatchesClampBet(c: Controller, amount: int)
    requires c.chips >= MINIMUM_BET
    ensures SetBet(c, amount).currentBet == NumberContest.ClampBet(amount, c.chips)
  {
  }

  /** With fewer chips than the minimum the two clamps part on a request below the
      minimum: the controller settles on the minimum bet, more than the chips, while
      the game manager sends the chips. */
  lemma ShortStackClampsDiffer(c: Controller, amount: int)
    requires c.chips < MINIMUM_BET && amount < MINIMUM_BET
    ensures SetBet(c, amount).currentBet == MINIMUM_BET > c.chips
    ensures NumberContest.ClampBet(amount, c.chips) == c.chips
  {
  }

  /** `IncreaseBet`: raises the bet by `amount` unless that would exceed the chips. */
  function IncreaseBet(c: Controller, amount: int): (r: Controller)
    ensures r.number == c.number && r.chips == c.chips
    ensures r == c || r.currentBet == c.currentBet + amount
    ensures r == c <==> c.currentBet + amount > c.chips || amount == 0
    ensures r != c ==> r.currentBet <= r.chips
  {
    if c.currentBet + amount <= c.chips then c.(currentBet := c.currentBet + amount) else c
  }

  /** `DecreaseBet`: lowers the bet by `amount` unless that would go below the minimum. */
  function DecreaseBet(c: Controller, amount: int): (r: Controller)
    ensures r.number == c.number && r.chips == c.chips
    ensures r == c || r.currentBet == c.currentBet - amount
    ensures r == c <==> c.currentBet - amount < MINIMUM_BET || amount == 0
    ensures r != c ==> MINIMUM_BET <= r.currentBet
  {
    if c.currentBet - amount >= MINIMUM_BET then c.(currentBet := c.currentBet - amount) else c
  }

  /** The buttons keep the bet legal: raising or lowering by a non-negative step never
      leaves the range between the minimum and the chips. */
  lemma StepsKeepValid(c: Controller, amount: int)
    requires Valid(c) && amount >= 0
    ensures Valid(IncreaseBet(c, amount)) && Valid(DecreaseBet(c, amount))
  {
  }

  /** Raising and then lowering by the same step returns to the starting bet when the
      raise went through. */
  lemma IncreaseThenDecrease(c: Controller, amount: int)
    requires Valid(c) && amount >= 0 && c.currentBet + amount <= c.chips
    ensures DecreaseBet(IncreaseBet(c, amount), amount) == c
  {
  }

  /** `SetChips`: stores the balance the master reported; on the owning client a bet
      above the new balance is clamped back to it. */
  function SetChips(c: Controller, amount: int, isMine: bool): (r: Controller)
    ensures r.number == c.number && r.chips == amount
    ensures !isMine || c.currentBet <= amount ==> r.currentBet == c.currentBet
    ensures isMine && amount >= MINIMUM_BET ==> r.currentBet <= amount
    ensures isMine && c.currentBet > amount ==>
              r.currentBet == (if amount >= MINIMUM_BET then amount else MINIMUM_BET)
  {
    var stored := c.(chips := amount);
    if isMine && c.currentBet > amount then SetBet(stored, amount) else stored
  }

  /** A new balance of at least the minimum bet keeps a legal bet legal on the owning client. */
  lemma SetChipsKeepsValid(c: Controller, amount: int)
    requires MINIMUM_BET <= c.currentBet && amount >= MINIMUM_BET
    ensures Valid(SetChips(c, amount, true))
  {
  }

  /** A balance below the minimum leaves the bet above the balance. */
  lemma SetChipsShortStack(c: Controller, amount: int)
    requires MINIMUM_BET <= c.currentBet && 0 <= amount < MINIMUM_BET
    ensures SetChips(c, amount, true).currentBet == MINIMUM_BET > amount
  {
  }

  /** `SetNumber`: stores the dealt number; the owning client also shows it in its band colour. */
  function SetNumber(c: Controller, num: int, isMine: bool): (r: (Controller, Option<string>))
    ensures r.0 == c.(number := num)
    ensures r.1.Some? <==> isMine
    ensures isMine ==> r.1.value == NumberBand.Hex(NumberBand.BandOf(num))
  {
    (c.(number := num), if isMine then Some(NumberBand.ColourHex(num)) else None)
  }

  /** What a choice button hands to the game manager. */
  datatype Submission = Submission(decision: string, bet: int)

  /** `ChooseFold`: folds with no bet; only the owning client acts. */
  function ChooseFold(c: Controller, isMine: bool): (s: Option<Submission>)
    ensures s.Some? <==> isMine
    ensures s.Some? ==> s.value.decision == FOLD && s.value.bet == 0
  {
    if isMine then Some(Submission(FOLD, 0)) else None
  }

  /** `ChooseContest`: contests with the current bet; only the owning client acts. */
  function ChooseContest(c: Controller, isMine: bool): (s: Option<Submission>)
    ensures s.Some? <==> isMine
    ensures s.Some? ==> s.value.decision == CONTEST && s.value.bet == c.currentBet
  {
    if isMine then Some(Submission(CONTEST, c.currentBet)) else None
  }

  /** A legal bet reaches the master unchanged when the client's view of its balance
      matches the controller's chips: the game manager's clamp lets it through. */
  lemma ContestBetPassesClamp(c: Controller, local: NumberContest.State, localId: int)
    requires Valid(c) && local.roundActive
    requires ChipLedger.Balance(local.chips, localId) == c.chips
    ensures var s := ChooseContest(c, true).value;
            var m := NumberContest.RegisterDecision(local, localId, s.decision, s.bet);
            m == Some(NumberContest.Message(localId, CONTEST, c.currentBet))
  {
  }

  /** Folding reaches the master as a fold with no bet. */
  lemma FoldSendsNothing(c: Controller, local: NumberContest.State, localId: int)
    requires local.roundActive
    ensures var s := ChooseFold(c, true).value;
            NumberContest.RegisterDecision(local, localId, s.decision, s.bet)
              == Some(NumberContest.Message(localId, FOLD, 0))
  {
    LabelsDiffer();
  }
}
