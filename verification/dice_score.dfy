/** The dice game's running statistics: wins, losses and rolls, each a 32-bit counter. */
module DiceScore {

  const INT32_MIN: int := -0x8000_0000
  const INT32_MAX: int := 0x7FFF_FFFF

  newtype Int32 = x: int | INT32_MIN <= x <= INT32_MAX

  /** `++` on a 32-bit counter: the largest value wraps around to the smallest. */
  function Inc(x: Int32): (r: Int32)
    ensures x as int < INT32_MAX ==> r as int == x as int + 1
    ensures x as int == INT32_MAX ==> r as int == INT32_MIN
  {
    if x as int == INT32_MAX then INT32_MIN as Int32 else x + 1
  }

  datatype Stats = Stats(wins: Int32, losses: Int32, rolls: Int32)

  /** Every decided roll is a roll: no counter is negative and wins and losses
      together never exceed the rolls. Counters loaded from storage need not satisfy it. */
  predicate Consistent(s: Stats) {
    && 0 <= s.wins && 0 <= s.losses
    && s.wins as int + s.losses as int <= s.rolls as int
  }

  /** `AddWin`: one more win and one more roll. */
  function AddWin(s: Stats): (t: Stats)
    ensures t.losses == s.losses
    ensures s.wins as int < INT32_MAX ==> t.wins as int == s.wins as int + 1
    ensures s.rolls as int < INT32_MAX ==> t.rolls as int == s.rolls as int + 1
  {
    Stats(Inc(s.wins), s.losses, Inc(s.rolls))
  }

  /** `AddLoss`: one more loss and one more roll. */
  function AddLoss(s: Stats): (t: Stats)
    ensures t.wins == s.wins
    ensures s.losses as int < INT32_MAX ==> t.losses as int == s.losses as int + 1
    ensures s.rolls as int < INT32_MAX ==> t.rolls as int == s.rolls as int + 1
  {
    Stats(s.wins, Inc(s.losses), Inc(s.rolls))
  }

  /** `AddRoll`: one more roll that was neither a win nor a loss. */
  function AddRoll(s: Stats): (t: Stats)
    ensures t.wins == s.wins && t.losses == s.losses
    ensures s.rolls as int < INT32_MAX ==> t.rolls as int == s.rolls as int + 1
  {
    Stats(s.wins, s.losses, Inc(s.rolls))
  }

  /** `ResetStats`: all counters back to zero. */
  function ResetStats(): (t: Stats)
    ensures Consistent(t) && t.rolls == 0
  {
    Stats(0, 0, 0)
  }

  /** Every update keeps consistent statistics consistent while the roll counter has
      room for one more roll. */
  lemma UpdatesKeepConsistent(s: Stats)
    requires Consistent(s) && s.rolls as int < INT32_MAX
    ensures Consistent(AddWin(s)) && Consistent(AddLoss(s)) && Consistent(AddRoll(s))
  {
  }

  /** A win or a loss moves the decided rolls and the rolls in step: the number of
      undecided rolls stays the same, and a plain roll adds one to it. */
  lemma UndecidedRolls(s: Stats)
    requires Consistent(s) && s.rolls as int < INT32_MAX
    ensures var u := s.rolls as int - s.wins as int - s.losses as int;
            && AddWin(s).rolls as int - AddWin(s).wins as int - AddWin(s).losses as int == u
            && AddLoss(s).rolls as int - AddLoss(s).wins as int - AddLoss(s).losses as int == u
            && AddRoll(s).rolls as int - AddRoll(s).wins as int - AddRoll(s).losses as int == u + 1
  {
  }

  /** At the top of its range the roll counter wraps, and consistency is lost. */
  lemma RollCounterWraps()
    ensures Consistent(Stats(0, 0, INT32_MAX as Int32))
    ensures !Consistent(AddRoll(Stats(0, 0, INT32_MAX as Int32)))
  {
  }
}
