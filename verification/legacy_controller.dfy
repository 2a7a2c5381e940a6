/** The player controller of the chip-less number contest: it remembers the dealt
    number and turns the two buttons into decisions. */
module LegacyController {
  import opened Wrappers
  import opened Contest
  import NumberBand
  import ClassicRound

  datatype Controller = Controller(number: int)

  /** `SetNumber`: stores the dealt number; the owning client also shows it in its band colour. */
  function SetNumber(c: Controller, num: int, isMine: bool): (r: (Controller, Option<string>))
    ensures r.0.number == num
    ensures r.1.Some? <==> isMine
    ensures isMine ==> NumberBand.BandOfHex(r.1.value) == Some(NumberBand.BandOf(num))
  {
    NumberBand.HexRoundTrip(NumberBand.BandOf(num));
    (Controller(num), if isMine then Some(NumberBand.ColourHex(num)) else None)
  }

  /** `ChooseFold`: the owning client registers a fold. */
  function ChooseFold(isMine: bool): (d: Option<string>)
    ensures d.Some? <==> isMine
    ensures d.Some? ==> d.value == FOLD
  {
    if isMine then Some(FOLD) else None
  }

  /** `ChooseContest`: the owning client registers a contest. */
  function ChooseContest(isMine: bool): (d: Option<string>)
    ensures d.Some? <==> isMine
    ensures d.Some? ==> d.value == CONTEST
  {
    if isMine then Some(CONTEST) else None
  }

  /** A contest chosen during an open round reaches the master, and the player, once
      dealt a number, is counted among the contenders. */
  lemma ContestCounts(local: ClassicRound.State, master: ClassicRound.State, localId: int)
    requires local.roundActive && master.roundActive && localId in master.numbers
    ensures var v := ClassicRound.RegisterDecision(local, localId, ChooseContest(true).value);
            && v.Some?
            && Contends(ClassicRound.Receive(master, v.value).numbers, ClassicRound.Receive(master, v.value).decisions, localId)
  {
  }

  /** A fold chosen during an open round reaches the master and counts as folded,
      never as contending. */
  lemma FoldCounts(local: ClassicRound.State, master: ClassicRound.State, localId: int)
    requires local.roundActive && master.roundActive
    ensures var v := ClassicRound.RegisterDecision(local, localId, ChooseFold(true).value);
            var t := ClassicRound.Receive(master, v.value);
            v.Some? && Folds(t.decisions, localId) && !Contends(t.numbers, t.decisions, localId)
  {
    LabelsDiffer();
  }
}
