/** The rules of the dice game: the totals that win and the totals that lose. */
module DiceConfig {

  datatype Config = Config(winningNumbers: seq<int>, losingNumbers: seq<int>)

  /** The rules a new configuration asset starts with. */
  function Default(): (cfg: Config)
    ensures cfg.winningNumbers == [7, 11] && cfg.losingNumbers == [2, 3, 12]
  {
    Config([7, 11], [2, 3, 12])
  }

  /** Scans `xs` front to back and stops at the first element equal to `n`. */
  method Occurs(xs: seq<int>, n: int) returns (found: bool)
    ensures found <==> n in xs
  {
    for i := 0 to |xs|
      invariant n !in xs[..i]
    {
      if xs[i] == n {
        return true;
      }
    }
    assert xs[..|xs|] == xs;
    return false;
  }

  /** `IsWinningNumber`: whether the total is one of the winning numbers. */
  method IsWinningNumber(cfg: Config, number: int) returns (r: bool)
    ensures r <==> number in cfg.winningNumbers
    ensures |cfg.winningNumbers| == 0 ==> !r
  {
    r := Occurs(cfg.winningNumbers, number);
  }

  /** `IsLosingNumber`: whether the total is one of the losing numbers. */
  method IsLosingNumber(cfg: Config, number: int) returns (r: bool)
    ensures r <==> number in cfg.losingNumbers
    ensures |cfg.losingNumbers| == 0 ==> !r
  {
    r := Occurs(cfg.losingNumbers, number);
  }

  /** The default rules never call one total both a win and a loss. */
  lemma DefaultsDisjoint(n: int)
    ensures !(n in Default().winningNumbers && n in Default().losingNumbers)
  {
  }
}
