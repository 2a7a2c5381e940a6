/** The colour a player's own number is shown in: higher numbers are greener. */
module NumberBand {
  import opened Wrappers

  datatype Band = Green | Yellow | Orange | Red

  /** The band a number falls into, by its lower bounds 75, 50 and 25. */
  function BandOf(n: int): (b: Band)
    ensures b == Green <==> 75 <= n
    ensures b == Yellow <==> 50 <= n < 75
    ensures b == Orange <==> 25 <= n < 50
    ensures b == Red <==> n < 25
  {
    if n >= 75 then Green
    else if n >= 50 then Yellow
    else if n >= 25 then Orange
    else Red
  }

  /** The rich-text colour code of each band. */
  function Hex(b: Band): string {
    match b
    case Green => "#00FF00"
    case Yellow => "#FFFF00"
    case Orange => "#FFA500"
    case Red => "#FF0000"
  }

  /** The colour code chosen for a number, as the chain of comparisons picks it. */
  function ColourHex(n: int): (hex: string)
    ensures hex == Hex(BandOf(n))
  {
    if n >= 75 then "#00FF00"
    else if n >= 50 then "#FFFF00"
    else if n >= 25 then "#FFA500"
    else "#FF0000"
  }

  /** Reads a colour code back into its band; codes of no band give nothing. */
  function BandOfHex(hex: string): (b: Option<Band>)
    ensures b.Some? ==> Hex(b.value) == hex
    ensures b.None? ==> forall band: Band :: Hex(band) != hex
  {
    if hex == Hex(Green) then Some(Green)
    else if hex == Hex(Yellow) then Some(Yellow)
    else if hex == Hex(Orange) then Some(Orange)
    else if hex == Hex(Red) then Some(Red)
    else None
  }

  /** The colour codes tell the bands apart. */
  lemma HexRoundTrip(b: Band)
    ensures BandOfHex(Hex(b)) == Some(b)
  {
    assert Hex(Green)[1] == '0' && Hex(Yellow)[1] == Hex(Orange)[1] == Hex(Red)[1] == 'F';
    assert Hex(Yellow)[3] == 'F' && Hex(Orange)[3] == 'A' && Hex(Red)[3] == '0';
  }

  lemma HexInjective(a: Band, b: Band)
    ensures Hex(a) == Hex(b) ==> a == b
  {
    HexRoundTrip(a);
    HexRoundTrip(b);
  }

  /** Position of a band on the red-to-green scale. */
  function Rank(b: Band): nat {
    match b
    case Red => 0
    case Orange => 1
    case Yellow => 2
    case Green => 3
  }

  /** A higher number is never shown in a redder band. */
  lemma BandMonotone(n: int, m: int)
    requires n <= m
    ensures Rank(BandOf(n)) <= Rank(BandOf(m))
  {
  }
}
