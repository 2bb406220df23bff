/**
 * The fixed cursor palette of the connection manager and the round-robin rule that
 * picks a colour for each newly connected client (backend/main.py, ConnectionManager).
 */
module Palette {

  /** The twelve predefined cursor colours, in the order they are handed out. */
  const Colors: seq<string> := [
    "#FF6B6B", "#4ECDC4", "#45B7D1", "#96CEB4",
    "#FFEAA7", "#DDA0DD", "#98D8C8", "#F7DC6F",
    "#BB8FCE", "#85C1E9", "#F8B500", "#00CED1"
  ]

  /** Whether `c` is one of the palette colours. */
  predicate InPalette(c: string)
  {
    c in Colors
  }

  /** A cursor colour drawn from the palette. */
  type Color = c: string | InPalette(c) witness "#FF6B6B"

  /** The colour stamped on a message whose sender has no registered colour. */
  const DefaultColor: string := "#888888"

  /** The colour handed out when the round-robin index stands at `index`. */
  function ColorAt(index: nat): (c: Color)
    ensures c == Colors[index % 12]
  {
    Colors[index % |Colors|]
  }

  /** The palette has no repeated colour. */
  lemma PaletteDistinct()
    ensures |Colors| == 12
    ensures forall i, j :: 0 <= i < j < |Colors| ==> Colors[i] != Colors[j]
  {
  }

  /** Euclidean division by the palette size is determined by quotient and remainder. */
  lemma ModPalette(x: nat, q: nat, r: nat)
    requires r < 12 && x == 12 * q + r
    ensures x % 12 == r
  {
  }

  /** Colours cycle with period twelve: `k` full rounds later the same colour comes back. */
  lemma ColorCycle(index: nat, k: nat)
    ensures ColorAt(index + 12 * k) == ColorAt(index)
  {
    var q, r := index / 12, index % 12;
    ModPalette(index + 12 * k, q + k, r);
  }

  /** Twelve clients connecting one after the other all get different colours. */
  lemma ColorsDifferWithinRound(i: nat, j: nat)
    requires i < j < i + 12
    ensures ColorAt(i) != ColorAt(j)
  {
    PaletteDistinct();
    var qi, qj := i / 12, j / 12;
    assert i == 12 * qi + i % 12;
    assert j == 12 * qj + j % 12;
  }

  /** The fallback colour is not a palette colour, so it never collides with an assigned one. */
  lemma DefaultColorOutsidePalette()
    ensures DefaultColor !in Colors
  {
    forall i | 0 <= i < |Colors|
      ensures Colors[i] != DefaultColor
    {
      assert Colors[i][1] != DefaultColor[1] || Colors[i][2] != DefaultColor[2];
    }
  }
}
