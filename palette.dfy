/** The fixed colour palette of the wheel. A new item's colour is chosen by the
    position it takes in the item list, cycling through the fifteen entries. */
module Palette {

  const Colors: seq<string> := [
    "#FF6B6B", "#4ECDC4", "#45B7D1", "#FFA07A", "#98D8C8",
    "#F7DC6F", "#BB8FCE", "#85C1E2", "#F8B739", "#52B788",
    "#E74C3C", "#3498DB", "#9B59B6", "#1ABC9C", "#E67E22"
  ]

  /** The colour given to an item created at `position` in the list. */
  function ColorAt(position: nat): (c: string)
    ensures c in Colors
    ensures position < |Colors| ==> c == Colors[position]
  {
    var k := position % |Colors|;
    assert Colors[k] in Colors;
    Colors[k]
  }

  /** The palette repeats every fifteen positions. */
  lemma ColorPeriodic(position: nat)
    ensures |Colors| == 15
    ensures ColorAt(position + 15) == ColorAt(position)
  {
  }

  /** The fifteen colours are pairwise different, so positions that differ by
      less than fifteen get different colours. */
  lemma ColorsDistinct(p: nat, q: nat)
    requires p < q < p + 15
    ensures ColorAt(p) != ColorAt(q)
  {
    var i, j := p % 15, q % 15;
    assert i != j;
    assert Colors[i][1..3] != Colors[j][1..3] || Colors[i][3..] != Colors[j][3..];
  }
}
