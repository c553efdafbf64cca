/** The wheel: the spin guard and the draw of the winner, and the size tiers and
    label truncation used when drawing the segments. The drawing itself (angles,
    arcs, the rotation animation) is outside the model. `Math.random()` is a
    parameter: a real in [0, 1). */
module Wheel {
  import Seqs
  import opened Store

  /** The index `Math.floor(random * count)`. */
  function WinnerIndex(random: real, count: nat): (k: nat)
    requires 0.0 <= random < 1.0
    requires count > 0
    ensures k < count
    ensures k as real <= random * count as real < k as real + 1.0
  {
    var x := random * count as real;
    assert 0.0 <= x < count as real;
    x.Floor
  }

  /** Every segment can win: the random value `k / count` draws index `k`. */
  lemma EverySegmentCanWin(k: nat, count: nat)
    requires k < count
    ensures 0.0 <= k as real / count as real < 1.0
    ensures WinnerIndex(k as real / count as real, count) == k
  {
    var r := k as real / count as real;
    assert r * count as real == k as real;
  }

  /** A larger random value never draws an earlier segment. */
  lemma WinnerIndexMonotone(r1: real, r2: real, count: nat)
    requires 0.0 <= r1 <= r2 < 1.0
    requires count > 0
    ensures WinnerIndex(r1, count) <= WinnerIndex(r2, count)
  {
    assert r1 * count as real <= r2 * count as real;
  }

  /** `spinWheel()`: does nothing while a spin is running or when the wheel is
      empty; otherwise marks the wheel as spinning and draws the winner among the
      current items. The returned winner is handed over when the animation ends. */
  method SpinWheel(s: Session, random: real) returns (winner: Option<Item>)
    requires 0.0 <= random < 1.0
    modifies s`isSpinning
    ensures (old(s.isSpinning) || s.items == []) ==> winner == None && s.isSpinning == old(s.isSpinning)
    ensures !(old(s.isSpinning) || s.items == []) ==>
      && s.isSpinning
      && winner == Some(s.items[WinnerIndex(random, |s.items|)])
      && winner.value in s.items
  {
    if s.isSpinning || |s.items| == 0 {
      return None;
    }
    s.SetIsSpinning(true);
    var randomIndex := WinnerIndex(random, |s.items|);
    winner := Some(s.items[randomIndex]);
  }

  /** The end of the animation: the wheel stops spinning and the winner goes through
      `handleSpinResult`. */
  method CompleteSpin(s: Session, winner: Item, now: nat)
    modifies s`isSpinning, s`lastWinner, s`spinHistory, s`items
    ensures !s.isSpinning
    ensures s.lastWinner == Some(winner)
    ensures s.spinHistory == old(s.spinHistory) + [SpinRecord(winner, now)]
    ensures s.items == AfterSpin(old(s.items), winner, s.gameMode, s.removeAfterSpin)
  {
    s.SetIsSpinning(false);
    s.HandleSpinResult(winner, now);
  }

  /** A winner drawn from the items and then removed by the spin is no longer on
      the wheel, and every other item stays, in order. */
  lemma DrawnWinnerRemoved(items: seq<Item>, random: real, mode: GameMode, removeAfterSpin: bool)
    requires 0.0 <= random < 1.0
    requires items != []
    requires removeAfterSpin || mode == Elimination
    ensures var w := items[WinnerIndex(random, |items|)];
      && !HasId(AfterSpin(items, w, mode, removeAfterSpin), w.id)
      && |AfterSpin(items, w, mode, removeAfterSpin)| < |items|
      && Seqs.IsSubsequence(AfterSpin(items, w, mode, removeAfterSpin), items)
  {
    var w := items[WinnerIndex(random, |items|)];
    var rest := WithoutId(items, w.id);
    var keep := (it: Item) => it.id != w.id;
    var drop := (it: Item) => it.id == w.id;
    Seqs.FilterPartition(items, keep, drop);
    Seqs.FilterIsSubsequence(items, keep);
    assert w in Seqs.Filter(items, drop);
  }

  /** The distance of the labels from the centre. */
  function TextRadius(count: nat): (r: nat)
    ensures r == 60 <==> count <= 10
    ensures r == 55 <==> 10 < count <= 15
    ensures r == 50 <==> 15 < count
  {
    if count > 15 then 50
    else if count > 10 then 55
    else 60
  }

  /** The label font size. */
  function FontSize(count: nat): (r: nat)
    ensures r == 12 <==> count <= 5
    ensures r == 11 <==> 5 < count <= 8
    ensures r == 10 <==> 8 < count <= 12
    ensures r == 9 <==> 12 < count <= 15
    ensures r == 8 <==> 15 < count <= 20
    ensures r == 7 <==> 20 < count
  {
    if count > 20 then 7
    else if count > 15 then 8
    else if count > 12 then 9
    else if count > 8 then 10
    else if count > 5 then 11
    else 12
  }

  /** The longest label shown untruncated. */
  function MaxLength(count: nat): (r: nat)
    ensures r == 15 <==> count <= 8
    ensures r == 13 <==> 8 < count <= 12
    ensures r == 11 <==> 12 < count <= 15
    ensures r == 9 <==> 15 < count <= 20
    ensures r == 7 <==> 20 < count
  {
    if count > 20 then 7
    else if count > 15 then 9
    else if count > 12 then 11
    else if count > 8 then 13
    else 15
  }

  /** More items never give a larger radius, font or label. */
  lemma TiersNonIncreasing(m: nat, n: nat)
    requires m <= n
    ensures TextRadius(n) <= TextRadius(m)
    ensures FontSize(n) <= FontSize(m)
    ensures MaxLength(n) <= MaxLength(m)
  {
  }

  /** The label of a segment: the name when it fits, otherwise its first
      `maxLength - 2` characters followed by "..". A label never exceeds
      `maxLength` characters, is the name itself exactly when the name fits, and
      otherwise is exactly `maxLength` long and keeps the name's beginning. */
  function Label(name: string, maxLength: nat): (r: string)
    requires maxLength >= 2
    ensures |r| <= maxLength
    ensures r == name <==> |name| <= maxLength
    ensures |name| > maxLength ==>
      && |r| == maxLength
      && r[..maxLength - 2] == name[..maxLength - 2]
      && r[maxLength - 2..] == ".."
  {
    if |name| > maxLength then
      var r := name[..maxLength - 2] + "..";
      assert |r| == maxLength < |name|;
      r
    else name
  }

  /** The label drawn for an item on a wheel of `count` items. */
  function SegmentLabel(item: Item, count: nat): (r: string)
    ensures |r| <= MaxLength(count)
    ensures |item.name| <= MaxLength(count) ==> r == item.name
  {
    Label(item.name, MaxLength(count))
  }
}
