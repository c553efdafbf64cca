/** The session store: one record holding the wheel's items, the game mode, the
    settings flags, the spin state, the last winner and the spin history, changed
    only by small synchronous actions. The millisecond clock `Date.now()` is a
    parameter: `now` for an action that reads it once, and `clock` for
    `addItems`, which reads it once per name (`clock(k)` is the reading taken
    for the name at index `k`). */
module Store {
  import opened Text
  import Seqs
  import Palette

  /** One wheel entry. The id is the decimal text of a millisecond clock reading. */
  datatype Item = Item(id: string, name: string, color: string)

  /** One entry of the spin history. */
  datatype SpinRecord = SpinRecord(item: Item, timestamp: nat)

  datatype GameMode = Reward | Elimination

  /** A nullable slot (`selectedItem`, `lastWinner`). */
  datatype Option<T> = None | Some(value: T)

  /** Some item of `items` carries `id`. */
  predicate HasId(items: seq<Item>, id: string) {
    exists i :: 0 <= i < |items| && items[i].id == id
  }

  /** No two items share an id. The store does not enforce this (two items added in
      the same millisecond share one); some lemmas below assume it. */
  ghost predicate UniqueIds(items: seq<Item>) {
    forall i, j :: 0 <= i < j < |items| ==> items[i].id != items[j].id
  }

  /** Every item carries one of the palette's colours. */
  ghost predicate PaletteColored(items: seq<Item>) {
    forall i :: 0 <= i < |items| ==> items[i].color in Palette.Colors
  }

  /** The item `addItem(name)` creates when the list holds `count` items. */
  function NewItem(name: string, now: nat, count: nat): (it: Item)
    ensures it.id == NatToString(now)
    ensures it.name == Trim(name)
    ensures it.color == Palette.ColorAt(count) && it.color in Palette.Colors
  {
    Item(NatToString(now), Trim(name), Palette.ColorAt(count))
  }

  /** The item `addItems` creates for the name at batch index `index` when the list
      held `count` items: id `now` followed by `index`, the trimmed name, and the
      colour of the position `count + index` it will occupy. */
  function BatchEntry(name: string, now: nat, index: nat, count: nat): (it: Item)
    ensures it.id == NatToString(now) + NatToString(index)
    ensures it.name == Trim(name)
    ensures it.color == Palette.ColorAt(count + index)
  {
    Item(NatToString(now) + NatToString(index), Trim(name), Palette.ColorAt(count + index))
  }

  /** A clock that never goes back: a later reading is never smaller. */
  ghost predicate NonDecreasing(clock: nat -> nat) {
    forall i, j :: i <= j ==> clock(i) <= clock(j)
  }

  /** The items `addItems(names)` creates when the list holds `count` items: one
      per name, in order, the name at index `i` as `BatchEntry` describes with the
      clock reading `clock(i)`. Every colour is a palette colour, and while the
      clock does not go back the ids within the batch are pairwise different. */
  function Batch(names: seq<string>, clock: nat -> nat, count: nat): (r: seq<Item>)
    ensures |r| == |names|
    ensures forall i :: 0 <= i < |r| ==> r[i] == BatchEntry(names[i], clock(i), i, count)
    ensures NonDecreasing(clock) ==> UniqueIds(r)
    ensures PaletteColored(r)
  {
    var r := seq(|names|, i requires 0 <= i < |names| => BatchEntry(names[i], clock(i), i, count));
    BatchIdsDistinct(r, clock);
    r
  }

  /** A later reading of a clock that does not go back has at least as many
      digits. */
  lemma {:induction false} NatToStringLonger(m: nat, n: nat)
    requires m <= n
    ensures |NatToString(m)| <= |NatToString(n)|
    decreases n
  {
    if m >= 10 {
      NatToStringLonger(m / 10, n / 10);
    }
  }

  /** Ids made of readings of a clock that does not go back, each followed by its
      own index, differ: when two readings have as many digits the index parts
      differ, and otherwise the later id is longer. */
  lemma BatchIdsDistinct(r: seq<Item>, clock: nat -> nat)
    requires forall i :: 0 <= i < |r| ==> r[i].id == NatToString(clock(i)) + NatToString(i)
    ensures NonDecreasing(clock) ==> UniqueIds(r)
  {
    forall i, j | NonDecreasing(clock) && 0 <= i < j < |r| ensures r[i].id != r[j].id {
      var p, q := NatToString(clock(i)), NatToString(clock(j));
      var u, v := NatToString(i), NatToString(j);
      NatToStringLonger(clock(i), clock(j));
      NatToStringLonger(i, j);
      if |p| == |q| {
        assert DigitsValue(u) != DigitsValue(v);
        assert (p + u)[|p|..] == u && (q + v)[|q|..] == v;
      } else {
        assert |p + u| < |q + v|;
      }
    }
  }

  /** The ids need the clock not to go back: readings 11 for index 1 and 1 for
      index 11 both give the id "111". */
  lemma BackwardClockSharesId(names: seq<string>, clock: nat -> nat, count: nat)
    requires |names| > 11 && clock(1) == 11 && clock(11) == 1
    ensures Batch(names, clock, count)[1].id == Batch(names, clock, count)[11].id == "111"
  {
    assert NatToString(1) == "1";
    assert NatToString(11) == NatToString(1) + [DigitChar(1)] == "11";
    assert Batch(names, clock, count)[1].id == NatToString(11) + NatToString(1);
    assert Batch(names, clock, count)[11].id == NatToString(1) + NatToString(11);
  }

  /** `items` with the name of every item carrying `id` replaced by the trimmed
      `name`: nothing else about any item, and no item's place, changes. */
  function Renamed(items: seq<Item>, id: string, name: string): (r: seq<Item>)
    ensures |r| == |items|
    ensures forall i :: 0 <= i < |r| ==> r[i].id == items[i].id && r[i].color == items[i].color
    ensures forall i :: 0 <= i < |r| ==>
      r[i].name == (if items[i].id == id then Trim(name) else items[i].name)
  {
    seq(|items|, i requires 0 <= i < |items| =>
      if items[i].id == id then items[i].(name := Trim(name)) else items[i])
  }

  /** Renaming an id no item carries changes nothing. */
  lemma RenameUnknownId(items: seq<Item>, id: string, name: string)
    requires !HasId(items, id)
    ensures Renamed(items, id, name) == items
  {
  }

  /** Renaming keeps the palette colouring. */
  lemma RenamePreservesColors(items: seq<Item>, id: string, name: string)
    requires PaletteColored(items)
    ensures PaletteColored(Renamed(items, id, name))
  {
  }

  /** `items.filter(item => item.id !== id)`. */
  function WithoutId(items: seq<Item>, id: string): (r: seq<Item>)
    ensures |r| <= |items|
    ensures !HasId(r, id)
    ensures forall i :: 0 <= i < |r| ==> r[i] in items
    ensures forall i :: 0 <= i < |items| && items[i].id != id ==> items[i] in r
  {
    Seqs.Filter(items, (it: Item) => it.id != id)
  }

  /** Deletion removes exactly the items with `id`: the survivors keep their order
      and, being the very same records, their colours (there is no recolouring),
      and together with the removed items they make up the old list. */
  lemma {:induction false} DeleteRemovesExactly(items: seq<Item>, id: string)
    ensures Seqs.IsSubsequence(WithoutId(items, id), items)
    ensures multiset(WithoutId(items, id)) + multiset(Seqs.Filter(items, (it: Item) => it.id == id))
            == multiset(items)
    ensures !HasId(items, id) ==> WithoutId(items, id) == items
    ensures PaletteColored(items) ==> PaletteColored(WithoutId(items, id))
  {
    var keep := (it: Item) => it.id != id;
    var drop := (it: Item) => it.id == id;
    Seqs.FilterIsSubsequence(items, keep);
    Seqs.FilterPartition(items, keep, drop);
    if !HasId(items, id) {
      Seqs.FilterAll(items, keep);
    }
  }

  /** With unique ids, the items carrying `id` are the single item `w` when `w` is
      in the list. */
  lemma {:induction false} OnlyItemWithId(items: seq<Item>, w: Item)
    requires UniqueIds(items)
    requires w in items
    ensures Seqs.Filter(items, (it: Item) => it.id == w.id) == [w]
    decreases |items|
  {
    var p := (it: Item) => it.id == w.id;
    assert UniqueIds(items[1..]) by {
      forall i, j | 0 <= i < j < |items[1..]| ensures items[1..][i].id != items[1..][j].id {
        assert items[1..][i] == items[i + 1] && items[1..][j] == items[j + 1];
      }
    }
    if items[0] == w {
      assert forall k :: 0 <= k < |items[1..]| ==> items[1..][k].id != w.id by {
        forall k | 0 <= k < |items[1..]| ensures items[1..][k].id != w.id {
          assert items[1..][k] == items[k + 1];
        }
      }
      NoneWithId(items[1..], w.id);
    } else {
      assert w in items[1..];
      OnlyItemWithId(items[1..], w);
    }
  }

  /** A list in which no item carries `id` filters to nothing by that id. */
  lemma {:induction false} NoneWithId(items: seq<Item>, id: string)
    requires forall k :: 0 <= k < |items| ==> items[k].id != id
    ensures Seqs.Filter(items, (it: Item) => it.id == id) == []
    decreases |items|
  {
    if items != [] {
      NoneWithId(items[1..], id);
    }
  }

  /** The duplicate check's notion of a taken name: some existing item's name,
      lower-cased, equals the candidate lower-cased. */
  predicate NameTaken(items: seq<Item>, name: string) {
    exists i :: 0 <= i < |items| && Lower(items[i].name) == Lower(name)
  }

  /** `checkDuplicates(newNames)`: the candidates whose name is taken, in order. */
  function Duplicates(items: seq<Item>, newNames: seq<string>): (r: seq<string>)
    ensures |r| <= |newNames|
    ensures forall i :: 0 <= i < |r| ==> r[i] in newNames && NameTaken(items, r[i])
    ensures forall i :: 0 <= i < |newNames| && NameTaken(items, newNames[i]) ==> newNames[i] in r
  {
    Seqs.Filter(newNames, (n: string) => NameTaken(items, n))
  }

  /** The duplicate check keeps candidate order, and against an empty list (as
      after clearing the wheel) it finds nothing. */
  lemma DuplicatesFacts(items: seq<Item>, newNames: seq<string>)
    ensures Seqs.IsSubsequence(Duplicates(items, newNames), newNames)
    ensures items == [] ==> Duplicates(items, newNames) == []
  {
    Seqs.FilterIsSubsequence(newNames, (n: string) => NameTaken(items, n));
  }

  /** The duplicate check ignores ASCII letter case on both sides. */
  lemma DuplicatesIgnoreCase(items: seq<Item>, a: string, b: string)
    requires Lower(a) == Lower(b)
    ensures NameTaken(items, a) <==> NameTaken(items, b)
  {
  }

  /** The list `redoLastSpin` leaves: the remembered winner appended, unchanged
      and with its old colour, when there is one and no item carries its id;
      otherwise the list as it was. */
  function AfterRedo(items: seq<Item>, lastWinner: Option<Item>): (r: seq<Item>)
    ensures lastWinner.Some? && !HasId(items, lastWinner.value.id) ==> r == items + [lastWinner.value]
    ensures !(lastWinner.Some? && !HasId(items, lastWinner.value.id)) ==> r == items
  {
    if lastWinner.Some? && !HasId(items, lastWinner.value.id) then items + [lastWinner.value] else items
  }

  /** `lastWinner` is not cleared, so a second undo in a row changes nothing. */
  lemma RedoTwiceIsRedoOnce(items: seq<Item>, lastWinner: Option<Item>)
    ensures AfterRedo(AfterRedo(items, lastWinner), lastWinner) == AfterRedo(items, lastWinner)
  {
    var once := AfterRedo(items, lastWinner);
    if lastWinner.Some? && !HasId(items, lastWinner.value.id) {
      assert once[|items|].id == lastWinner.value.id;
    }
  }

  /** The list `handleSpinResult(winner)` leaves: the winner's id removed when the
      flag `removeAfterSpin` is set or the mode is elimination, else unchanged. */
  function AfterSpin(items: seq<Item>, winner: Item, mode: GameMode, removeAfterSpin: bool): (r: seq<Item>)
    ensures (removeAfterSpin || mode == Elimination) ==> r == WithoutId(items, winner.id)
    ensures !(removeAfterSpin || mode == Elimination) ==> r == items
  {
    if removeAfterSpin || mode == Elimination then WithoutId(items, winner.id) else items
  }

  /** Undoing a removing spin gives back the same items, with the winner moved to
      the end: the same multiset, and exactly the old list when the winner was last. */
  lemma RedoRestoresEliminated(items: seq<Item>, w: Item)
    requires UniqueIds(items)
    requires w in items
    ensures AfterRedo(WithoutId(items, w.id), Some(w)) == WithoutId(items, w.id) + [w]
    ensures multiset(AfterRedo(WithoutId(items, w.id), Some(w))) == multiset(items)
    ensures items[|items| - 1] == w ==> AfterRedo(WithoutId(items, w.id), Some(w)) == items
  {
    var rest := WithoutId(items, w.id);
    assert AfterRedo(rest, Some(w)) == rest + [w];
    DeleteRemovesExactly(items, w.id);
    OnlyItemWithId(items, w);
    assert multiset(rest + [w]) == multiset(rest) + multiset([w]);
    if items[|items| - 1] == w {
      DeleteLast(items, w);
    }
  }

  /** Deleting the id of the last item, when ids are unique, drops just that item. */
  lemma DeleteLast(items: seq<Item>, w: Item)
    requires UniqueIds(items)
    requires items != [] && items[|items| - 1] == w
    ensures WithoutId(items, w.id) + [w] == items
  {
    var init := items[..|items| - 1];
    var keep := (it: Item) => it.id != w.id;
    assert items == init + [w];
    assert forall k :: 0 <= k < |init| ==> keep(init[k]) by {
      forall k | 0 <= k < |init| ensures keep(init[k]) {
        assert init[k] == items[k];
      }
    }
    Seqs.FilterAppend(init, [w], keep);
    Seqs.FilterAll(init, keep);
    assert Seqs.Filter([w], keep) == [];
  }

  /** In reward mode without `removeAfterSpin` the winner stays, so undo does nothing. */
  lemma RedoAfterKeptSpin(items: seq<Item>, w: Item)
    requires w in items
    ensures AfterRedo(AfterSpin(items, w, Reward, false), Some(w)) == items
  {
  }

  /** Appending a palette-coloured item keeps the palette colouring. */
  lemma RedoPreservesColors(items: seq<Item>, lastWinner: Option<Item>)
    requires PaletteColored(items)
    requires lastWinner.Some? ==> lastWinner.value.color in Palette.Colors
    ensures PaletteColored(AfterRedo(items, lastWinner))
  {
  }

  /** The store record. Each action overwrites the fields it names and no others. */
  class Session {
    var items: seq<Item>
    var gameMode: GameMode
    var removeAfterSpin: bool
    var soundEnabled: bool
    var isSpinning: bool
    var selectedItem: Option<Item>
    var lastWinner: Option<Item>
    var spinHistory: seq<SpinRecord>

    /** The initial state: no items, reward mode, sound on, nothing drawn. */
    constructor ()
      ensures items == [] && gameMode == Reward
      ensures !removeAfterSpin && soundEnabled && !isSpinning
      ensures selectedItem == None && lastWinner == None && spinHistory == []
    {
      items := [];
      gameMode := Reward;
      removeAfterSpin := false;
      soundEnabled := true;
      isSpinning := false;
      selectedItem := None;
      lastWinner := None;
      spinHistory := [];
    }

    /** `addItem(name)`: appends one item and returns it. */
    method AddItem(name: string, now: nat) returns (newItem: Item)
      modifies this`items
      ensures newItem == NewItem(name, now, |old(items)|)
      ensures items == old(items) + [newItem]
      ensures old(PaletteColored(items)) ==> PaletteColored(items)
    {
      newItem := NewItem(name, now, |items|);
      items := items + [newItem];
    }

    /** `addItems(names)`: appends one item per name, in order, and returns them. */
    method AddItems(names: seq<string>, clock: nat -> nat) returns (newItems: seq<Item>)
      modifies this`items
      ensures newItems == Batch(names, clock, |old(items)|)
      ensures items == old(items) + newItems
      ensures names == [] ==> items == old(items)
      ensures old(PaletteColored(items)) ==> PaletteColored(items)
    {
      newItems := Batch(names, clock, |items|);
      items := items + newItems;
    }

    /** `updateItem(id, name)`. */
    method UpdateItem(id: string, name: string)
      modifies this`items
      ensures items == Renamed(old(items), id, name)
    {
      items := Renamed(items, id, name);
    }

    /** `deleteItem(id)`. */
    method DeleteItem(id: string)
      modifies this`items
      ensures items == WithoutId(old(items), id)
    {
      items := WithoutId(items, id);
    }

    /** `clearItems()`: empties the list and touches nothing else. */
    method ClearItems()
      modifies this`items
      ensures items == []
    {
      items := [];
    }

    /** `setItems(items)`: replaces the list wholesale. */
    method SetItems(newItems: seq<Item>)
      modifies this`items
      ensures items == newItems
    {
      items := newItems;
    }

    /** `checkDuplicates(newNames)`: a query; it changes nothing. */
    method CheckDuplicates(newNames: seq<string>) returns (duplicates: seq<string>)
      ensures duplicates == Duplicates(items, newNames)
    {
      duplicates := Duplicates(items, newNames);
    }

    method SetGameMode(mode: GameMode)
      modifies this`gameMode
      ensures gameMode == mode
    {
      gameMode := mode;
    }

    method SetRemoveAfterSpin(value: bool)
      modifies this`removeAfterSpin
      ensures removeAfterSpin == value
    {
      removeAfterSpin := value;
    }

    method SetSoundEnabled(value: bool)
      modifies this`soundEnabled
      ensures soundEnabled == value
    {
      soundEnabled := value;
    }

    method SetIsSpinning(value: bool)
      modifies this`isSpinning
      ensures isSpinning == value
    {
      isSpinning := value;
    }

    method SetSelectedItem(item: Option<Item>)
      modifies this`selectedItem
      ensures selectedItem == item
    {
      selectedItem := item;
    }

    /** `handleSpinResult(winner)`: records the draw, then applies the mode policy. */
    method HandleSpinResult(winner: Item, now: nat)
      modifies this`lastWinner, this`spinHistory, this`items
      ensures lastWinner == Some(winner)
      ensures spinHistory == old(spinHistory) + [SpinRecord(winner, now)]
      ensures items == AfterSpin(old(items), winner, gameMode, removeAfterSpin)
    {
      lastWinner := Some(winner);
      spinHistory := spinHistory + [SpinRecord(winner, now)];
      if removeAfterSpin || gameMode == Elimination {
        items := WithoutId(items, winner.id);
      }
    }

    /** `redoLastSpin()`: the single undo; `lastWinner` is left as it is. */
    method RedoLastSpin()
      modifies this`items
      ensures items == AfterRedo(old(items), lastWinner)
    {
      if lastWinner.Some? && !HasId(items, lastWinner.value.id) {
        items := items + [lastWinner.value];
      }
    }

    /** `resetGame()`: forgets the draws; items, mode and flags stay. */
    method ResetGame()
      modifies this`spinHistory, this`lastWinner, this`selectedItem
      ensures spinHistory == [] && lastWinner == None && selectedItem == None
    {
      spinHistory := [];
      lastWinner := None;
      selectedItem := None;
    }
  }
}
