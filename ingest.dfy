/** The duplicate-aware tail that the CSV and the image import share: check the
    candidates against the wheel, and when some are taken and duplicates are not
    included up front, add all of them, the unique ones or the duplicate ones as
    the user chooses. */
module Ingest {
  import Seqs
  import opened Store

  /** The three buttons of the duplicate dialog. Closing the dialog (its X or its
      backdrop) runs the same callback as "Add Unique Only". */
  datatype Choice = AddAll | AddUniqueOnly | AddDuplicatesOnly

  /** A name either import keeps: between 1 and 99 characters. */
  predicate KeepLength(name: string) {
    0 < |name| < 100
  }

  /** `items.filter(item => !duplicates.includes(item))`. */
  function UniqueOnly(items: seq<string>, duplicates: seq<string>): (r: seq<string>)
    ensures forall i :: 0 <= i < |r| ==> r[i] in items && r[i] !in duplicates
    ensures forall i :: 0 <= i < |items| && items[i] !in duplicates ==> items[i] in r
  {
    Seqs.Filter(items, (n: string) => n !in duplicates)
  }

  /** `items.filter(item => duplicates.includes(item))`. */
  function DuplicatesOnly(items: seq<string>, duplicates: seq<string>): (r: seq<string>)
    ensures forall i :: 0 <= i < |r| ==> r[i] in items && r[i] in duplicates
    ensures forall i :: 0 <= i < |items| && items[i] in duplicates ==> items[i] in r
  {
    Seqs.Filter(items, (n: string) => n in duplicates)
  }

  /** When `duplicates` is what the check returned for `items`, exact membership in
      it is the case-insensitive test itself: "unique only" keeps exactly the
      untaken names and "duplicates only" gives back the check's own result. The
      two are order-preserving filters that together hold every candidate once. */
  lemma {:induction false} PartitionByDuplicates(existing: seq<Item>, items: seq<string>)
    ensures UniqueOnly(items, Duplicates(existing, items))
            == Seqs.Filter(items, (n: string) => !NameTaken(existing, n))
    ensures DuplicatesOnly(items, Duplicates(existing, items)) == Duplicates(existing, items)
    ensures Seqs.IsSubsequence(UniqueOnly(items, Duplicates(existing, items)), items)
    ensures Seqs.IsSubsequence(DuplicatesOnly(items, Duplicates(existing, items)), items)
    ensures multiset(UniqueOnly(items, Duplicates(existing, items)))
            + multiset(DuplicatesOnly(items, Duplicates(existing, items))) == multiset(items)
  {
    var d := Duplicates(existing, items);
    var taken := (n: string) => NameTaken(existing, n);
    var untaken := (n: string) => !NameTaken(existing, n);
    var inD := (n: string) => n in d;
    var notInD := (n: string) => n !in d;
    assert forall x :: x in items ==> (x in d <==> NameTaken(existing, x)) by {
      forall x | x in items ensures x in d <==> NameTaken(existing, x) {
        if x in d {
          var k :| 0 <= k < |d| && d[k] == x;
          assert NameTaken(existing, d[k]);
        }
        if NameTaken(existing, x) {
          var k :| 0 <= k < |items| && items[k] == x;
          assert items[k] in d;
        }
      }
    }
    Seqs.FilterExtensional(items, notInD, untaken);
    Seqs.FilterExtensional(items, inD, taken);
    Seqs.FilterIsSubsequence(items, notInD);
    Seqs.FilterIsSubsequence(items, inD);
    Seqs.FilterPartition(items, notInD, inD);
  }

  /** The names handed to `addItems` (and to the extraction callback) once the
      candidates `items` meet a wheel holding `existing`: all of them when
      duplicates are included or none is found, otherwise the user's subset; an
      empty subset is not added at all. */
  function ToAdd(existing: seq<Item>, items: seq<string>, includeDuplicates: bool, choice: Choice): (r: seq<string>)
    ensures forall i :: 0 <= i < |r| ==> r[i] in items
    ensures includeDuplicates || choice != AddDuplicatesOnly ==>
      forall i :: 0 <= i < |items| && !NameTaken(existing, items[i]) ==> items[i] in r
    ensures !includeDuplicates && choice == AddUniqueOnly ==>
      forall i :: 0 <= i < |r| ==> !NameTaken(existing, r[i])
  {
    var duplicates := Duplicates(existing, items);
    DuplicatesFacts(existing, items);
    if includeDuplicates || |duplicates| == 0 then items else Chosen(items, duplicates, choice)
  }

  /** What is added keeps the candidates' order; everything is added when
      duplicates are included, when none is found (in particular after clearing
      the wheel) or when the user picks "Add All"; "unique only" adds every untaken name and no taken
      one, and "duplicates only" (offered only when some name is taken) adds
      exactly the taken ones. */
  lemma ToAddSelects(existing: seq<Item>, items: seq<string>, includeDuplicates: bool, choice: Choice)
    ensures Seqs.IsSubsequence(ToAdd(existing, items, includeDuplicates, choice), items)
    ensures includeDuplicates || Duplicates(existing, items) == [] || choice == AddAll
            ==> ToAdd(existing, items, includeDuplicates, choice) == items
    ensures existing == [] ==> ToAdd(existing, items, includeDuplicates, choice) == items
    ensures !includeDuplicates && choice == AddUniqueOnly
            ==> ToAdd(existing, items, includeDuplicates, choice)
                == Seqs.Filter(items, (n: string) => !NameTaken(existing, n))
    ensures !includeDuplicates && Duplicates(existing, items) != [] && choice == AddDuplicatesOnly
            ==> ToAdd(existing, items, includeDuplicates, choice) == Duplicates(existing, items)
  {
    var duplicates := Duplicates(existing, items);
    PartitionByDuplicates(existing, items);
    Seqs.SubsequenceOfSelf(items);
    DuplicatesFacts(existing, items);
    if !includeDuplicates && |duplicates| == 0 {
      // Nothing is taken, so both filters are trivial.
      var untaken := (n: string) => !NameTaken(existing, n);
      assert forall x :: x in items ==> untaken(x) by {
        forall x | x in items ensures untaken(x) {
          var k :| 0 <= k < |items| && items[k] == x;
          assert items[k] !in duplicates;
        }
      }
      Seqs.FilterAll(items, untaken);
    }
  }

  /** The names the dialog's button adds, given the duplicates found: every
      candidate for "Add All", the candidates outside `duplicates` for "Add Unique
      Only", and those inside it for "Add Duplicates Only". */
  function Chosen(items: seq<string>, duplicates: seq<string>, choice: Choice): (r: seq<string>)
    ensures forall i :: 0 <= i < |r| ==> r[i] in items
    ensures choice == AddAll ==> r == items
    ensures choice == AddUniqueOnly ==>
      (forall i :: 0 <= i < |r| ==> r[i] !in duplicates)
      && (forall i :: 0 <= i < |items| && items[i] !in duplicates ==> items[i] in r)
    ensures choice == AddDuplicatesOnly ==>
      (forall i :: 0 <= i < |r| ==> r[i] in duplicates)
      && (forall i :: 0 <= i < |items| && items[i] in duplicates ==> items[i] in r)
  {
    match choice
    case AddAll => items
    case AddUniqueOnly => UniqueOnly(items, duplicates)
    case AddDuplicatesOnly => DuplicatesOnly(items, duplicates)
  }

  /** The duplicate-aware tail of an import: check, then add the chosen names. */
  method AddCandidates(s: Session, items: seq<string>, includeDuplicates: bool, choice: Choice, clock: nat -> nat)
    returns (added: seq<string>)
    modifies s`items
    ensures added == ToAdd(old(s.items), items, includeDuplicates, choice)
    ensures s.items == old(s.items) + Batch(added, clock, |old(s.items)|)
  {
    added := items;
    if !includeDuplicates {
      var duplicates := s.CheckDuplicates(items);
      if |duplicates| > 0 {
        // The dialog is shown and the user's button decides.
        added := Chosen(items, duplicates, choice);
      }
    }
    // Every path calls addItems exactly when it has something to add.
    if |added| > 0 {
      var _ := s.AddItems(added, clock);
    }
  }
}
