/** The image import: the image-type filter, the line extraction applied to each
    image's recognised text, the loop that gathers the lines of all images, and the
    import flow. Text recognition itself is outside the model: each file carries
    its recognition outcome, `None` when recognition failed. */
module ImageUpload {
  import Seqs
  import opened Text
  import opened Store
  import opened Ingest

  /** A selected file: its MIME type and what recognition makes of it. */
  datatype ImageFile = ImageFile(mimeType: string, ocrText: Option<string>)

  /** Lines that are trimmed and between 1 and 99 characters long. */
  predicate CleanLines(lines: seq<string>) {
    forall i :: 0 <= i < |lines| ==> KeepLength(lines[i]) && Trim(lines[i]) == lines[i]
  }

  /** The lines of the recognised text, split at line feeds and trimmed. */
  function TrimmedLines(text: string): (r: seq<string>)
    ensures |r| == |SplitOn(text, '\n')|
    ensures forall i :: 0 <= i < |r| ==> r[i] == Trim(SplitOn(text, '\n')[i])
  {
    var pieces := SplitOn(text, '\n');
    seq(|pieces|, i requires 0 <= i < |pieces| => Trim(pieces[i]))
  }

  /** Every trimmed line is its own trim. */
  lemma TrimmedLinesTrimmed(text: string)
    ensures forall i :: 0 <= i < |TrimmedLines(text)| ==> Trim(TrimmedLines(text)[i]) == TrimmedLines(text)[i]
  {
    forall i | 0 <= i < |TrimmedLines(text)| ensures Trim(TrimmedLines(text)[i]) == TrimmedLines(text)[i] {
      TrimIdempotent(SplitOn(text, '\n')[i]);
    }
  }

  /** The extraction in `processImage`: the trimmed lines of 1 to 99 characters,
      in order and as often as they occur. Each kept line is already trimmed (so it
      has no line feed or surrounding whitespace), and every trimmed line of such a
      length is kept. */
  function ExtractLines(text: string): (r: seq<string>)
    ensures CleanLines(r)
    ensures forall i :: 0 <= i < |r| ==> r[i] in TrimmedLines(text)
    ensures forall i :: 0 <= i < |TrimmedLines(text)| && KeepLength(TrimmedLines(text)[i])
              ==> TrimmedLines(text)[i] in r
    ensures Seqs.IsSubsequence(r, TrimmedLines(text))
    ensures forall x :: multiset(r)[x] == if KeepLength(x) then multiset(TrimmedLines(text))[x] else 0
  {
    var lines := TrimmedLines(text);
    var r := Seqs.Filter(lines, KeepLength);
    TrimmedLinesTrimmed(text);
    Seqs.FilterIsSubsequence(lines, KeepLength);
    Seqs.FilterCounts(lines, KeepLength);
    r
  }

  /** `processImage(file)`: the extracted lines, or `None` when recognition failed. */
  function ProcessImage(ocrText: Option<string>): (r: Option<seq<string>>)
    ensures ocrText.None? <==> r.None?
    ensures r.Some? ==> CleanLines(r.value)
  {
    match ocrText
    case None => None
    case Some(text) => Some(ExtractLines(text))
  }

  /** What `processImage` returns for each file, in file order. Recognition and
      extraction change no state, so computing them up front or as the loop
      reaches each file gives the same lists. */
  function Outcomes(files: seq<ImageFile>): (r: seq<Option<seq<string>>>)
    ensures |r| == |files|
    ensures forall i :: 0 <= i < |r| ==> r[i] == ProcessImage(files[i].ocrText)
  {
    seq(|files|, i requires 0 <= i < |files| => ProcessImage(files[i].ocrText))
  }

  /** What one outcome contributes: its lines, or nothing when it is null. */
  function LinesOf(outcome: Option<seq<string>>): seq<string> {
    match outcome
    case None => []
    case Some(lines) => lines
  }

  /** The outcomes' lines concatenated in file order. */
  function Concat(outcomes: seq<Option<seq<string>>>): seq<string>
    decreases |outcomes|
  {
    if outcomes == [] then []
    else Concat(outcomes[..|outcomes| - 1]) + LinesOf(outcomes[|outcomes| - 1])
  }

  /** Every line of every outcome is in the concatenation. */
  lemma {:induction false} ConcatHas(outcomes: seq<Option<seq<string>>>, f: nat, k: nat)
    requires f < |outcomes| && k < |LinesOf(outcomes[f])|
    ensures LinesOf(outcomes[f])[k] in Concat(outcomes)
    decreases |outcomes|
  {
    var init := outcomes[..|outcomes| - 1];
    if f < |init| {
      assert init[f] == outcomes[f];
      ConcatHas(init, f, k);
    }
  }

  /** `allItems` once every file has been processed: trimmed lines of 1 to 99
      characters, among them every line extracted from any file. */
  function AllItems(files: seq<ImageFile>): (r: seq<string>)
    ensures CleanLines(r)
    ensures forall f, k :: 0 <= f < |files| && 0 <= k < |LinesOf(ProcessImage(files[f].ocrText))| ==>
      LinesOf(ProcessImage(files[f].ocrText))[k] in r
  {
    var outcomes := Outcomes(files);
    forall f | 0 <= f < |outcomes| ensures CleanLines(LinesOf(outcomes[f])) {
      assert outcomes[f] == ProcessImage(files[f].ocrText);
    }
    ConcatClean(outcomes);
    forall f, k | 0 <= f < |files| && 0 <= k < |LinesOf(ProcessImage(files[f].ocrText))|
      ensures LinesOf(ProcessImage(files[f].ocrText))[k] in Concat(outcomes)
    {
      ConcatHas(outcomes, f, k);
    }
    Concat(outcomes)
  }

  /** One more outcome appends its lines. */
  lemma ConcatSnoc(outcomes: seq<Option<seq<string>>>, o: Option<seq<string>>)
    ensures Concat(outcomes + [o]) == Concat(outcomes) + LinesOf(o)
  {
    assert (outcomes + [o])[..|outcomes|] == outcomes;
  }

  /** Concatenating the outcomes of `a + b` concatenates those of `a`, then `b`. */
  lemma {:induction false} ConcatAppend(a: seq<Option<seq<string>>>, b: seq<Option<seq<string>>>)
    ensures Concat(a + b) == Concat(a) + Concat(b)
    decreases |b|
  {
    if b == [] {
      assert a + b == a;
    } else {
      var b', o := b[..|b| - 1], b[|b| - 1];
      assert b == b' + [o];
      assert a + b == (a + b') + [o];
      calc {
        Concat(a + b);
      == { ConcatSnoc(a + b', o); }
        Concat(a + b') + LinesOf(o);
      == { ConcatAppend(a, b'); }
        Concat(a) + Concat(b') + LinesOf(o);
      == { ConcatSnoc(b', o); }
        Concat(a) + Concat(b);
      }
    }
  }

  /** Each element of the concatenation comes from some outcome's lines. */
  lemma {:induction false} ConcatFrom(outcomes: seq<Option<seq<string>>>, i: nat)
    requires i < |Concat(outcomes)|
    ensures exists f :: 0 <= f < |outcomes| && Concat(outcomes)[i] in LinesOf(outcomes[f])
    decreases |outcomes|
  {
    var init := outcomes[..|outcomes| - 1];
    var last := outcomes[|outcomes| - 1];
    if i < |Concat(init)| {
      ConcatFrom(init, i);
      var f :| 0 <= f < |init| && Concat(init)[i] in LinesOf(init[f]);
      assert outcomes[f] == init[f];
    } else {
      assert Concat(outcomes)[i] == LinesOf(last)[i - |Concat(init)|];
    }
  }

  /** Concatenating outcomes whose lines are all clean gives clean lines. */
  lemma {:induction false} ConcatClean(outcomes: seq<Option<seq<string>>>)
    requires forall f :: 0 <= f < |outcomes| ==> CleanLines(LinesOf(outcomes[f]))
    ensures CleanLines(Concat(outcomes))
    decreases |outcomes|
  {
    if outcomes != [] {
      var init := outcomes[..|outcomes| - 1];
      assert forall f :: 0 <= f < |init| ==> init[f] == outcomes[f];
      ConcatClean(init);
      CleanAppend(Concat(init), LinesOf(outcomes[|outcomes| - 1]));
    }
  }

  /** Clean lines followed by clean lines are clean. */
  lemma CleanAppend(a: seq<string>, b: seq<string>)
    requires CleanLines(a) && CleanLines(b)
    ensures CleanLines(a + b)
  {
    forall i | 0 <= i < |a + b| ensures KeepLength((a + b)[i]) && Trim((a + b)[i]) == (a + b)[i] {
      if i < |a| {
        assert (a + b)[i] == a[i];
      } else {
        assert (a + b)[i] == b[i - |a|];
      }
    }
  }

  /** Outcomes that are null or empty contribute nothing. */
  lemma EmptyOutcomeAddsNothing(outcomes: seq<Option<seq<string>>>, o: Option<seq<string>>)
    requires o.None? || o.value == []
    ensures Concat(outcomes + [o]) == Concat(outcomes)
  {
    ConcatSnoc(outcomes, o);
  }

  /** The loop of `processAllImages`: each file's lines, when they are non-null
      and non-empty, are appended to `allItems`. */
  method CollectItems(outcomes: seq<Option<seq<string>>>) returns (allItems: seq<string>)
    ensures allItems == Concat(outcomes)
  {
    allItems := [];
    var i := 0;
    while i < |outcomes|
      invariant 0 <= i <= |outcomes|
      invariant allItems == Concat(outcomes[..i])
    {
      var items := outcomes[i];
      if items.Some? && |items.value| > 0 {
        allItems := allItems + items.value;
      }
      assert outcomes[..i + 1] == outcomes[..i] + [items];
      ConcatSnoc(outcomes[..i], items);
      i := i + 1;
    }
    assert outcomes[..i] == outcomes;
  }

  /** What an import reported to the user. */
  datatype Notice = NoNotice | NoImages | NoTextFound

  /** `processAllImages`: the wheel is cleared first when asked (even if no text is
      then found), the lines are gathered, an empty result only alerts, and
      otherwise the duplicate-aware add runs. Returns the names added. */
  method ProcessAllImages(s: Session, files: seq<ImageFile>, clearWheel: bool,
                          includeDuplicates: bool, choice: Choice, clock: nat -> nat)
    returns (notice: Notice, added: seq<string>)
    modifies s`items
    ensures var base := if clearWheel then [] else old(s.items);
      && (AllItems(files) == [] ==> notice == NoTextFound && added == [] && s.items == base)
      && (AllItems(files) != [] ==>
            && notice == NoNotice
            && added == ToAdd(base, AllItems(files), includeDuplicates, choice)
            && s.items == base + Batch(added, clock, |base|))
  {
    if clearWheel {
      s.ClearItems();
    }
    var allItems := CollectItems(Outcomes(files));
    if |allItems| == 0 {
      return NoTextFound, [];
    }
    notice := NoNotice;
    added := AddCandidates(s, allItems, includeDuplicates, choice, clock);
  }

  /** `file.type.startsWith('image/')`: the type's first six characters are
      `image/`. */
  function IsImage(f: ImageFile): (ok: bool)
    ensures ok <==> |f.mimeType| >= 6 && forall k :: 0 <= k < 6 ==> f.mimeType[k] == "image/"[k]
  {
    StartsWith(f.mimeType, "image/")
  }

  /** The image files among the selection, in order and as often as selected. */
  function ValidFiles(files: seq<ImageFile>): (r: seq<ImageFile>)
    ensures forall i :: 0 <= i < |r| ==> IsImage(r[i]) && r[i] in files
    ensures forall i :: 0 <= i < |files| && IsImage(files[i]) ==> files[i] in r
    ensures Seqs.IsSubsequence(r, files)
    ensures forall f :: multiset(r)[f] == if IsImage(f) then multiset(files)[f] else 0
  {
    Seqs.FilterIsSubsequence(files, IsImage);
    Seqs.FilterCounts(files, IsImage);
    Seqs.Filter(files, IsImage)
  }

  /** `handleFileChange`: an empty selection does nothing, a selection without
      images only alerts, and otherwise only the image files are processed. */
  method HandleFileChange(s: Session, files: seq<ImageFile>, clearWheel: bool,
                          includeDuplicates: bool, choice: Choice, clock: nat -> nat)
    returns (notice: Notice, added: seq<string>)
    modifies s`items
    ensures files == [] ==> notice == NoNotice && added == [] && s.items == old(s.items)
    ensures files != [] && ValidFiles(files) == [] ==>
      notice == NoImages && added == [] && s.items == old(s.items)
    ensures ValidFiles(files) != [] ==>
      var base := if clearWheel then [] else old(s.items);
      var all := AllItems(ValidFiles(files));
      && (all == [] ==> notice == NoTextFound && added == [] && s.items == base)
      && (all != [] ==>
            && notice == NoNotice
            && added == ToAdd(base, all, includeDuplicates, choice)
            && s.items == base + Batch(added, clock, |base|))
  {
    if |files| == 0 {
      return NoNotice, [];
    }
    var validFiles := ValidFiles(files);
    if |validFiles| == 0 {
      return NoImages, [];
    }
    notice, added := ProcessAllImages(s, validFiles, clearWheel, includeDuplicates, choice, clock);
  }
}
