/** The CSV import: the file-type check, the text parser that turns the file's text
    into candidate names, and the import flow that follows parsing (alert on an
    empty result, optional clearing, then the duplicate-aware add). Reading the
    file is outside the model; its outcome is an input. */
module CsvImport {
  import Seqs
  import opened Text
  import opened Store
  import opened Ingest

  /** A line that is not blank once trimmed. */
  predicate NonBlank(line: string) {
    Trim(line) != []
  }

  /** The lines that are not blank after trimming. */
  function NonBlankLines(text: string): (r: seq<string>)
    ensures forall i :: 0 <= i < |r| ==> r[i] in SplitLines(text) && Trim(r[i]) != []
    ensures forall i :: 0 <= i < |SplitLines(text)| && Trim(SplitLines(text)[i]) != []
              ==> SplitLines(text)[i] in r
  {
    Seqs.Filter(SplitLines(text), NonBlank)
  }

  /** The non-blank lines keep their order, and each occurs as often as among all
      the lines. */
  lemma NonBlankLinesOrder(text: string)
    ensures Seqs.IsSubsequence(NonBlankLines(text), SplitLines(text))
    ensures forall x ::
              multiset(NonBlankLines(text))[x] == if NonBlank(x) then multiset(SplitLines(text))[x] else 0
  {
    Seqs.FilterIsSubsequence(SplitLines(text), NonBlank);
    Seqs.FilterCounts(SplitLines(text), NonBlank);
  }

  /** A piece of text trimmed and with its quotes removed: it holds no quote, and
      only characters of the piece. */
  function CleanPiece(piece: string): (r: string)
    ensures forall i :: 0 <= i < |r| ==> !IsQuote(r[i]) && r[i] in piece
    ensures ',' !in piece ==> ',' !in r
  {
    var t := Trim(piece);
    forall i | 0 <= i < |t| ensures t[i] in piece {
      TrimmedChar(piece, i);
    }
    RemoveQuotes(t)
  }

  /** A character of a trimmed string occurs in the string before trimming. */
  lemma TrimmedChar(s: string, i: nat)
    requires i < |Trim(s)|
    ensures Trim(s)[i] in s
  {
    var a :| TrimmedAt(s, Trim(s), a);
    assert Trim(s)[i] == s[a + i];
  }

  /** The first comma-separated field of a line, trimmed, with its quotes removed. */
  function FirstColumn(line: string): (r: string)
    ensures ',' !in r
    ensures forall i :: 0 <= i < |r| ==> !IsQuote(r[i])
    ensures ',' !in line ==> r == CleanPiece(line)
  {
    CleanPiece(SplitOn(line, ',')[0])
  }

  /** The first column is the cleaned text before the line's first comma. */
  lemma FirstColumnBeforeComma(before: string, after: string)
    requires ',' !in before
    ensures FirstColumn(before + [','] + after) == CleanPiece(before)
  {
    SplitFirstPiece(before, ',', after);
  }

  /** The names before the length filter: one per non-blank line when there are
      several such lines, otherwise one per comma-separated piece of the whole text. */
  function RawItems(text: string): (r: seq<string>)
    ensures |NonBlankLines(text)| > 1 ==> |r| == |NonBlankLines(text)|
    ensures |NonBlankLines(text)| <= 1 ==> |r| == |SplitOn(text, ',')|
  {
    var lines := NonBlankLines(text);
    if |lines| > 1 then
      seq(|lines|, i requires 0 <= i < |lines| => FirstColumn(lines[i]))
    else
      var pieces := SplitOn(text, ',');
      seq(|pieces|, i requires 0 <= i < |pieces| => CleanPiece(pieces[i]))
  }

  /** A name with no comma and no quote. */
  predicate CleanName(name: string) {
    ',' !in name && forall k :: 0 <= k < |name| ==> !IsQuote(name[k])
  }

  /** No raw name holds a comma or a quote. */
  lemma RawItemsClean(text: string)
    ensures forall i :: 0 <= i < |RawItems(text)| ==> CleanName(RawItems(text)[i])
  {
    var lines := NonBlankLines(text);
    var r := RawItems(text);
    if |lines| > 1 {
      forall i | 0 <= i < |r| ensures CleanName(r[i]) {
        assert r[i] == FirstColumn(lines[i]);
      }
    } else {
      var pieces := SplitOn(text, ',');
      forall i | 0 <= i < |r| ensures CleanName(r[i]) {
        assert r[i] == CleanPiece(pieces[i]);
        assert ',' !in pieces[i];
      }
    }
  }

  /** With several non-blank lines the names are the lines' first columns, one per
      line; otherwise they are the cleaned comma-separated pieces of the whole text. */
  lemma RawItemsShape(text: string)
    ensures |NonBlankLines(text)| > 1 ==>
      forall i :: 0 <= i < |RawItems(text)| ==> RawItems(text)[i] == FirstColumn(NonBlankLines(text)[i])
    ensures |NonBlankLines(text)| <= 1 ==>
      forall i :: 0 <= i < |RawItems(text)| ==> RawItems(text)[i] == CleanPiece(SplitOn(text, ',')[i])
  {
  }

  /** The parser of `processCSV`: every surviving name has 1 to 99 characters and
      no comma or quote, and every raw name of such a length survives, in order. */
  function ParseCsv(text: string): (r: seq<string>)
    ensures forall i :: 0 <= i < |r| ==> 0 < |r[i]| < 100 && CleanName(r[i])
    ensures forall i :: 0 <= i < |RawItems(text)| && KeepLength(RawItems(text)[i])
              ==> RawItems(text)[i] in r
    ensures Seqs.IsSubsequence(r, RawItems(text))
    ensures forall x :: multiset(r)[x] == if KeepLength(x) then multiset(RawItems(text))[x] else 0
  {
    var raw := RawItems(text);
    RawItemsClean(text);
    Seqs.FilterIsSubsequence(raw, KeepLength);
    Seqs.FilterCounts(raw, KeepLength);
    Seqs.Filter(raw, KeepLength)
  }

  /** The check in `handleFileChange`: a file is taken for CSV when its name's last
      four characters are `.csv` or its type holds the letters `csv` in a row. */
  function AcceptsCsvFile(name: string, mimeType: string): (ok: bool)
    ensures ok <==> EndsInCsv(name) || exists i :: HasCsvAt(mimeType, i)
  {
    var ok := EndsWith(name, ".csv") || Contains(mimeType, "csv");
    assert EndsWith(name, ".csv") <==> EndsInCsv(name) by {
      if EndsInCsv(name) {
        assert name[|name| - 4..] == ".csv";
      }
    }
    assert Contains(mimeType, "csv") <==> exists i :: HasCsvAt(mimeType, i) by {
      forall i: nat | i <= |mimeType| && OccursAt(mimeType, "csv", i) ensures HasCsvAt(mimeType, i) {
        assert mimeType[i..i + 3][0] == mimeType[i];
      }
      forall i | HasCsvAt(mimeType, i) ensures OccursAt(mimeType, "csv", i) {
        assert mimeType[i..i + 3] == "csv";
      }
    }
    ok
  }

  /** The last four characters of `name` are `.`, `c`, `s`, `v`. */
  predicate EndsInCsv(name: string) {
    |name| >= 4 && name[|name| - 4] == '.' && name[|name| - 3] == 'c'
    && name[|name| - 2] == 's' && name[|name| - 1] == 'v'
  }

  /** The characters `c`, `s`, `v` stand in a row in `t` from index `i`. */
  predicate HasCsvAt(t: string, i: int) {
    0 <= i && i + 3 <= |t| && t[i] == 'c' && t[i + 1] == 's' && t[i + 2] == 'v'
  }

  /** What an import reported to the user. */
  datatype Notice = NoNotice | NotCsv | ReadFailed | NoValidItems

  /** The import flow after the text is read: an empty parse only alerts; otherwise
      the wheel is cleared if asked (so the duplicate check then sees an empty
      wheel) and the duplicate-aware add runs. Returns the names added. */
  method ImportText(s: Session, text: string, clearWheel: bool, includeDuplicates: bool,
                    choice: Choice, clock: nat -> nat)
    returns (notice: Notice, added: seq<string>)
    modifies s`items
    ensures ParseCsv(text) == [] ==> notice == NoValidItems && added == [] && s.items == old(s.items)
    ensures ParseCsv(text) != [] ==>
      var base := if clearWheel then [] else old(s.items);
      && notice == NoNotice
      && added == ToAdd(base, ParseCsv(text), includeDuplicates, choice)
      && s.items == base + Batch(added, clock, |base|)
  {
    var items := ParseCsv(text);
    if |items| == 0 {
      return NoValidItems, [];
    }
    if clearWheel {
      s.ClearItems();
    }
    notice := NoNotice;
    added := AddCandidates(s, items, includeDuplicates, choice, clock);
  }

  /** `handleFileChange` with the reader's outcome: no file does nothing, a file
      that is not CSV or that cannot be read only alerts, and a readable CSV file
      goes through `ImportText`. */
  method HandleFileChange(s: Session, file: Option<(string, string)>, content: Option<string>,
                          clearWheel: bool, includeDuplicates: bool, choice: Choice, clock: nat -> nat)
    returns (notice: Notice, added: seq<string>)
    modifies s`items
    ensures file.None? ==> notice == NoNotice && added == [] && s.items == old(s.items)
    ensures file.Some? && !AcceptsCsvFile(file.value.0, file.value.1) ==>
      notice == NotCsv && added == [] && s.items == old(s.items)
    ensures file.Some? && AcceptsCsvFile(file.value.0, file.value.1) && content.None? ==>
      notice == ReadFailed && added == [] && s.items == old(s.items)
    ensures file.Some? && AcceptsCsvFile(file.value.0, file.value.1) && content.Some? ==>
      ParseCsv(content.value) != [] ==> notice == NoNotice
    ensures file.Some? && AcceptsCsvFile(file.value.0, file.value.1) && content.Some? ==>
      && (ParseCsv(content.value) == [] ==> notice == NoValidItems && added == [] && s.items == old(s.items))
      && (ParseCsv(content.value) != [] ==>
            var base := if clearWheel then [] else old(s.items);
            added == ToAdd(base, ParseCsv(content.value), includeDuplicates, choice)
            && s.items == base + Batch(added, clock, |base|))
  {
    if file.None? {
      return NoNotice, [];
    }
    var (name, mimeType) := file.value;
    if !AcceptsCsvFile(name, mimeType) {
      return NotCsv, [];
    }
    if content.None? {
      return ReadFailed, [];
    }
    notice, added := ImportText(s, content.value, clearWheel, includeDuplicates, choice, clock);
  }
}
