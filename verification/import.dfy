/** The corpus import (scripts/import_tanach.ts): one JSON record per input line, each upserted
    into the Pasuk table on its natural key (book, chapter, verse). */
module Import {
  import opened Wrappers
  import Hebrew
  import opened Store

  /** One parsed line. A field absent from the JSON object, or null, is `None`. */
  datatype Record = Record(
    book: Option<string>,
    bookOrder: Option<int>,
    chapter: Option<int>,
    verse: Option<int>,
    hebrewText: Option<string>)

  /** The truthiness check on a record: every field present, the strings non-empty and the
      numbers non-zero (a negative number passes). */
  predicate Complete(r: Record) {
    r.book.Some? && r.book.value != "" &&
    r.bookOrder.Some? && r.bookOrder.value != 0 &&
    r.chapter.Some? && r.chapter.value != 0 &&
    r.verse.Some? && r.verse.value != 0 &&
    r.hebrewText.Some? && r.hebrewText.value != ""
  }

  /** The natural key a complete record is upserted on. */
  function RecordKey(r: Record): Key
    requires Complete(r)
  {
    Key(r.book.value, r.chapter.value, r.verse.value)
  }

  /** `JSON.parse` on a trimmed line: `None` where it throws. */
  type Parser = string -> Option<Record>

  /** How an import ends: every line read, a line that does not parse, or a record that fails the
      truthiness check, reported as `Invalid row at line <processed + 1>`. */
  datatype Outcome = Imported | ParseFailed | InvalidRow(line: nat)

  /** What the loop makes of one input line: skipped, not parsed, failing the check, or a
      record to upsert on `key` with its book order and text. */
  datatype Line = Blank | Unparsable | Incomplete | Accepted(key: Key, bookOrder: int, text: string)

  /** A line that is empty once trimmed is skipped; otherwise it is parsed and checked. */
  function Classify(line: string, parse: Parser): Line {
    var trimmed := Hebrew.Trim(line);
    if trimmed == [] then Blank
    else match parse(trimmed)
      case None => Unparsable
      case Some(r) => if Complete(r) then Accepted(RecordKey(r), r.bookOrder.value, r.hebrewText.value) else Incomplete
  }

  /** A line is skipped exactly when it is all white space; any other line is accepted exactly
      when its trimmed text parses to a complete record, which is then upserted on its key with its
      book order and text. */
  lemma Classified(line: string, parse: Parser)
    ensures Classify(line, parse).Blank? <==> forall i :: 0 <= i < |line| ==> Hebrew.IsSpace(line[i])
    ensures Classify(line, parse).Accepted? <==>
      !Classify(line, parse).Blank? && parse(Hebrew.Trim(line)).Some? && Complete(parse(Hebrew.Trim(line)).value)
    ensures Classify(line, parse).Accepted? ==>
      var r := parse(Hebrew.Trim(line)).value;
      Classify(line, parse) == Accepted(Key(r.book.value, r.chapter.value, r.verse.value), r.bookOrder.value, r.hebrewText.value)
  {
    Hebrew.TrimEmpty(line);
  }

  /** Every line, classified. */
  function ClassifyAll(lines: seq<string>, parse: Parser): (kinds: seq<Line>)
    ensures |kinds| == |lines| && forall k :: 0 <= k < |lines| ==> kinds[k] == Classify(lines[k], parse)
  {
    seq(|lines|, k requires 0 <= k < |lines| => Classify(lines[k], parse))
  }

  /** Where the import loop stopped: the table it leaves, how it ended, the number of records
      upserted, and the index of the line it stopped at (the number of lines once all are read). */
  datatype Stop = Stop(table: Table, outcome: Outcome, processed: nat, at: nat)

  /** The import loop from line i on, as a function of the table: blank lines are skipped, each
      accepted record is upserted and counted, and the first line that does not parse or is
      incomplete ends it. */
  ghost function ImportLoop(t: Table, kinds: seq<Line>, i: nat, processed: nat): (s: Stop)
    requires i <= |kinds|
    ensures i <= s.at <= |kinds| && processed <= s.processed
    ensures s.outcome.Imported? <==> s.at == |kinds|
    decreases |kinds| - i
  {
    if i == |kinds| then Stop(t, Imported, processed, i)
    else match kinds[i]
      case Blank => ImportLoop(t, kinds, i + 1, processed)
      case Unparsable => Stop(t, ParseFailed, processed, i)
      case Incomplete => Stop(t, InvalidRow(processed + 1), processed, i)
      case Accepted(key, bookOrder, text) => ImportLoop(Upserted(t, key, bookOrder, text), kinds, i + 1, processed + 1)
  }

  /** The number of accepted records among kinds[i..j]. */
  function CountAccepted(kinds: seq<Line>, i: nat, j: nat): nat
    requires i <= j <= |kinds|
    decreases j - i
  {
    if i == j then 0 else (if kinds[i].Accepted? then 1 else 0) + CountAccepted(kinds, i + 1, j)
  }

  /** The natural keys of the accepted records among kinds[i..j]. */
  function Touched(kinds: seq<Line>, i: nat, j: nat): set<Key>
    requires i <= j <= |kinds|
    decreases j - i
  {
    if i == j then {} else (if kinds[i].Accepted? then {kinds[i].key} else {}) + Touched(kinds, i + 1, j)
  }

  /** The count is the number of accepted records before the stop; every line before it was
      blank or accepted; and the stop is at a line that does not parse, or at an incomplete record
      reported as line `processed + 1`. */
  lemma {:induction false} ImportCounts(t: Table, kinds: seq<Line>, i: nat, processed: nat)
    requires i <= |kinds|
    ensures var s := ImportLoop(t, kinds, i, processed);
      s.processed == processed + CountAccepted(kinds, i, s.at) &&
      (forall m :: i <= m < s.at ==> kinds[m].Blank? || kinds[m].Accepted?) &&
      (s.outcome.ParseFailed? <==> s.at < |kinds| && kinds[s.at].Unparsable?) &&
      (s.outcome.InvalidRow? <==> s.at < |kinds| && kinds[s.at].Incomplete?) &&
      (s.outcome.InvalidRow? ==> s.outcome.line == s.processed + 1)
    decreases |kinds| - i
  {
    if i < |kinds| {
      match kinds[i]
      case Blank =>
        ImportCounts(t, kinds, i + 1, processed);
      case Unparsable =>
      case Incomplete =>
      case Accepted(key, bookOrder, text) =>
        ImportCounts(Upserted(t, key, bookOrder, text), kinds, i + 1, processed + 1);
    }
  }

  /** The unique constraint holds throughout; rows that were there keep their id, key, plain text
      and embedding; rows the import adds have neither plain text nor embedding; and the keys
      present afterwards are those before plus the keys of the records upserted. */
  lemma {:induction false} ImportKeepsRows(t: Table, kinds: seq<Line>, i: nat, processed: nat)
    requires Fresh(t) && i <= |kinds|
    ensures var s := ImportLoop(t, kinds, i, processed);
      Fresh(s.table) && t.nextId <= s.table.nextId &&
      (forall id :: id in t.rows ==>
        id in s.table.rows && KeyOf(s.table.rows[id]) == KeyOf(t.rows[id]) &&
        s.table.rows[id].hebrewTextPlain == t.rows[id].hebrewTextPlain &&
        s.table.rows[id].embedding == t.rows[id].embedding) &&
      (forall id :: id in s.table.rows && id !in t.rows ==>
        s.table.rows[id].hebrewTextPlain.None? && s.table.rows[id].embedding.None?) &&
      KeysOf(s.table.rows) == KeysOf(t.rows) + Touched(kinds, i, s.at)
    decreases |kinds| - i
  {
    if i < |kinds| {
      match kinds[i]
      case Blank =>
        ImportKeepsRows(t, kinds, i + 1, processed);
      case Unparsable =>
      case Incomplete =>
      case Accepted(key, bookOrder, text) =>
        UpsertedFresh(t, key, bookOrder, text);
        UpsertedRows(t, key, bookOrder, text);
        ImportKeepsRows(Upserted(t, key, bookOrder, text), kinds, i + 1, processed + 1);
    }
  }

  /** A row whose key no upserted record carries is left exactly as it was. */
  lemma {:induction false} ImportFrame(t: Table, kinds: seq<Line>, i: nat, processed: nat, id: int)
    requires Fresh(t) && i <= |kinds| && id in t.rows
    requires KeyOf(t.rows[id]) !in Touched(kinds, i, ImportLoop(t, kinds, i, processed).at)
    ensures var s := ImportLoop(t, kinds, i, processed);
      id in s.table.rows && s.table.rows[id] == t.rows[id]
    decreases |kinds| - i
  {
    if i < |kinds| {
      match kinds[i]
      case Blank =>
        ImportFrame(t, kinds, i + 1, processed, id);
      case Unparsable =>
      case Incomplete =>
      case Accepted(key, bookOrder, text) =>
        UpsertedFresh(t, key, bookOrder, text);
        UpsertedRows(t, key, bookOrder, text);
        ImportFrame(Upserted(t, key, bookOrder, text), kinds, i + 1, processed + 1, id);
    }
  }

  /** A key holding the given values keeps them through a run of lines that upserts no record
      with that key. */
  lemma KeptAfter(t: Table, kinds: seq<Line>, i: nat, processed: nat, key: Key, bookOrder: int, text: string)
    requires Fresh(t) && i <= |kinds| && key in KeysOf(t.rows)
    requires forall id :: id in t.rows && KeyOf(t.rows[id]) == key ==>
      t.rows[id].bookOrder == bookOrder && t.rows[id].hebrewText == text
    requires key !in Touched(kinds, i, ImportLoop(t, kinds, i, processed).at)
    ensures var s := ImportLoop(t, kinds, i, processed);
      key in KeysOf(s.table.rows) &&
      forall id :: id in s.table.rows && KeyOf(s.table.rows[id]) == key ==>
        s.table.rows[id].bookOrder == bookOrder && s.table.rows[id].hebrewText == text
  {
    var s := ImportLoop(t, kinds, i, processed);
    var id0 := RowWithKey(t.rows, key);
    ImportFrame(t, kinds, i, processed, id0);
    ImportKeepsRows(t, kinds, i, processed);
    assert KeyOf(s.table.rows[id0]) == key;
  }

  /** The record on line m, accepted before the stop and not followed by another upserted record
      with its key, is what its key holds afterwards: the key is present, and its row has that
      record's book order and text. */
  lemma {:induction false} LastRecordWins(t: Table, kinds: seq<Line>, i: nat, processed: nat, m: nat)
    requires Fresh(t) && i <= m < |kinds| && m < ImportLoop(t, kinds, i, processed).at && kinds[m].Accepted?
    requires kinds[m].key !in Touched(kinds, m + 1, ImportLoop(t, kinds, i, processed).at)
    ensures var s := ImportLoop(t, kinds, i, processed);
      kinds[m].key in KeysOf(s.table.rows) &&
      forall id :: id in s.table.rows && KeyOf(s.table.rows[id]) == kinds[m].key ==>
        s.table.rows[id].bookOrder == kinds[m].bookOrder && s.table.rows[id].hebrewText == kinds[m].text
    decreases |kinds| - i
  {
    var s := ImportLoop(t, kinds, i, processed);
    match kinds[i]
    case Blank =>
      LastRecordWins(t, kinds, i + 1, processed, m);
    case Accepted(key, bookOrder, text) =>
      var t' := Upserted(t, key, bookOrder, text);
      UpsertedFresh(t, key, bookOrder, text);
      if i == m {
        UpsertedRows(t, key, bookOrder, text);
        KeptAfter(t', kinds, i + 1, processed + 1, key, bookOrder, text);
      } else {
        LastRecordWins(t', kinds, i + 1, processed + 1, m);
      }
  }

  /** The progress lines printed while the count rises to n: one after each record that brings
      the count to a multiple of 1000. */
  function Milestones(n: nat): seq<nat> {
    if n == 0 then [] else Milestones(n - 1) + (if n % 1000 == 0 then [n] else [])
  }

  /** There is one progress line per full thousand, reporting 1000, 2000, ... in turn. */
  lemma {:induction false} MilestonesThousands(n: nat)
    ensures |Milestones(n)| == n / 1000
    ensures forall k :: 0 <= k < |Milestones(n)| ==> Milestones(n)[k] == 1000 * (k + 1)
  {
    if n > 0 {
      MilestonesThousands(n - 1);
      if n % 1000 == 0 {
        assert n / 1000 == (n - 1) / 1000 + 1;
      } else {
        assert n / 1000 == (n - 1) / 1000;
      }
    }
  }

  /** One pass of the loop body on line i: trim it and skip it when blank; otherwise parse and
      check the record, stopping at the first failure, then upsert it, count it, and print a
      progress line when the count reaches a multiple of 1000. `stop` says the loop ends here. */
  method ImportLine(t: PasukTable, line: string, parse: Parser, processed: nat, progress: seq<nat>,
                    ghost kinds: seq<Line>, ghost i: nat)
    returns (stop: bool, outcome: Outcome, processed': nat, progress': seq<nat>)
    requires t.Valid() && i < |kinds| && kinds[i] == Classify(line, parse)
    modifies t
    ensures t.Valid()
    ensures stop ==> Table(t.rows, t.nextId) == Table(old(t.rows), old(t.nextId)) && processed' == processed
    ensures stop ==>
      ImportLoop(Table(old(t.rows), old(t.nextId)), kinds, i, processed) == Stop(Table(t.rows, t.nextId), outcome, processed, i)
    ensures !stop ==>
      ImportLoop(Table(old(t.rows), old(t.nextId)), kinds, i, processed) == ImportLoop(Table(t.rows, t.nextId), kinds, i + 1, processed')
    ensures progress == Milestones(processed) ==> progress' == Milestones(processed')
  {
    stop, outcome, processed', progress' := false, Imported, processed, progress;
    var trimmed := Hebrew.Trim(line);
    if trimmed == [] {
      return;
    }
    var parsed := parse(trimmed);
    if parsed.None? {
      return true, ParseFailed, processed, progress;
    }
    var row := parsed.value;
    if !Complete(row) {
      return true, InvalidRow(processed + 1), processed, progress;
    }
    var id := t.Upsert(RecordKey(row), row.bookOrder.value, row.hebrewText.value);
    processed' := processed + 1;
    if processed' % 1000 == 0 {
      progress' := progress + [processed'];
    }
  }

  /** The import: read the lines in order, skip blank ones, parse and check each record, upsert
      it on its natural key and count it, printing a progress line every 1000 records. The
      progress lines are returned as the counts they report. */
  method Import(t: PasukTable, lines: seq<string>, parse: Parser)
    returns (outcome: Outcome, processed: nat, progress: seq<nat>)
    requires t.Valid()
    modifies t
    ensures t.Valid()
    ensures var s := ImportLoop(Table(old(t.rows), old(t.nextId)), ClassifyAll(lines, parse), 0, 0);
      Table(t.rows, t.nextId) == s.table && outcome == s.outcome && processed == s.processed
    ensures progress == Milestones(processed)
  {
    processed := 0;
    progress := [];
    ghost var kinds := ClassifyAll(lines, parse);
    ghost var t0 := Table(t.rows, t.nextId);
    var i := 0;
    while i < |lines|
      invariant i <= |lines| && t.Valid()
      invariant ImportLoop(t0, kinds, 0, 0) == ImportLoop(Table(t.rows, t.nextId), kinds, i, processed)
      invariant progress == Milestones(processed)
      decreases |lines| - i
    {
      var stop, o;
      stop, o, processed, progress := ImportLine(t, lines[i], parse, processed, progress, kinds, i);
      if stop {
        return o, processed, progress;
      }
      i := i + 1;
    }
    outcome := Imported;
  }
}
