/** The embedding backfill (scripts/embed_tanach.ts): a resumable cursor over the rows that have
    no embedding, fetched in batches, embedded in chunks of 20, written row by row. */
module Backfill {
  import opened Wrappers
  import Hebrew
  import opened Store

  /** The provider accepts at most this many inputs per call. */
  const ChunkSize: nat := 20

  /** The batch size and the start id when EMBED_BATCH_SIZE and START_AFTER_ID are unset. */
  const DefaultBatchSize: nat := 50
  const DefaultStartAfter: int := 0

  /** `EMBED_BATCH_SIZE ?? 50`, the variable taken as an already-parsed number. */
  function BatchSize(setting: Option<nat>): (n: nat)
    ensures setting.None? ==> n == DefaultBatchSize
    ensures setting.Some? ==> n == setting.value
  {
    setting.GetOr(DefaultBatchSize)
  }

  /** `START_AFTER_ID ?? 0`, the variable taken as an already-parsed number. */
  function StartAfter(setting: Option<int>): (n: int)
    ensures setting.None? ==> n == DefaultStartAfter
    ensures setting.Some? ==> n == setting.value
  {
    setting.GetOr(DefaultStartAfter)
  }

  /** The embedding provider: one call takes the chunk's texts and answers one slot per input,
      `None` where its answer has no embedding. A call that throws changes the table exactly as
      an empty answer does, so it is covered by the empty answer. */
  type Provider = seq<string> -> seq<Option<Vector>>

  /** How a run ends: normally when a fetch comes back empty, or at the first row whose
      embedding is missing or has the wrong length. */
  datatype Outcome =
    | Completed
    | MissingEmbedding(id: int)
    | LengthMismatch(id: int, expected: nat, got: nat)

  // ---------------------------------------------------------------------------
  // Chunking
  // ---------------------------------------------------------------------------

  /** `slice(i, i + n)` for i = 0, n, 2n, ... while i < |s|. */
  function Chunks<T>(s: seq<T>, n: nat): seq<seq<T>>
    requires n > 0
    decreases |s|
  {
    if s == [] then []
    else if |s| <= n then [s]
    else [s[..n]] + Chunks(s[n..], n)
  }

  function Concat<T>(ss: seq<seq<T>>): seq<T> {
    if ss == [] then [] else ss[0] + Concat(ss[1..])
  }

  /** The chunks cover the sequence exactly once and in order; each holds 1 to n elements,
      and all but the last exactly n. */
  lemma {:induction false} ChunksPartition<T>(s: seq<T>, n: nat)
    requires n > 0
    ensures Concat(Chunks(s, n)) == s
    ensures forall c :: 0 <= c < |Chunks(s, n)| ==> 0 < |Chunks(s, n)[c]| <= n
    ensures forall c :: 0 <= c < |Chunks(s, n)| - 1 ==> |Chunks(s, n)[c]| == n
    decreases |s|
  {
    if s == [] {
    } else if |s| <= n {
      assert Concat([s]) == s + Concat([]);
    } else {
      var rest := Chunks(s[n..], n);
      ChunksPartition(s[n..], n);
      assert Chunks(s, n) == [s[..n]] + rest;
      assert ([s[..n]] + rest)[1..] == rest;
      assert s[..n] + s[n..] == s;
    }
  }

  /** The end of the chunk that starts at i: `slice(i, i + 20)` of n items. */
  function ChunkEnd(i: nat, n: nat): (end: nat)
    ensures i < n ==> i < end <= n && end - i <= ChunkSize && (end < n ==> end == i + ChunkSize)
    ensures n <= i ==> end == n
  {
    if i + ChunkSize < n then i + ChunkSize else n
  }

  /** `embeddingResponse.data[j]?.embedding`. */
  function ResponseAt(response: seq<Option<Vector>>, j: nat): (e: Option<Vector>)
    ensures j < |response| ==> e == response[j]
    ensures |response| <= j ==> e.None?
  {
    if j < |response| then response[j] else None
  }

  /** An answer slot the inner loop accepts: present, and of the configured length. */
  predicate Good(e: Option<Vector>, dims: nat) {
    e.Some? && |e.value| == dims
  }

  /** The error the inner loop throws for an answer slot it does not accept. */
  function Verdict(id: int, e: Option<Vector>, dims: nat): (r: Outcome)
    ensures !r.Completed? && r.id == id
    ensures e.None? ==> r == MissingEmbedding(id)
    ensures e.Some? ==> r == LengthMismatch(id, dims, |e.value|)
    ensures !Good(e, dims) && r.LengthMismatch? ==> r.expected == dims && r.got != dims
  {
    if e.None? then MissingEmbedding(id) else LengthMismatch(id, dims, |e.value|)
  }

  /** The fetch returns rows by ascending id: `Ascending(Ids(s))` stated on the rows themselves,
      which is the form the chunk loop's lemmas reason with. */
  ghost predicate IncreasingIds(s: seq<Selected>) {
    forall k, l :: 0 <= k < l < |s| ==> s[k].id < s[l].id
  }

  lemma AscendingIncreasing(batch: seq<Selected>)
    requires Ascending(Ids(batch))
    ensures IncreasingIds(batch)
  {
    forall k, l | 0 <= k < l < |batch|
      ensures batch[k].id < batch[l].id
    {
      assert Ids(batch)[k] < Ids(batch)[l];
    }
  }

  /** A row the UPDATE wrote: its plain text is `plain`, its embedding has the configured length,
      and nothing else about it changed. */
  ghost predicate Written(before: Pasuk, after: Pasuk, plain: string, dims: nat) {
    Good(after.embedding, dims) &&
    after == before.(hebrewTextPlain := Some(plain), embedding := after.embedding)
  }

  // ---------------------------------------------------------------------------
  // The inner loop: one chunk
  // ---------------------------------------------------------------------------

  /** Where a loop stopped: the table it leaves, how it ended, and how many rows it wrote. */
  datatype Stop = Stop(rows: map<int, Pasuk>, outcome: Outcome, written: nat)

  /** The inner loop from slot j of a chunk on, as a function of the table: each accepted slot
      writes its row and moves on; the first slot not accepted ends it with that slot's error. */
  ghost function ChunkLoop(rows: map<int, Pasuk>, chunk: seq<Selected>, texts: seq<string>,
                           response: seq<Option<Vector>>, dims: nat, j: nat): (s: Stop)
    requires |texts| == |chunk| && j <= |chunk|
    ensures j <= s.written <= |chunk| && s.rows.Keys == rows.Keys
    decreases |chunk| - j
  {
    if j == |chunk| then Stop(rows, Completed, j)
    else
      var e := ResponseAt(response, j);
      if !Good(e, dims) then Stop(rows, Verdict(chunk[j].id, e, dims), j)
      else ChunkLoop(SetRow(rows, chunk[j].id, texts[j], e.value), chunk, texts, response, dims, j + 1)
  }

  /** The inner loop over one chunk: check each returned embedding, write the row, advance the
      cursor; throw at the first embedding that is missing or of the wrong length. */
  method EmbedChunk(t: PasukTable, chunk: seq<Selected>, texts: seq<string>,
                    response: seq<Option<Vector>>, dims: nat, lastId0: int, total0: nat)
    returns (outcome: Outcome, written: nat, lastId: int, totalEmbedded: nat)
    requires |texts| == |chunk|
    modifies t
    ensures t.nextId == old(t.nextId)
    ensures Stop(t.rows, outcome, written) == ChunkLoop(old(t.rows), chunk, texts, response, dims, 0)
    ensures written <= |chunk| && (outcome.Completed? <==> written == |chunk|)
    ensures lastId == if written == 0 then lastId0 else chunk[written - 1].id
    ensures totalEmbedded == total0 + written
  {
    lastId, totalEmbedded := lastId0, total0;
    written := 0;
    for j := 0 to |chunk|
      invariant t.nextId == old(t.nextId) && written == j
      invariant ChunkLoop(old(t.rows), chunk, texts, response, dims, 0) ==
                ChunkLoop(t.rows, chunk, texts, response, dims, j)
      invariant lastId == if j == 0 then lastId0 else chunk[j - 1].id
      invariant totalEmbedded == total0 + j
    {
      var row := chunk[j];
      var plain := texts[j];
      var embedding := ResponseAt(response, j);
      if embedding.None? {
        outcome := MissingEmbedding(row.id);
        return;
      }
      if |embedding.value| != dims {
        outcome := LengthMismatch(row.id, dims, |embedding.value|);
        return;
      }
      t.SetEmbedding(row.id, plain, embedding.value);
      totalEmbedded := totalEmbedded + 1;
      lastId := row.id;
      written := written + 1;
    }
    outcome := Completed;
  }

  lemma SliceSlice<T>(s: seq<T>, i: nat, j: nat, a: nat, b: nat)
    requires i <= j <= |s| && a <= b <= j - i
    ensures s[i..j][a..b] == s[i + a..i + b]
  {
    var l, r := s[i..j][a..b], s[i + a..i + b];
    forall x | 0 <= x < |l|
      ensures l[x] == r[x]
    {
      assert l[x] == s[i..j][a + x] == s[i + a + x];
    }
  }

  lemma SlicesJoin<T>(s: seq<T>, i: nat, j: nat, k: nat)
    requires i <= j <= k <= |s|
    ensures s[i..k] == s[i..j] + s[j..k]
  {
  }

  /** A strictly increasing run of ids does not contain the id of a row outside it. */
  lemma IncreasingNotIn(s: seq<Selected>, k: nat, a: nat, b: nat)
    requires IncreasingIds(s) && k < |s| && a <= b <= |s| && (k < a || b <= k)
    ensures s[k].id !in Ids(s)[a..b]
  {
    forall m | a <= m < b
      ensures s[m].id != s[k].id
    {
      if k < a { assert s[k].id < s[m].id; } else { assert s[m].id < s[k].id; }
    }
  }

  /** The inner loop goes from slot j up to the first slot it does not accept, every slot before
      that one accepted; it completes exactly when it reaches the end of the chunk, and otherwise
      stops with the error for that slot. */
  lemma {:induction false} ChunkLoopShape(rows: map<int, Pasuk>, chunk: seq<Selected>, texts: seq<string>,
                                          response: seq<Option<Vector>>, dims: nat, j: nat)
    requires |texts| == |chunk| && j <= |chunk|
    ensures var s := ChunkLoop(rows, chunk, texts, response, dims, j);
      (s.outcome.Completed? <==> s.written == |chunk|) &&
      (forall k :: j <= k < s.written ==> Good(ResponseAt(response, k), dims)) &&
      (!s.outcome.Completed? ==>
        !Good(ResponseAt(response, s.written), dims) &&
        s.outcome == Verdict(chunk[s.written].id, ResponseAt(response, s.written), dims))
    decreases |chunk| - j
  {
    if j < |chunk| && Good(ResponseAt(response, j), dims) {
      ChunkLoopShape(SetRow(rows, chunk[j].id, texts[j], ResponseAt(response, j).value),
                     chunk, texts, response, dims, j + 1);
    }
  }

  /** The inner loop leaves alone every row whose id it did not get to. */
  lemma {:induction false} ChunkLoopKeeps(rows: map<int, Pasuk>, chunk: seq<Selected>, texts: seq<string>,
                                          response: seq<Option<Vector>>, dims: nat, j: nat, id: int)
    requires |texts| == |chunk| && j <= |chunk|
    requires id in rows && id !in Ids(chunk)[j..ChunkLoop(rows, chunk, texts, response, dims, j).written]
    ensures ChunkLoop(rows, chunk, texts, response, dims, j).rows[id] == rows[id]
    decreases |chunk| - j
  {
    var s := ChunkLoop(rows, chunk, texts, response, dims, j);
    if j < |chunk| && Good(ResponseAt(response, j), dims) {
      var next := SetRow(rows, chunk[j].id, texts[j], ResponseAt(response, j).value);
      ChunkLoopShape(next, chunk, texts, response, dims, j + 1);
      assert Ids(chunk)[j..s.written][0] == chunk[j].id;
      assert Ids(chunk)[j..s.written] == [chunk[j].id] + Ids(chunk)[j + 1..s.written];
      ChunkLoopKeeps(next, chunk, texts, response, dims, j + 1, id);
    }
  }

  /** The inner loop writes row k of the chunk, when it gets past it, with its own text and its
      own answer slot. */
  lemma {:induction false} ChunkLoopWrites(rows: map<int, Pasuk>, chunk: seq<Selected>, texts: seq<string>,
                                           response: seq<Option<Vector>>, dims: nat, j: nat, k: nat)
    requires |texts| == |chunk| && j <= |chunk| && IncreasingIds(chunk)
    requires j <= k < ChunkLoop(rows, chunk, texts, response, dims, j).written && chunk[k].id in rows
    ensures ChunkLoop(rows, chunk, texts, response, dims, j).rows[chunk[k].id] ==
      rows[chunk[k].id].(hebrewTextPlain := Some(texts[k]), embedding := ResponseAt(response, k))
    decreases |chunk| - j
  {
    ChunkLoopShape(rows, chunk, texts, response, dims, j);
    var e := ResponseAt(response, j);
    var next := SetRow(rows, chunk[j].id, texts[j], e.value);
    ChunkLoopShape(next, chunk, texts, response, dims, j + 1);
    if k == j {
      IncreasingNotIn(chunk, k, j + 1, ChunkLoop(next, chunk, texts, response, dims, j + 1).written);
      ChunkLoopKeeps(next, chunk, texts, response, dims, j + 1, chunk[k].id);
    } else {
      assert chunk[j].id < chunk[k].id;
      ChunkLoopWrites(next, chunk, texts, response, dims, j + 1, k);
    }
  }

  // ---------------------------------------------------------------------------
  // The chunk loop: one batch
  // ---------------------------------------------------------------------------

  /** `rows.map((row) => normalizeHebrewText(row.hebrew_text))`. */
  function Normalized(batch: seq<Selected>): (r: seq<string>)
    ensures |r| == |batch|
  {
    if batch == [] then [] else [Hebrew.Normalize(batch[0].hebrewText)] + Normalized(batch[1..])
  }

  /** Text k of the batch is the normalised Hebrew text of row k. */
  lemma {:induction false} NormalizedAt(batch: seq<Selected>, k: nat)
    requires k < |batch|
    ensures Normalized(batch)[k] == Hebrew.Normalize(batch[k].hebrewText)
  {
    var r := Normalized(batch);
    assert r == [Hebrew.Normalize(batch[0].hebrewText)] + Normalized(batch[1..]);
    if k > 0 {
      NormalizedAt(batch[1..], k - 1);
      assert batch[1..][k - 1] == batch[k];
    }
  }

  /** Where the chunk loop stopped, and the provider calls it made. */
  datatype BatchStop = BatchStop(rows: map<int, Pasuk>, outcome: Outcome, written: nat, calls: seq<seq<string>>)

  /** The chunk loop from row i of the batch on, as a function of the table: the chunk of up to
      20 rows from i goes to the provider in one call and through the inner loop; if that
      completes, the loop goes on from the end of the chunk. */
  ghost function BatchLoop(rows: map<int, Pasuk>, batch: seq<Selected>, texts: seq<string>,
                           embed: Provider, dims: nat, i: nat): (r: BatchStop)
    requires |texts| == |batch| && i <= |batch|
    ensures i <= r.written <= |batch| && r.rows.Keys == rows.Keys
    decreases |batch| - i
  {
    if i == |batch| then BatchStop(rows, Completed, i, [])
    else
      var end := ChunkEnd(i, |batch|);
      var s := ChunkLoop(rows, batch[i..end], texts[i..end], embed(texts[i..end]), dims, 0);
      if s.outcome.Completed? then
        var rest := BatchLoop(s.rows, batch, texts, embed, dims, end);
        rest.(calls := [texts[i..end]] + rest.calls)
      else BatchStop(s.rows, s.outcome, i + s.written, [texts[i..end]])
  }

  /** The chunk loop's result once the provider `calls` have already been made. */
  ghost function Resumed(calls: seq<seq<string>>, r: BatchStop): BatchStop {
    r.(calls := calls + r.calls)
  }

  /** One step of the chunk loop, given where the inner loop over the chunk from i stopped. */
  lemma BatchLoopStep(rows: map<int, Pasuk>, batch: seq<Selected>, texts: seq<string>,
                      embed: Provider, dims: nat, i: nat, s: Stop, calls: seq<seq<string>>)
    requires |texts| == |batch| && i < |batch|
    requires s == ChunkLoop(rows, batch[i..ChunkEnd(i, |batch|)], texts[i..ChunkEnd(i, |batch|)],
                            embed(texts[i..ChunkEnd(i, |batch|)]), dims, 0)
    ensures s.outcome.Completed? ==>
      Resumed(calls, BatchLoop(rows, batch, texts, embed, dims, i)) ==
      Resumed(calls + [texts[i..ChunkEnd(i, |batch|)]], BatchLoop(s.rows, batch, texts, embed, dims, ChunkEnd(i, |batch|)))
    ensures !s.outcome.Completed? ==>
      Resumed(calls, BatchLoop(rows, batch, texts, embed, dims, i)) ==
      BatchStop(s.rows, s.outcome, i + s.written, calls + [texts[i..ChunkEnd(i, |batch|)]])
  {
    var end := ChunkEnd(i, |batch|);
    var r := BatchLoop(rows, batch, texts, embed, dims, i);
    if s.outcome.Completed? {
      var rest := BatchLoop(s.rows, batch, texts, embed, dims, end);
      assert r == rest.(calls := [texts[i..end]] + rest.calls);
      assert calls + r.calls == (calls + [texts[i..end]]) + rest.calls;
    } else {
      assert r == BatchStop(s.rows, s.outcome, i + s.written, [texts[i..end]]);
    }
  }

  /** One fetched batch, its texts already normalised: one provider call per chunk of 20, each
      followed by the inner loop over the chunk. The cursor `written` plays the source's `i`: it
      steps to the end of the chunk, which is `i + 20` for every chunk but the last, after which
      the loop ends either way. */
  method EmbedBatch(t: PasukTable, batch: seq<Selected>, normalizedTexts: seq<string>, dims: nat,
                    embed: Provider, lastId0: int, total0: nat)
    returns (outcome: Outcome, written: nat, lastId: int, totalEmbedded: nat, ghost calls: seq<seq<string>>)
    requires |normalizedTexts| == |batch|
    modifies t
    ensures t.nextId == old(t.nextId)
    ensures BatchLoop(old(t.rows), batch, normalizedTexts, embed, dims, 0) == BatchStop(t.rows, outcome, written, calls)
    ensures written <= |batch| && lastId == if written == 0 then lastId0 else batch[written - 1].id
    ensures totalEmbedded == total0 + written
  {
    lastId, totalEmbedded := lastId0, total0;
    written := 0;
    calls := [];
    assert [] + BatchLoop(t.rows, batch, normalizedTexts, embed, dims, 0).calls ==
      BatchLoop(t.rows, batch, normalizedTexts, embed, dims, 0).calls;
    while written < |batch|
      invariant written <= |batch| && t.nextId == old(t.nextId)
      invariant BatchLoop(old(t.rows), batch, normalizedTexts, embed, dims, 0) ==
                Resumed(calls, BatchLoop(t.rows, batch, normalizedTexts, embed, dims, written))
      invariant lastId == if written == 0 then lastId0 else batch[written - 1].id
      invariant totalEmbedded == total0 + written
      decreases |batch| - written
    {
      var i := written;
      var end := ChunkEnd(i, |batch|);
      var chunkRows := batch[i..end];
      var chunkTexts := normalizedTexts[i..end];
      var response := embed(chunkTexts);
      ghost var before := t.rows;
      var o, n;
      o, n, lastId, totalEmbedded := EmbedChunk(t, chunkRows, chunkTexts, response, dims, lastId, totalEmbedded);
      BatchLoopStep(before, batch, normalizedTexts, embed, dims, i, Stop(t.rows, o, n), calls);
      if n > 0 {
        assert chunkRows[n - 1] == batch[i + n - 1];
      }
      written := i + n;
      calls := calls + [chunkTexts];
      if !o.Completed? {
        outcome := o;
        return;
      }
    }
    outcome := Completed;
    assert calls + [] == calls;
  }

  /** The chunk loop makes one provider call per chunk of 20 texts, in order: all of them when it
      completes, otherwise those up to and including the chunk it stopped in. */
  lemma {:induction false} BatchLoopCalls(rows: map<int, Pasuk>, batch: seq<Selected>, texts: seq<string>,
                                          embed: Provider, dims: nat, i: nat)
    requires |texts| == |batch| && i <= |batch|
    ensures var r := BatchLoop(rows, batch, texts, embed, dims, i);
      (r.outcome.Completed? ==> r.calls == Chunks(texts[i..], ChunkSize)) &&
      (!r.outcome.Completed? ==>
        0 < |r.calls| <= |Chunks(texts[i..], ChunkSize)| && r.calls == Chunks(texts[i..], ChunkSize)[..|r.calls|])
    decreases |batch| - i
  {
    if i < |batch| {
      var end := ChunkEnd(i, |batch|);
      var s := ChunkLoop(rows, batch[i..end], texts[i..end], embed(texts[i..end]), dims, 0);
      var cs := Chunks(texts[i..], ChunkSize);
      if end == |batch| {
        assert texts[i..end] == texts[i..];
        assert cs == [texts[i..]];
        if s.outcome.Completed? {
          assert BatchLoop(s.rows, batch, texts, embed, dims, end).calls == [];
        }
      } else {
        assert texts[i..][..ChunkSize] == texts[i..end] && texts[i..][ChunkSize..] == texts[end..];
        assert cs == [texts[i..end]] + Chunks(texts[end..], ChunkSize);
        BatchLoopCalls(s.rows, batch, texts, embed, dims, end);
        if s.outcome.Completed? {
          var rest := BatchLoop(s.rows, batch, texts, embed, dims, end);
          if !rest.outcome.Completed? {
            assert cs[..|rest.calls| + 1] == [texts[i..end]] + Chunks(texts[end..], ChunkSize)[..|rest.calls|];
          }
        }
      }
    }
  }


  /** Every provider call takes from 1 to 20 texts. */
  ghost predicate ChunkSized(calls: seq<seq<string>>) {
    forall c :: 0 <= c < |calls| ==> 0 < |calls[c]| <= ChunkSize
  }

  /** A stop on an error at slot j of the call that sent x: the provider's answer for that slot
      is missing or has the wrong length, and the error is that slot's verdict. */
  ghost predicate BadSlot(embed: Provider, dims: nat, x: seq<string>, j: int, outcome: Outcome) {
    0 <= j < |x| && !Good(ResponseAt(embed(x), j), dims) &&
    !outcome.Completed? && outcome == Verdict(outcome.id, ResponseAt(embed(x), j), dims)
  }

  /** A stop on an error at text k of the texts the calls sent, counted over all of them: that
      text went out in the last call, and the stop is on its bad answer slot. */
  ghost predicate StoppedOn(embed: Provider, dims: nat, calls: seq<seq<string>>, k: int, outcome: Outcome)
    decreases |calls|
  {
    if |calls| <= 1 then calls != [] && BadSlot(embed, dims, calls[0], k, outcome)
    else StoppedOn(embed, dims, calls[1..], k - |calls[0]|, outcome)
  }

  /** A chunk loop that stops on an error stops on a bad answer slot of its last call: the slot of
      the row it reached. */
  lemma {:induction false} BatchLoopStop(rows: map<int, Pasuk>, batch: seq<Selected>, texts: seq<string>,
                                         embed: Provider, dims: nat, i: nat)
    requires |texts| == |batch| && i <= |batch|
    ensures var r := BatchLoop(rows, batch, texts, embed, dims, i);
      !r.outcome.Completed? ==> StoppedOn(embed, dims, r.calls, r.written - i, r.outcome)
    decreases |batch| - i
  {
    if i < |batch| {
      var end := ChunkEnd(i, |batch|);
      var chunk := texts[i..end];
      var s := ChunkLoop(rows, batch[i..end], chunk, embed(chunk), dims, 0);
      var r := BatchLoop(rows, batch, texts, embed, dims, i);
      if s.outcome.Completed? {
        var rest := BatchLoop(s.rows, batch, texts, embed, dims, end);
        assert r == rest.(calls := [chunk] + rest.calls);
        BatchLoopStop(s.rows, batch, texts, embed, dims, end);
        StoppedAfterChunk(embed, dims, chunk, rest, r, i, end);
      } else {
        assert r == BatchStop(s.rows, s.outcome, i + s.written, [chunk]);
        StoppedInChunk(rows, batch[i..end], chunk, embed, dims, s, r, i);
      }
    } else {
      assert BatchLoop(rows, batch, texts, embed, dims, i).outcome.Completed?;
    }
  }

  /** The chunk loop's stop inside the chunk it is working on. */
  lemma StoppedInChunk(rows: map<int, Pasuk>, chunkRows: seq<Selected>, chunk: seq<string>, embed: Provider,
                       dims: nat, s: Stop, r: BatchStop, i: nat)
    requires |chunk| == |chunkRows| && s == ChunkLoop(rows, chunkRows, chunk, embed(chunk), dims, 0)
    requires !s.outcome.Completed? && r == BatchStop(s.rows, s.outcome, i + s.written, [chunk])
    ensures StoppedOn(embed, dims, r.calls, r.written - i, r.outcome)
  {
    ChunkLoopShape(rows, chunkRows, chunk, embed(chunk), dims, 0);
    StoppedOnOne(embed, dims, chunk, s.written, s.outcome);
  }

  /** The chunk loop's stop, seen from the chunk before it. */
  lemma StoppedAfterChunk(embed: Provider, dims: nat, chunk: seq<string>, rest: BatchStop, r: BatchStop,
                          i: nat, end: nat)
    requires |chunk| == end - i && end <= rest.written
    requires !rest.outcome.Completed? ==> StoppedOn(embed, dims, rest.calls, rest.written - end, rest.outcome)
    requires r == rest.(calls := [chunk] + rest.calls)
    ensures !r.outcome.Completed? ==> StoppedOn(embed, dims, r.calls, r.written - i, r.outcome)
  {
    if !rest.outcome.Completed? {
      StoppedOnCons(embed, dims, chunk, rest.calls, rest.written - end, rest.outcome);
    }
  }

  /** A stop in the last call stays a stop when a call goes before it. */
  lemma StoppedOnCons(embed: Provider, dims: nat, x: seq<string>, calls: seq<seq<string>>, k: int, outcome: Outcome)
    requires StoppedOn(embed, dims, calls, k, outcome)
    ensures StoppedOn(embed, dims, [x] + calls, k + |x|, outcome)
  {
    assert ([x] + calls)[1..] == calls;
  }

  /** A stop in a single call at a bad slot. */
  lemma StoppedOnOne(embed: Provider, dims: nat, x: seq<string>, j: nat, outcome: Outcome)
    requires j < |x| && !Good(ResponseAt(embed(x), j), dims)
    requires !outcome.Completed? && outcome == Verdict(outcome.id, ResponseAt(embed(x), j), dims)
    ensures StoppedOn(embed, dims, [x], j, outcome)
  {
  }

  /** A stop lies within the texts sent. */
  lemma {:induction false} StoppedOnBound(embed: Provider, dims: nat, calls: seq<seq<string>>, k: int, outcome: Outcome)
    requires StoppedOn(embed, dims, calls, k, outcome)
    ensures 0 <= k < |Concat(calls)|
    decreases |calls|
  {
    ConcatCons(calls[0], calls[1..]);
    assert [calls[0]] + calls[1..] == calls;
    if |calls| > 1 {
      StoppedOnBound(embed, dims, calls[1..], k - |calls[0]|, outcome);
    }
  }

  /** A stop in the last call stays a stop when earlier calls go before it. */
  lemma {:induction false} StoppedOnAppend(embed: Provider, dims: nat, prev: seq<seq<string>>, calls: seq<seq<string>>,
                                           k: int, outcome: Outcome)
    requires StoppedOn(embed, dims, calls, k, outcome)
    ensures StoppedOn(embed, dims, prev + calls, |Concat(prev)| + k, outcome)
    decreases |prev|
  {
    if prev != [] {
      StoppedOnAppend(embed, dims, prev[1..], calls, k, outcome);
      ConcatCons(prev[0], prev[1..]);
      assert [prev[0]] + prev[1..] == prev;
      assert (prev + calls)[1..] == prev[1..] + calls;
      assert (prev + calls)[0] == prev[0];
      assert calls != [] by { assert StoppedOn(embed, dims, calls, k, outcome); }
    } else {
      assert prev + calls == calls;
    }
  }

  /** The answer slot of text k of the texts the calls sent, counted over all of them: slot k of
      the first call's answer, or the slot of a later call's answer after the texts before it;
      missing past the end. */
  ghost function SlotAt(embed: Provider, calls: seq<seq<string>>, k: int): Option<Vector>
    decreases |calls|
  {
    if calls == [] || k < 0 then None
    else if k < |calls[0]| then ResponseAt(embed(calls[0]), k)
    else SlotAt(embed, calls[1..], k - |calls[0]|)
  }

  lemma SlotAtCons(embed: Provider, x: seq<string>, calls: seq<seq<string>>, k: int)
    ensures 0 <= k < |x| ==> SlotAt(embed, [x] + calls, k) == ResponseAt(embed(x), k)
    ensures |x| <= k ==> SlotAt(embed, [x] + calls, k) == SlotAt(embed, calls, k - |x|)
  {
    assert ([x] + calls)[0] == x && ([x] + calls)[1..] == calls;
  }

  /** Later calls do not change the slots of the texts sent before them. */
  lemma {:induction false} SlotAtPrefix(embed: Provider, prev: seq<seq<string>>, calls: seq<seq<string>>, k: int)
    requires 0 <= k < |Concat(prev)|
    ensures SlotAt(embed, prev + calls, k) == SlotAt(embed, prev, k)
    decreases |prev|
  {
    ConcatCons(prev[0], prev[1..]);
    assert [prev[0]] + prev[1..] == prev;
    assert prev + calls == [prev[0]] + (prev[1..] + calls);
    SlotAtCons(embed, prev[0], prev[1..] + calls, k);
    SlotAtCons(embed, prev[0], prev[1..], k);
    if |prev[0]| <= k {
      SlotAtPrefix(embed, prev[1..], calls, k - |prev[0]|);
    }
  }

  /** Earlier calls shift the slots of the texts sent after them by the number of texts they sent. */
  lemma {:induction false} SlotAtShift(embed: Provider, prev: seq<seq<string>>, calls: seq<seq<string>>, k: int)
    requires 0 <= k
    ensures SlotAt(embed, prev + calls, |Concat(prev)| + k) == SlotAt(embed, calls, k)
    decreases |prev|
  {
    if prev == [] {
      assert prev + calls == calls;
    } else {
      ConcatCons(prev[0], prev[1..]);
      assert [prev[0]] + prev[1..] == prev;
      assert prev + calls == [prev[0]] + (prev[1..] + calls);
      SlotAtCons(embed, prev[0], prev[1..] + calls, |Concat(prev)| + k);
      SlotAtShift(embed, prev[1..], calls, k);
    }
  }

  /** A stop on text k is a stop on its slot: that slot is not accepted, and the error is its
      verdict. */
  lemma {:induction false} StoppedOnSlot(embed: Provider, dims: nat, calls: seq<seq<string>>, k: int, outcome: Outcome)
    requires StoppedOn(embed, dims, calls, k, outcome)
    ensures !Good(SlotAt(embed, calls, k), dims) && !outcome.Completed?
    ensures outcome == Verdict(outcome.id, SlotAt(embed, calls, k), dims)
    decreases |calls|
  {
    assert [calls[0]] + calls[1..] == calls;
    SlotAtCons(embed, calls[0], calls[1..], k);
    if |calls| > 1 {
      StoppedOnBound(embed, dims, calls[1..], k - |calls[0]|, outcome);
      StoppedOnSlot(embed, dims, calls[1..], k - |calls[0]|, outcome);
    }
  }

  /** The rows `ids` were written from the answers, in order: row ids[k] holds the answer slot of
      text k of the texts the calls sent, and that slot was accepted. */
  ghost predicate Answered(embed: Provider, dims: nat, rows: map<int, Pasuk>, calls: seq<seq<string>>, ids: seq<int>) {
    forall k :: 0 <= k < |ids| ==>
      ids[k] in rows && Good(SlotAt(embed, calls, k), dims) && rows[ids[k]].embedding == SlotAt(embed, calls, k)
  }

  /** The rows `ids` of `rows` are unchanged in `rows'`. */
  ghost predicate Kept(rows: map<int, Pasuk>, rows': map<int, Pasuk>, ids: seq<int>) {
    forall k :: 0 <= k < |ids| && ids[k] in rows ==> ids[k] in rows' && rows'[ids[k]] == rows[ids[k]]
  }

  /** The rows written so far keep their slots when a pass writes more rows from its own calls. */
  lemma AnsweredAppend(embed: Provider, dims: nat, rows: map<int, Pasuk>, rows': map<int, Pasuk>,
                       calls: seq<seq<string>>, done: seq<int>, calls': seq<seq<string>>, written: seq<int>)
    requires Answered(embed, dims, rows, calls, done) && |Concat(calls)| == |done| && Kept(rows, rows', done)
    requires Answered(embed, dims, rows', calls', written)
    ensures Answered(embed, dims, rows', calls + calls', done + written)
  {
    var ids := done + written;
    forall k | 0 <= k < |ids|
      ensures ids[k] in rows' && Good(SlotAt(embed, calls + calls', k), dims) &&
        rows'[ids[k]].embedding == SlotAt(embed, calls + calls', k)
    {
      if k < |done| {
        SlotAtPrefix(embed, calls, calls', k);
        assert ids[k] == done[k];
      } else {
        SlotAtShift(embed, calls, calls', k - |done|);
        assert ids[k] == written[k - |done|];
      }
    }
  }

  /** A run or a pass that stopped on an error, with the ids `sent` and the ids `done`: the row it
      stopped at is the first row sent but not done, and the stop is on that row's answer slot. */
  ghost predicate StoppedAt(embed: Provider, dims: nat, calls: seq<seq<string>>, sent: seq<int>, done: seq<int>,
                            outcome: Outcome) {
    !outcome.Completed? && |done| < |sent| && sent[|done|] == outcome.id &&
    StoppedOn(embed, dims, calls, |done|, outcome)
  }

  /** A pass's stop seen from the whole run. */
  lemma StoppedAtAppend(embed: Provider, dims: nat, calls: seq<seq<string>>, done: seq<int>,
                        calls': seq<seq<string>>, sent': seq<int>, written: seq<int>, outcome: Outcome)
    requires |Concat(calls)| == |done| && StoppedAt(embed, dims, calls', sent', written, outcome)
    ensures StoppedAt(embed, dims, calls + calls', done + sent', done + written, outcome)
  {
    StoppedOnAppend(embed, dims, calls, calls', |written|, outcome);
  }

  lemma ConcatCons<T>(x: seq<T>, ys: seq<seq<T>>)
    ensures Concat([x] + ys) == x + Concat(ys)
  {
    assert ([x] + ys)[1..] == ys;
  }

  lemma {:induction false} ConcatAppend<T>(a: seq<seq<T>>, b: seq<seq<T>>)
    ensures Concat(a + b) == Concat(a) + Concat(b)
  {
    if a == [] {
      assert a + b == b;
    } else {
      assert (a + b)[1..] == a[1..] + b;
      ConcatAppend(a[1..], b);
    }
  }

  /** The texts the chunk loop sends, call after call, are the texts from row i on, up to the end
      of the chunk it stopped in, and that covers every row it wrote; each call takes 1 to 20
      texts, and a loop that completes has sent every text. */
  lemma {:induction false} BatchLoopSent(rows: map<int, Pasuk>, batch: seq<Selected>, texts: seq<string>,
                                         embed: Provider, dims: nat, i: nat)
    requires |texts| == |batch| && i <= |batch|
    ensures var r := BatchLoop(rows, batch, texts, embed, dims, i); var m := |Concat(r.calls)|;
      i + m <= |batch| && Concat(r.calls) == texts[i..i + m] && r.written <= i + m &&
      (r.outcome.Completed? ==> i + m == |batch|)
    decreases |batch| - i
  {
    if i < |batch| {
      var end := ChunkEnd(i, |batch|);
      var s := ChunkLoop(rows, batch[i..end], texts[i..end], embed(texts[i..end]), dims, 0);
      var r := BatchLoop(rows, batch, texts, embed, dims, i);
      if s.outcome.Completed? {
        var rest := BatchLoop(s.rows, batch, texts, embed, dims, end);
        assert r.calls == [texts[i..end]] + rest.calls;
        BatchLoopSent(s.rows, batch, texts, embed, dims, end);
        var m' := |Concat(rest.calls)|;
        ConcatCons(texts[i..end], rest.calls);
        assert texts[i..end] + texts[end..end + m'] == texts[i..end + m'];
      } else {
        assert r.calls == [texts[i..end]] + [];
        ConcatCons(texts[i..end], []);
        assert Concat(r.calls) == texts[i..end] + [] == texts[i..end];
      }
    }
  }

  /** Every provider call of the chunk loop sends between one and twenty texts. */
  lemma {:induction false} BatchLoopChunkSized(rows: map<int, Pasuk>, batch: seq<Selected>, texts: seq<string>,
                                               embed: Provider, dims: nat, i: nat)
    requires |texts| == |batch| && i <= |batch|
    ensures ChunkSized(BatchLoop(rows, batch, texts, embed, dims, i).calls)
    decreases |batch| - i
  {
    if i < |batch| {
      var end := ChunkEnd(i, |batch|);
      var s := ChunkLoop(rows, batch[i..end], texts[i..end], embed(texts[i..end]), dims, 0);
      if s.outcome.Completed? {
        var rest := BatchLoop(s.rows, batch, texts, embed, dims, end);
        BatchLoopChunkSized(s.rows, batch, texts, embed, dims, end);
        var calls := [texts[i..end]] + rest.calls;
        assert forall c :: 0 < c < |calls| ==> calls[c] == rest.calls[c - 1];
      }
    }
  }

  /** The chunk loop goes from row i up to where it stops; it completes exactly when it reaches
      the end of the batch, and otherwise stops with the error for the row it stopped at. */
  lemma {:induction false} BatchLoopShape(rows: map<int, Pasuk>, batch: seq<Selected>, texts: seq<string>,
                                          embed: Provider, dims: nat, i: nat)
    requires |texts| == |batch| && i <= |batch|
    ensures var r := BatchLoop(rows, batch, texts, embed, dims, i);
      (r.outcome.Completed? <==> r.written == |batch|) &&
      (!r.outcome.Completed? ==>
        r.outcome.id == batch[r.written].id &&
        (r.outcome.LengthMismatch? ==> r.outcome.expected == dims && r.outcome.got != dims))
    decreases |batch| - i
  {
    if i < |batch| {
      var end := ChunkEnd(i, |batch|);
      var s := ChunkLoop(rows, batch[i..end], texts[i..end], embed(texts[i..end]), dims, 0);
      ChunkLoopShape(rows, batch[i..end], texts[i..end], embed(texts[i..end]), dims, 0);
      if s.outcome.Completed? {
        BatchLoopShape(s.rows, batch, texts, embed, dims, end);
      } else {
        assert batch[i..end][s.written] == batch[i + s.written];
      }
    }
  }

  /** The chunk loop leaves alone every row whose id it did not get to. */
  lemma {:induction false} BatchLoopKeeps(rows: map<int, Pasuk>, batch: seq<Selected>, texts: seq<string>,
                                          embed: Provider, dims: nat, i: nat, id: int)
    requires |texts| == |batch| && i <= |batch|
    requires id in rows && id !in Ids(batch)[i..BatchLoop(rows, batch, texts, embed, dims, i).written]
    ensures BatchLoop(rows, batch, texts, embed, dims, i).rows[id] == rows[id]
    decreases |batch| - i
  {
    if i < |batch| {
      var w := BatchLoop(rows, batch, texts, embed, dims, i).written;
      var end := ChunkEnd(i, |batch|);
      var chunk := batch[i..end];
      var s := ChunkLoop(rows, chunk, texts[i..end], embed(texts[i..end]), dims, 0);
      ChunkLoopShape(rows, chunk, texts[i..end], embed(texts[i..end]), dims, 0);
      IdsSlice(batch, i, end);
      if s.outcome.Completed? {
        BatchLoopShape(s.rows, batch, texts, embed, dims, end);
        SliceSlice(Ids(batch), i, end, 0, end - i);
        SlicesJoin(Ids(batch), i, end, w);
        ChunkLoopKeeps(rows, chunk, texts[i..end], embed(texts[i..end]), dims, 0, id);
        BatchLoopKeeps(s.rows, batch, texts, embed, dims, end, id);
      } else {
        assert w == i + s.written;
        SliceSlice(Ids(batch), i, end, 0, s.written);
        ChunkLoopKeeps(rows, chunk, texts[i..end], embed(texts[i..end]), dims, 0, id);
      }
    }
  }

  /** Row k of the batch, in the chunk from i and reached by the inner loop over it, is written
      with its own text and an accepted embedding. */
  lemma ChunkWritesRow(rows: map<int, Pasuk>, batch: seq<Selected>, texts: seq<string>,
                       embed: Provider, dims: nat, i: nat, k: nat)
    requires |texts| == |batch| && i < |batch| && IncreasingIds(batch)
    requires var end := ChunkEnd(i, |batch|);
      i <= k < i + ChunkLoop(rows, batch[i..end], texts[i..end], embed(texts[i..end]), dims, 0).written &&
      batch[k].id in rows
    ensures var end := ChunkEnd(i, |batch|);
      Written(rows[batch[k].id],
              ChunkLoop(rows, batch[i..end], texts[i..end], embed(texts[i..end]), dims, 0).rows[batch[k].id],
              texts[k], dims)
  {
    var end := ChunkEnd(i, |batch|);
    var chunk, chunkTexts := batch[i..end], texts[i..end];
    ChunkLoopShape(rows, chunk, chunkTexts, embed(chunkTexts), dims, 0);
    assert chunk[k - i] == batch[k] && chunkTexts[k - i] == texts[k];
    ChunkLoopWrites(rows, chunk, chunkTexts, embed(chunkTexts), dims, 0, k - i);
  }

  /** The inner loop over the chunk from i leaves alone the rows of later chunks. */
  lemma ChunkKeepsLater(rows: map<int, Pasuk>, batch: seq<Selected>, texts: seq<string>,
                        embed: Provider, dims: nat, i: nat, k: nat)
    requires |texts| == |batch| && i < |batch| && IncreasingIds(batch)
    requires ChunkEnd(i, |batch|) <= k < |batch| && batch[k].id in rows
    ensures var end := ChunkEnd(i, |batch|);
      ChunkLoop(rows, batch[i..end], texts[i..end], embed(texts[i..end]), dims, 0).rows[batch[k].id] ==
      rows[batch[k].id]
  {
    var end := ChunkEnd(i, |batch|);
    var chunk, chunkTexts := batch[i..end], texts[i..end];
    var w := ChunkLoop(rows, chunk, chunkTexts, embed(chunkTexts), dims, 0).written;
    IncreasingNotIn(batch, k, i, i + w);
    IdsSlice(batch, i, end);
    SliceSlice(Ids(batch), i, end, 0, w);
    ChunkLoopKeeps(rows, chunk, chunkTexts, embed(chunkTexts), dims, 0, batch[k].id);
  }

  /** The chunk loop writes row k of the batch, when it gets past it, with its own text and an
      accepted embedding, and changes nothing else about it. */
  lemma {:induction false} BatchLoopWrites(rows: map<int, Pasuk>, batch: seq<Selected>, texts: seq<string>,
                                           embed: Provider, dims: nat, i: nat, k: nat)
    requires |texts| == |batch| && i <= |batch| && IncreasingIds(batch)
    requires i <= k < BatchLoop(rows, batch, texts, embed, dims, i).written && batch[k].id in rows
    ensures Written(rows[batch[k].id], BatchLoop(rows, batch, texts, embed, dims, i).rows[batch[k].id], texts[k], dims)
    decreases |batch| - i
  {
    var r := BatchLoop(rows, batch, texts, embed, dims, i);
    var end := ChunkEnd(i, |batch|);
    var s := ChunkLoop(rows, batch[i..end], texts[i..end], embed(texts[i..end]), dims, 0);
    if !s.outcome.Completed? {
      ChunkWritesRow(rows, batch, texts, embed, dims, i, k);
    } else if k < end {
      ChunkLoopShape(rows, batch[i..end], texts[i..end], embed(texts[i..end]), dims, 0);
      ChunkWritesRow(rows, batch, texts, embed, dims, i, k);
      IncreasingNotIn(batch, k, end, r.written);
      BatchLoopKeeps(s.rows, batch, texts, embed, dims, end, batch[k].id);
    } else {
      ChunkKeepsLater(rows, batch, texts, embed, dims, i, k);
      BatchLoopWrites(s.rows, batch, texts, embed, dims, end, k);
    }
  }

  /** The chunk loop writes row k of the batch, when it gets past it, with the answer slot of its
      own text among the texts the loop sent, and that slot was accepted. */
  lemma {:induction false} BatchLoopSlot(rows: map<int, Pasuk>, batch: seq<Selected>, texts: seq<string>,
                                         embed: Provider, dims: nat, i: nat, k: nat)
    requires |texts| == |batch| && i <= |batch| && IncreasingIds(batch)
    requires i <= k < BatchLoop(rows, batch, texts, embed, dims, i).written && batch[k].id in rows
    ensures var r := BatchLoop(rows, batch, texts, embed, dims, i);
      Good(SlotAt(embed, r.calls, k - i), dims) && r.rows[batch[k].id].embedding == SlotAt(embed, r.calls, k - i)
    decreases |batch| - i
  {
    var r := BatchLoop(rows, batch, texts, embed, dims, i);
    var end := ChunkEnd(i, |batch|);
    var chunk := texts[i..end];
    var s := ChunkLoop(rows, batch[i..end], chunk, embed(chunk), dims, 0);
    if !s.outcome.Completed? {
      assert r == BatchStop(s.rows, s.outcome, i + s.written, [chunk]);
      SlotInChunk(rows, batch, texts, embed, dims, i, end, s, [], k);
    } else {
      var rest := BatchLoop(s.rows, batch, texts, embed, dims, end);
      assert r == rest.(calls := [chunk] + rest.calls);
      if k < end {
        SlotInChunk(rows, batch, texts, embed, dims, i, end, s, rest.calls, k);
        IncreasingNotIn(batch, k, end, rest.written);
        BatchLoopKeeps(s.rows, batch, texts, embed, dims, end, batch[k].id);
      } else {
        BatchLoopSlot(s.rows, batch, texts, embed, dims, end, k);
        SlotAtCons(embed, chunk, rest.calls, k - i);
      }
    }
  }

  /** The inner loop over the chunk from i writes row k of the batch, when it gets past it, with the
      slot of its text in the answer to the chunk, the first of the calls from i on. */
  lemma SlotInChunk(rows: map<int, Pasuk>, batch: seq<Selected>, texts: seq<string>, embed: Provider,
                    dims: nat, i: nat, end: nat, s: Stop, calls: seq<seq<string>>, k: nat)
    requires |texts| == |batch| && i < end <= |batch| && IncreasingIds(batch)
    requires s == ChunkLoop(rows, batch[i..end], texts[i..end], embed(texts[i..end]), dims, 0)
    requires i <= k < end && (s.outcome.Completed? || k < i + s.written) && batch[k].id in rows
    ensures Good(SlotAt(embed, [texts[i..end]] + calls, k - i), dims)
    ensures s.rows[batch[k].id].embedding == SlotAt(embed, [texts[i..end]] + calls, k - i)
  {
    var chunkRows, chunk := batch[i..end], texts[i..end];
    assert chunkRows[k - i] == batch[k];
    ChunkLoopShape(rows, chunkRows, chunk, embed(chunk), dims, 0);
    ChunkLoopWrites(rows, chunkRows, chunk, embed(chunk), dims, 0, k - i);
    SlotAtCons(embed, chunk, calls, k - i);
  }

  /** What one batch does to the table, as the outer loop needs it: the rows reached are written
      with their own text and an accepted embedding, every other row is left alone, and the loop
      completes exactly when it reaches the end of the batch, otherwise it stops at the error for
      the row it reached. */
  ghost predicate BatchEffect(rows: map<int, Pasuk>, batch: seq<Selected>, texts: seq<string>, dims: nat,
                              r: BatchStop)
    requires |texts| == |batch|
  {
    r.rows.Keys == rows.Keys && r.written <= |batch| &&
    (r.outcome.Completed? <==> r.written == |batch|) &&
    (!r.outcome.Completed? ==>
      r.outcome.id == batch[r.written].id &&
      (r.outcome.LengthMismatch? ==> r.outcome.expected == dims && r.outcome.got != dims)) &&
    (forall k :: 0 <= k < r.written && batch[k].id in rows ==>
      Written(rows[batch[k].id], r.rows[batch[k].id], texts[k], dims)) &&
    (forall id {:trigger r.rows[id]} :: id in rows && id !in Ids(batch)[..r.written] ==> r.rows[id] == rows[id])
  }

  /** The chunk loop over a batch fetched in id order has that effect. */
  lemma BatchLoopEffect(rows: map<int, Pasuk>, batch: seq<Selected>, texts: seq<string>,
                        embed: Provider, dims: nat)
    requires |texts| == |batch| && IncreasingIds(batch)
    ensures BatchEffect(rows, batch, texts, dims, BatchLoop(rows, batch, texts, embed, dims, 0))
  {
    var r := BatchLoop(rows, batch, texts, embed, dims, 0);
    BatchLoopShape(rows, batch, texts, embed, dims, 0);
    forall k | 0 <= k < r.written && batch[k].id in rows
      ensures Written(rows[batch[k].id], r.rows[batch[k].id], texts[k], dims)
    {
      BatchLoopWrites(rows, batch, texts, embed, dims, 0, k);
    }
    forall id | id in rows && id !in Ids(batch)[..r.written]
      ensures r.rows[id] == rows[id]
    {
      BatchLoopKeeps(rows, batch, texts, embed, dims, 0, id);
    }
  }

  // ---------------------------------------------------------------------------
  // The outer loop: the whole run
  // ---------------------------------------------------------------------------

  /** One progress line after a batch: `Embedded N rows so far. Last ID: L`. */
  datatype Progress = Progress(totalEmbedded: nat, lastId: int)

  /** Row `id` of the starting table is one that a run from `after0` has passed once its cursor
      is at `lastId`: it had no embedding, and its id lies past the start and up to the cursor. */
  ghost predicate Passed(rows0: map<int, Pasuk>, after0: int, lastId: int, id: int) {
    id in rows0 && rows0[id].embedding.None? && after0 < id <= lastId
  }

  /** `plain` holds, for every row, the plain text the backfill stores for it: its Hebrew text,
      normalised. */
  ghost predicate PlainFor(rows: map<int, Pasuk>, plain: map<int, string>) {
    plain.Keys == rows.Keys &&
    forall id {:trigger Hebrew.Normalize(rows[id].hebrewText)} :: id in rows ==>
      plain[id] == Hebrew.Normalize(rows[id].hebrewText)
  }

  lemma PlainExists(rows: map<int, Pasuk>)
    ensures exists plain :: PlainFor(rows, plain)
  {
    var plain := map id | id in rows :: Hebrew.Normalize(rows[id].hebrewText);
    assert PlainFor(rows, plain);
  }

  /** The rows passed are written with their plain text `plain[id]`; every other row is as it was. */
  ghost predicate RowsOk(rows0: map<int, Pasuk>, plain: map<int, string>, rows: map<int, Pasuk>,
                         after0: int, lastId: int, dims: nat) {
    rows.Keys == rows0.Keys && plain.Keys == rows0.Keys && after0 <= lastId &&
    forall id {:trigger rows0[id]} :: id in rows0 ==>
      if Passed(rows0, after0, lastId, id) then Written(rows0[id], rows[id], plain[id], dims) else rows[id] == rows0[id]
  }

  /** The ids written, in this order: ascending, exactly the rows passed, and the cursor is the
      last of them (the start id before any). */
  ghost predicate DoneOk(rows0: map<int, Pasuk>, after0: int, done: seq<int>, lastId: int) {
    Ascending(done) &&
    lastId == (if |done| == 0 then after0 else done[|done| - 1]) &&
    (forall k :: 0 <= k < |done| ==> Passed(rows0, after0, lastId, done[k])) &&
    (forall id :: Passed(rows0, after0, lastId, id) ==> id in done)
  }

  /** A run that started on table `rows0` after id `after0`, has written the ids `done` and has
      its cursor at `lastId`, now sees `rows`. */
  ghost predicate RunInv(rows0: map<int, Pasuk>, plain: map<int, string>, rows: map<int, Pasuk>, after0: int, dims: nat,
                         done: seq<int>, lastId: int) {
    RowsOk(rows0, plain, rows, after0, lastId, dims) && DoneOk(rows0, after0, done, lastId)
  }

  /** The progress lines printed so far: each reports a prefix of the ids done, and the prefixes
      grow. */
  ghost predicate Logged(progress: seq<Progress>, done: seq<int>) {
    (forall k :: 0 <= k < |progress| ==>
      0 < progress[k].totalEmbedded <= |done| && progress[k].lastId == done[progress[k].totalEmbedded - 1]) &&
    (forall k, l :: 0 <= k < l < |progress| ==> progress[k].totalEmbedded < progress[l].totalEmbedded)
  }

  /** The last progress line printed reports the given totals; none was printed while none were
      written. */
  ghost predicate LastLogged(progress: seq<Progress>, totalEmbedded: nat, lastId: int) {
    (|progress| == 0 <==> totalEmbedded == 0) &&
    (|progress| > 0 ==> progress[|progress| - 1] == Progress(totalEmbedded, lastId))
  }

  /** The rows of a fetch come in strictly increasing id order. */
  lemma FetchedIncreasing(rows: map<int, Pasuk>, after: int, limit: nat, batch: seq<Selected>)
    requires Fetched(rows, after, limit, batch)
    ensures IncreasingIds(batch)
  {
    AscendingIncreasing(batch);
  }

  /** A row that needs an embedding past the cursor, and lies at or below fetched row w - 1,
      is one of the fetched rows before w. */
  lemma FetchedBelow(rows: map<int, Pasuk>, lastId: int, limit: nat, batch: seq<Selected>, w: nat, id: int)
    requires Fetched(rows, lastId, limit, batch) && 0 < w <= |batch|
    requires id in Unembedded(rows, lastId) && id <= batch[w - 1].id
    ensures exists k :: 0 <= k < w && batch[k].id == id
  {
    FetchedIncreasing(rows, lastId, limit, batch);
    assert id in Ids(batch);
    var k :| 0 <= k < |batch| && Ids(batch)[k] == id;
    assert k < w;
  }

  /** A fetched row was not passed yet, so it is as it was when the run started. */
  lemma FetchedFresh(rows0: map<int, Pasuk>, plain: map<int, string>, rows: map<int, Pasuk>, after0: int, lastId: int, dims: nat,
                     limit: nat, batch: seq<Selected>, k: nat)
    requires RowsOk(rows0, plain, rows, after0, lastId, dims) && Fetched(rows, lastId, limit, batch) && k < |batch|
    ensures Passed(rows0, after0, batch[k].id, batch[k].id) && lastId < batch[k].id
    ensures rows[batch[k].id] == rows0[batch[k].id] && batch[k].hebrewText == rows0[batch[k].id].hebrewText
  {
    assert batch[k].id in Unembedded(rows, lastId);
  }

  /** Text k of a batch is the plain text of the row it was fetched from. */
  ghost predicate TextsMatch(plain: map<int, string>, batch: seq<Selected>, texts: seq<string>) {
    |texts| == |batch| && forall k :: 0 <= k < |batch| && batch[k].id in plain ==> texts[k] == plain[batch[k].id]
  }

  /** The normalised texts of a fetch are the plain texts of the rows the run started with. */
  lemma FetchedTexts(rows0: map<int, Pasuk>, plain: map<int, string>, rows: map<int, Pasuk>, after0: int,
                     lastId: int, dims: nat, limit: nat, batch: seq<Selected>)
    requires PlainFor(rows0, plain)
    requires RowsOk(rows0, plain, rows, after0, lastId, dims) && Fetched(rows, lastId, limit, batch)
    ensures TextsMatch(plain, batch, Normalized(batch))
  {
    forall k | 0 <= k < |batch|
      ensures Normalized(batch)[k] == plain[batch[k].id]
    {
      FetchedFresh(rows0, plain, rows, after0, lastId, dims, limit, batch, k);
      NormalizedAt(batch, k);
    }
  }

  /** A batch that wrote nothing left the table as it was. */
  lemma NothingWritten(rows: map<int, Pasuk>, batch: seq<Selected>, texts: seq<string>, dims: nat, r: BatchStop)
    requires |texts| == |batch| && BatchEffect(rows, batch, texts, dims, r) && r.written == 0
    ensures r.rows == rows
  {
    forall id | id in rows
      ensures r.rows[id] == rows[id]
    {
      assert id !in Ids(batch)[..0];
    }
  }

  /** After one batch: a row passed before the batch is still filled. */
  lemma StepRowBefore(rows0: map<int, Pasuk>, plain: map<int, string>, rows: map<int, Pasuk>, after0: int, lastId: int, dims: nat,
                      limit: nat, batch: seq<Selected>, texts: seq<string>, r: BatchStop, id: int)
    requires RowsOk(rows0, plain, rows, after0, lastId, dims) && Fetched(rows, lastId, limit, batch)
    requires |texts| == |batch| && BatchEffect(rows, batch, texts, dims, r)
    requires Passed(rows0, after0, lastId, id)
    ensures Written(rows0[id], r.rows[id], plain[id], dims)
  {
    forall k | 0 <= k < r.written
      ensures Ids(batch)[..r.written][k] != id
    {
      assert batch[k].id in Unembedded(rows, lastId);
    }
  }

  /** After one batch: a row the batch passed is filled. */
  lemma StepRowWritten(rows0: map<int, Pasuk>, plain: map<int, string>, rows: map<int, Pasuk>, after0: int, lastId: int, dims: nat,
                       limit: nat, batch: seq<Selected>, texts: seq<string>, r: BatchStop, id: int)
    requires RowsOk(rows0, plain, rows, after0, lastId, dims) && Fetched(rows, lastId, limit, batch)
    requires TextsMatch(plain, batch, texts) && BatchEffect(rows, batch, texts, dims, r) && 0 < r.written
    requires Passed(rows0, after0, batch[r.written - 1].id, id) && lastId < id
    ensures Written(rows0[id], r.rows[id], plain[id], dims)
  {
    assert id in Unembedded(rows, lastId);
    FetchedBelow(rows, lastId, limit, batch, r.written, id);
    var k :| 0 <= k < r.written && batch[k].id == id;
    FetchedFresh(rows0, plain, rows, after0, lastId, dims, limit, batch, k);
  }

  /** After one batch: a row not passed is as it was. */
  lemma StepRowOther(rows0: map<int, Pasuk>, plain: map<int, string>, rows: map<int, Pasuk>, after0: int, lastId: int, dims: nat,
                     limit: nat, batch: seq<Selected>, texts: seq<string>, r: BatchStop, id: int)
    requires RowsOk(rows0, plain, rows, after0, lastId, dims) && Fetched(rows, lastId, limit, batch)
    requires |texts| == |batch| && BatchEffect(rows, batch, texts, dims, r)
    requires 0 < r.written && id in rows0 && !Passed(rows0, after0, batch[r.written - 1].id, id)
    ensures r.rows[id] == rows0[id]
  {
    var w := r.written;
    FetchedIncreasing(rows, lastId, limit, batch);
    forall k | 0 <= k < w
      ensures Ids(batch)[..w][k] != id
    {
      FetchedFresh(rows0, plain, rows, after0, lastId, dims, limit, batch, k);
      assert batch[k].id <= batch[w - 1].id;
    }
  }

  /** After a batch that wrote rows, the rows passed are filled and the others are as they were. */
  lemma StepRows(rows0: map<int, Pasuk>, plain: map<int, string>, rows: map<int, Pasuk>, after0: int, lastId: int, dims: nat,
                 limit: nat, batch: seq<Selected>, texts: seq<string>, r: BatchStop)
    requires RowsOk(rows0, plain, rows, after0, lastId, dims) && Fetched(rows, lastId, limit, batch)
    requires TextsMatch(plain, batch, texts) && BatchEffect(rows, batch, texts, dims, r) && 0 < r.written
    ensures RowsOk(rows0, plain, r.rows, after0, batch[r.written - 1].id, dims)
  {
    var last' := batch[r.written - 1].id;
    FetchedFresh(rows0, plain, rows, after0, lastId, dims, limit, batch, r.written - 1);
    forall id | id in rows0
      ensures if Passed(rows0, after0, last', id) then Written(rows0[id], r.rows[id], plain[id], dims) else r.rows[id] == rows0[id]
    {
      if !Passed(rows0, after0, last', id) {
        StepRowOther(rows0, plain, rows, after0, lastId, dims, limit, batch, texts, r, id);
      } else if id <= lastId {
        StepRowBefore(rows0, plain, rows, after0, lastId, dims, limit, batch, texts, r, id);
      } else {
        StepRowWritten(rows0, plain, rows, after0, lastId, dims, limit, batch, texts, r, id);
      }
    }
  }

  /** Appending larger ascending ids keeps a sequence ascending. */
  lemma AscendingAppend(done: seq<int>, tail: seq<int>, bound: int)
    requires Ascending(done) && Ascending(tail)
    requires forall k :: 0 <= k < |done| ==> done[k] <= bound
    requires forall k :: 0 <= k < |tail| ==> bound < tail[k]
    ensures Ascending(done + tail)
  {
    var s := done + tail;
    forall k, l | 0 <= k < l < |s|
      ensures s[k] < s[l]
    {
      if l < |done| {
        assert s[k] == done[k] && s[l] == done[l];
      } else if k < |done| {
        assert s[k] == done[k] && s[l] == tail[l - |done|];
      } else {
        assert s[k] == tail[k - |done|] && s[l] == tail[l - |done|];
      }
    }
  }

  /** The fetched ids written by a batch are passed rows past the old cursor. */
  lemma StepFreshIds(rows0: map<int, Pasuk>, plain: map<int, string>, rows: map<int, Pasuk>, after0: int, lastId: int, dims: nat,
                     limit: nat, batch: seq<Selected>, w: nat)
    requires RowsOk(rows0, plain, rows, after0, lastId, dims) && Fetched(rows, lastId, limit, batch) && 0 < w <= |batch|
    ensures forall k :: 0 <= k < w ==>
      lastId < Ids(batch)[..w][k] && Passed(rows0, after0, batch[w - 1].id, Ids(batch)[..w][k])
  {
    FetchedIncreasing(rows, lastId, limit, batch);
    forall k | 0 <= k < w
      ensures lastId < batch[k].id && Passed(rows0, after0, batch[w - 1].id, batch[k].id)
    {
      FetchedFresh(rows0, plain, rows, after0, lastId, dims, limit, batch, k);
      assert batch[k].id <= batch[w - 1].id;
    }
  }

  /** After a batch that wrote rows, the ids done are still ascending ids of rows passed, and the
      cursor is the last of them. */
  lemma StepDoneOrder(rows0: map<int, Pasuk>, plain: map<int, string>, rows: map<int, Pasuk>, after0: int, dims: nat,
                      done: seq<int>, lastId: int, limit: nat, batch: seq<Selected>, w: nat)
    requires RowsOk(rows0, plain, rows, after0, lastId, dims) && DoneOk(rows0, after0, done, lastId)
    requires Fetched(rows, lastId, limit, batch) && 0 < w <= |batch|
    ensures var done', last' := done + Ids(batch)[..w], batch[w - 1].id;
      Ascending(done') && 0 < |done'| && last' == done'[|done'| - 1] &&
      forall k :: 0 <= k < |done'| ==> Passed(rows0, after0, last', done'[k])
  {
    var tail := Ids(batch)[..w];
    var last' := batch[w - 1].id;
    StepFreshIds(rows0, plain, rows, after0, lastId, dims, limit, batch, w);
    FetchedIncreasing(rows, lastId, limit, batch);
    forall k | 0 <= k < |done|
      ensures done[k] <= lastId && Passed(rows0, after0, last', done[k])
    {
      assert Passed(rows0, after0, lastId, done[k]);
    }
    AscendingAppend(done, tail, lastId);
    var done' := done + tail;
    forall k | 0 <= k < |done'|
      ensures Passed(rows0, after0, last', done'[k])
    {
      if k < |done| {
        assert done'[k] == done[k];
      } else {
        assert done'[k] == tail[k - |done|];
      }
    }
    assert done'[|done'| - 1] == tail[w - 1];
  }

  /** After a batch that wrote rows, every row passed is among the ids done. */
  lemma StepCovers(rows0: map<int, Pasuk>, plain: map<int, string>, rows: map<int, Pasuk>, after0: int, dims: nat,
                   done: seq<int>, lastId: int, limit: nat, batch: seq<Selected>, w: nat, id: int)
    requires RowsOk(rows0, plain, rows, after0, lastId, dims) && DoneOk(rows0, after0, done, lastId)
    requires Fetched(rows, lastId, limit, batch) && 0 < w <= |batch|
    requires Passed(rows0, after0, batch[w - 1].id, id)
    ensures id in done + Ids(batch)[..w]
  {
    if id <= lastId {
      assert Passed(rows0, after0, lastId, id);
    } else {
      assert id in Unembedded(rows, lastId);
      FetchedBelow(rows, lastId, limit, batch, w, id);
      var k :| 0 <= k < w && batch[k].id == id;
      assert Ids(batch)[..w][k] == id;
    }
  }

  /** A batch that wrote rows keeps the run's invariant, with the cursor at the last row written. */
  lemma RunStep(rows0: map<int, Pasuk>, plain: map<int, string>, rows: map<int, Pasuk>, after0: int, dims: nat,
                done: seq<int>, lastId: int, limit: nat, batch: seq<Selected>, texts: seq<string>, r: BatchStop,
                rows': map<int, Pasuk>, last': int)
    requires RunInv(rows0, plain, rows, after0, dims, done, lastId) && Fetched(rows, lastId, limit, batch)
    requires TextsMatch(plain, batch, texts) && BatchEffect(rows, batch, texts, dims, r) && 0 < r.written
    requires rows' == r.rows && last' == batch[r.written - 1].id
    ensures RunInv(rows0, plain, rows', after0, dims, done + Ids(batch)[..r.written], last')
  {
    StepRows(rows0, plain, rows, after0, lastId, dims, limit, batch, texts, r);
    var done' := done + Ids(batch)[..r.written];
    StepDoneOrder(rows0, plain, rows, after0, dims, done, lastId, limit, batch, r.written);
    forall id | Passed(rows0, after0, last', id)
      ensures id in done'
    {
      StepCovers(rows0, plain, rows, after0, dims, done, lastId, limit, batch, r.written, id);
    }
  }

  /** A batch that wrote rows moves the cursor past rows that needed an embedding. */
  lemma StepShrinks(rows0: map<int, Pasuk>, plain: map<int, string>, rows: map<int, Pasuk>, after0: int, lastId: int, dims: nat,
                    limit: nat, batch: seq<Selected>, w: nat)
    requires RowsOk(rows0, plain, rows, after0, lastId, dims) && Fetched(rows, lastId, limit, batch)
    requires 0 < w <= |batch|
    ensures Unembedded(rows0, batch[w - 1].id) < Unembedded(rows0, lastId)
  {
    FetchedFresh(rows0, plain, rows, after0, lastId, dims, limit, batch, w - 1);
    assert batch[w - 1].id in Unembedded(rows0, lastId);
    assert batch[w - 1].id !in Unembedded(rows0, batch[w - 1].id);
  }

  /** When a batch stops at an error after writing rows, no row past the new cursor without an
      embedding comes before the row it stopped at. */
  lemma StepLeastAt(rows: map<int, Pasuk>, lastId: int, limit: nat, batch: seq<Selected>, texts: seq<string>,
                    dims: nat, r: BatchStop, id: int)
    requires Fetched(rows, lastId, limit, batch)
    requires |texts| == |batch| && BatchEffect(rows, batch, texts, dims, r) && 0 < r.written < |batch|
    requires id in Unembedded(r.rows, batch[r.written - 1].id)
    ensures batch[r.written].id <= id
  {
    var w := r.written;
    var last' := batch[w - 1].id;
    FetchedIncreasing(rows, lastId, limit, batch);
    assert id !in Ids(batch)[..w] by {
      forall k | 0 <= k < w
        ensures Ids(batch)[..w][k] != id
      {
        assert batch[k].id <= last';
      }
    }
    assert id in Unembedded(rows, lastId);
    if id in Ids(batch) {
      var k :| 0 <= k < |batch| && Ids(batch)[k] == id;
      assert last' < batch[k].id;
    }
  }

  /** When a batch stops at an error after writing rows, the row it stopped at is the least one
      past the new cursor that has no embedding. */
  lemma StepLeast(rows: map<int, Pasuk>, lastId: int, limit: nat, batch: seq<Selected>, texts: seq<string>,
                  dims: nat, r: BatchStop, rows': map<int, Pasuk>, last': int)
    requires Fetched(rows, lastId, limit, batch)
    requires |texts| == |batch| && BatchEffect(rows, batch, texts, dims, r) && 0 < r.written && !r.outcome.Completed?
    requires rows' == r.rows && last' == batch[r.written - 1].id
    ensures IsLeast(r.outcome.id, Unembedded(rows', last'))
  {
    var w := r.written;
    FetchedIncreasing(rows, lastId, limit, batch);
    IncreasingNotIn(batch, w, 0, w);
    assert batch[w].id in Unembedded(rows, lastId);
    forall id | id in Unembedded(rows', last')
      ensures batch[w].id <= id
    {
      StepLeastAt(rows, lastId, limit, batch, texts, dims, r, id);
    }
  }

  /** When a batch stops at an error at its first row, that row is the least one past the cursor
      that has no embedding. */
  lemma FirstLeast(rows: map<int, Pasuk>, lastId: int, limit: nat, batch: seq<Selected>)
    requires Fetched(rows, lastId, limit, batch) && 0 < |batch|
    ensures IsLeast(batch[0].id, Unembedded(rows, lastId))
  {
    FetchedIncreasing(rows, lastId, limit, batch);
    forall id | id in Unembedded(rows, lastId)
      ensures batch[0].id <= id
    {
      if id in Ids(batch) {
        var k :| 0 <= k < |batch| && Ids(batch)[k] == id;
        assert batch[0].id <= batch[k].id;
      }
    }
  }

  /** A fetch of a positive number of rows that comes back empty means no row past the start
      is left without an embedding. */
  lemma EmptyFetchDone(rows0: map<int, Pasuk>, plain: map<int, string>, rows: map<int, Pasuk>, after0: int, lastId: int, dims: nat,
                       limit: nat)
    requires RowsOk(rows0, plain, rows, after0, lastId, dims) && Fetched(rows, lastId, limit, [])
    requires limit > 0
    ensures Unembedded(rows, after0) == {}
  {
    forall id | id in rows && id > after0
      ensures rows[id].embedding.Some?
    {
      if id > lastId {
        assert id !in Ids([]);
      }
    }
  }

  /** The natural keys do not change, so the unique constraint still holds. */
  lemma RunKeepsKeys(rows0: map<int, Pasuk>, plain: map<int, string>, rows: map<int, Pasuk>, after0: int, lastId: int, dims: nat)
    requires RowsOk(rows0, plain, rows, after0, lastId, dims) && UniqueKeys(rows0)
    ensures UniqueKeys(rows)
  {
    forall id | id in rows0
      ensures KeyOf(rows[id]) == KeyOf(rows0[id])
    {
    }
  }

  /** A run that leaves no row past the start without an embedding has written exactly the rows
      that had none when it started. */
  lemma CompletedFillsAll(rows0: map<int, Pasuk>, plain: map<int, string>, rows: map<int, Pasuk>, after0: int, dims: nat,
                          done: seq<int>, lastId: int)
    requires RunInv(rows0, plain, rows, after0, dims, done, lastId) && Unembedded(rows, after0) == {}
    ensures forall id :: id in Unembedded(rows0, after0) <==> id in done
  {
    forall id | id in Unembedded(rows0, after0)
      ensures id in done
    {
      assert id !in Unembedded(rows, after0);
      assert Passed(rows0, after0, lastId, id);
    }
    forall id | id in done
      ensures id in Unembedded(rows0, after0)
    {
      var k :| 0 <= k < |done| && done[k] == id;
      assert Passed(rows0, after0, lastId, done[k]);
    }
  }

  /** More ids done leave the progress lines printed so far true. */
  lemma LoggedExtend(progress: seq<Progress>, done: seq<int>, more: seq<int>)
    requires Logged(progress, done)
    ensures Logged(progress, done + more)
  {
    forall k | 0 <= k < |progress|
      ensures (done + more)[progress[k].totalEmbedded - 1] == done[progress[k].totalEmbedded - 1]
    {
    }
  }

  /** A progress line for the current totals extends the log. */
  lemma LoggedAppend(progress: seq<Progress>, done: seq<int>, line: Progress)
    requires Logged(progress, done) && 0 < |done|
    requires line.totalEmbedded == |done| && line.lastId == done[|done| - 1]
    requires 0 < |progress| ==> progress[|progress| - 1].totalEmbedded < |done|
    ensures Logged(progress + [line], done)
  {
    var p := progress + [line];
    forall k, l | 0 <= k < l < |p|
      ensures p[k].totalEmbedded < p[l].totalEmbedded
    {
      if l == |progress| && k < |progress| - 1 {
        assert progress[k].totalEmbedded < progress[|progress| - 1].totalEmbedded;
      }
    }
  }

  /** A batch that wrote rows: the run's invariant holds with the cursor at the last row written,
      and the batch either completed, leaving fewer rows to do, or stopped at the least row left. */
  lemma AfterSome(rows0: map<int, Pasuk>, plain: map<int, string>, rows: map<int, Pasuk>, after0: int, dims: nat,
                  done: seq<int>, lastId: int, limit: nat, batch: seq<Selected>, r: BatchStop,
                  rows': map<int, Pasuk>, last': int)
    requires PlainFor(rows0, plain) && UniqueKeys(rows0)
    requires RunInv(rows0, plain, rows, after0, dims, done, lastId) && Fetched(rows, lastId, limit, batch)
    requires BatchEffect(rows, batch, Normalized(batch), dims, r) && 0 < r.written
    requires rows' == r.rows && last' == batch[r.written - 1].id
    ensures UniqueKeys(rows') && rows'.Keys == rows.Keys
    ensures RunInv(rows0, plain, rows', after0, dims, done + Ids(batch)[..r.written], last')
    ensures r.outcome.Completed? ==> Unembedded(rows0, last') < Unembedded(rows0, lastId)
    ensures !r.outcome.Completed? ==> IsLeast(r.outcome.id, Unembedded(rows', last'))
  {
    FetchedTexts(rows0, plain, rows, after0, lastId, dims, limit, batch);
    RunStep(rows0, plain, rows, after0, dims, done, lastId, limit, batch, Normalized(batch), r, rows', last');
    RunKeepsKeys(rows0, plain, rows', after0, last', dims);
    if r.outcome.Completed? {
      StepShrinks(rows0, plain, rows, after0, lastId, dims, limit, batch, r.written);
    } else {
      StepLeast(rows, lastId, limit, batch, Normalized(batch), dims, r, rows', last');
    }
  }

  /** A batch that wrote nothing stopped at its first row, the least one left. */
  lemma AfterNone(rows: map<int, Pasuk>, lastId: int, limit: nat, batch: seq<Selected>, texts: seq<string>,
                  dims: nat, r: BatchStop)
    requires Fetched(rows, lastId, limit, batch) && 0 < |batch|
    requires |texts| == |batch| && BatchEffect(rows, batch, texts, dims, r) && r.written == 0
    ensures r.rows == rows && !r.outcome.Completed?
    ensures IsLeast(r.outcome.id, Unembedded(r.rows, lastId))
  {
    NothingWritten(rows, batch, texts, dims, r);
    FirstLeast(rows, lastId, limit, batch);
  }

  /** What a fetched, non-empty batch leaves behind, whether or not it wrote rows: the run's
      invariant with the ids written appended, and either fewer rows left to do or a stop at the
      least row left. */
  lemma BatchDone(rows0: map<int, Pasuk>, plain: map<int, string>, rows: map<int, Pasuk>, after0: int, dims: nat,
                  done: seq<int>, lastId0: int, limit: nat, batch: seq<Selected>, embed: Provider,
                  rows': map<int, Pasuk>, outcome: Outcome, count: nat, lastId: int, calls: seq<seq<string>>)
    requires PlainFor(rows0, plain) && UniqueKeys(rows0) && UniqueKeys(rows)
    requires RunInv(rows0, plain, rows, after0, dims, done, lastId0) && Fetched(rows, lastId0, limit, batch)
    requires 0 < |batch| && count <= |batch|
    requires BatchLoop(rows, batch, Normalized(batch), embed, dims, 0) == BatchStop(rows', outcome, count, calls)
    requires lastId == if count == 0 then lastId0 else batch[count - 1].id
    ensures UniqueKeys(rows') && rows'.Keys == rows.Keys
    ensures RunInv(rows0, plain, rows', after0, dims, done + Ids(batch)[..count], lastId)
    ensures outcome.Completed? ==> 0 < count && Unembedded(rows0, lastId) < Unembedded(rows0, lastId0)
    ensures !outcome.Completed? ==> IsLeast(outcome.id, Unembedded(rows', lastId))
    ensures outcome.LengthMismatch? ==> outcome.expected == dims && outcome.got != dims
  {
    FetchedIncreasing(rows, lastId0, limit, batch);
    BatchLoopEffect(rows, batch, Normalized(batch), embed, dims);
    var r := BatchStop(rows', outcome, count, calls);
    if count == 0 {
      AfterNone(rows, lastId0, limit, batch, Normalized(batch), dims, r);
      assert done + Ids(batch)[..count] == done;
    } else {
      AfterSome(rows0, plain, rows, after0, dims, done, lastId0, limit, batch, r, rows', lastId);
    }
  }

  /** The texts sent to the provider, call after call, are the plain texts of the rows `ids`,
      in that order. */
  ghost predicate SentFor(plain: map<int, string>, calls: seq<seq<string>>, ids: seq<int>) {
    |Concat(calls)| == |ids| &&
    forall k :: 0 <= k < |ids| ==> ids[k] in plain && Concat(calls)[k] == plain[ids[k]]
  }

  /** The provider calls of a run: each takes 1 to 20 texts, and the texts sent are the plain texts
      of the rows `sent`, each of which had no embedding and lies past the start. */
  ghost predicate CallsOk(rows0: map<int, Pasuk>, plain: map<int, string>, after0: int,
                          calls: seq<seq<string>>, sent: seq<int>) {
    ChunkSized(calls) && SentFor(plain, calls, sent) &&
    forall k :: 0 <= k < |sent| ==> sent[k] in Unembedded(rows0, after0)
  }

  /** The provider calls of a run up to some point: they satisfy `CallsOk` for the rows `sent`,
      which ascend; the ids `done` whose embeddings were written are a prefix of them, all of them
      while no pass has stopped on an error; and no call was made when no row past the start
      lacked an embedding. */
  ghost predicate RunSent(rows0: map<int, Pasuk>, plain: map<int, string>, after0: int, calls: seq<seq<string>>,
                          sent: seq<int>, done: seq<int>, completed: bool) {
    CallsOk(rows0, plain, after0, calls, sent) && Ascending(sent) &&
    |done| <= |sent| && done == sent[..|done|] && (completed ==> sent == done) &&
    (Unembedded(rows0, after0) == {} ==> calls == [])
  }

  /** The provider calls of a run up to some point, with what they led to: `RunSent`; a run that
      stopped on a bad answer slot stopped on the first bad slot after the ids `done`; and each row
      written holds its own accepted answer slot in `rows`. */
  ghost predicate RunCallsOk(rows0: map<int, Pasuk>, plain: map<int, string>, after0: int, embed: Provider,
                             dims: nat, rows: map<int, Pasuk>, calls: seq<seq<string>>, sent: seq<int>,
                             done: seq<int>, outcome: Outcome) {
    RunSent(rows0, plain, after0, calls, sent, done, outcome.Completed?) &&
    (!outcome.Completed? ==> StoppedAt(embed, dims, calls, sent, done, outcome)) &&
    Answered(embed, dims, rows, calls, done)
  }

  /** What one pass's provider calls led to: `CallsOk` for the ids `sent`, which ascend after the
      ids `done`; the ids `written` are a prefix of them, all of them when the pass completed; a
      pass that stopped on a bad answer slot stopped on the first bad slot after `written`; each
      row written holds its own accepted slot in `rows'`, and the rows done before are as they
      were in `rows`. */
  ghost predicate PassCalls(rows0: map<int, Pasuk>, plain: map<int, string>, after0: int, embed: Provider,
                            dims: nat, rows: map<int, Pasuk>, rows': map<int, Pasuk>, done: seq<int>,
                            calls: seq<seq<string>>, sent: seq<int>, written: seq<int>, outcome: Outcome) {
    CallsOk(rows0, plain, after0, calls, sent) && Ascending(done + sent) &&
    |written| <= |sent| && written == sent[..|written|] && (outcome.Completed? ==> sent == written) &&
    (!outcome.Completed? ==> StoppedAt(embed, dims, calls, sent, written, outcome)) &&
    Answered(embed, dims, rows', calls, written) && Kept(rows, rows', done)
  }

  /** What the run knows of a fetched batch when it sends it: each row had no embedding when the
      run started and lies past the cursor, its text is the row's plain text, and the ids come in
      ascending order after the ids done. */
  ghost predicate FreshBatch(rows0: map<int, Pasuk>, plain: map<int, string>, after0: int, done: seq<int>,
                             lastId0: int, batch: seq<Selected>) {
    TextsMatch(plain, batch, Normalized(batch)) && Ascending(Ids(batch)) && Ascending(done) &&
    (forall k :: 0 <= k < |done| ==> done[k] <= lastId0) &&
    (forall k :: 0 <= k < |batch| ==>
      batch[k].id in plain && batch[k].id in Unembedded(rows0, after0) && lastId0 < batch[k].id)
  }

  lemma FetchedFreshBatch(rows0: map<int, Pasuk>, plain: map<int, string>, rows: map<int, Pasuk>, after0: int,
                          dims: nat, done: seq<int>, lastId0: int, limit: nat, batch: seq<Selected>)
    requires PlainFor(rows0, plain)
    requires RunInv(rows0, plain, rows, after0, dims, done, lastId0) && Fetched(rows, lastId0, limit, batch)
    ensures FreshBatch(rows0, plain, after0, done, lastId0, batch)
  {
    FetchedTexts(rows0, plain, rows, after0, lastId0, dims, limit, batch);
    forall k | 0 <= k < |batch|
      ensures batch[k].id in plain && batch[k].id in Unembedded(rows0, after0) && lastId0 < batch[k].id
    {
      FetchedFresh(rows0, plain, rows, after0, lastId0, dims, limit, batch, k);
    }
    forall k | 0 <= k < |done|
      ensures done[k] <= lastId0
    {
      assert Passed(rows0, after0, lastId0, done[k]);
    }
  }

  /** The calls for one fetched batch send the plain texts of a prefix of it, at least as long as
      the rows written and all of it when the batch completes; the ids written are a prefix of the
      ids sent. */
  lemma BatchCalls(rows0: map<int, Pasuk>, plain: map<int, string>, rows: map<int, Pasuk>, after0: int, dims: nat,
                   done: seq<int>, lastId0: int, batch: seq<Selected>, embed: Provider,
                   r: BatchStop, written: seq<int>)
    returns (sent: seq<int>)
    requires FreshBatch(rows0, plain, after0, done, lastId0, batch)
    requires r == BatchLoop(rows, batch, Normalized(batch), embed, dims, 0)
    requires r.written <= |batch| && written == Ids(batch)[..r.written]
    ensures CallsOk(rows0, plain, after0, r.calls, sent) && Ascending(done + sent)
    ensures |written| <= |sent| && written == sent[..|written|]
    ensures r.outcome.Completed? ==> sent == written
    ensures !r.outcome.Completed? ==> StoppedAt(embed, dims, r.calls, sent, written, r.outcome)
    ensures |Concat(r.calls)| <= |batch| && sent == Ids(batch)[..|Concat(r.calls)|]
  {
    var texts := Normalized(batch);
    BatchLoopSent(rows, batch, texts, embed, dims, 0);
    BatchLoopChunkSized(rows, batch, texts, embed, dims, 0);
    var m := |Concat(r.calls)|;
    sent := Ids(batch)[..m];
    BatchSentOk(rows0, plain, after0, done, lastId0, batch, r.calls, m);
    BatchLoopShape(rows, batch, texts, embed, dims, 0);
    PrefixOfPrefix(Ids(batch), r.written, m);
    if !r.outcome.Completed? {
      BatchLoopStop(rows, batch, texts, embed, dims, 0);
      StoppedOnBound(embed, dims, r.calls, r.written, r.outcome);
    }
  }

  /** The plain texts of the rows `ids`, in order. */
  ghost function PlainTexts(plain: map<int, string>, ids: seq<int>): (r: seq<string>)
    requires forall k :: 0 <= k < |ids| ==> ids[k] in plain
    ensures |r| == |ids|
  {
    seq(|ids|, k requires 0 <= k < |ids| => plain[ids[k]])
  }

  /** The plan of one pass: `fetch` is the least `limit` ids of `pool`, in ascending order; the
      calls made are the chunks of 20 of their plain texts, in order, all of them when the pass
      completed; and the ids sent are a prefix of the fetch, all of it when the pass completed. */
  ghost predicate Planned(plain: map<int, string>, pool: set<int>, limit: nat, fetch: seq<int>,
                          calls: seq<seq<string>>, sent: seq<int>, completed: bool) {
    LeastIds(fetch, pool, limit) && (forall k :: 0 <= k < |fetch| ==> fetch[k] in plain) &&
    |sent| <= |fetch| && sent == fetch[..|sent|] && (completed ==> sent == fetch) &&
    var plan := Chunks(PlainTexts(plain, fetch), ChunkSize);
    |calls| <= |plan| && calls == plan[..|calls|] && (completed ==> calls == plan)
  }

  /** A fetched batch is sent as planned: its texts are the plain texts of its ids, and the calls
      are their chunks of 20, stopping early only when the batch stopped. */
  lemma BatchPlan(plain: map<int, string>, pool: set<int>, limit: nat, batch: seq<Selected>,
                  rows: map<int, Pasuk>, embed: Provider, dims: nat, r: BatchStop, sent: seq<int>)
    requires LeastIds(Ids(batch), pool, limit)
    requires TextsMatch(plain, batch, Normalized(batch)) && forall k :: 0 <= k < |batch| ==> batch[k].id in plain
    requires r == BatchLoop(rows, batch, Normalized(batch), embed, dims, 0)
    requires |Concat(r.calls)| <= |batch| && sent == Ids(batch)[..|Concat(r.calls)|]
    ensures Planned(plain, pool, limit, Ids(batch), r.calls, sent, r.outcome.Completed?)
  {
    var texts := Normalized(batch);
    NormalizedPlain(plain, batch);
    BatchLoopCalls(rows, batch, texts, embed, dims, 0);
    BatchLoopSent(rows, batch, texts, embed, dims, 0);
    assert texts[0..] == texts;
    PlanFrom(plain, pool, limit, Ids(batch), texts, r.calls, sent, |Concat(r.calls)|, r.outcome.Completed?);
  }

  lemma NormalizedPlain(plain: map<int, string>, batch: seq<Selected>)
    requires TextsMatch(plain, batch, Normalized(batch)) && forall k :: 0 <= k < |batch| ==> batch[k].id in plain
    ensures forall k :: 0 <= k < |Ids(batch)| ==> Ids(batch)[k] in plain
    ensures Normalized(batch) == PlainTexts(plain, Ids(batch))
  {
    var texts, ids := Normalized(batch), Ids(batch);
    forall k | 0 <= k < |batch|
      ensures texts[k] == PlainTexts(plain, ids)[k]
    {
      assert ids[k] == batch[k].id;
    }
  }

  lemma PlanFrom(plain: map<int, string>, pool: set<int>, limit: nat, fetch: seq<int>, texts: seq<string>,
                 calls: seq<seq<string>>, sent: seq<int>, m: int, completed: bool)
    requires LeastIds(fetch, pool, limit) && (forall k :: 0 <= k < |fetch| ==> fetch[k] in plain)
    requires texts == PlainTexts(plain, fetch)
    requires 0 <= m <= |fetch| && sent == fetch[..m] && (completed ==> m == |fetch|)
    requires completed ==> calls == Chunks(texts, ChunkSize)
    requires !completed ==> |calls| <= |Chunks(texts, ChunkSize)| && calls == Chunks(texts, ChunkSize)[..|calls|]
    ensures Planned(plain, pool, limit, fetch, calls, sent, completed)
  {
  }

  /** The rows a batch wrote hold their own accepted answer slots, and the rows the run wrote
      before it are unchanged. */
  lemma BatchAnswers(rows0: map<int, Pasuk>, plain: map<int, string>, after0: int, done: seq<int>, lastId0: int,
                     batch: seq<Selected>, rows: map<int, Pasuk>, embed: Provider, dims: nat, r: BatchStop,
                     written: seq<int>)
    requires FreshBatch(rows0, plain, after0, done, lastId0, batch)
    requires forall k :: 0 <= k < |batch| ==> batch[k].id in rows
    requires r == BatchLoop(rows, batch, Normalized(batch), embed, dims, 0) && written == Ids(batch)[..r.written]
    ensures Answered(embed, dims, r.rows, r.calls, written) && Kept(rows, r.rows, done)
  {
    AscendingIncreasing(batch);
    BatchAnswered(rows, batch, embed, dims, r, written);
    BatchKeepsDone(rows, batch, embed, dims, r, done, lastId0);
  }

  lemma BatchAnswered(rows: map<int, Pasuk>, batch: seq<Selected>, embed: Provider, dims: nat, r: BatchStop,
                      written: seq<int>)
    requires IncreasingIds(batch) && forall k :: 0 <= k < |batch| ==> batch[k].id in rows
    requires r == BatchLoop(rows, batch, Normalized(batch), embed, dims, 0) && written == Ids(batch)[..r.written]
    ensures Answered(embed, dims, r.rows, r.calls, written)
  {
    forall k | 0 <= k < |written|
      ensures written[k] in r.rows && Good(SlotAt(embed, r.calls, k), dims) &&
        r.rows[written[k]].embedding == SlotAt(embed, r.calls, k)
    {
      BatchAnsweredAt(rows, batch, Normalized(batch), embed, dims, r, written, k);
    }
  }

  lemma BatchAnsweredAt(rows: map<int, Pasuk>, batch: seq<Selected>, texts: seq<string>, embed: Provider,
                        dims: nat, r: BatchStop, written: seq<int>, k: nat)
    requires IncreasingIds(batch) && |texts| == |batch| && forall j :: 0 <= j < |batch| ==> batch[j].id in rows
    requires r == BatchLoop(rows, batch, texts, embed, dims, 0) && written == Ids(batch)[..r.written]
    requires k < |written|
    ensures written[k] in r.rows && Good(SlotAt(embed, r.calls, k), dims) &&
      r.rows[written[k]].embedding == SlotAt(embed, r.calls, k)
  {
    BatchLoopShape(rows, batch, texts, embed, dims, 0);
    assert written[k] == batch[k].id;
    BatchLoopSlot(rows, batch, texts, embed, dims, 0, k);
    assert k - 0 == k;
  }

  lemma BatchKeepsDone(rows: map<int, Pasuk>, batch: seq<Selected>, embed: Provider, dims: nat, r: BatchStop,
                       done: seq<int>, lastId0: int)
    requires r == BatchLoop(rows, batch, Normalized(batch), embed, dims, 0)
    requires (forall k :: 0 <= k < |done| ==> done[k] <= lastId0) && forall k :: 0 <= k < |batch| ==> lastId0 < batch[k].id
    ensures Kept(rows, r.rows, done)
  {
    forall k | 0 <= k < |done| && done[k] in rows
      ensures done[k] in r.rows && r.rows[done[k]] == rows[done[k]]
    {
      forall m | 0 <= m < r.written
        ensures Ids(batch)[..r.written][m] != done[k]
      {
        assert Ids(batch)[..r.written][m] == batch[m].id;
      }
      BatchLoopKeeps(rows, batch, Normalized(batch), embed, dims, 0, done[k]);
    }
  }

  lemma PrefixAppend<T>(a: seq<T>, b: seq<T>, c: seq<T>)
    requires |c| <= |b| && c == b[..|c|]
    ensures a + c == (a + b)[..|a| + |c|]
  {
  }

  lemma PrefixOfPrefix<T>(s: seq<T>, a: nat, b: nat)
    requires a <= b <= |s|
    ensures s[..b][..a] == s[..a]
  {
  }

  lemma BatchSentOk(rows0: map<int, Pasuk>, plain: map<int, string>, after0: int, done: seq<int>,
                    lastId0: int, batch: seq<Selected>, calls: seq<seq<string>>, m: nat)
    requires FreshBatch(rows0, plain, after0, done, lastId0, batch)
    requires m <= |batch| && Concat(calls) == Normalized(batch)[0..m] && ChunkSized(calls)
    ensures CallsOk(rows0, plain, after0, calls, Ids(batch)[..m]) && Ascending(done + Ids(batch)[..m])
  {
    var sent := Ids(batch)[..m];
    BatchSentFor(plain, batch, calls, m);
    forall k | 0 <= k < |sent|
      ensures sent[k] in Unembedded(rows0, after0) && lastId0 < sent[k]
    {
      assert sent[k] == batch[k].id;
    }
    PrefixAscending(Ids(batch), m);
    AscendingAppend(done, sent, lastId0);
  }

  /** The texts of the first `m` rows of a batch are the plain texts of their ids. */
  lemma BatchSentFor(plain: map<int, string>, batch: seq<Selected>, calls: seq<seq<string>>, m: nat)
    requires TextsMatch(plain, batch, Normalized(batch)) && forall k :: 0 <= k < |batch| ==> batch[k].id in plain
    requires m <= |batch| && Concat(calls) == Normalized(batch)[0..m]
    ensures SentFor(plain, calls, Ids(batch)[..m])
  {
    var sent := Ids(batch)[..m];
    forall k | 0 <= k < m
      ensures sent[k] in plain && Concat(calls)[k] == plain[sent[k]]
    {
      assert sent[k] == batch[k].id && Concat(calls)[k] == Normalized(batch)[k];
    }
  }

  lemma PrefixAscending(s: seq<int>, m: nat)
    requires Ascending(s) && m <= |s|
    ensures Ascending(s[..m])
  {
    forall k, l | 0 <= k < l < m
      ensures s[..m][k] < s[..m][l]
    {
      assert s[..m][k] == s[k] && s[..m][l] == s[l];
    }
  }

  lemma SentAppend(plain: map<int, string>, calls: seq<seq<string>>, sent: seq<int>,
                   calls': seq<seq<string>>, sent': seq<int>)
    requires SentFor(plain, calls, sent) && SentFor(plain, calls', sent')
    ensures SentFor(plain, calls + calls', sent + sent')
  {
    ConcatAppend(calls, calls');
    var c, ids := Concat(calls + calls'), sent + sent';
    forall k | |sent| <= k < |ids|
      ensures ids[k] in plain && c[k] == plain[ids[k]]
    {
      assert ids[k] == sent'[k - |sent|] && c[k] == Concat(calls')[k - |sent|];
    }
  }

  lemma ChunkSizedAppend(calls: seq<seq<string>>, calls': seq<seq<string>>)
    requires ChunkSized(calls) && ChunkSized(calls')
    ensures ChunkSized(calls + calls')
  {
    forall j | |calls| <= j < |calls + calls'|
      ensures 0 < |(calls + calls')[j]| <= ChunkSize
    {
      assert (calls + calls')[j] == calls'[j - |calls|];
    }
  }

  /** The calls of two passes in a row: the second pass's rows come after the first's. */
  lemma CallsAppend(rows0: map<int, Pasuk>, plain: map<int, string>, after0: int, calls: seq<seq<string>>,
                    sent: seq<int>, calls': seq<seq<string>>, sent': seq<int>)
    requires CallsOk(rows0, plain, after0, calls, sent) && CallsOk(rows0, plain, after0, calls', sent')
    ensures CallsOk(rows0, plain, after0, calls + calls', sent + sent')
  {
    SentAppend(plain, calls, sent, calls', sent');
    ChunkSizedAppend(calls, calls');
    var ids := sent + sent';
    forall k | |sent| <= k < |ids|
      ensures ids[k] in Unembedded(rows0, after0)
    {
      assert ids[k] == sent'[k - |sent|];
    }
  }

  /** The provider calls of a run after one more pass: the pass's calls come after the earlier
      ones, its rows after the ids done, and the ids done after the pass are a prefix of the rows
      sent, all of them when the pass completed; a pass that stopped on a bad answer slot stopped
      on the same slot of the whole run; and the rows written, before the pass and by it, hold
      their own accepted answer slots. */
  lemma RunCalls(rows0: map<int, Pasuk>, plain: map<int, string>, after0: int, embed: Provider, dims: nat,
                 rows: map<int, Pasuk>, rows': map<int, Pasuk>,
                 calls: seq<seq<string>>, done: seq<int>, calls': seq<seq<string>>, sent': seq<int>,
                 written: seq<int>, outcome: Outcome)
    returns (calls2: seq<seq<string>>, sent2: seq<int>)
    requires RunCallsOk(rows0, plain, after0, embed, dims, rows, calls, done, done, Completed)
    requires PassCalls(rows0, plain, after0, embed, dims, rows, rows', done, calls', sent', written, outcome)
    ensures calls2 == calls + calls' && sent2 == done + sent'
    ensures RunCallsOk(rows0, plain, after0, embed, dims, rows', calls2, sent2, done + written, outcome)
  {
    calls2, sent2 := calls + calls', done + sent';
    AnsweredAppend(embed, dims, rows, rows', calls, done, calls', written);
    if !outcome.Completed? {
      StoppedAtAppend(embed, dims, calls, done, calls', sent', written, outcome);
    }
    CallsAppend(rows0, plain, after0, calls, done, calls', sent');
    PrefixAppend(done, sent', written);
    if Unembedded(rows0, after0) == {} {
      NoRowsNoCalls(rows0, plain, after0, calls2, sent2);
    }
  }

  /** When no row past the start lacked an embedding, no provider call was made. */
  lemma NoRowsNoCalls(rows0: map<int, Pasuk>, plain: map<int, string>, after0: int,
                      calls: seq<seq<string>>, sent: seq<int>)
    requires CallsOk(rows0, plain, after0, calls, sent) && Unembedded(rows0, after0) == {}
    ensures calls == []
  {
    ConcatPositive(calls);
  }

  lemma ConcatPositive(calls: seq<seq<string>>)
    requires ChunkSized(calls)
    ensures calls != [] ==> 0 < |calls[0]| <= |Concat(calls)|
  {
    if calls != [] {
      assert Concat(calls) == calls[0] + Concat(calls[1..]);
    }
  }

  /** One pass of the loop body: fetch up to `batchSize` rows past `lastId0` that have no
      embedding; when there are none, say so (`fetched` is false); otherwise normalise, embed and
      write them. `rows0` and `done0` are the run's starting table and the ids it has written. */
  method NextBatch(t: PasukTable, batchSize: nat, dims: nat, embed: Provider, lastId0: int, total0: nat,
                   ghost rows0: map<int, Pasuk>, ghost plain: map<int, string>, ghost startAfter: int,
                   ghost done0: seq<int>)
    returns (fetched: bool, outcome: Outcome, lastId: int, totalEmbedded: nat, ghost written: seq<int>,
             ghost calls: seq<seq<string>>, ghost sent: seq<int>, ghost fetch: seq<int>)
    requires t.Valid() && UniqueKeys(rows0) && PlainFor(rows0, plain)
    requires RunInv(rows0, plain, t.rows, startAfter, dims, done0, lastId0) && total0 == |done0|
    modifies t
    ensures t.Valid() && t.nextId == old(t.nextId)
    ensures RunInv(rows0, plain, t.rows, startAfter, dims, done0 + written, lastId)
    ensures totalEmbedded == total0 + |written|
    ensures !fetched ==> outcome.Completed? && written == [] && lastId == lastId0
    ensures !fetched && batchSize > 0 ==> Unembedded(t.rows, startAfter) == {}
    ensures fetched && outcome.Completed? ==> written != [] && Unembedded(rows0, lastId) < Unembedded(rows0, lastId0)
    ensures !outcome.Completed? ==> IsLeast(outcome.id, Unembedded(t.rows, lastId))
    ensures outcome.LengthMismatch? ==> outcome.expected == dims && outcome.got != dims
    ensures PassCalls(rows0, plain, startAfter, embed, dims, old(t.rows), t.rows, done0, calls, sent, written, outcome)
    ensures !fetched ==> calls == []
    ensures fetched == (fetch != [])
    ensures Planned(plain, Unembedded(old(t.rows), lastId0), batchSize, fetch, calls, sent, outcome.Completed?)
  {
    var batch := t.SelectUnembedded(lastId0, batchSize);
    ghost var rows := t.rows;
    fetch := Ids(batch);
    if |batch| == 0 {
      if batchSize > 0 {
        EmptyFetchDone(rows0, plain, rows, startAfter, lastId0, dims, batchSize);
      }
      assert done0 + [] == done0;
      assert Chunks(PlainTexts(plain, fetch), ChunkSize) == [];
      return false, Completed, lastId0, total0, [], [], [], fetch;
    }
    var normalizedTexts := Normalized(batch);
    var count;
    outcome, count, lastId, totalEmbedded, calls := EmbedBatch(t, batch, normalizedTexts, dims, embed, lastId0, total0);
    fetched := true;
    BatchDone(rows0, plain, rows, startAfter, dims, done0, lastId0, batchSize, batch, embed,
              t.rows, outcome, count, lastId, calls);
    written := Ids(batch)[..count];
    FetchedFreshBatch(rows0, plain, rows, startAfter, dims, done0, lastId0, batchSize, batch);
    sent := BatchCalls(rows0, plain, rows, startAfter, dims, done0, lastId0, batch, embed,
                       BatchStop(t.rows, outcome, count, calls), written);
    BatchAnswers(rows0, plain, startAfter, done0, lastId0, batch, rows, embed, dims,
                 BatchStop(t.rows, outcome, count, calls), written);
    BatchPlan(plain, Unembedded(rows, lastId0), batchSize, batch, rows, embed, dims,
              BatchStop(t.rows, outcome, count, calls), sent);
  }

  /** One turn of the run's loop: a batch fetched and embedded, and when it completed, a progress
      line logged with the running total and the last id. The provider calls of the pass are
      added after the earlier ones. */
  method Pass(t: PasukTable, batchSize: nat, dims: nat, embed: Provider, lastId0: int, total0: nat,
              progress0: seq<Progress>, ghost rows0: map<int, Pasuk>, ghost plain: map<int, string>,
              ghost startAfter: int, ghost done0: seq<int>, ghost calls0: seq<seq<string>>)
    returns (fetched: bool, outcome: Outcome, lastId: int, totalEmbedded: nat, progress: seq<Progress>,
             ghost done: seq<int>, ghost calls: seq<seq<string>>, ghost sent: seq<int>)
    requires t.Valid() && UniqueKeys(rows0) && PlainFor(rows0, plain)
    requires RunInv(rows0, plain, t.rows, startAfter, dims, done0, lastId0) && total0 == |done0|
    requires Logged(progress0, done0) && LastLogged(progress0, total0, lastId0)
    requires RunCallsOk(rows0, plain, startAfter, embed, dims, t.rows, calls0, done0, done0, Completed)
    modifies t
    ensures t.Valid() && t.nextId == old(t.nextId)
    ensures RunInv(rows0, plain, t.rows, startAfter, dims, done, lastId) && totalEmbedded == |done|
    ensures Logged(progress, done)
    ensures outcome.Completed? ==> LastLogged(progress, totalEmbedded, lastId)
    ensures !fetched ==> outcome.Completed? && done == done0 && lastId == lastId0 && progress == progress0
    ensures !fetched && batchSize > 0 ==> Unembedded(t.rows, startAfter) == {}
    ensures fetched && outcome.Completed? ==> Unembedded(rows0, lastId) < Unembedded(rows0, lastId0)
    ensures !outcome.Completed? ==> IsLeast(outcome.id, Unembedded(t.rows, lastId))
    ensures outcome.LengthMismatch? ==> outcome.expected == dims && outcome.got != dims
    ensures RunCallsOk(rows0, plain, startAfter, embed, dims, t.rows, calls, sent, done, outcome)
  {
    ghost var rows := t.rows;
    ghost var written, calls', sent', fetch;
    fetched, outcome, lastId, totalEmbedded, written, calls', sent', fetch :=
      NextBatch(t, batchSize, dims, embed, lastId0, total0, rows0, plain, startAfter, done0);
    calls, sent := RunCalls(rows0, plain, startAfter, embed, dims, rows, t.rows, calls0, done0, calls', sent', written, outcome);
    LoggedExtend(progress0, done0, written);
    done := done0 + written;
    progress := progress0;
    if fetched && outcome.Completed? {
      var line := Progress(totalEmbedded, lastId);
      LoggedAppend(progress, done, line);
      progress := progress + [line];
    }
  }

  /** The backfill: from the start id on, fetch up to `batchSize` rows that have no embedding,
      stop when none are left, embed and write each batch, and print the totals after each one.
      `done` is the ids written, in order. */
  method Run(t: PasukTable, startAfter: int, batchSize: nat, dims: nat, embed: Provider)
    returns (outcome: Outcome, totalEmbedded: nat, lastId: int, progress: seq<Progress>,
             ghost done: seq<int>, ghost plain: map<int, string>, ghost calls: seq<seq<string>>,
             ghost sent: seq<int>)
    requires t.Valid()
    modifies t
    ensures t.Valid() && t.nextId == old(t.nextId)
    ensures PlainFor(old(t.rows), plain)
    ensures RunInv(old(t.rows), plain, t.rows, startAfter, dims, done, lastId) && totalEmbedded == |done|
    ensures outcome.Completed? && batchSize > 0 ==> Unembedded(t.rows, startAfter) == {}
    ensures !outcome.Completed? ==> IsLeast(outcome.id, Unembedded(t.rows, lastId))
    ensures outcome.LengthMismatch? ==> outcome.expected == dims && outcome.got != dims
    ensures Logged(progress, done)
    ensures outcome.Completed? ==> LastLogged(progress, totalEmbedded, lastId)
    ensures RunCallsOk(old(t.rows), plain, startAfter, embed, dims, t.rows, calls, sent, done, outcome)
  {
    ghost var rows0 := t.rows;
    PlainExists(rows0);
    plain :| PlainFor(rows0, plain);
    lastId, totalEmbedded := startAfter, 0;
    progress, done := [], [];
    calls, sent := [], [];
    assert Concat<string>([]) == [];
    while true
      invariant t.Valid() && t.nextId == old(t.nextId)
      invariant RunInv(rows0, plain, t.rows, startAfter, dims, done, lastId) && totalEmbedded == |done|
      invariant Logged(progress, done) && LastLogged(progress, totalEmbedded, lastId)
      invariant RunCallsOk(rows0, plain, startAfter, embed, dims, t.rows, calls, sent, done, Completed)
      decreases Unembedded(rows0, lastId)
    {
      var fetched, o;
      ghost var lastId0 := lastId;
      fetched, o, lastId, totalEmbedded, progress, done, calls, sent :=
        Pass(t, batchSize, dims, embed, lastId, totalEmbedded, progress, rows0, plain, startAfter, done, calls);
      if !fetched {
        break;
      }
      if !o.Completed? {
        outcome := o;
        return;
      }
    }
    outcome := Completed;
  }
}
