/** The "Pasuk" table both scripts work on: one row per verse, a serial integer id,
    and a unique natural key (book, chapter, verse). */
module Store {
  import opened Wrappers

  /** An embedding vector; only its length and identity matter here. */
  type Vector = seq<real>

  /** One verse row. `hebrewTextPlain` and `embedding` are NULL until the backfill fills them. */
  datatype Pasuk = Pasuk(
    book: string,
    bookOrder: int,
    chapter: int,
    verse: int,
    hebrewText: string,
    hebrewTextPlain: Option<string>,
    embedding: Option<Vector>)

  /** The unique key `book_chapter_verse`. */
  datatype Key = Key(book: string, chapter: int, verse: int)

  function KeyOf(p: Pasuk): Key {
    Key(p.book, p.chapter, p.verse)
  }

  /** One row of the backfill query's answer: `SELECT id, hebrew_text`. */
  datatype Selected = Selected(id: int, hebrewText: string)

  function Ids(s: seq<Selected>): (r: seq<int>)
    ensures |r| == |s| && forall k :: 0 <= k < |s| ==> r[k] == s[k].id
  {
    seq(|s|, k requires 0 <= k < |s| => s[k].id)
  }

  lemma IdsSlice(s: seq<Selected>, i: nat, j: nat)
    requires i <= j <= |s|
    ensures Ids(s[i..j]) == Ids(s)[i..j]
  {
  }

  /** No two rows share a natural key. */
  ghost predicate UniqueKeys(rows: map<int, Pasuk>) {
    forall i, j {:trigger KeyOf(rows[i]), KeyOf(rows[j])} ::
      i in rows && j in rows && i != j ==> KeyOf(rows[i]) != KeyOf(rows[j])
  }

  /** The natural keys present in the table. */
  ghost function KeysOf(rows: map<int, Pasuk>): set<Key> {
    set id | id in rows :: KeyOf(rows[id])
  }

  /** The ids the backfill still has to do past `after`: `id > after AND embedding IS NULL`. */
  ghost function Unembedded(rows: map<int, Pasuk>, after: int): set<int> {
    set id | id in rows && id > after && rows[id].embedding.None?
  }

  ghost predicate Ascending(s: seq<int>) {
    forall k, l :: 0 <= k < l < |s| ==> s[k] < s[l]
  }

  /** `ids` are the `limit` least members of `pool` in ascending order, or all of `pool` when it
      has fewer: any member left out lies beyond a full answer. */
  ghost predicate LeastIds(ids: seq<int>, pool: set<int>, limit: nat) {
    |ids| <= limit && Ascending(ids) && (forall k :: 0 <= k < |ids| ==> ids[k] in pool) &&
    forall id :: id in pool && id !in ids ==> |ids| == limit && forall k :: 0 <= k < |ids| ==> ids[k] < id
  }

  /** `batch` is an answer to the backfill query `SELECT id, hebrew_text ... WHERE id > after AND
      embedding IS NULL ORDER BY id LIMIT limit` on `rows`: the least `limit` ids that need an
      embedding, by ascending id, each with its text. */
  ghost predicate Fetched(rows: map<int, Pasuk>, after: int, limit: nat, batch: seq<Selected>) {
    LeastIds(Ids(batch), Unembedded(rows, after), limit) &&
    forall k :: 0 <= k < |batch| ==> batch[k].id in rows && batch[k].hebrewText == rows[batch[k].id].hebrewText
  }

  /** `m` is the least element of `s`. */
  ghost predicate IsLeast(m: int, s: set<int>) {
    m in s && forall x :: x in s ==> m <= x
  }

  /** Every non-empty finite set of integers has a least element. */
  lemma {:induction false} HasLeast(s: set<int>)
    requires s != {}
    ensures exists m :: m in s && forall x :: x in s ==> m <= x
    decreases |s|
  {
    if forall y :: y !in s {
      assert false;
    }
    var y :| y in s;
    var rest := s - {y};
    assert forall x :: x in s ==> x == y || x in rest;
    if rest == {} {
      assert forall x :: x in s ==> y <= x;
    } else {
      HasLeast(rest);
      var m :| m in rest && forall x :: x in rest ==> m <= x;
      var least := if y < m then y else m;
      assert least in s && forall x :: x in s ==> least <= x;
    }
  }

  /** The table after `UPDATE "Pasuk" SET hebrew_text_plain = plain, embedding = vector WHERE id = id`. */
  function SetRow(rows: map<int, Pasuk>, id: int, plain: string, vector: Vector): (r: map<int, Pasuk>)
    ensures r.Keys == rows.Keys
    ensures id in rows ==> r[id] == rows[id].(hebrewTextPlain := Some(plain), embedding := Some(vector))
    ensures forall other :: other in rows && other != id ==> r[other] == rows[other]
  {
    if id in rows then rows[id := rows[id].(hebrewTextPlain := Some(plain), embedding := Some(vector))] else rows
  }

  /** The table as a value: its rows and the next value of its id sequence. */
  datatype Table = Table(rows: map<int, Pasuk>, nextId: int)

  /** The unique constraint on the natural key holds, and every id was drawn from the sequence. */
  ghost predicate Fresh(t: Table) {
    UniqueKeys(t.rows) && forall id :: id in t.rows ==> id < t.nextId
  }

  /** The id of a row holding the given natural key. */
  ghost function RowWithKey(rows: map<int, Pasuk>, key: Key): (id: int)
    requires key in KeysOf(rows)
    ensures id in rows && KeyOf(rows[id]) == key
  {
    var id :| id in rows && KeyOf(rows[id]) == key; id
  }

  /** The upsert on the natural key `book_chapter_verse`: an existing row gets the new book order
      and text; otherwise a row is inserted under the next id, without plain text or embedding. */
  ghost function Upserted(t: Table, key: Key, bookOrder: int, text: string): (r: Table)
    ensures key in KeysOf(t.rows) ==> r.rows.Keys == t.rows.Keys && r.nextId == t.nextId
    ensures key !in KeysOf(t.rows) ==> r.rows.Keys == t.rows.Keys + {t.nextId} && r.nextId == t.nextId + 1
  {
    if key in KeysOf(t.rows) then
      var id := RowWithKey(t.rows, key);
      Table(t.rows[id := t.rows[id].(bookOrder := bookOrder, hebrewText := text)], t.nextId)
    else
      Table(t.rows[t.nextId := Pasuk(key.book, bookOrder, key.chapter, key.verse, text, None, None)], t.nextId + 1)
  }

  /** The upsert keeps the unique constraint and the id sequence ahead of every id, and adds its
      key to the keys present. */
  lemma UpsertedFresh(t: Table, key: Key, bookOrder: int, text: string)
    requires Fresh(t)
    ensures var r := Upserted(t, key, bookOrder, text);
      Fresh(r) && t.nextId <= r.nextId && KeysOf(r.rows) == KeysOf(t.rows) + {key}
  {
    var r := Upserted(t, key, bookOrder, text);
    if key in KeysOf(t.rows) {
      UpdateKeepsKeys(t, RowWithKey(t.rows, key), r.rows);
    } else {
      InsertAddsKey(t, key, r.rows);
    }
  }

  /** After the upsert the row holding its key has the new book order and text; rows with other
      keys are untouched; rows that were there keep their key, plain text and embedding; and a
      row added is new, with neither plain text nor embedding. */
  lemma UpsertedRows(t: Table, key: Key, bookOrder: int, text: string)
    requires Fresh(t)
    ensures var r := Upserted(t, key, bookOrder, text);
      t.rows.Keys <= r.rows.Keys &&
      (forall id :: id in r.rows && KeyOf(r.rows[id]) == key ==>
        r.rows[id].bookOrder == bookOrder && r.rows[id].hebrewText == text) &&
      (forall id :: id in t.rows && KeyOf(t.rows[id]) != key ==> r.rows[id] == t.rows[id]) &&
      (forall id :: id in t.rows ==>
        KeyOf(r.rows[id]) == KeyOf(t.rows[id]) && r.rows[id].hebrewTextPlain == t.rows[id].hebrewTextPlain &&
        r.rows[id].embedding == t.rows[id].embedding) &&
      (forall id :: id in r.rows && id !in t.rows ==>
        t.nextId <= id && r.rows[id].hebrewTextPlain.None? && r.rows[id].embedding.None?)
  {
    UpsertedFresh(t, key, bookOrder, text);
  }

  /** An upsert never clears an embedding: a verse imported again with new text keeps the vector
      of its old text, and only a row it inserts joins the rows without one. */
  lemma UpsertedUnembedded(t: Table, key: Key, bookOrder: int, text: string, after: int)
    requires Fresh(t)
    ensures Unembedded(Upserted(t, key, bookOrder, text).rows, after) ==
      Unembedded(t.rows, after) + (if key !in KeysOf(t.rows) && t.nextId > after then {t.nextId} else {})
  {
    UpsertedRows(t, key, bookOrder, text);
  }

  /** Changing fields other than the natural key of one row keeps the keys and their uniqueness. */
  lemma UpdateKeepsKeys(t: Table, id: int, rows: map<int, Pasuk>)
    requires Fresh(t) && id in t.rows && rows.Keys == t.rows.Keys
    requires forall i :: i in rows && i != id ==> rows[i] == t.rows[i]
    requires KeyOf(rows[id]) == KeyOf(t.rows[id])
    ensures UniqueKeys(rows) && KeysOf(rows) == KeysOf(t.rows)
  {
    assert forall i :: i in rows ==> KeyOf(rows[i]) == KeyOf(t.rows[i]);
  }

  /** A row inserted under the next id with a key not yet present adds exactly that key and keeps
      the keys unique. */
  lemma InsertAddsKey(t: Table, key: Key, rows: map<int, Pasuk>)
    requires Fresh(t) && key !in KeysOf(t.rows)
    requires rows.Keys == t.rows.Keys + {t.nextId} && KeyOf(rows[t.nextId]) == key
    requires forall i :: i in t.rows ==> rows[i] == t.rows[i]
    ensures UniqueKeys(rows) && KeysOf(rows) == KeysOf(t.rows) + {key}
  {
    forall k | k in KeysOf(rows)
      ensures k in KeysOf(t.rows) + {key}
    {
      var i :| i in rows && KeyOf(rows[i]) == k;
      if i != t.nextId {
        assert KeyOf(t.rows[i]) == k;
      }
    }
    forall k | k in KeysOf(t.rows)
      ensures k in KeysOf(rows)
    {
      var i :| i in t.rows && KeyOf(t.rows[i]) == k;
      assert KeyOf(rows[i]) == k;
    }
    forall i, j | i in rows && j in rows && i != j
      ensures KeyOf(rows[i]) != KeyOf(rows[j])
    {
      if i == t.nextId {
        assert KeyOf(t.rows[j]) in KeysOf(t.rows);
      } else if j == t.nextId {
        assert KeyOf(t.rows[i]) in KeysOf(t.rows);
      }
    }
  }

  class PasukTable {
    /** The rows by id. */
    var rows: map<int, Pasuk>
    /** The next value of the id sequence. */
    var nextId: int

    /** The unique constraint on the natural key, and every id was drawn from the sequence. */
    ghost predicate Valid()
      reads this
    {
      Fresh(Table(rows, nextId))
    }

    constructor (initial: map<int, Pasuk>, next: int)
      requires UniqueKeys(initial) && forall id :: id in initial ==> id < next
      ensures Valid() && rows == initial && nextId == next
    {
      rows := initial;
      nextId := next;
    }

    /** The backfill query (see `Fetched`). */
    method SelectUnembedded(after: int, limit: nat) returns (batch: seq<Selected>)
      ensures Fetched(rows, after, limit, batch)
    {
      var pool := set id | id in rows && id > after && rows[id].embedding.None?;
      batch := [];
      while |batch| < limit && pool != {}
        invariant |batch| <= limit
        invariant pool <= Unembedded(rows, after)
        invariant Ascending(Ids(batch))
        invariant forall k :: 0 <= k < |batch| ==>
          batch[k].id in Unembedded(rows, after) && batch[k].hebrewText == rows[batch[k].id].hebrewText
        invariant forall k, id :: 0 <= k < |batch| && id in pool ==> batch[k].id < id
        invariant forall id :: id in Unembedded(rows, after) ==> id in pool || id in Ids(batch)
        decreases limit - |batch|
      {
        HasLeast(pool);
        var m :| m in pool && forall x :: x in pool ==> m <= x;
        ghost var before := batch;
        batch := batch + [Selected(m, rows[m].hebrewText)];
        assert Ids(batch) == Ids(before) + [m];
        pool := pool - {m};
      }
    }

    /** The backfill's `UPDATE ... WHERE id = ...`: sets the plain text and the embedding of one row;
        an id not in the table changes nothing. */
    method SetEmbedding(id: int, plain: string, vector: Vector)
      modifies this
      ensures nextId == old(nextId) && rows == SetRow(old(rows), id, plain, vector)
      ensures old(Valid()) ==> Valid()
    {
      if id in rows {
        ghost var before := rows;
        rows := rows[id := rows[id].(hebrewTextPlain := Some(plain), embedding := Some(vector))];
        assert forall i :: i in rows ==> KeyOf(rows[i]) == KeyOf(before[i]);
      }
    }

    /** The import's upsert on the natural key (see `Upserted`). Returns the id of the row written. */
    method Upsert(key: Key, bookOrder: int, text: string) returns (id: int)
      requires Valid()
      modifies this
      ensures Valid()
      ensures Table(rows, nextId) == Upserted(Table(old(rows), old(nextId)), key, bookOrder, text)
      ensures id in rows && KeyOf(rows[id]) == key
    {
      UpsertedFresh(Table(rows, nextId), key, bookOrder, text);
      if i :| i in rows && KeyOf(rows[i]) == key {
        id := i;
        assert id == RowWithKey(rows, key);
        rows := rows[id := rows[id].(bookOrder := bookOrder, hebrewText := text)];
      } else {
        id := nextId;
        rows := rows[id := Pasuk(key.book, bookOrder, key.chapter, key.verse, text, None, None)];
        nextId := nextId + 1;
      }
    }
  }
}
