/**
 The live resource table (web/src/composables/useResourceList.ts): a row array with a key-to-position index kept
 across watch events, and loads that may overtake one another.
 */
module ResourceRows {
  import opened Wrappers

  /** A Table row: what identifies it, and the cells. `first` is the text of the first cell. */
  datatype Row = Row(uid: Option<string>, name: Option<string>, namespace: Option<string>, first: string,
      cells: seq<string>)

  function RowKey(row: Row): string {
    if row.uid.Some? then row.uid.value
    else if row.name.Some? then NamespaceOf(row) + "/" + row.name.value
    else row.first
  }

  /** The part of a key before its first slash. */
  function NamespacePart(key: string): string {
    if key == "" || key[0] == '/' then "" else [key[0]] + NamespacePart(key[1..])
  }

  lemma {:induction false} NamespaceReads(namespace: string, name: string)
    requires '/' !in namespace
    ensures NamespacePart(namespace + "/" + name) == namespace
    ensures (namespace + "/" + name)[|namespace| + 1..] == name
  {
    if namespace != "" {
      NamespaceReads(namespace[1..], name);
      assert (namespace + "/" + name)[1..] == namespace[1..] + "/" + name;
    }
  }

  function NamespaceOf(row: Row): string {
    if row.namespace.Some? then row.namespace.value else ""
  }

  /** Objects without a uid have the same key only if they have the same name in the same namespace, or in none. */
  lemma KeysTellObjectsApart(a: Row, b: Row)
    requires a.uid.None? && b.uid.None? && a.name.Some? && b.name.Some?
    requires (a.namespace.Some? ==> '/' !in a.namespace.value) && (b.namespace.Some? ==> '/' !in b.namespace.value)
    ensures var (x, y) := (if a.namespace.Some? then a.namespace.value else "",
                           if b.namespace.Some? then b.namespace.value else "");
            RowKey(a) == RowKey(b) <==> a.name == b.name && x == y
  {
    NamespaceReads(NamespaceOf(a), a.name.value);
    NamespaceReads(NamespaceOf(b), b.name.value);
  }

  /** Objects with a uid have the same key exactly if it is the same uid, whatever they are called and show. */
  lemma KeysAreUids(a: Row, b: Row)
    requires a.uid.Some? && b.uid.Some?
    ensures RowKey(a) == RowKey(b) <==> a.uid == b.uid
  {
  }

  /** Rows that name no object at all are told apart by their first cell. */
  lemma KeysAreFirstCells(a: Row, b: Row)
    requires a.uid.None? && a.name.None? && b.uid.None? && b.name.None?
    ensures RowKey(a) == RowKey(b) <==> a.first == b.first
  {
  }

  // ---------------------------------------------------------------- the naive table

  /** The position of the last row with this key. */
  function LastIndex(rows: seq<Row>, key: string): (r: Option<nat>)
    ensures r.Some? ==> r.value < |rows| && RowKey(rows[r.value]) == key
  {
    if rows == [] then None
    else if RowKey(rows[|rows| - 1]) == key then Some(|rows| - 1)
    else LastIndex(rows[..|rows| - 1], key)
  }

  function Upserted(rows: seq<Row>, row: Row): seq<Row> {
    match LastIndex(rows, RowKey(row))
    case Some(i) => rows[i := row]
    case None => rows + [row]
  }

  function UpsertedAll(rows: seq<Row>, incoming: seq<Row>): seq<Row> {
    if incoming == [] then rows
    else Upserted(UpsertedAll(rows, incoming[..|incoming| - 1]), incoming[|incoming| - 1])
  }

  function Keys(rows: seq<Row>): set<string> {
    set row | row in rows :: RowKey(row)
  }

  function Without(rows: seq<Row>, keys: set<string>): seq<Row> {
    if rows == [] then []
    else
      var front := Without(rows[..|rows| - 1], keys);
      var last := rows[|rows| - 1];
      if RowKey(last) in keys then front else front + [last]
  }

  datatype Change = Change(incoming: seq<Row>, removed: bool)

  function Changed(rows: seq<Row>, change: Change): seq<Row> {
    if change.removed then Without(rows, Keys(change.incoming)) else UpsertedAll(rows, change.incoming)
  }

  function Replayed(rows: seq<Row>, changes: seq<Change>): seq<Row> {
    if changes == [] then rows
    else Changed(Replayed(rows, changes[..|changes| - 1]), changes[|changes| - 1])
  }

  // ---------------------------------------------------------------- loads and events

  datatype EventKind = Added | Modified | Deleted | Bookmark
  datatype WatchEvent = WatchEvent(kind: EventKind, version: Option<string>, rows: seq<Row>)

  /** What a walk over the pages of the collection brings back. */
  datatype Walk = Walk(rows: seq<Row>, version: string, token: string)

  datatype Listing = Listing(rows: seq<Row>, version: string, token: string, failed: bool, loading: bool, loadGen: nat)

  const Blank := Listing([], "", "", false, false, 0)

  function Applied(l: Listing, event: WatchEvent): Listing {
    var l1 := if event.version.Some? && event.version.value != "" then l.(version := event.version.value) else l;
    if event.kind.Bookmark? then l1 else l1.(rows := Changed(l.rows, Change(event.rows, event.kind.Deleted?)))
  }

  function Begun(l: Listing, hasRef: bool): Listing {
    var l1 := l.(loadGen := l.loadGen + 1);
    if hasRef then l1.(loading := true, failed := false, rows := []) else l1
  }

  function Settled(l: Listing, gen: nat, walked: Option<Walk>): Listing {
    if gen != l.loadGen then l
    else
      match walked
      case Some(w) => l.(rows := w.rows, version := w.version, token := w.token, loading := false)
      case None => l.(rows := [], failed := true, loading := false)
  }

  /** An event moves the resourceVersion to the one it names, if it names one, and but for the rows nothing else. */
  lemma EventMovesVersion(l: Listing, event: WatchEvent)
    ensures event.version == None || event.version == Some("") ==> Applied(l, event).version == l.version
    ensures event.version.Some? && event.version.value != "" ==> Some(Applied(l, event).version) == event.version
    ensures Applied(l, event) == l.(rows := Applied(l, event).rows, version := Applied(l, event).version)
    ensures event.kind == Bookmark ==> Applied(l, event).rows == l.rows
  {
  }

  /**
   What a load leaves behind. Until it settles: an empty table, no error, the spinner on. Then the walk's rows, version
   and token, or an empty table and an error, and the spinner off; the version and the token are then those of before.
   */
  lemma LoadsExactly(l: Listing, walked: Option<Walk>)
    ensures var begun := Begun(l, true);
            && begun == Listing([], l.version, l.token, false, true, l.loadGen + 1)
            && Settled(begun, begun.loadGen, walked) ==
                 match walked
                 case Some(w) => Listing(w.rows, w.version, w.token, false, false, l.loadGen + 1)
                 case None => Listing([], l.version, l.token, true, false, l.loadGen + 1)
  {
  }

  // ---------------------------------------------------------------- the index

  function IndexOf(index: map<string, nat>, key: string): Option<nat> {
    if key in index then Some(index[key]) else None
  }

  /** The index sends exactly the keys present to their last position. */
  ghost predicate Indexed(rows: seq<Row>, index: map<string, nat>) {
    forall key: string :: IndexOf(index, key) == LastIndex(rows, key)
  }

  lemma {:induction false} SameKeysSameIndex(a: seq<Row>, b: seq<Row>, key: string)
    requires |a| == |b| && forall i | 0 <= i < |a| :: RowKey(a[i]) == RowKey(b[i])
    ensures LastIndex(a, key) == LastIndex(b, key)
  {
    if a != [] {
      SameKeysSameIndex(a[..|a| - 1], b[..|b| - 1], key);
    }
  }

  lemma AppendIndexed(rows: seq<Row>, index: map<string, nat>, row: Row)
    requires Indexed(rows, index)
    ensures Indexed(rows + [row], index[RowKey(row) := |rows|])
  {
    var more := rows + [row];
    assert more[..|rows|] == rows;
    forall key: string ensures IndexOf(index[RowKey(row) := |rows|], key) == LastIndex(more, key) {
      assert IndexOf(index, key) == LastIndex(rows, key);
    }
  }

  lemma ReplaceIndexed(rows: seq<Row>, index: map<string, nat>, i: nat, row: Row)
    requires Indexed(rows, index) && i < |rows| && RowKey(rows[i]) == RowKey(row)
    ensures Indexed(rows[i := row], index)
  {
    forall key: string ensures IndexOf(index, key) == LastIndex(rows[i := row], key) {
      SameKeysSameIndex(rows, rows[i := row], key);
    }
  }

  class Table {
    var rows: seq<Row>
    var indexByKey: map<string, nat>
    var resourceVersion: string
    var continueToken: string
    var failed: bool
    var loading: bool
    var loadGen: nat

    ghost predicate Valid()
      reads this
    {
      Indexed(rows, indexByKey)
    }

    ghost function AsListing(): Listing
      reads this
    {
      Listing(rows, resourceVersion, continueToken, failed, loading, loadGen)
    }

    constructor ()
      ensures Valid() && AsListing() == Blank
    {
      rows, indexByKey, resourceVersion, continueToken := [], map[], "", "";
      failed, loading, loadGen := false, false, 0;
    }

    /** Every wholesale assignment of the collection goes through here, and rebuilds the index. */
    method SetRows(next: seq<Row>)
      modifies this`rows, this`indexByKey
      ensures Valid() && rows == next
    {
      rows := next;
      indexByKey := map[];
      for i := 0 to |next|
        invariant rows == next && Indexed(next[..i], indexByKey)
      {
        AppendIndexed(next[..i], indexByKey, next[i]);
        assert next[..i] + [next[i]] == next[..i + 1];
        indexByKey := indexByKey[RowKey(next[i]) := i];
      }
      assert next[..|next|] == next;
    }

    /** An event's rows: through the index, in place of what a search of the table would find. */
    method UpsertRows(incoming: seq<Row>, removed: bool)
      requires Valid()
      modifies this`rows, this`indexByKey
      ensures Valid() && rows == Changed(old(rows), Change(incoming, removed))
    {
      if |incoming| == 0 {
        WithoutNothing(rows);
        return;
      }
      if removed {
        var removedKeys := Keys(incoming);
        SetRows(Without(rows, removedKeys));
        return;
      }
      UpsertEach(incoming);
    }

    /** The hot path: every row through the index, which is kept in step rather than rebuilt. */
    method UpsertEach(incoming: seq<Row>)
      requires Valid()
      modifies this`rows, this`indexByKey
      ensures Valid() && rows == UpsertedAll(old(rows), incoming)
    {
      var next := rows;
      for i := 0 to |incoming|
        invariant rows == old(rows) && Indexed(next, indexByKey)
        invariant next == UpsertedAll(old(rows), incoming[..i])
      {
        assert incoming[..i + 1][..i] == incoming[..i];
        next := UpsertOne(next, incoming[i]);
      }
      assert incoming[..|incoming|] == incoming;
      rows := next;
    }

    method UpsertOne(rows0: seq<Row>, row: Row) returns (next: seq<Row>)
      requires Indexed(rows0, indexByKey)
      modifies this`indexByKey
      ensures Indexed(next, indexByKey) && next == Upserted(rows0, row)
    {
      next := rows0;
      var key := RowKey(row);
      assert IndexOf(indexByKey, key) == LastIndex(next, key);
      if key in indexByKey {
        ReplaceIndexed(next, indexByKey, indexByKey[key], row);
        next := next[indexByKey[key] := row];
      } else {
        AppendIndexed(next, indexByKey, row);
        indexByKey := indexByKey[key := |next|];
        next := next + [row];
      }
    }

    /** A watch event. Its rows are those of the Table it carries, or of the object converted to one. */
    method HandleEvent(event: WatchEvent)
      requires Valid()
      modifies this`rows, this`indexByKey, this`resourceVersion
      ensures Valid() && AsListing() == Applied(old(AsListing()), event)
    {
      if event.kind.Bookmark? {
        if event.version.Some? && event.version.value != "" {
          resourceVersion := event.version.value;
        }
        return;
      }
      if event.version.Some? && event.version.value != "" {
        resourceVersion := event.version.value;
      }
      UpsertRows(event.rows, event.kind.Deleted?);
    }

    /** load() up to its request. */
    method BeginLoad(hasRef: bool) returns (gen: nat)
      requires Valid()
      modifies this
      ensures Valid() && AsListing() == Begun(old(AsListing()), hasRef) && gen == loadGen
    {
      loadGen := loadGen + 1;
      gen := loadGen;
      if !hasRef {
        return;
      }
      loading := true;
      failed := false;
      SetRows([]);
    }

    /** The rest of load(), once the walk has come back or failed: a superseded one is dropped. */
    method LoadSettled(gen: nat, walked: Option<Walk>)
      requires Valid()
      modifies this
      ensures Valid() && AsListing() == Settled(old(AsListing()), gen, walked)
    {
      if gen != loadGen {
        return;
      }
      if walked.Some? {
        SetRows(walked.value.rows);
        resourceVersion := walked.value.version;
        continueToken := walked.value.token;
      } else {
        failed := true;
        SetRows([]);
      }
      loading := false;
    }
  }

  lemma {:induction false} WithoutNothing(rows: seq<Row>)
    ensures Without(rows, {}) == rows && Keys([]) == {}
  {
    if rows != [] {
      WithoutNothing(rows[..|rows| - 1]);
    }
  }

  // ---------------------------------------------------------------- what the table shows

  /** The row a key stands for. */
  function Lookup(rows: seq<Row>, key: string): Option<Row> {
    match LastIndex(rows, key)
    case Some(i) => Some(rows[i])
    case None => None
  }

  lemma {:induction false} PresentKeys(rows: seq<Row>, key: string)
    ensures key in Keys(rows) <==> LastIndex(rows, key).Some?
  {
    if rows != [] {
      var front, last := rows[..|rows| - 1], rows[|rows| - 1];
      PresentKeys(front, key);
      assert Keys(rows) == Keys(front) + {RowKey(last)} by {
        assert forall row :: row in rows <==> row in front || row == last;
      }
    }
  }

  lemma LookupAppended(rows: seq<Row>, row: Row, key: string)
    ensures Lookup(rows + [row], key) == if key == RowKey(row) then Some(row) else Lookup(rows, key)
  {
    assert (rows + [row])[..|rows|] == rows;
  }

  lemma LookupLast(rows: seq<Row>, key: string)
    requires rows != []
    ensures var front, last := rows[..|rows| - 1], rows[|rows| - 1];
            Lookup(rows, key) == if key == RowKey(last) then Some(last) else Lookup(front, key)
  {
    LookupAppended(rows[..|rows| - 1], rows[|rows| - 1], key);
    assert rows[..|rows| - 1] + [rows[|rows| - 1]] == rows;
  }

  lemma LookupUpserted(rows: seq<Row>, row: Row, key: string)
    ensures Lookup(Upserted(rows, row), key) == if key == RowKey(row) then Some(row) else Lookup(rows, key)
  {
    match LastIndex(rows, RowKey(row))
    case Some(i) => SameKeysSameIndex(rows, rows[i := row], key);
    case None => LookupAppended(rows, row, key);
  }

  lemma {:induction false} LookupUpsertedAll(rows: seq<Row>, incoming: seq<Row>, key: string)
    ensures Lookup(UpsertedAll(rows, incoming), key)
         == if Lookup(incoming, key).Some? then Lookup(incoming, key) else Lookup(rows, key)
  {
    if incoming != [] {
      var front, last := incoming[..|incoming| - 1], incoming[|incoming| - 1];
      LookupUpsertedAll(rows, front, key);
      LookupUpserted(UpsertedAll(rows, front), last, key);
      LookupLast(incoming, key);
    }
  }

  lemma {:induction false} LookupWithout(rows: seq<Row>, keys: set<string>, key: string)
    ensures Lookup(Without(rows, keys), key) == if key in keys then None else Lookup(rows, key)
  {
    if rows != [] {
      var front, last := rows[..|rows| - 1], rows[|rows| - 1];
      LookupWithout(front, keys, key);
      LookupLast(rows, key);
      LookupAppended(Without(front, keys), last, key);
    }
  }

  /** What one key shows after a change is what the change says of it, if it says anything. */
  lemma ChangeDecides(rows: seq<Row>, change: Change, key: string)
    ensures Lookup(Changed(rows, change), key)
         == if key !in Keys(change.incoming) then Lookup(rows, key)
            else if change.removed then None else Lookup(change.incoming, key)
  {
    PresentKeys(change.incoming, key);
    if change.removed {
      LookupWithout(rows, Keys(change.incoming), key);
    } else {
      LookupUpsertedAll(rows, change.incoming, key);
    }
  }

  /** The changes that say something of a key. */
  function Verdict(changes: seq<Change>, key: string, before: Option<Row>): Option<Row> {
    if changes == [] then before
    else
      var last := changes[|changes| - 1];
      if key !in Keys(last.incoming) then Verdict(changes[..|changes| - 1], key, before)
      else if last.removed then None else Lookup(last.incoming, key)
  }

  /** After any sequence of events, every key shows what the last event about it said. */
  lemma {:induction false} LastEventWins(rows: seq<Row>, changes: seq<Change>, key: string)
    ensures Lookup(Replayed(rows, changes), key) == Verdict(changes, key, Lookup(rows, key))
  {
    if changes != [] {
      var front := changes[..|changes| - 1];
      LastEventWins(rows, front, key);
      ChangeDecides(Replayed(rows, front), changes[|changes| - 1], key);
    }
  }

  // ---------------------------------------------------------------- a table of objects with uids

  predicate AllUids(rows: seq<Row>) {
    forall row | row in rows :: row.uid.Some?
  }

  /** The rows of one object. */
  function OfUid(rows: seq<Row>, uid: string): seq<Row> {
    if rows == [] then []
    else
      var front, last := OfUid(rows[..|rows| - 1], uid), rows[|rows| - 1];
      if last.uid == Some(uid) then front + [last] else front
  }

  function ReplacedLast(rows: seq<Row>, row: Row): seq<Row> {
    if rows == [] then [row] else rows[..|rows| - 1] + [row]
  }

  lemma OfUidAppended(rows: seq<Row>, row: Row, uid: string)
    ensures OfUid(rows + [row], uid) == if row.uid == Some(uid) then OfUid(rows, uid) + [row] else OfUid(rows, uid)
  {
    assert (rows + [row])[..|rows|] == rows;
  }

  /** An upsert replaces the last row of its object, or adds one; it touches no other object. */
  lemma {:induction false} OfUidUpserted(rows: seq<Row>, row: Row, uid: string)
    requires AllUids(rows) && row.uid.Some?
    ensures AllUids(Upserted(rows, row))
    ensures OfUid(Upserted(rows, row), uid)
         == if row.uid == Some(uid) then ReplacedLast(OfUid(rows, uid), row) else OfUid(rows, uid)
  {
    if rows == [] {
      OfUidAppended([], row, uid);
      assert [] + [row] == [row];
    } else {
      var front, last := rows[..|rows| - 1], rows[|rows| - 1];
      assert rows == front + [last];
      KeysAreUids(last, row);
      if RowKey(last) == RowKey(row) {
        UpsertLast(front, last, row);
        OfUidAppended(front, row, uid);
        OfUidAppended(front, last, uid);
      } else {
        OfUidUpserted(front, row, uid);
        OfUidUpsertBefore(front, last, row, uid);
      }
    }
  }

  lemma UpsertLast(front: seq<Row>, last: Row, row: Row)
    requires RowKey(last) == RowKey(row)
    ensures Upserted(front + [last], row) == front + [row]
  {
    assert (front + [last])[..|front|] == front;
  }

  lemma OfUidUpsertBefore(front: seq<Row>, last: Row, row: Row, uid: string)
    requires AllUids(front) && last.uid.Some? && row.uid.Some? && last.uid != row.uid
    requires AllUids(Upserted(front, row))
    requires OfUid(Upserted(front, row), uid)
          == if row.uid == Some(uid) then ReplacedLast(OfUid(front, uid), row) else OfUid(front, uid)
    ensures AllUids(Upserted(front + [last], row))
    ensures OfUid(Upserted(front + [last], row), uid)
         == if row.uid == Some(uid) then ReplacedLast(OfUid(front + [last], uid), row) else OfUid(front + [last], uid)
  {
    KeysAreUids(last, row);
    UpsertBefore(front, last, row);
    OfUidAppended(front, last, uid);
    if LastIndex(front, RowKey(row)).Some? {
      OfUidAppended(Upserted(front, row), last, uid);
    } else {
      OfUidAppended(front + [last], row, uid);
      NoneOfUid(front, row);
    }
  }

  lemma UpsertBefore(front: seq<Row>, last: Row, row: Row)
    requires RowKey(last) != RowKey(row)
    ensures Upserted(front + [last], row)
         == if LastIndex(front, RowKey(row)).Some? then Upserted(front, row) + [last] else front + [last] + [row]
  {
    assert (front + [last])[..|front|] == front;
  }

  lemma {:induction false} NoneOfUid(rows: seq<Row>, row: Row)
    requires AllUids(rows) && row.uid.Some? && LastIndex(rows, RowKey(row)).None?
    ensures OfUid(rows, row.uid.value) == []
  {
    if rows != [] {
      KeysAreUids(rows[|rows| - 1], row);
      NoneOfUid(rows[..|rows| - 1], row);
    }
  }

  lemma {:induction false} OfUidUpsertedAll(rows: seq<Row>, incoming: seq<Row>, uid: string)
    requires AllUids(rows) && AllUids(incoming)
    ensures AllUids(UpsertedAll(rows, incoming))
    ensures var news := OfUid(incoming, uid);
            OfUid(UpsertedAll(rows, incoming), uid)
            == WithNews(OfUid(rows, uid), news)
  {
    if incoming != [] {
      var front, last := incoming[..|incoming| - 1], incoming[|incoming| - 1];
      OfUidUpsertedAll(rows, front, uid);
      OfUidUpserted(UpsertedAll(rows, front), last, uid);
      MoreNews(OfUid(rows, uid), OfUid(front, uid), last);
    }
  }

  function WithNews(was: seq<Row>, news: seq<Row>): seq<Row> {
    if news == [] then was else ReplacedLast(was, news[|news| - 1])
  }

  lemma MoreNews(was: seq<Row>, news: seq<Row>, last: Row)
    ensures WithNews(was, news + [last]) == ReplacedLast(WithNews(was, news), last)
  {
  }

  lemma {:induction false} OfUidWithout(rows: seq<Row>, incoming: seq<Row>, uid: string)
    requires AllUids(rows) && AllUids(incoming)
    ensures AllUids(Without(rows, Keys(incoming)))
    ensures OfUid(Without(rows, Keys(incoming)), uid)
         == if OfUid(incoming, uid) == [] then OfUid(rows, uid) else []
  {
    if rows != [] {
      var front, last := rows[..|rows| - 1], rows[|rows| - 1];
      OfUidWithout(front, incoming, uid);
      UidsOfKeys(incoming, last);
      OfUidAppended(Without(front, Keys(incoming)), last, uid);
    }
  }

  lemma {:induction false} UidsOfKeys(incoming: seq<Row>, row: Row)
    requires AllUids(incoming) && row.uid.Some?
    ensures RowKey(row) in Keys(incoming) <==> OfUid(incoming, row.uid.value) != []
  {
    if incoming != [] {
      var front, last := incoming[..|incoming| - 1], incoming[|incoming| - 1];
      UidsOfKeys(front, row);
      KeysAreUids(last, row);
      assert Keys(incoming) == Keys(front) + {RowKey(last)} by {
        assert incoming == front + [last];
      }
    }
  }

  /**
   What an event does to an object: nothing if none of its rows is the object's, or it is a bookmark; a deletion takes
   all its rows away; anything else puts the event's newest row of it in the place of its last one, or adds it.
   */
  lemma EventByUid(l: Listing, event: WatchEvent, uid: string)
    requires AllUids(l.rows) && AllUids(event.rows)
    ensures AllUids(Applied(l, event).rows)
    ensures var was, news := OfUid(l.rows, uid), OfUid(event.rows, uid);
            OfUid(Applied(l, event).rows, uid) ==
              if event.kind == Bookmark || news == [] then was
              else if event.kind == Deleted then []
              else if was == [] then [news[|news| - 1]]
              else was[..|was| - 1] + [news[|news| - 1]]
  {
    if event.kind == Deleted {
      OfUidWithout(l.rows, event.rows, uid);
      assert Applied(l, event).rows == Without(l.rows, Keys(event.rows));
    } else if event.kind != Bookmark {
      OfUidUpsertedAll(l.rows, event.rows, uid);
      assert Applied(l, event).rows == UpsertedAll(l.rows, event.rows);
    }
  }

  // ---------------------------------------------------------------- one row a key, in a stable order

  ghost predicate Unique(rows: seq<Row>) {
    forall i, j | 0 <= i < j < |rows| :: RowKey(rows[i]) != RowKey(rows[j])
  }

  /** Every row still in its place, with whatever was added behind. */
  ghost predicate InPlace(rows: seq<Row>, next: seq<Row>) {
    |rows| <= |next| && forall i | 0 <= i < |rows| :: RowKey(next[i]) == RowKey(rows[i])
  }

  lemma UpsertInPlace(rows: seq<Row>, row: Row)
    ensures InPlace(rows, Upserted(rows, row))
  {
  }

  lemma InPlaceChains(a: seq<Row>, b: seq<Row>, c: seq<Row>)
    requires InPlace(a, b) && InPlace(b, c)
    ensures InPlace(a, c)
  {
  }

  lemma {:induction false} UpsertKeepsPlaces(rows: seq<Row>, incoming: seq<Row>)
    ensures InPlace(rows, UpsertedAll(rows, incoming))
  {
    if incoming != [] {
      var front, last := incoming[..|incoming| - 1], incoming[|incoming| - 1];
      UpsertKeepsPlaces(rows, front);
      UpsertInPlace(UpsertedAll(rows, front), last);
      InPlaceChains(rows, UpsertedAll(rows, front), UpsertedAll(rows, incoming));
    }
  }

  lemma {:induction false} UpsertAllKeepsUnique(rows: seq<Row>, incoming: seq<Row>)
    requires Unique(rows)
    ensures Unique(UpsertedAll(rows, incoming))
  {
    if incoming != [] {
      var front, last := incoming[..|incoming| - 1], incoming[|incoming| - 1];
      UpsertAllKeepsUnique(rows, front);
      UpsertKeepsUnique(UpsertedAll(rows, front), last);
    }
  }

  lemma UpsertKeepsUnique(rows: seq<Row>, row: Row)
    requires Unique(rows)
    ensures Unique(Upserted(rows, row))
  {
    if LastIndex(rows, RowKey(row)).None? {
      forall i | 0 <= i < |rows| ensures RowKey(rows[i]) != RowKey(row) {
        PresentAt(rows, i);
      }
    }
  }

  lemma {:induction false} PresentAt(rows: seq<Row>, i: nat)
    requires i < |rows|
    ensures LastIndex(rows, RowKey(rows[i])).Some? && i <= LastIndex(rows, RowKey(rows[i])).value
  {
    if i < |rows| - 1 {
      PresentAt(rows[..|rows| - 1], i);
    }
  }

  lemma {:induction false} WithoutKeepsUnique(rows: seq<Row>, keys: set<string>)
    requires Unique(rows)
    ensures Unique(Without(rows, keys))
  {
    if rows != [] {
      var front, last := rows[..|rows| - 1], rows[|rows| - 1];
      WithoutKeepsUnique(front, keys);
      var left := Without(front, keys);
      forall i | 0 <= i < |left| ensures RowKey(left[i]) != RowKey(last) {
        LeftFrom(front, keys, i);
      }
    }
  }

  lemma LeftFrom(rows: seq<Row>, keys: set<string>, i: nat)
    requires i < |Without(rows, keys)|
    ensures exists j :: 0 <= j < |rows| && RowKey(rows[j]) == RowKey(Without(rows, keys)[i])
  {
    var key := RowKey(Without(rows, keys)[i]);
    PresentAt(Without(rows, keys), i);
    LookupWithout(rows, keys, key);
    assert RowKey(rows[LastIndex(rows, key).value]) == key;
  }

  lemma {:induction false} ReplayKeepsUnique(rows: seq<Row>, changes: seq<Change>)
    requires Unique(rows)
    ensures Unique(Replayed(rows, changes))
  {
    if changes != [] {
      var front, last := changes[..|changes| - 1], changes[|changes| - 1];
      ReplayKeepsUnique(rows, front);
      UpsertAllKeepsUnique(Replayed(rows, front), last.incoming);
      WithoutKeepsUnique(Replayed(rows, front), Keys(last.incoming));
    }
  }

  lemma {:induction false} LastIndexUnique(rows: seq<Row>, i: nat)
    requires i < |rows| && Unique(rows)
    ensures LastIndex(rows, RowKey(rows[i])) == Some(i)
  {
    if i < |rows| - 1 {
      LastIndexUnique(rows[..|rows| - 1], i);
    }
  }

  ghost predicate Before(rows: seq<Row>, p: string, q: string) {
    LastIndex(rows, p).Some? && LastIndex(rows, q).Some? && LastIndex(rows, p).value < LastIndex(rows, q).value
  }

  /** Rows that stay keep their order. */
  lemma SurvivorsKeepOrder(rows: seq<Row>, change: Change, p: string, q: string)
    requires Unique(rows) && Before(rows, p, q)
    requires var next := Changed(rows, change); LastIndex(next, p).Some? && LastIndex(next, q).Some?
    ensures Before(Changed(rows, change), p, q)
  {
    var next := Changed(rows, change);
    if change.removed {
      LookupWithout(rows, Keys(change.incoming), p);
      LookupWithout(rows, Keys(change.incoming), q);
      WithoutKeepsOrder(rows, Keys(change.incoming), p, q);
    } else {
      UpsertKeepsPlaces(rows, change.incoming);
      UpsertAllKeepsUnique(rows, change.incoming);
      LastIndexUnique(next, LastIndex(rows, p).value);
      LastIndexUnique(next, LastIndex(rows, q).value);
    }
  }

  lemma {:induction false} WithoutKeepsOrder(rows: seq<Row>, keys: set<string>, p: string, q: string)
    requires Unique(rows) && Before(rows, p, q) && p !in keys && q !in keys
    ensures Before(Without(rows, keys), p, q)
  {
    var front, last := rows[..|rows| - 1], rows[|rows| - 1];
    var left := Without(front, keys);
    if RowKey(last) == q {
      assert Without(rows, keys)[..|left|] == left;
      LookupWithout(front, keys, p);
    } else {
      WithoutKeepsOrder(front, keys, p, q);
      if RowKey(last) !in keys {
        assert Without(rows, keys)[..|left|] == left;
      }
    }
  }

  // ---------------------------------------------------------------- overlapping loads

  /** The view, and the walks in flight, by the generation that began them. */
  datatype World = World(view: Listing, walks: set<nat>, lastHadRef: bool)

  datatype Step =
    | Begin(hasRef: bool)
    | Settle(gen: nat, walked: Option<Walk>)
    | Watch(event: WatchEvent)

  predicate Enabled(w: World, step: Step) {
    step.Settle? ==> step.gen in w.walks
  }

  function After(w: World, step: Step): World {
    match step
    case Begin(hasRef) =>
      var view := Begun(w.view, hasRef);
      World(view, if hasRef then w.walks + {view.loadGen} else w.walks, hasRef)
    case Settle(gen, walked) => w.(view := Settled(w.view, gen, walked), walks := w.walks - {gen})
    case Watch(event) => w.(view := Applied(w.view, event))
  }

  predicate IsRun(w: World, steps: seq<Step>)
    decreases |steps|
  {
    steps == [] || (Enabled(w, steps[0]) && IsRun(After(w, steps[0]), steps[1..]))
  }

  function Run(w: World, steps: seq<Step>): World
    requires IsRun(w, steps)
    decreases |steps|
  {
    if steps == [] then w else Run(After(w, steps[0]), steps[1..])
  }

  /** A load that was superseded once never writes, however late its answer comes. */
  lemma {:induction false} SupersededLoadNeverWrites(w: World, steps: seq<Step>, gen: nat, walked: Option<Walk>)
    requires gen < w.view.loadGen && IsRun(w, steps)
    ensures Settled(Run(w, steps).view, gen, walked) == Run(w, steps).view
    decreases |steps|
  {
    if steps != [] {
      SupersededLoadNeverWrites(After(w, steps[0]), steps[1..], gen, walked);
    }
  }

  ghost predicate LoadInv(w: World) {
    && (forall gen | gen in w.walks :: gen <= w.view.loadGen)
    && (w.lastHadRef ==> (w.view.loading <==> w.view.loadGen in w.walks))
    && (!w.lastHadRef ==> w.view.loadGen !in w.walks)
  }

  lemma {:induction false} RunKeepsLoadInv(w: World, steps: seq<Step>)
    requires LoadInv(w) && IsRun(w, steps)
    ensures LoadInv(Run(w, steps))
    decreases |steps|
  {
    if steps != [] {
      RunKeepsLoadInv(After(w, steps[0]), steps[1..]);
    }
  }

  /** After a load of some resource, the spinner shows exactly while that load is in flight. */
  lemma LoadingIsTruthful(steps: seq<Step>)
    requires IsRun(World(Blank, {}, false), steps) && Run(World(Blank, {}, false), steps).lastHadRef
    ensures var w := Run(World(Blank, {}, false), steps); w.view.loading <==> w.view.loadGen in w.walks
  {
    RunKeepsLoadInv(World(Blank, {}, false), steps);
  }

  /**
   After a load without a resource it shows that, for as long as no other is begun, exactly if it was off when that
   load was begun: a load in flight then is superseded and can no longer clear it.
   */
  lemma LoadingExactly(steps: seq<Step>, after: seq<Step>)
    requires IsRun(World(Blank, {}, false), steps)
    requires IsRun(After(Run(World(Blank, {}, false), steps), Begin(false)), after)
    requires forall i | 0 <= i < |after| :: after[i] != Begin(true)
    ensures var w := Run(World(Blank, {}, false), steps);
            var t := Run(After(w, Begin(false)), after);
            (t.view.loading <==> t.view.loadGen in t.walks) <==> !w.view.loading
  {
    RunKeepsLoadInv(World(Blank, {}, false), steps);
    NothingClears(After(Run(World(Blank, {}, false), steps), Begin(false)), after);
  }

  lemma {:induction false} NothingClears(w: World, steps: seq<Step>)
    requires (forall gen | gen in w.walks :: gen < w.view.loadGen) && IsRun(w, steps)
    requires forall i | 0 <= i < |steps| :: steps[i] != Begin(true)
    ensures var t := Run(w, steps); t.view.loading == w.view.loading && t.view.loadGen !in t.walks
    decreases |steps|
  {
    if steps != [] {
      assert steps[0] != Begin(true);
      NothingClears(After(w, steps[0]), steps[1..]);
    }
  }

  /** Such a run exists: the load it overtook settles, nothing is in flight, and the spinner stays. */
  lemma LoadingCanStick(walked: Option<Walk>)
    ensures var steps := [Begin(true), Begin(false), Settle(1, walked)];
            && IsRun(World(Blank, {}, false), steps)
            && Run(World(Blank, {}, false), steps).walks == {}
            && Run(World(Blank, {}, false), steps).view.loading
  {
    var w0 := World(Blank, {}, false);
    var w1 := After(w0, Begin(true));
    var w2 := After(w1, Begin(false));
    var w3 := After(w2, Settle(1, walked));
    assert w3.walks == {};
    RunCons(w2, Settle(1, walked), []);
    RunCons(w1, Begin(false), [Settle(1, walked)]);
    RunCons(w0, Begin(true), [Begin(false), Settle(1, walked)]);
    assert [Begin(true)] + ([Begin(false)] + [Settle(1, walked)]) == [Begin(true), Begin(false), Settle(1, walked)];
  }

  lemma RunCons(w: World, step: Step, steps: seq<Step>)
    requires Enabled(w, step) && IsRun(After(w, step), steps)
    ensures IsRun(w, [step] + steps) && Run(w, [step] + steps) == Run(After(w, step), steps)
  {
    assert ([step] + steps)[1..] == steps;
  }
}
