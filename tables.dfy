/** A repository table as the services see it: a sequence of rows in table
    order, each with a key, and the Spring Data operations on it. */
module Tables {
  import opened Common

  /** No two rows share a key (the primary-key constraint). */
  ghost predicate UniqueKeys<R>(rows: seq<R>, key: R -> string) {
    forall i, j :: 0 <= i < j < |rows| ==> key(rows[i]) != key(rows[j])
  }

  /** `findById`: the first row with the key, if any. */
  function FindById<R>(rows: seq<R>, key: R -> string, id: string): (r: Option<R>)
    ensures r.None? <==> forall i :: 0 <= i < |rows| ==> key(rows[i]) != id
    ensures r.Some? ==> r.value in rows && key(r.value) == id
  {
    if rows == [] then None
    else if key(rows[0]) == id then Some(rows[0])
    else FindById(rows[1..], key, id)
  }

  /** `existsById`. */
  predicate ExistsById<R>(rows: seq<R>, key: R -> string, id: string) {
    FindById(rows, key, id).Some?
  }

  /** `save`: replace the row with the same key, or append a new one. */
  function Saved<R>(rows: seq<R>, key: R -> string, row: R): seq<R> {
    if rows == [] then [row]
    else if key(rows[0]) == key(row) then [row] + rows[1..]
    else [rows[0]] + Saved(rows[1..], key, row)
  }

  /** `saveAll`: save the rows one after the other. */
  function SavedAll<R>(rows: seq<R>, key: R -> string, batch: seq<R>): seq<R>
    decreases |batch|
  {
    if batch == [] then rows else SavedAll(Saved(rows, key, batch[0]), key, batch[1..])
  }

  /** `deleteById`: drop the rows with the key. */
  function Deleted<R>(rows: seq<R>, key: R -> string, id: string): seq<R> {
    if rows == [] then []
    else if key(rows[0]) == id then Deleted(rows[1..], key, id)
    else [rows[0]] + Deleted(rows[1..], key, id)
  }

  /** A derived query: the rows that satisfy `p`, in table order. */
  function Filter<R>(rows: seq<R>, p: R -> bool): (r: seq<R>)
    ensures |r| <= |rows|
    ensures forall i :: 0 <= i < |r| ==> r[i] in rows && p(r[i])
    ensures forall i :: 0 <= i < |rows| && p(rows[i]) ==> rows[i] in r
  {
    if rows == [] then []
    else if p(rows[0]) then [rows[0]] + Filter(rows[1..], p)
    else Filter(rows[1..], p)
  }

  /** The rows after `save` are the saved row and rows that were there. */
  lemma {:induction false} SavedMembers<R>(rows: seq<R>, key: R -> string, row: R)
    ensures row in Saved(rows, key, row)
    ensures forall x :: x in Saved(rows, key, row) ==> x == row || x in rows
    decreases |rows|
  {
    if rows != [] && key(rows[0]) != key(row) {
      SavedMembers(rows[1..], key, row);
    }
  }

  /** After `save`, the saved row is the one found under its key and the
      other keys find what they found before. */
  lemma {:induction false} SavedFind<R>(rows: seq<R>, key: R -> string, row: R)
    ensures FindById(Saved(rows, key, row), key, key(row)) == Some(row)
    ensures forall k :: k != key(row) ==> FindById(Saved(rows, key, row), key, k) == FindById(rows, key, k)
    decreases |rows|
  {
    var s := Saved(rows, key, row);
    if rows != [] {
      if key(rows[0]) == key(row) {
        assert s[1..] == rows[1..];
      } else {
        SavedFind(rows[1..], key, row);
        assert s[1..] == Saved(rows[1..], key, row);
      }
    }
  }

  /** `save` keeps the keys unique. */
  lemma {:induction false} SavedUnique<R>(rows: seq<R>, key: R -> string, row: R)
    requires UniqueKeys(rows, key)
    ensures UniqueKeys(Saved(rows, key, row), key)
    decreases |rows|
  {
    var s := Saved(rows, key, row);
    if rows == [] {
    } else if key(rows[0]) == key(row) {
      assert s[1..] == rows[1..];
    } else {
      var t := Saved(rows[1..], key, row);
      SavedUnique(rows[1..], key, row);
      SavedMembers(rows[1..], key, row);
      assert s[1..] == t;
      forall i, j | 0 <= i < j < |s| ensures key(s[i]) != key(s[j]) {
        if i == 0 {
          assert s[j] == t[j - 1] && s[j] in t;
          if s[j] != row {
            var m :| 0 <= m < |rows[1..]| && rows[1..][m] == s[j];
            assert rows[m + 1] == s[j];
          }
        } else {
          assert s[i] == t[i - 1] && s[j] == t[j - 1];
        }
      }
    }
  }

  /** After `deleteById`, nothing is found under the key, the other keys find
      what they found before, and the keys stay unique. */
  lemma {:induction false} DeletedFind<R>(rows: seq<R>, key: R -> string, id: string)
    requires UniqueKeys(rows, key)
    ensures UniqueKeys(Deleted(rows, key, id), key)
    ensures FindById(Deleted(rows, key, id), key, id) == None
    ensures forall k :: k != id ==> FindById(Deleted(rows, key, id), key, k) == FindById(rows, key, k)
    decreases |rows|
  {
    if rows != [] {
      DeletedFind(rows[1..], key, id);
      DeletedMembers(rows[1..], key, id);
      var s := Deleted(rows, key, id);
      var t := Deleted(rows[1..], key, id);
      if key(rows[0]) != id {
        assert s[1..] == t;
        forall i, j | 0 <= i < j < |s| ensures key(s[i]) != key(s[j]) {
          if i == 0 {
            assert s[j] == t[j - 1];
            var m :| 0 <= m < |rows[1..]| && rows[1..][m] == s[j];
            assert rows[m + 1] == s[j];
          } else {
            assert s[i] == t[i - 1] && s[j] == t[j - 1];
          }
        }
      }
    }
  }

  /** The rows after `deleteById` are rows that were there. */
  lemma {:induction false} DeletedMembers<R>(rows: seq<R>, key: R -> string, id: string)
    ensures forall x :: x in Deleted(rows, key, id) ==> x in rows && key(x) != id
    decreases |rows|
  {
    if rows != [] {
      DeletedMembers(rows[1..], key, id);
    }
  }

  /** `saveAll` of a batch and one more row is `save` of that row after
      `saveAll` of the batch. */
  lemma {:induction false} SavedAllSnoc<R>(rows: seq<R>, key: R -> string, batch: seq<R>, row: R)
    ensures SavedAll(rows, key, batch + [row]) == Saved(SavedAll(rows, key, batch), key, row)
    decreases |batch|
  {
    if batch == [] {
      assert [row][1..] == [];
    } else {
      assert (batch + [row])[1..] == batch[1..] + [row];
      SavedAllSnoc(Saved(rows, key, batch[0]), key, batch[1..], row);
    }
  }

  /** `saveAll` keeps the keys unique. */
  lemma {:induction false} SavedAllUnique<R>(rows: seq<R>, key: R -> string, batch: seq<R>)
    requires UniqueKeys(rows, key)
    ensures UniqueKeys(SavedAll(rows, key, batch), key)
    decreases |batch|
  {
    if batch != [] {
      SavedUnique(rows, key, batch[0]);
      SavedAllUnique(Saved(rows, key, batch[0]), key, batch[1..]);
    }
  }
}
