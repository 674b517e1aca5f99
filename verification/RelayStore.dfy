/** The keyed lists of the durable store, and the string keys under which some of them are filed. */
module RelayStore {
  import opened Wrappers
  import opened Sequences

  datatype Item<K, T> = Item(key: K, value: T)

  /** A value was saved under a key. */
  datatype Save<K, T> = Save(key: K, value: T)

  function Keys<K, T>(items: seq<Item<K, T>>): (r: seq<K>)
    ensures |r| == |items| && forall i :: 0 <= i < |r| ==> r[i] == items[i].key
  {
    seq(|items|, i requires 0 <= i < |items| => items[i].key)
  }

  /** The first item with the key is replaced in its place; a new key goes to the end. */
  function Upserted<K(==), T>(items: seq<Item<K, T>>, key: K, value: T): seq<Item<K, T>> {
    if key in Keys(items) then items[IndexOf(Keys(items), key) := Item(key, value)] else items + [Item(key, value)]
  }

  function AfterSaves<K(==), T>(saves: seq<Save<K, T>>): seq<Item<K, T>> {
    if saves == [] then []
    else
      var last := saves[|saves| - 1];
      Upserted(AfterSaves(saves[..|saves| - 1]), last.key, last.value)
  }

  /** The keys in the order in which they were first saved. */
  function FirstSaved<K(==), T>(saves: seq<Save<K, T>>): seq<K> {
    if saves == [] then []
    else
      var before, key := FirstSaved(saves[..|saves| - 1]), saves[|saves| - 1].key;
      if key in before then before else before + [key]
  }

  /** The value that was saved last under the key. */
  function LastSaved<K(==), T>(saves: seq<Save<K, T>>, key: K): Option<T> {
    if saves == [] then None
    else if saves[|saves| - 1].key == key then Some(saves[|saves| - 1].value)
    else LastSaved(saves[..|saves| - 1], key)
  }

  lemma UpsertKeys<K, T>(items: seq<Item<K, T>>, key: K, value: T)
    requires Distinct(Keys(items))
    ensures Keys(Upserted(items, key, value)) == if key in Keys(items) then Keys(items) else Keys(items) + [key]
    ensures Distinct(Keys(Upserted(items, key, value)))
  {
    var after := Upserted(items, key, value);
    if key !in Keys(items) {
      assert Keys(after) == Keys(items) + [key];
      assert forall i :: 0 <= i < |items| ==> Keys(items)[i] != key;
    }
  }

  /** A list is an insertion-ordered map: one item for each key, in order of first save, with the value saved last. */
  lemma {:induction false} ListsAreOrderedMaps<K(!new), T>(saves: seq<Save<K, T>>)
    ensures var items := AfterSaves(saves);
      && Keys(items) == FirstSaved(saves) && Distinct(Keys(items))
      && forall i :: 0 <= i < |items| ==> LastSaved(saves, items[i].key) == Some(items[i].value)
    ensures forall key :: LastSaved(saves, key).Some? ==> key in FirstSaved(saves)
  {
    if saves != [] {
      var init, last := saves[..|saves| - 1], saves[|saves| - 1];
      ListsAreOrderedMaps(init);
      var items := AfterSaves(init);
      UpsertKeys(items, last.key, last.value);
      var after := AfterSaves(saves);
      forall i | 0 <= i < |after|
        ensures LastSaved(saves, after[i].key) == Some(after[i].value)
      {
        if after[i].key != last.key {
          assert Keys(after)[i] == after[i].key;
          assert i < |items| && after[i] == items[i];
        } else {
          assert Keys(after)[i] == last.key;
          if last.key in Keys(items) {
            assert Keys(after) == Keys(items) && IndexOf(Keys(items), last.key) == i;
          }
        }
      }
    }
  }

  type Database<T> = map<string, seq<Item<string, T>>>

  const COLLECTIONS: set<string> :=
    {"sessions", "tasks", "evidence", "traces", "actions", "approvals", "taskResults", "receipts"}

  function EmptyDatabase<T>(): Database<T> {
    map c | c in COLLECTIONS :: []
  }

  /** The store between two mutations: what it shows is what the file holds. */
  class RelayJsonStore<T> {
    var data: Database<T>
    var file: Option<Database<T>>

    ghost predicate Valid()
      reads this
    {
      file == Some(data) && data.Keys == COLLECTIONS
    }

    /** Loads the file, or creates an empty one. A file that cannot be read leaves the store unusable. */
    constructor Initialize(existing: Option<Database<T>>)
      requires existing.Some? ==> existing.value.Keys == COLLECTIONS
      ensures Valid()
      ensures data == if existing.Some? then existing.value else EmptyDatabase()
    {
      data := if existing.Some? then existing.value else EmptyDatabase();
      file := Some(if existing.Some? then existing.value else EmptyDatabase());
    }

    /** Replaces or appends one item; when the file cannot be replaced, nothing changes and the caller is told. */
    method Upsert(collection: string, key: string, value: T, written: bool) returns (saved: bool)
      requires Valid() && collection in COLLECTIONS
      modifies this
      ensures Valid() && saved == written
      ensures data == if written then old(data)[collection := Upserted(old(data)[collection], key, value)] else old(data)
    {
      var next := data;
      var items := next[collection];
      if key in Keys(items) {
        items := items[IndexOf(Keys(items), key) := Item(key, value)];
      } else {
        items := items + [Item(key, value)];
      }
      next := next[collection := items];
      saved := Persist(next, written);
      if saved {
        data := next;
      }
    }

    method ResetDemo(written: bool) returns (saved: bool)
      requires Valid()
      modifies this
      ensures Valid() && saved == written
      ensures data == if written then EmptyDatabase() else old(data)
    {
      saved := Persist(EmptyDatabase(), written);
      if saved {
        data := EmptyDatabase();
      }
    }

    /** Writes a temporary file and renames it over the old one: all or nothing. */
    method Persist(next: Database<T>, written: bool) returns (saved: bool)
      modifies `file
      ensures saved == written && file == if written then Some(next) else old(file)
    {
      saved := written;
      if written {
        file := Some(next);
      }
    }

    method Find(collection: string, key: string) returns (r: Option<T>)
      requires Valid() && collection in COLLECTIONS
      ensures r.None? <==> key !in Keys(data[collection])
      ensures r.Some? ==> r.value == data[collection][IndexOf(Keys(data[collection]), key)].value
    {
      var items := data[collection];
      r := if key in Keys(items) then Some(items[IndexOf(Keys(items), key)].value) else None;
    }
  }

  // ---------- joined keys ----------

  function Joined3(a: string, b: string, c: string, sep: char): string {
    a + [sep] + b + [sep] + c
  }

  lemma SplitsOnce(a: string, x: string, b: string, y: string, sep: char)
    requires sep !in a && sep !in b && a + [sep] + x == b + [sep] + y
    ensures a == b && x == y
  {
    var s := a + [sep] + x;
    assert s[|a|] == sep && s[|b|] == sep;
    assert forall i :: 0 <= i < |a| ==> s[i] == a[i];
    assert forall i :: 0 <= i < |b| ==> s[i] == b[i];
    assert s[..|a|] == a && s[..|b|] == b;
    assert s[|a| + 1..] == x && s[|b| + 1..] == y;
  }

  lemma SplitsLast(x: string, a: string, y: string, b: string, sep: char)
    requires sep !in a && sep !in b && x + [sep] + a == y + [sep] + b
    ensures a == b && x == y
  {
    var s := x + [sep] + a;
    assert s[|x|] == sep && s[|y|] == sep;
    assert forall i :: |x| < i < |s| ==> s[i] == a[i - |x| - 1];
    assert forall i :: |y| < i < |s| ==> s[i] == b[i - |y| - 1];
    assert s[..|x|] == x && s[..|y|] == y;
    assert s[|x| + 1..] == a && s[|y| + 1..] == b;
  }

  /** `session|action|hash` names its parts when the session id and the hash avoid the separator, whatever the action id. */
  lemma OuterPartsSuffice(a: string, b: string, c: string, a': string, b': string, c': string, sep: char)
    requires sep !in a && sep !in a' && sep !in c && sep !in c'
    ensures Joined3(a, b, c, sep) == Joined3(a', b', c', sep) <==> a == a' && b == b' && c == c'
  {
    if Joined3(a, b, c, sep) == Joined3(a', b', c', sep) {
      SplitsLast(a + [sep] + b, c, a' + [sep] + b', c', sep);
      SplitsOnce(a, b, a', b', sep);
    }
  }

  /** `session:task:agent` names its parts when the first two avoid the separator. */
  lemma FirstPartsSuffice(a: string, b: string, c: string, a': string, b': string, c': string, sep: char)
    requires sep !in a && sep !in a' && sep !in b && sep !in b'
    ensures Joined3(a, b, c, sep) == Joined3(a', b', c', sep) <==> a == a' && b == b' && c == c'
  {
    if Joined3(a, b, c, sep) == Joined3(a', b', c', sep) {
      assert Joined3(a, b, c, sep) == a + [sep] + (b + [sep] + c);
      assert Joined3(a', b', c', sep) == a' + [sep] + (b' + [sep] + c');
      SplitsOnce(a, b + [sep] + c, a', b' + [sep] + c', sep);
      SplitsOnce(b, c, b', c', sep);
    }
  }

  /** Without such a condition different parts can share a key. */
  lemma PartsCanCollide()
    ensures Joined3("s", "a", "b|h", '|') == Joined3("s", "a|b", "h", '|') && "a" != "a|b"
  {
    assert Joined3("s", "a", "b|h", '|') == "s|a|b|h";
    assert Joined3("s", "a|b", "h", '|') == "s|a|b|h";
    assert |"a"| != |"a|b"|;
  }
}
