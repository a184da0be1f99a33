/** The in-memory database: a manager of shared ordered maps, one for each
    (name, prefix) pair, and the handles that read and write them. */
module Memory {
  import opened Wrappers
  import opened Ordering

  type Bytes = seq<bv8>

  datatype Error =
    | EntryNotFound
    | Backend
    | Encode
    | Decode
    | Apply

  predicate StartsWith(s: string, prefix: string) {
    prefix <= s
  }

  /** The key under which a collection with this prefix stores `key`. */
  function FullKey(prefix: string, key: string): string {
    prefix + "." + key
  }

  lemma FullKeyInjective(prefix: string, a: string, b: string)
    requires FullKey(prefix, a) == FullKey(prefix, b)
    ensures a == b
  {
    assert a == FullKey(prefix, a)[|prefix| + 1..];
    assert b == FullKey(prefix, b)[|prefix| + 1..];
  }

  /** `&key[prefix.len() + 1..]` */
  function BareKey(prefix: string, full: string): string
    requires |prefix| + 1 <= |full|
  {
    full[|prefix| + 1..]
  }

  // What a collection stores is under its own prefix.
  ghost predicate Prefixed(rows: map<string, Bytes>, prefix: string) {
    forall k | k in rows :: StartsWith(k, prefix + ".")
  }

  /** The rows of a collection by bare key: the plain map its users see. */
  ghost function Strip(rows: map<string, Bytes>, prefix: string): (m: map<string, Bytes>)
    requires Prefixed(rows, prefix)
    ensures forall k :: k in m <==> FullKey(prefix, k) in rows
    ensures forall k | k in m :: m[k] == rows[FullKey(prefix, k)]
  {
    BareKeys(rows, prefix);
    map k | k in (set full | full in rows :: BareKey(prefix, full)) :: rows[FullKey(prefix, k)]
  }

  lemma StripRemove(rows: map<string, Bytes>, prefix: string, key: string)
    requires Prefixed(rows, prefix)
    ensures Strip(rows - {FullKey(prefix, key)}, prefix) == Strip(rows, prefix) - {key}
  {
    var full := FullKey(prefix, key);
    var left, right := Strip(rows - {full}, prefix), Strip(rows, prefix) - {key};
    forall k ensures k in left <==> k in right {
      if FullKey(prefix, k) == full { FullKeyInjective(prefix, k, key); }
    }
  }

  lemma BareThenFull(full: string, prefix: string)
    requires StartsWith(full, prefix + ".")
    ensures |prefix| + 1 <= |full| && FullKey(prefix, BareKey(prefix, full)) == full
  {
    assert full == full[..|prefix + "."|] + full[|prefix + "."|..];
  }

  lemma BareKeys(rows: map<string, Bytes>, prefix: string)
    requires Prefixed(rows, prefix)
    ensures forall full | full in rows :: |prefix| + 1 <= |full|
    ensures forall full | full in rows :: FullKey(prefix, BareKey(prefix, full)) in rows
    ensures forall k :: FullKey(prefix, k) in rows ==>
              k in (set full | full in rows && |prefix| + 1 <= |full| :: BareKey(prefix, full))
  {
    forall full | full in rows
      ensures |prefix| + 1 <= |full| && FullKey(prefix, BareKey(prefix, full)) in rows
    {
      BareThenFull(full, prefix);
    }
    forall k | FullKey(prefix, k) in rows
      ensures k in (set full | full in rows && |prefix| + 1 <= |full| :: BareKey(prefix, full))
    {
      assert BareKey(prefix, FullKey(prefix, k)) == k;
    }
  }

  /** The entries of a map in key order. */
  function Items(m: map<string, Bytes>): (r: seq<(string, Bytes)>) {
    Entries(m, Ascending(m.Keys))
  }

  function Entries(m: map<string, Bytes>, keys: seq<string>): (r: seq<(string, Bytes)>)
    requires forall k | k in keys :: k in m
    ensures |r| == |keys|
    ensures forall i | 0 <= i < |r| :: r[i] == (keys[i], m[keys[i]])
  {
    seq(|keys|, i requires 0 <= i < |keys| => assert keys[i] in keys; (keys[i], m[keys[i]]))
  }

  /** `filter(starts_with(prefix))` */
  function WithPrefix(items: seq<(string, Bytes)>, prefix: string): seq<(string, Bytes)> {
    if items == [] then []
    else if StartsWith(items[0].0, prefix) then [items[0]] + WithPrefix(items[1..], prefix)
    else WithPrefix(items[1..], prefix)
  }

  // Every key starts with the prefix and goes on after it.
  ghost predicate Under(items: seq<(string, Bytes)>, prefix: string) {
    forall i | 0 <= i < |items| :: StartsWith(items[i].0, prefix) && |prefix| + 1 <= |items[i].0|
  }

  lemma {:induction false} WithPrefixAll(items: seq<(string, Bytes)>, prefix: string)
    requires Under(items, prefix)
    ensures WithPrefix(items, prefix) == items
  {
    if items != [] {
      WithPrefixAll(items[1..], prefix);
    }
  }

  /** `map(|(key, value)| (key[prefix.len() + 1..], value))` */
  function Bared(items: seq<(string, Bytes)>, prefix: string): (r: seq<(string, Bytes)>)
    requires forall i | 0 <= i < |items| :: |prefix| + 1 <= |items[i].0|
  {
    seq(|items|, i requires 0 <= i < |items| => (BareKey(prefix, items[i].0), items[i].1))
  }

  function BareAll(full: seq<string>, prefix: string): (r: seq<string>)
    requires forall i | 0 <= i < |full| :: |prefix| + 1 <= |full[i]|
    ensures |r| == |full|
    ensures forall i | 0 <= i < |full| :: r[i] == BareKey(prefix, full[i])
  {
    seq(|full|, i requires 0 <= i < |full| => BareKey(prefix, full[i]))
  }

  // The i-th stored key, in full and bare.
  lemma StoredKey(rows: map<string, Bytes>, prefix: string, i: nat)
    requires Prefixed(rows, prefix) && i < |Ascending(rows.Keys)|
    ensures var full := Ascending(rows.Keys)[i];
            && full in rows && StartsWith(full, prefix) && |prefix| + 1 <= |full|
            && FullKey(prefix, BareKey(prefix, full)) == full
            && BareKey(prefix, full) in Strip(rows, prefix)
  {
    var full := Ascending(rows.Keys)[i];
    assert full in Ascending(rows.Keys);
    assert StartsWith(full, prefix + ".");
    BareThenFull(full, prefix);
  }

  lemma BareAscending(rows: map<string, Bytes>, prefix: string, i: nat, j: nat)
    requires Prefixed(rows, prefix) && i < j < |Ascending(rows.Keys)|
    ensures var full := Ascending(rows.Keys);
            && |prefix| + 1 <= |full[i]| && |prefix| + 1 <= |full[j]|
            && LexLess(BareKey(prefix, full[i]), BareKey(prefix, full[j]))
  {
    StoredKey(rows, prefix, i);
    StoredKey(rows, prefix, j);
    var full := Ascending(rows.Keys);
    LexSamePrefix(prefix + ".", BareKey(prefix, full[i]), BareKey(prefix, full[j]));
  }

  lemma BareListed(rows: map<string, Bytes>, prefix: string, k: string)
    requires Prefixed(rows, prefix) && k in Strip(rows, prefix)
    ensures exists i :: 0 <= i < |Ascending(rows.Keys)| && Ascending(rows.Keys)[i] == FullKey(prefix, k)
  {
    assert FullKey(prefix, k) in Ascending(rows.Keys);
  }

  // Stripping the common prefix keeps the order of the keys.
  lemma StrippedAscending(rows: map<string, Bytes>, prefix: string)
    requires Prefixed(rows, prefix)
    ensures forall i | 0 <= i < |Ascending(rows.Keys)| :: |prefix| + 1 <= |Ascending(rows.Keys)[i]|
    ensures BareAll(Ascending(rows.Keys), prefix) == Ascending(Strip(rows, prefix).Keys)
  {
    hide LexLess, Ascending, Strip;
    var full := Ascending(rows.Keys);
    var keys := Strip(rows, prefix).Keys;
    forall i | 0 <= i < |full|
      ensures |prefix| + 1 <= |full[i]| && BareKey(prefix, full[i]) in keys
    {
      StoredKey(rows, prefix, i);
    }
    var bare := BareAll(full, prefix);
    forall i, j | 0 <= i < j < |bare| ensures LexLess(bare[i], bare[j]) {
      BareAscending(rows, prefix, i, j);
    }
    forall k | k in keys ensures k in bare {
      BareListed(rows, prefix, k);
      var i :| 0 <= i < |full| && full[i] == FullKey(prefix, k);
      assert bare[i] == k;
    }
    AscendingOf(bare, keys);
  }

  lemma StrippedItems(rows: map<string, Bytes>, prefix: string)
    requires Prefixed(rows, prefix)
    ensures Under(Items(rows), prefix)
    ensures Bared(Items(rows), prefix) == Items(Strip(rows, prefix))
  {
    hide LexLess, Ascending, Strip;
    StrippedAscending(rows, prefix);
    forall i | 0 <= i < |Items(rows)|
      ensures StartsWith(Items(rows)[i].0, prefix) && |prefix| + 1 <= |Items(rows)[i].0|
    {
      StoredKey(rows, prefix, i);
    }
    var view := Strip(rows, prefix);
    forall i | 0 <= i < |Items(rows)| ensures Bared(Items(rows), prefix)[i] == Items(view)[i] {
      StoredKey(rows, prefix, i);
    }
  }

  lemma ReversedIter(items: seq<(string, Bytes)>, prefix: string)
    requires Under(items, prefix)
    ensures Under(Reverse(items), prefix)
    ensures WithPrefix(Reverse(items), prefix) == Reverse(items)
    ensures Bared(Reverse(items), prefix) == Reverse(Bared(items, prefix))
  {
    hide WithPrefix, StartsWith, BareKey;
    WithPrefixAll(Reverse(items), prefix);
  }

  /** How many bytes UTF-8 spends on a character. */
  function Utf8Width(c: char): nat {
    var n := c as int;
    if n < 0x80 then 1 else if n < 0x800 then 2 else if n < 0x1_0000 then 3 else 4
  }

  function Utf8Length(s: string): nat {
    if s == "" then 0 else Utf8Length(s[..|s| - 1]) + Utf8Width(s[|s| - 1])
  }

  /** `s[offset..]` does not panic: the byte offset is at most the length and
      does not fall inside a character. */
  ghost predicate Sliceable(s: string, offset: nat) {
    exists i | 0 <= i <= |s| :: Utf8Length(s[..i]) == offset
  }

  lemma {:induction false} Utf8Grows(s: string, i: nat, j: nat)
    requires i <= j <= |s|
    ensures Utf8Length(s[..j]) >= Utf8Length(s[..i]) + (j - i)
    decreases j - i
  {
    if i < j {
      Utf8Grows(s, i, j - 1);
      assert s[..j][..j - 1] == s[..j - 1];
    }
  }

  lemma SliceableIff(k: string, prefix: string)
    requires StartsWith(k, prefix)
    ensures Sliceable(k, Utf8Length(prefix) + 1) <==> |prefix| < |k| && Utf8Width(k[|prefix|]) == 1
  {
    var p := |prefix|;
    assert k[..p] == prefix;
    if p < |k| { assert k[..p + 1][..p] == k[..p]; }
    if Sliceable(k, Utf8Length(prefix) + 1) {
      var i :| 0 <= i <= |k| && Utf8Length(k[..i]) == Utf8Length(prefix) + 1;
      if i <= p { Utf8Grows(k, i, p); } else { Utf8Grows(k, p + 1, i); }
    }
  }

  /** Cutting `prefix.len() + 1` bytes off every key that begins with the prefix
      is in bounds exactly when each such key goes on after it with a one-byte
      character: a row under the bare prefix, where a state is kept, or one that
      goes on with a wider character makes the iteration panic. */
  lemma SlicingInBoundsIff(rows: map<string, Bytes>, prefix: string)
    ensures (forall k | k in rows && StartsWith(k, prefix) :: Sliceable(k, Utf8Length(prefix) + 1)) <==>
              && prefix !in rows
              && forall k | k in rows && StartsWith(k, prefix) && |prefix| < |k| :: Utf8Width(k[|prefix|]) == 1
  {
    forall k | k in rows && StartsWith(k, prefix)
      ensures Sliceable(k, Utf8Length(prefix) + 1) <==> |prefix| < |k| && Utf8Width(k[|prefix|]) == 1
    {
      SliceableIff(k, prefix);
    }
    if prefix in rows { assert StartsWith(prefix, prefix); }
    forall k | k in rows && StartsWith(k, prefix) && |k| <= |prefix| ensures k == prefix {}
  }

  /** What a collection stores is cut in bounds, and where BareKey cuts it. */
  lemma PrefixedSliceable(rows: map<string, Bytes>, prefix: string, k: string)
    requires Prefixed(rows, prefix) && k in rows
    ensures Sliceable(k, Utf8Length(prefix) + 1)
    ensures |prefix| + 1 <= |k| && Utf8Length(k[..|prefix| + 1]) == Utf8Length(prefix) + 1
  {
    BareThenFull(k, prefix);
    assert k[|prefix|] == (prefix + ".")[|prefix|] == '.' && k[..|prefix|] == prefix;
    assert k[..|prefix| + 1][..|prefix|] == prefix;
  }

  /** The shared `Arc<RwLock<BTreeMap<String, Vec<u8>>>>`. */
  class Table {
    var rows: map<string, Bytes>

    constructor ()
      ensures rows == map[]
    {
      rows := map[];
    }
  }

  /** A handle on a shared table, used either as a collection of events or as
      the holder of one state. Whether a write reaches the table is an input:
      it stands for whatever can fail in a backend. */
  class MemoryStore {
    const name: string
    const prefix: string
    const data: Table

    constructor (name: string, prefix: string, data: Table)
      ensures this.name == name && this.prefix == prefix && this.data == data
    {
      this.name, this.prefix, this.data := name, prefix, data;
    }

    // ------------------------------------------------- as a collection

    ghost predicate IsCollection()
      reads data
    {
      Prefixed(data.rows, prefix)
    }

    ghost function View(): map<string, Bytes>
      requires IsCollection()
      reads data
    {
      Strip(data.rows, prefix)
    }

    function Get(key: string): (r: Result<Bytes, Error>)
      requires IsCollection()
      reads data
      ensures r == if key in View() then Ok(View()[key]) else Err(EntryNotFound)
    {
      var full := FullKey(prefix, key);
      if full in data.rows then Ok(data.rows[full]) else Err(EntryNotFound)
    }

    method Put(key: string, value: Bytes, written: bool) returns (r: Result<(), Error>)
      requires IsCollection()
      modifies data
      ensures IsCollection()
      ensures r == if written then Ok(()) else Err(Backend)
      ensures View() == if written then old(View())[key := value] else old(View())
    {
      if !written {
        return Err(Backend);
      }
      var full := FullKey(prefix, key);
      data.rows := data.rows[full := value];
      forall k | FullKey(prefix, k) == full ensures k == key { FullKeyInjective(prefix, k, key); }
      return Ok(());
    }

    method Del(key: string) returns (r: Result<(), Error>)
      requires IsCollection()
      modifies data
      ensures IsCollection()
      ensures r == if key in old(View()) then Ok(()) else Err(EntryNotFound)
      ensures View() == old(View()) - {key}
    {
      var full := FullKey(prefix, key);
      StripRemove(data.rows, prefix, key);
      if full in data.rows {
        data.rows := data.rows - {full};
        return Ok(());
      }
      return Err(EntryNotFound);
    }

    method Purge(written: bool) returns (r: Result<(), Error>)
      modifies data
      ensures r == if written then Ok(()) else Err(Backend)
      ensures written ==> forall k :: k in data.rows <==> k in old(data.rows) && !StartsWith(k, prefix)
      ensures forall k | k in data.rows :: k in old(data.rows) && data.rows[k] == old(data.rows[k])
      ensures !written ==> data.rows == old(data.rows)
      ensures old(IsCollection()) ==> IsCollection()
      ensures old(IsCollection()) && written ==> View() == map[]
    {
      if !written {
        return Err(Backend);
      }
      data.rows := map k | k in data.rows && !StartsWith(k, prefix) :: data.rows[k];
      if old(IsCollection()) {
        assert forall k | k in old(data.rows) :: StartsWith(k, prefix + ".") && StartsWith(k, prefix);
        assert forall k :: k !in data.rows;
      }
      return Ok(());
    }

    /** The entries in key order, bare keys, or the same in reverse. */
    function Iter(reverse: bool): (r: seq<(string, Bytes)>)
      requires IsCollection()
      reads data
      ensures r == if reverse then Reverse(Items(View())) else Items(View())
    {
      var items := Items(data.rows);
      StrippedItems(data.rows, prefix);
      if reverse then
        ReversedIter(items, prefix);
        Bared(WithPrefix(Reverse(items), prefix), prefix)
      else
        WithPrefixAll(items, prefix);
        Bared(WithPrefix(items, prefix), prefix)
    }

    // ------------------------------------------------------ as a state

    ghost function Stored(): Option<Bytes>
      reads data
    {
      if prefix in data.rows then Some(data.rows[prefix]) else None
    }

    function GetState(): (r: Result<Bytes, Error>)
      reads data
      ensures r == match Stored() case Some(b) => Ok(b) case None => Err(EntryNotFound)
    {
      if prefix in data.rows then Ok(data.rows[prefix]) else Err(EntryNotFound)
    }

    method PutState(value: Bytes, written: bool) returns (r: Result<(), Error>)
      modifies data
      ensures r == if written then Ok(()) else Err(Backend)
      ensures data.rows == if written then old(data.rows)[prefix := value] else old(data.rows)
      ensures Stored() == if written then Some(value) else old(Stored())
    {
      if !written {
        return Err(Backend);
      }
      data.rows := data.rows[prefix := value];
      return Ok(());
    }
  }

  /** Forward iteration is strictly ascending and lists the map exactly. */
  lemma ItemsSpec(m: map<string, Bytes>)
    ensures |Items(m)| == |m|
    ensures forall i, j | 0 <= i < j < |Items(m)| :: LexLess(Items(m)[i].0, Items(m)[j].0)
    ensures forall k, v :: (k, v) in Items(m) <==> k in m && m[k] == v
  {
    var keys := Ascending(m.Keys);
    assert forall i | 0 <= i < |keys| :: keys[i] in keys;
    forall k, v | k in m && m[k] == v ensures (k, v) in Items(m) {
      var i :| 0 <= i < |keys| && keys[i] == k;
      assert Items(m)[i] == (k, v);
    }
    assert |keys| == |m.Keys|;
  }

  // Where a key of the map is listed.
  lemma ItemIndex(m: map<string, Bytes>, k: string) returns (i: nat)
    requires k in m
    ensures i < |Items(m)| && Items(m)[i] == (k, m[k])
  {
    assert k in Ascending(m.Keys);
    i :| 0 <= i < |Ascending(m.Keys)| && Ascending(m.Keys)[i] == k;
  }

  lemma ItemAt(m: map<string, Bytes>, i: nat)
    requires i < |Items(m)|
    ensures Items(m)[i].0 == Ascending(m.Keys)[i] && Items(m)[i].0 in m && Items(m)[i].1 == m[Items(m)[i].0]
  {
    assert Ascending(m.Keys)[i] in Ascending(m.Keys);
  }

  /** Two handles of one manager share their data exactly when they were asked
      for under the same name and prefix. */
  lemma SharedIff(manager: MemoryManager, a: MemoryStore, b: MemoryStore)
    requires manager.Valid()
    requires (a.name, a.prefix) in manager.tables && a.data == manager.tables[(a.name, a.prefix)]
    requires (b.name, b.prefix) in manager.tables && b.data == manager.tables[(b.name, b.prefix)]
    ensures a.data == b.data <==> a.name == b.name && a.prefix == b.prefix
  {
    if a.data == b.data {
      assert (a.name, a.prefix) == (b.name, b.prefix);
    }
  }

  /** The owner of the shared tables. */
  class MemoryManager {
    var tables: map<(string, string), Table>

    constructor ()
      ensures tables == map[]
    {
      tables := map[];
    }

    // Different (name, prefix) pairs never share a table.
    ghost predicate Valid()
      reads this
    {
      forall a, b | a in tables && b in tables && tables[a] == tables[b] :: a == b
    }

    /** `create_collection` and `create_state` share this body. */
    method Create(name: string, prefix: string) returns (s: MemoryStore)
      requires Valid()
      modifies this
      ensures Valid()
      ensures s.name == name && s.prefix == prefix
      ensures (name, prefix) in tables && s.data == tables[(name, prefix)]
      ensures tables == old(tables)[(name, prefix) := s.data]
      ensures (name, prefix) in old(tables) ==> s.data == old(tables)[(name, prefix)] && tables == old(tables)
      ensures (name, prefix) !in old(tables) ==> fresh(s.data) && s.data.rows == map[]
      ensures fresh(s)
    {
      var table: Table;
      if (name, prefix) in tables {
        table := tables[(name, prefix)];
      } else {
        table := new Table();
        tables := tables[(name, prefix) := table];
      }
      s := new MemoryStore(name, prefix, table);
    }
  }
}
