/** The default methods of a collection: the last entry, and pages of values
    before or after a cursor. */
module Database {
  import opened Wrappers
  import opened Ordering
  import opened Memory

  /** The bounds of a 64-bit isize. */
  const ISIZE_MIN: int := -0x8000_0000_0000_0000
  const ISIZE_MAX: int := 0x7FFF_FFFF_FFFF_FFFF

  function Abs(q: int): nat {
    if q >= 0 then q else -q
  }

  /** The first entry of the reverse iteration. */
  function Last(c: MemoryStore): (r: Option<(string, Bytes)>)
    requires c.IsCollection()
    reads c.data
    ensures r.None? <==> c.View() == map[]
    ensures r.Some? ==> r.value.0 in c.View() && r.value.1 == c.View()[r.value.0]
    ensures r.Some? ==> forall k | k in c.View() :: k == r.value.0 || LexLess(k, r.value.0)
  {
    var items := c.Iter(true);
    LastIsGreatest(c.View());
    if items == [] then None else Some(items[0])
  }

  lemma LastIsGreatest(m: map<string, Bytes>)
    ensures Reverse(Items(m)) == [] <==> m == map[]
    ensures m != map[] ==>
              var last := Reverse(Items(m))[0];
              last.0 in m && m[last.0] == last.1 && forall k | k in m :: k == last.0 || LexLess(k, last.0)
  {
    var items := Items(m);
    assert |items| == |m.Keys|;
    if m != map[] {
      var k0 :| k0 in m;
      assert m.Keys != {};
      ItemAt(m, |items| - 1);
      forall k | k in m ensures k == items[|items| - 1].0 || LexLess(k, items[|items| - 1].0) {
        var i := ItemIndex(m, k);
        ItemAt(m, i);
      }
    }
  }

  // ------------------------------------------------------ specification

  /** The entries whose key lies strictly after the cursor in the direction of
      travel, nearest first; without a cursor, all of them. */
  ghost function Beyond(m: map<string, Bytes>, from: Option<string>, back: bool): map<string, Bytes> {
    match from
    case None => m
    case Some(c) => map k | k in m && (if back then LexLess(k, c) else LexLess(c, k)) :: m[k]
  }

  ghost function Directed(m: map<string, Bytes>, back: bool): seq<(string, Bytes)> {
    if back then Reverse(Items(m)) else Items(m)
  }

  function Take<T>(s: seq<T>, n: nat): seq<T> {
    if n <= |s| then s[..n] else s
  }

  function Values(items: seq<(string, Bytes)>): (r: seq<Bytes>) {
    seq(|items|, i requires 0 <= i < |items| => items[i].1)
  }

  /** A page: the first |q| values strictly beyond the cursor. */
  ghost function Page(m: map<string, Bytes>, from: Option<string>, q: int): (r: Result<seq<Bytes>, Error>) {
    if from.Some? && from.value !in m then Err(EntryNotFound)
    else Ok(Take(Values(Directed(Beyond(m, from, q < 0), q < 0)), Abs(q)))
  }

  lemma SideByIndex(m: map<string, Bytes>, at: nat, l: nat, back: bool)
    requires at < |Ascending(m.Keys)| && l < |Ascending(m.Keys)|
    ensures var keys := Ascending(m.Keys);
            keys[l] in Beyond(m, Some(keys[at]), back) <==> if back then l < at else at < l
  {
    hide Ascending;
    var keys := Ascending(m.Keys);
    assert keys[l] in keys && keys[at] in keys;
    LexTrichotomy(keys[l], keys[at]);
  }

  // The keys on one side of the i-th are a slice of the ascending keys.
  lemma SideKeys(m: map<string, Bytes>, at: nat, back: bool)
    requires at < |Ascending(m.Keys)|
    ensures var keys := Ascending(m.Keys);
            Ascending(Beyond(m, Some(keys[at]), back).Keys) == if back then keys[..at] else keys[at + 1..]
  {
    hide LexLess, Ascending;
    var keys := Ascending(m.Keys);
    var side := Beyond(m, Some(keys[at]), back).Keys;
    var base, part := if back then 0 else at + 1, if back then keys[..at] else keys[at + 1..];
    forall j | 0 <= j < |part| ensures part[j] in side {
      SideByIndex(m, at, base + j, back);
    }
    forall k | k in side ensures k in part {
      var l := KeyIndex(m, k);
      SideByIndex(m, at, l, back);
      assert part[l - base] == k;
    }
    AscendingOf(part, side);
  }

  lemma KeyIndex(m: map<string, Bytes>, k: string) returns (l: nat)
    requires k in m
    ensures l < |Ascending(m.Keys)| && Ascending(m.Keys)[l] == k
  {
    assert k in Ascending(m.Keys);
    l :| 0 <= l < |Ascending(m.Keys)| && Ascending(m.Keys)[l] == k;
  }

  lemma BeyondIsPart(m: map<string, Bytes>, from: Option<string>, back: bool)
    ensures forall k | k in Beyond(m, from, back) :: k in m && Beyond(m, from, back)[k] == m[k]
  {}

  lemma ItemKeys(m: map<string, Bytes>)
    ensures |Items(m)| == |Ascending(m.Keys)|
    ensures forall i | 0 <= i < |Items(m)| ::
              Ascending(m.Keys)[i] in m && Items(m)[i] == (Ascending(m.Keys)[i], m[Ascending(m.Keys)[i]])
  {
    hide Ascending;
    var keys := Ascending(m.Keys);
    assert forall i | 0 <= i < |keys| :: keys[i] in keys;
  }

  lemma SideItems(m: map<string, Bytes>, at: nat, back: bool)
    requires at < |Items(m)|
    ensures Items(Beyond(m, Some(Items(m)[at].0), back)) == if back then Items(m)[..at] else Items(m)[at + 1..]
  {
    hide LexLess, Ascending, Beyond, Items;
    ItemKeys(m);
    SideKeys(m, at, back);
    var side := Beyond(m, Some(Items(m)[at].0), back);
    ItemKeys(side);
    BeyondIsPart(m, Some(Items(m)[at].0), back);
    var part := if back then Items(m)[..at] else Items(m)[at + 1..];
    assert |Items(side)| == |part|;
    forall j | 0 <= j < |part| ensures Items(side)[j] == part[j] {
      var i := if back then j else at + 1 + j;
      assert part[j] == Items(m)[i] && Ascending(side.Keys)[j] == Ascending(m.Keys)[i];
    }
  }

  lemma DirectedLength(m: map<string, Bytes>, back: bool)
    ensures |Directed(m, back)| == |m|
  {
    assert |Items(m)| == |m.Keys|;
  }

  lemma BeyondNothing(m: map<string, Bytes>, back: bool)
    ensures Beyond(m, None, back) == m
  {}

  lemma ReverseSlice<T>(s: seq<T>, i: nat)
    requires i < |s|
    ensures Reverse(s[..|s| - 1 - i]) == Reverse(s)[i + 1..]
  {
  }

  // The entries beyond the i-th are the rest of the iteration.
  lemma BeyondIsRest(m: map<string, Bytes>, i: nat, back: bool)
    requires i < |Directed(m, back)|
    ensures Directed(m, back)[i].0 in m
    ensures Directed(Beyond(m, Some(Directed(m, back)[i].0), back), back) == Directed(m, back)[i + 1..]
  {
    hide LexLess, Ascending, Beyond, Items, Reverse;
    var at := if back then |Items(m)| - 1 - i else i;
    ItemAt(m, at);
    SideItems(m, at, back);
    if back {
      ReverseSlice(Items(m), i);
    }
  }

  // A key of the map is met on the way.
  lemma CursorMet(m: map<string, Bytes>, k: string, back: bool)
    requires k in m
    ensures exists j :: 0 <= j < |Directed(m, back)| && Directed(m, back)[j].0 == k
  {
    var i := ItemIndex(m, k);
    assert Directed(m, back)[if back then |Items(m)| - 1 - i else i].0 == k;
  }

  /** The search loop of `get_by_range`: step past the cursor. */
  method SkipTo(iter: seq<(string, Bytes)>, key: string) returns (next: Option<nat>)
    ensures next.None? ==> forall j | 0 <= j < |iter| :: iter[j].0 != key
    ensures next.Some? ==> 1 <= next.value <= |iter| && iter[next.value - 1].0 == key
  {
    var i := 0;
    while true
      invariant 0 <= i <= |iter|
      invariant forall j | 0 <= j < i :: iter[j].0 != key
      decreases |iter| - i
    {
      if i == |iter| {
        return None;
      }
      if iter[i].0 == key {
        return Some(i + 1); // the cursor itself is excluded
      }
      i := i + 1;
    }
  }

  /** The filling loop of `get_by_range`. */
  method Fill(iter: seq<(string, Bytes)>, quantity: nat) returns (result: seq<Bytes>)
    ensures result == Take(Values(iter), quantity)
  {
    result := [];
    var counter := 0;
    while counter < quantity
      invariant 0 <= counter <= quantity && counter <= |iter|
      invariant result == Values(iter)[..counter]
    {
      if counter == |iter| {
        break;
      }
      result := result + [iter[counter].1];
      counter := counter + 1;
    }
  }

  /** `get_by_range` */
  method GetByRange(c: MemoryStore, from: Option<string>, quantity: int) returns (r: Result<seq<Bytes>, Error>)
    requires c.IsCollection()
    requires ISIZE_MIN < quantity <= ISIZE_MAX
    ensures r == Page(c.View(), from, quantity)
  {
    hide LexLess, Ascending, Items, Reverse, Beyond, Values, Take, MemoryStore.View;
    BeyondNothing(c.View(), quantity < 0);
    var iter := c.Iter(quantity < 0);
    assert iter == Directed(c.View(), quantity < 0);
    if from.Some? {
      var next := SkipTo(iter, from.value);
      if next.None? {
        if from.value in c.View() { CursorMet(c.View(), from.value, quantity < 0); }
        return Err(EntryNotFound);
      }
      BeyondIsRest(c.View(), next.value - 1, quantity < 0);
      iter := iter[next.value..];
    }
    var result := Fill(iter, Abs(quantity));
    r := Ok(result);
  }

  /** What a page holds: as many values as asked for or as there are beyond the
      cursor, whichever is less, in the order of the iteration. */
  lemma PageHolds(view: map<string, Bytes>, from: Option<string>, n: nat, back: bool)
    requires from.Some? ==> from.value in view
    ensures var beyond := Beyond(view, from, back);
            var page := Page(view, from, Signed(n, back));
            && |Directed(beyond, back)| == |beyond|
            && page.Ok? && |page.value| == (if n < |beyond| then n else |beyond|)
            && forall i | 0 <= i < |page.value| :: page.value[i] == Directed(beyond, back)[i].1
  {
    PageAt(view, from, n, back);
    DirectedLength(Beyond(view, from, back), back);
    hide Beyond, Directed, Page;
  }

  /** A page is refused exactly when no entry of the iteration has the cursor for
      its key; any cursor that is there will do. */
  lemma PageFailsIff(view: map<string, Bytes>, cursor: string, q: int)
    ensures Page(view, Some(cursor), q).Err? <==> forall i | 0 <= i < |Items(view)| :: Items(view)[i].0 != cursor
    ensures Page(view, Some(cursor), q).Err? ==> Page(view, Some(cursor), q) == Err(EntryNotFound)
    ensures Page(view, None, q).Ok?
  {
    if cursor in view {
      var i := ItemIndex(view, cursor);
      assert Items(view)[i].0 == cursor;
    } else {
      forall i | 0 <= i < |Items(view)| ensures Items(view)[i].0 != cursor { ItemAt(view, i); }
    }
  }

  // --------------------------------------------------------- pagination

  function Signed(n: int, back: bool): int {
    if back then -n else n
  }

  lemma PageAt(m: map<string, Bytes>, from: Option<string>, n: nat, back: bool)
    requires from.None? || from.value in m
    ensures Page(m, from, Signed(n, back)) == Ok(Take(Values(Directed(Beyond(m, from, back), back)), n))
  {
    hide Beyond, Directed;
    if n == 0 {
      assert Take(Values(Directed(Beyond(m, from, back), back)), 0) == [];
      assert Take(Values(Directed(Beyond(m, from, false), false)), 0) == [];
    }
  }

  /** Reading n values and then m more from the last key read is reading n + m. */
  lemma PagesConcatenate(view: map<string, Bytes>, n: nat, m: nat, back: bool)
    requires 1 <= n <= |view|
    ensures |Directed(view, back)| == |view|
    ensures var cursor := Some(Directed(view, back)[n - 1].0);
            && Page(view, None, Signed(n, back)).Ok? && Page(view, cursor, Signed(m, back)).Ok?
            && Page(view, None, Signed(n + m, back)) ==
               Ok(Page(view, None, Signed(n, back)).value + Page(view, cursor, Signed(m, back)).value)
  {
    hide LexLess, Ascending, Beyond;
    hide Directed, Page, Items, Values, Take;
    DirectedLength(view, back);
    BeyondIsRest(view, n - 1, back);
    PageAt(view, None, n, back);
    PageAt(view, None, n + m, back);
    PageAt(view, Some(Directed(view, back)[n - 1].0), m, back);
    BeyondNothing(view, back);
    TakeSplit(Directed(view, back), n, m);
  }

  lemma TakeSplit(s: seq<(string, Bytes)>, n: nat, m: nat)
    requires n <= |s|
    ensures Take(Values(s), n + m) == Take(Values(s), n) + Take(Values(s[n..]), m)
  {
    assert Values(s[n..]) == Values(s)[n..];
  }
}
