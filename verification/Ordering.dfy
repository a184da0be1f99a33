/** Lexicographic order on strings: the order in which a `BTreeMap<String, _>`
    keeps its keys. UTF-8 compares like code points, so comparing characters
    is comparing bytes. */
module Ordering {

  predicate LexLess(a: string, b: string) {
    b != "" && (a == "" || a[0] < b[0] || (a[0] == b[0] && LexLess(a[1..], b[1..])))
  }

  lemma {:induction false} LexTrichotomy(a: string, b: string)
    ensures LexLess(a, b) || a == b || LexLess(b, a)
    ensures !(LexLess(a, b) && LexLess(b, a))
    ensures a == b ==> !LexLess(a, b)
  {
    if a != "" && b != "" && a[0] == b[0] {
      LexTrichotomy(a[1..], b[1..]);
      assert a[1..] == b[1..] ==> a == [a[0]] + a[1..] == b;
    }
  }

  lemma {:induction false} LexTransitive(a: string, b: string, c: string)
    requires LexLess(a, b) && LexLess(b, c)
    ensures LexLess(a, c)
  {
    if a != "" && a[0] == b[0] == c[0] {
      LexTransitive(a[1..], b[1..], c[1..]);
    }
  }

  // A common prefix does not change the order.
  lemma {:induction false} LexSamePrefix(p: string, a: string, b: string)
    ensures LexLess(p + a, p + b) <==> LexLess(a, b)
  {
    if p == "" {
      assert p + a == a && p + b == b;
    } else {
      LexSamePrefix(p[1..], a, b);
      assert (p + a)[1..] == p[1..] + a && (p + b)[1..] == p[1..] + b;
    }
  }

  // Between strings of equal length the last character decides only a tie.
  lemma {:induction false} LexSnoc(a: string, x: char, b: string, y: char)
    requires |a| == |b|
    ensures LexLess(a + [x], b + [y]) <==> LexLess(a, b) || (a == b && x < y)
  {
    if a == "" {
      assert (a + [x])[1..] == "" && (b + [y])[1..] == "";
    } else {
      assert (a + [x])[1..] == a[1..] + [x] && (b + [y])[1..] == b[1..] + [y];
      LexSnoc(a[1..], x, b[1..], y);
      assert a[0] == b[0] && a[1..] == b[1..] ==> a == [a[0]] + a[1..] == b;
    }
  }

  predicate StrictlyAscending(s: seq<string>) {
    forall i, j :: 0 <= i < j < |s| ==> LexLess(s[i], s[j])
  }

  predicate IsLeast(k: string, keys: set<string>) {
    k in keys && forall j | j in keys :: j == k || LexLess(k, j)
  }

  lemma {:induction false} LeastExists(keys: set<string>)
    requires keys != {}
    ensures exists k :: k in keys && IsLeast(k, keys)
    decreases |keys|
  {
    var x :| x in keys;
    var rest := keys - {x};
    if rest == {} {
      assert keys == {x};
      assert IsLeast(x, keys);
    } else {
      LeastExists(rest);
      var y :| y in rest && IsLeast(y, rest);
      LexTrichotomy(x, y);
      if LexLess(x, y) {
        forall j | j in keys ensures j == x || LexLess(x, j) {
          if j != x && j != y { LexTransitive(x, y, j); }
        }
        assert IsLeast(x, keys);
      } else {
        assert IsLeast(y, keys);
      }
    }
  }

  lemma LeastUnique(keys: set<string>, a: string, b: string)
    requires IsLeast(a, keys) && IsLeast(b, keys)
    ensures a == b
  {
    LexTrichotomy(a, b);
  }

  /** The keys of an ordered map, in iteration order. */
  function Ascending(keys: set<string>): (r: seq<string>)
    ensures StrictlyAscending(r)
    ensures forall k :: k in r <==> k in keys
    ensures |r| == |keys|
    decreases |keys|
  {
    if keys == {} then [] else
    LeastExists(keys);
    assert forall a, b | IsLeast(a, keys) && IsLeast(b, keys) :: a == b by {
      forall a, b | IsLeast(a, keys) && IsLeast(b, keys) ensures a == b { LeastUnique(keys, a, b); }
    }
    var k :| k in keys && IsLeast(k, keys);
    var rest := Ascending(keys - {k});
    assert forall j | 0 <= j < |rest| :: rest[j] in rest;
    [k] + rest
  }

  lemma NonemptyHasMember(s: seq<string>)
    ensures s != [] ==> exists k :: k in s
  {
    if s != [] { assert s[0] in s; }
  }

  // A set of keys has one strictly ascending enumeration.
  lemma {:induction false} AscendingUnique(a: seq<string>, b: seq<string>)
    requires StrictlyAscending(a) && StrictlyAscending(b)
    requires forall k :: k in a <==> k in b
    ensures a == b
  {
    if a == [] {
      NonemptyHasMember(b);
    } else {
      assert a[0] in a && a[0] in b;
      assert b != [] && b[0] in b && b[0] in a;
      HeadIsLeast(a, b[0]);
      HeadIsLeast(b, a[0]);
      LexTrichotomy(a[0], b[0]);
      TailMembers(a);
      TailMembers(b);
      AscendingUnique(a[1..], b[1..]);
      assert a == [a[0]] + a[1..] && b == [b[0]] + b[1..];
    }
  }

  lemma AscendingOf(s: seq<string>, keys: set<string>)
    requires StrictlyAscending(s)
    requires forall i | 0 <= i < |s| :: s[i] in keys
    requires forall k | k in keys :: k in s
    ensures s == Ascending(keys)
  {
    AscendingUnique(s, Ascending(keys));
  }

  lemma HeadIsLeast(s: seq<string>, k: string)
    requires StrictlyAscending(s) && k in s
    ensures k == s[0] || LexLess(s[0], k)
  {
    var i :| 0 <= i < |s| && s[i] == k;
  }

  lemma TailMembers(s: seq<string>)
    requires StrictlyAscending(s) && s != []
    ensures StrictlyAscending(s[1..])
    ensures forall k :: k in s[1..] <==> k in s && k != s[0]
  {
    forall k ensures k in s[1..] <==> k in s && k != s[0] {
      if k in s[1..] {
        var i :| 0 <= i < |s[1..]| && s[1..][i] == k;
        assert s[i + 1] == k && LexLess(s[0], s[i + 1]);
        LexTrichotomy(s[0], k);
      }
      if k in s && k != s[0] {
        var i :| 0 <= i < |s| && s[i] == k;
        assert s[1..][i - 1] == k;
      }
    }
  }
}
