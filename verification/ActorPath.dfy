/** Actor paths: lists of tokens, printed and parsed with slashes. */
module ActorPath {

  datatype ActorPath = ActorPath(tokens: seq<string>)

  // ------------------------------------------------------ the operations

  /** `char::is_whitespace`: the Unicode White_Space property. */
  predicate IsWhitespace(c: char) {
    var n := c as int;
    || 0x9 <= n <= 0xD || n == 0x20 || n == 0x85 || n == 0xA0 || n == 0x1680
    || 0x2000 <= n <= 0x200A || n == 0x2028 || n == 0x2029 || n == 0x202F || n == 0x205F || n == 0x3000
  }

  /** `token.trim().is_empty()` */
  predicate Blank(token: string) {
    forall i | 0 <= i < |token| :: IsWhitespace(token[i])
  }

  /** `split('/')`: one piece more than there are slashes. */
  function Split(s: string): (r: seq<string>)
    ensures |r| >= 1
  {
    if s == "" then [""]
    else
      var rest := Split(s[1..]);
      if s[0] == '/' then [""] + rest else [[s[0]] + rest[0]] + rest[1..]
  }

  /** `filter(not blank)` */
  function NonBlank(pieces: seq<string>): seq<string> {
    if pieces == [] then []
    else (if Blank(pieces[0]) then [] else [pieces[0]]) + NonBlank(pieces[1..])
  }

  /** `join("/")` */
  function Join(tokens: seq<string>): string {
    if tokens == [] then ""
    else if |tokens| == 1 then tokens[0]
    else tokens[0] + "/" + Join(tokens[1..])
  }

  /** `From<&str>` */
  function From(s: string): ActorPath {
    ActorPath(NonBlank(Split(s)))
  }

  /** `path / s` */
  function Div(p: ActorPath, s: string): ActorPath {
    ActorPath(p.tokens + NonBlank(Split(s)))
  }

  function Level(p: ActorPath): nat {
    |p.tokens|
  }

  /** `Display` */
  function Print(p: ActorPath): string {
    if Level(p) < 1 then "/"
    else if Level(p) == 1 then "/" + p.tokens[0]
    else "/" + Join(p.tokens)
  }

  function Root(p: ActorPath): ActorPath {
    if Level(p) == 1 then p
    else if p.tokens != [] then ActorPath(p.tokens[..1])
    else ActorPath([])
  }

  function Parent(p: ActorPath): ActorPath {
    if Level(p) > 1 then ActorPath(p.tokens[..Level(p) - 1]) else ActorPath([])
  }

  predicate IsTopLevel(p: ActorPath) {
    Level(p) == 1
  }

  function AtLevel(p: ActorPath, level: nat): ActorPath {
    if level < 1 || level >= Level(p) then p
    else if IsTopLevel(p) then Root(p)
    else if level == Level(p) - 1 then Parent(p)
    else ActorPath(p.tokens[..level])
  }

  /** `is_ancestor_of`: a test on the printed strings. */
  predicate IsAncestorOf(p: ActorPath, q: ActorPath) {
    Print(p) + "/" <= Print(q)
  }

  predicate IsDescendantOf(p: ActorPath, q: ActorPath) {
    Print(q) + "/" <= Print(p)
  }

  predicate IsParentOf(p: ActorPath, q: ActorPath) {
    p == Parent(q)
  }

  predicate IsChildOf(p: ActorPath, q: ActorPath) {
    Parent(p) == q
  }

  // ---------------------------------------------------- well-built paths

  predicate SlashFree(token: string) {
    forall i | 0 <= i < |token| :: token[i] != '/'
  }

  // The tokens `From` and `/` can produce.
  predicate Clean(tokens: seq<string>) {
    forall i | 0 <= i < |tokens| :: SlashFree(tokens[i]) && !Blank(tokens[i])
  }

  lemma {:induction false} SplitPieces(s: string)
    ensures forall i | 0 <= i < |Split(s)| :: SlashFree(Split(s)[i])
  {
    if s != "" {
      SplitPieces(s[1..]);
      var rest := Split(s[1..]);
      assert SlashFree(rest[0]);
      if s[0] != '/' { assert SlashFree([s[0]] + rest[0]); }
    }
  }

  lemma {:induction false} NonBlankClean(pieces: seq<string>)
    requires forall i | 0 <= i < |pieces| :: SlashFree(pieces[i])
    ensures Clean(NonBlank(pieces))
  {
    if pieces != [] {
      NonBlankClean(pieces[1..]);
    }
  }

  /** Every path built by `From` and `/` has non-blank, slash-free tokens. */
  lemma BuiltClean(p: ActorPath, s: string)
    ensures Clean(From(s).tokens)
    ensures Clean(p.tokens) ==> Clean(Div(p, s).tokens)
  {
    SplitPieces(s);
    NonBlankClean(Split(s));
  }

  // ------------------------------------------------- splitting and joining

  lemma {:induction false} SplitAtSlash(a: string, b: string)
    ensures Split(a + "/" + b) == Split(a) + Split(b)
  {
    var s := a + "/" + b;
    if a == "" {
      assert s[1..] == b;
    } else {
      assert s[1..] == a[1..] + "/" + b;
      SplitAtSlash(a[1..], b);
    }
  }

  lemma {:induction false} SplitToken(token: string)
    requires SlashFree(token)
    ensures Split(token) == [token]
  {
    if token != "" {
      assert SlashFree(token[1..]);
      SplitToken(token[1..]);
      assert [token[0]] + token[1..] == token;
    }
  }

  lemma {:induction false} SplitJoin(tokens: seq<string>)
    requires Clean(tokens) && tokens != []
    ensures Split(Join(tokens)) == tokens
  {
    SplitToken(tokens[0]);
    if |tokens| > 1 {
      SplitJoin(tokens[1..]);
      SplitAtSlash(tokens[0], Join(tokens[1..]));
    }
  }

  lemma {:induction false} NonBlankConcat(a: seq<string>, b: seq<string>)
    ensures NonBlank(a + b) == NonBlank(a) + NonBlank(b)
  {
    if a == [] {
      assert a + b == b;
    } else {
      assert (a + b)[1..] == a[1..] + b;
      NonBlankConcat(a[1..], b);
    }
  }

  lemma {:induction false} NonBlankKeeps(tokens: seq<string>)
    requires Clean(tokens)
    ensures NonBlank(tokens) == tokens
  {
    if tokens != [] {
      NonBlankKeeps(tokens[1..]);
    }
  }

  // The pieces of a printed path: an empty one, then the tokens.
  lemma SplitPrint(p: ActorPath)
    requires Clean(p.tokens)
    ensures Split(Print(p)) == [""] + if p.tokens == [] then [""] else p.tokens
  {
    if p.tokens != [] {
      SplitJoin(p.tokens);
      assert Print(p) == "" + "/" + Join(p.tokens);
      SplitAtSlash("", Join(p.tokens));
    } else {
      assert Print(p) == "" + "/" + "";
      SplitAtSlash("", "");
    }
  }

  // --------------------------------------------------------- round trips

  /** Parsing what was printed gives the path back. */
  lemma ParsePrint(p: ActorPath)
    requires Clean(p.tokens)
    ensures From(Print(p)) == p
  {
    SplitPrint(p);
    var pieces := if p.tokens == [] then [""] else p.tokens;
    NonBlankConcat([""], pieces);
    NonBlankKeeps(p.tokens);
    assert NonBlank([""]) == [];
  }

  /** Parsing a printed path, a slash and any string is the division. */
  lemma ParseDiv(p: ActorPath, s: string)
    requires Clean(p.tokens)
    ensures From(Print(p) + "/" + s) == Div(p, s)
  {
    SplitAtSlash(Print(p), s);
    NonBlankConcat(Split(Print(p)), Split(s));
    ParsePrint(p);
  }

  /** Printing after parsing normalises once and for all. */
  lemma PrintIdempotent(s: string)
    ensures Print(From(Print(From(s)))) == Print(From(s))
  {
    BuiltClean(ActorPath([]), s);
    ParsePrint(From(s));
  }

  /** Division adds one level, undone by `parent`, exactly when the string holds
      one token (or none, at the empty path). */
  lemma ParentOfDiv(p: ActorPath, s: string)
    ensures Parent(Div(p, s)) == p <==> Level(From(s)) == 1 || (Level(From(s)) == 0 && p.tokens == [])
  {
    var q := Div(p, s);
    if Level(From(s)) == 1 {
      assert q.tokens[..Level(q) - 1] == p.tokens;
    } else if Level(From(s)) == 0 {
      assert q.tokens == p.tokens;
    }
  }

  /** `at_level` cuts the path to `level` tokens, and keeps it whole outside 1..level. */
  lemma AtLevelCuts(p: ActorPath, level: nat)
    ensures AtLevel(p, level).tokens == if 1 <= level < Level(p) then p.tokens[..level] else p.tokens
  {
  }

  // ----------------------------------------------------------- ancestors

  predicate StrictPrefix(a: seq<string>, b: seq<string>) {
    a <= b && |a| < |b|
  }

  lemma {:induction false} JoinConcat(a: seq<string>, b: seq<string>)
    requires a != [] && b != []
    ensures Join(a + b) == Join(a) + "/" + Join(b)
  {
    assert (a + b)[1..] == a[1..] + b;
    if |a| == 1 {
      assert a[1..] + b == b;
    } else {
      JoinConcat(a[1..], b);
    }
  }

  lemma AncestorThenPrefix(p: ActorPath, q: ActorPath, rest: string)
    requires Clean(p.tokens) && Clean(q.tokens) && p.tokens != []
    requires Print(q) == Print(p) + "/" + rest
    ensures q.tokens == p.tokens + Split(rest)
  {
    hide Print, Split;
    SplitAtSlash(Print(p), rest);
    SplitPrint(p);
    SplitPrint(q);
    var pieces := if q.tokens == [] then [""] else q.tokens;
    assert [""] + pieces == ([""] + p.tokens) + Split(rest);
    assert ([""] + pieces)[1..] == pieces;
    assert (([""] + p.tokens) + Split(rest))[1..] == p.tokens + Split(rest);
  }

  lemma PrefixThenAncestor(p: ActorPath, rest: seq<string>)
    requires p.tokens != [] && rest != []
    ensures Print(ActorPath(p.tokens + rest)) == Print(p) + "/" + Join(rest)
  {
    JoinConcat(p.tokens, rest);
  }

  /** The string test is the prefix relation on tokens, for a non-empty path. */
  lemma AncestorIsPrefix(p: ActorPath, q: ActorPath)
    requires Clean(p.tokens) && Clean(q.tokens) && p.tokens != []
    ensures IsAncestorOf(p, q) <==> StrictPrefix(p.tokens, q.tokens)
  {
    hide Print, Split, Join;
    var head := Print(p) + "/";
    if IsAncestorOf(p, q) {
      var rest := Print(q)[|head|..];
      assert Print(q) == head + rest;
      AncestorThenPrefix(p, q, rest);
    }
    if StrictPrefix(p.tokens, q.tokens) {
      var rest := q.tokens[|p.tokens|..];
      assert q == ActorPath(p.tokens + rest);
      PrefixThenAncestor(p, rest);
    }
  }

  /** The empty path is an ancestor of nothing. */
  lemma EmptyHasNoDescendants(q: ActorPath)
    requires Clean(q.tokens)
    ensures !IsAncestorOf(ActorPath([]), q)
  {
    if q.tokens != [] {
      assert SlashFree(q.tokens[0]) && !Blank(q.tokens[0]);
      assert q.tokens[0] != "";
      assert Print(q)[1] == q.tokens[0][0];
    }
  }

  /** Descent is the converse of ancestry, which is transitive and goes one way;
      of the string test this holds for any tokens at all. */
  lemma DescendantIsConverse(p: ActorPath, q: ActorPath, r: ActorPath)
    ensures IsDescendantOf(q, p) <==> IsAncestorOf(p, q)
    ensures IsAncestorOf(p, q) && IsAncestorOf(q, r) ==> IsAncestorOf(p, r)
    ensures !(IsAncestorOf(p, q) && IsAncestorOf(q, p))
  {}

  /** A parent is an ancestor one level up, and nothing else is; `is_child_of`,
      which the registry scans with, is its converse. */
  lemma ParentIsNearestAncestor(p: ActorPath, q: ActorPath)
    requires Clean(p.tokens) && Clean(q.tokens) && p.tokens != []
    ensures IsParentOf(p, q) <==> IsAncestorOf(p, q) && Level(q) == Level(p) + 1
    ensures IsChildOf(q, p) <==> IsParentOf(p, q)
  {
    AncestorIsPrefix(p, q);
  }

  /** For the empty path the parent test still says yes, to every path of at
      most one token and to itself. */
  lemma EmptyIsParentOfTop(q: ActorPath)
    ensures IsParentOf(ActorPath([]), q) <==> Level(q) <= 1
  {
  }
}
