/** The parts of `node:path` the engine uses, on plain "/"-separated strings.
    Trailing separators are ignored by basename and dirname, as in Node; no normalisation of
    ".", ".." or repeated separators is done. */
module Paths {

  import opened Outcomes

  /** path.join(a, b): an empty part disappears, otherwise exactly one "/" separates the parts. */
  function Join(a: string, b: string): (r: string)
    ensures a == "" ==> r == b
    ensures b == "" ==> r == a
    ensures a != "" && b != "" ==> |r| > |a| && |r| > |b| && r[|r| - |b|..] == b && r[..|a|] == a
  {
    if a == "" then b
    else if b == "" then a
    else if a[|a| - 1] == '/' then a + b
    else a + "/" + b
  }

  /** Index of the last "/" in p, if any. */
  function LastSlash(p: string): (r: Option<nat>)
    ensures r.Some? ==> r.value < |p| && p[r.value] == '/' && '/' !in p[r.value + 1..]
    ensures r.None? ==> '/' !in p
  {
    if p == [] then None
    else if p[|p| - 1] == '/' then Some(|p| - 1)
    else
      var q := LastSlash(p[..|p| - 1]);
      assert p == p[..|p| - 1] + [p[|p| - 1]];
      q
  }

  /** p without its trailing "/" separators, which path.basename and path.dirname ignore. */
  function TrimSlashes(p: string): (r: string)
    ensures |r| <= |p| && r == p[..|r|]
    ensures r == "" || r[|r| - 1] != '/'
    decreases |p|
  {
    if p != [] && p[|p| - 1] == '/' then TrimSlashes(p[..|p| - 1]) else p
  }

  /** Only separators are dropped. */
  lemma {:induction false} TrimDropsSlashes(p: string)
    ensures forall i :: |TrimSlashes(p)| <= i < |p| ==> p[i] == '/'
    decreases |p|
  {
    if p != [] && p[|p| - 1] == '/' {
      TrimDropsSlashes(p[..|p| - 1]);
    }
  }

  /** path.basename(p): what follows the last "/" once trailing separators are dropped. */
  function Basename(p: string): (r: string)
    ensures '/' !in r
    ensures '/' !in p ==> r == p
  {
    var t := TrimSlashes(p);
    match LastSlash(t)
    case None => t
    case Some(i) => t[i + 1..]
  }

  /** The base name is a suffix of the path once trailing separators are dropped. */
  lemma BasenameIsSuffix(p: string)
    ensures var t, r := TrimSlashes(p), Basename(p); |r| <= |t| && r == t[|t| - |r|..]
  {
    var t := TrimSlashes(p);
    match LastSlash(t)
    case None =>
      assert Basename(p) == t;
      assert t[|t| - |t|..] == t;
    case Some(i) =>
      assert Basename(p) == t[i + 1..];
      assert |t| - |t[i + 1..]| == i + 1;
  }

  /** path.dirname(p), with "" standing for the current (or root) directory: what precedes the
      last "/" once trailing separators are dropped. */
  function Dirname(p: string): (r: string)
    ensures |r| < |p| || p == ""
    ensures |r| <= |p| && r == p[..|r|]
  {
    var t := TrimSlashes(p);
    match LastSlash(t)
    case None => ""
    case Some(i) => t[..i]
  }

  /** A trailing separator changes neither the base name nor the directory. */
  lemma TrailingSlashIgnored(p: string)
    ensures Basename(p + "/") == Basename(p) && Dirname(p + "/") == Dirname(p)
  {
    var q := p + "/";
    assert q != [] && q[|q| - 1] == '/' && q[..|q| - 1] == p;
    assert TrimSlashes(q) == TrimSlashes(p);
  }

  /** A file name written with a trailing separator. */
  lemma DirectoryBasename()
    ensures Basename("data/") == "data"
  {
    TrailingSlashIgnored("data");
    assert "data/" == "data" + "/";
    assert '/' !in "data";
  }

  /** A directory written with a trailing separator. */
  lemma DirectoryDirname()
    ensures Dirname("a/b/") == "a"
  {
    var p := Join("a", "b");
    assert p == "a/b";
    DirnameOfJoin("a", "b");
    TrailingSlashIgnored(p);
    assert p + "/" == "a/b/";
  }

  /** The directories `mkdir(p, {recursive: true})` creates: p and every prefix that ends before a "/". */
  function Ancestors(p: string): (r: set<string>)
    ensures p in r
    ensures forall a :: a in r ==> a == p || (|a| < |p| && a == p[..|a|] && p[|a|] == '/')
  {
    {p} + set i | 0 < i < |p| && p[i] == '/' :: p[..i]
  }

  /** Joining a base name onto a directory gives back the base name. */
  lemma BasenameOfJoin(a: string, b: string)
    requires b != "" && '/' !in b
    ensures Basename(Join(a, b)) == b
  {
    var j := Join(a, b);
    if a != "" {
      var i := if a[|a| - 1] == '/' then |a| - 1 else |a|;
      assert j == a[..i] + "/" + b;
      LastSlashAfterPrefix(a[..i], b);
    }
  }

  /** The directory of a joined path is the directory it was joined onto. */
  lemma DirnameOfJoin(a: string, b: string)
    requires a != "" && a[|a| - 1] != '/'
    requires b != "" && '/' !in b
    ensures Dirname(Join(a, b)) == a
  {
    assert Join(a, b) == a + "/" + b;
    LastSlashAfterPrefix(a, b);
  }

  lemma {:induction false} LastSlashAfterPrefix(a: string, b: string)
    requires '/' !in b
    ensures LastSlash(a + "/" + b) == Some(|a|)
    decreases |b|
  {
    var p := a + "/" + b;
    if b == [] {
      assert p[|p| - 1] == '/';
    } else {
      assert p[|p| - 1] == b[|b| - 1];
      assert p[..|p| - 1] == a + "/" + b[..|b| - 1];
      LastSlashAfterPrefix(a, b[..|b| - 1]);
    }
  }
}

/** Array.prototype.join and String.prototype.split on strings. */
module Text {

  /** xs.join(sep). */
  function JoinWith(xs: seq<string>, sep: string): (r: string)
    decreases |xs|
  {
    if xs == [] then ""
    else if |xs| == 1 then xs[0]
    else xs[0] + sep + JoinWith(xs[1..], sep)
  }

  /** s.split(c): the pieces between occurrences of c; never empty, no piece holds c. */
  function Split(s: string, c: char): (r: seq<string>)
    ensures |r| >= 1
    ensures forall i :: 0 <= i < |r| ==> c !in r[i]
    decreases |s|
  {
    if s == [] then [""]
    else if s[0] == c then [""] + Split(s[1..], c)
    else
      var rest := Split(s[1..], c);
      [[s[0]] + rest[0]] + rest[1..]
  }

  /** xs.filter((p) => p !== ""). */
  function NonEmpty(xs: seq<string>): (r: seq<string>)
    ensures forall i :: 0 <= i < |r| ==> r[i] != "" && r[i] in xs
    ensures |r| <= |xs|
    ensures (forall i :: 0 <= i < |xs| ==> xs[i] != "") ==> r == xs
  {
    if xs == [] then []
    else if xs[0] == "" then NonEmpty(xs[1..])
    else [xs[0]] + NonEmpty(xs[1..])
  }

  /** The filter keeps a single entry exactly when it is non-empty. */
  lemma NonEmptySingle(x: string)
    ensures NonEmpty([x]) == if x == "" then [] else [x]
  {
    assert [x][1..] == [];
  }

  /** The filter works entry by entry: it keeps every non-empty entry, in order. */
  lemma {:induction false} NonEmptyAppend(xs: seq<string>, ys: seq<string>)
    ensures NonEmpty(xs + ys) == NonEmpty(xs) + NonEmpty(ys)
    decreases |xs|
  {
    if xs != [] {
      assert (xs + ys)[0] == xs[0] && (xs + ys)[1..] == xs[1..] + ys;
      NonEmptyAppend(xs[1..], ys);
      if xs[0] != "" {
        assert [xs[0]] + (NonEmpty(xs[1..]) + NonEmpty(ys)) == [xs[0]] + NonEmpty(xs[1..]) + NonEmpty(ys);
      }
    } else {
      assert xs + ys == ys;
    }
  }

  /** Splitting and joining again with the same separator gives back the text. */
  lemma {:induction false} JoinSplit(s: string, c: char)
    ensures JoinWith(Split(s, c), [c]) == s
    decreases |s|
  {
    if s == [] {
    } else if s[0] == c {
      JoinSplit(s[1..], c);
      assert [c] + s[1..] == s;
    } else {
      var rest := Split(s[1..], c);
      JoinSplit(s[1..], c);
      if |rest| == 1 {
        assert [s[0]] + rest[0] == s;
      } else {
        assert rest == [rest[0]] + rest[1..];
        assert ([s[0]] + rest[0]) + [c] + JoinWith(rest[1..], [c]) == [s[0]] + (rest[0] + [c] + JoinWith(rest[1..], [c]));
        assert [s[0]] + s[1..] == s;
      }
    }
  }

  /** A piece without the separator is split off whole. */
  lemma {:induction false} SplitPiece(x: string, c: char, tail: string)
    requires c !in x
    ensures Split(x + [c] + tail, c) == [x] + Split(tail, c)
    decreases |x|
  {
    if x == [] {
      assert x + [c] + tail == [c] + tail;
    } else {
      SplitPiece(x[1..], c, tail);
      assert (x + [c] + tail)[1..] == x[1..] + [c] + tail;
      assert [x[0]] + x[1..] == x;
    }
  }

  /** A text without the separator is a single piece. */
  lemma {:induction false} SplitWhole(x: string, c: char)
    requires c !in x
    ensures Split(x, c) == [x]
    decreases |x|
  {
    if x != [] {
      SplitWhole(x[1..], c);
      assert [x[0]] + x[1..] == x;
    }
  }

  /** Joining pieces without the separator and splitting again gives back the pieces. */
  lemma {:induction false} SplitJoin(xs: seq<string>, c: char)
    requires |xs| >= 1
    requires forall i :: 0 <= i < |xs| ==> c !in xs[i]
    ensures Split(JoinWith(xs, [c]), c) == xs
    decreases |xs|
  {
    if |xs| == 1 {
      SplitWhole(xs[0], c);
    } else {
      SplitJoin(xs[1..], c);
      SplitPiece(xs[0], c, JoinWith(xs[1..], [c]));
      assert [xs[0]] + xs[1..] == xs;
    }
  }
}
