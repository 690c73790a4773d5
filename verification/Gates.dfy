/** Path matching against the schema's R3 routes and R4 edges (engine/gates.py). */
module Gates {
  import opened Text
  import opened Wrappers

  datatype Route = Route(file: string, tier: string, bundle: string)
  datatype Edge = Edge(source: string, kind: string, target: string)
  datatype Schema = Schema(routes: seq<Route>, edges: seq<Edge>, protectedPaths: seq<string>)

  // ---------------------------------------------------------------- normalisation

  /** Index after the last c before i, or 0. */
  function AfterLast(s: string, i: nat, c: char): (j: nat)
    requires i <= |s|
    ensures j <= i && (forall k :: j <= k < i ==> s[k] != c) && (0 < j ==> s[j - 1] == c)
  {
    if 0 < i && s[i - 1] != c then AfterLast(s, i - 1, c) else i
  }

  /** Remove one trailing parenthetical note:  \s*\([^)]*\)\s*$  */
  function StripNote(s: string): (r: string)
    ensures r <= s
  {
    var e := SkipBack(s, |s|, SPACES);
    if e == 0 || s[e - 1] != ')' then s else
    var b := AfterLast(s, e - 1, ')');
    var o := Upto(s[..e - 1], b, '(');
    if o == e - 1 then s else s[..SkipBack(s, o, SPACES)]
  }

  function Slashes(s: string): (r: string)
    ensures |r| == |s|
  {
    seq(|s|, k requires 0 <= k < |s| => if s[k] == '\\' then '/' else s[k])
  }

  function Norm(s: string): string {
    var t := Strip(Slashes(StripNote(s)));
    t[Skip(t, 0, {'.', '/'})..]
  }

  /** A normalised path has no trailing blank, so the pattern's final $ is the end of the text. */
  lemma {:induction false} NormEnd(s: string)
    ensures Norm(s) != "" ==> Norm(s)[|Norm(s)| - 1] !in SPACES
  {
    hide IsSpace;
  }

  // ---------------------------------------------------------------- globs

  /** The anchored expression for a schema pattern, from pattern position i at text position j:
      * is [^/]+ and everything else stands for itself. */
  predicate Match(p: string, i: nat, q: string, j: nat)
    requires i <= |p| && j <= |q|
    decreases |q| - j, |p| - i, 1
  {
    if i == |p| then j == |q|
    else if p[i] == '*' then Star(p, i, q, j)
    else j < |q| && q[j] == p[i] && Match(p, i + 1, q, j + 1)
  }

  predicate Star(p: string, i: nat, q: string, j: nat)
    requires i < |p| && j <= |q|
    decreases |q| - j, |p| - i, 0
  {
    j < |q| && q[j] != '/' && (Match(p, i + 1, q, j + 1) || Star(p, i, q, j + 1))
  }

  predicate PathMatches(schemaPath: string, query: string) {
    var s, q := Norm(schemaPath), Norm(query);
    if '*' !in s then s == q else Match(s, 0, q, 0)
  }

  function Stars(p: string): nat {
    if p == "" then 0 else (if p[0] == '*' then 1 else 0) + Stars(p[1..])
  }

  /** The pattern with its stars replaced, in order. */
  function Filled(p: string, fills: seq<string>): string
    requires |fills| == Stars(p)
  {
    if p == "" then ""
    else if p[0] == '*' then fills[0] + Filled(p[1..], fills[1..])
    else [p[0]] + Filled(p[1..], fills)
  }

  ghost predicate Fills(fills: seq<string>) {
    forall k :: 0 <= k < |fills| ==> fills[k] != "" && '/' !in fills[k]
  }

  /** A match yields the texts the stars stand for. */
  lemma {:induction false} MatchFills(p: string, i: nat, q: string, j: nat) returns (fills: seq<string>)
    requires i <= |p| && j <= |q| && Match(p, i, q, j)
    ensures Fills(fills) && |fills| == Stars(p[i..]) && Filled(p[i..], fills) == q[j..]
    decreases |q| - j, |p| - i, 1
  {
    if i == |p| {
      fills := [];
    } else if p[i] == '*' {
      fills := StarFills(p, i, q, j);
    } else {
      fills := MatchFills(p, i + 1, q, j + 1);
      assert p[i..][1..] == p[i + 1..] && q[j..] == [q[j]] + q[j + 1..];
    }
  }

  lemma {:induction false} StarFills(p: string, i: nat, q: string, j: nat) returns (fills: seq<string>)
    requires i < |p| && j <= |q| && p[i] == '*' && Star(p, i, q, j)
    ensures Fills(fills) && |fills| == Stars(p[i..]) && Filled(p[i..], fills) == q[j..]
    decreases |q| - j, |p| - i, 0
  {
    assert p[i..][1..] == p[i + 1..] && q[j..] == [q[j]] + q[j + 1..];
    if Match(p, i + 1, q, j + 1) {
      var rest := MatchFills(p, i + 1, q, j + 1);
      fills := [[q[j]]] + rest;
      assert fills[1..] == rest;
    } else {
      var rest := StarFills(p, i, q, j + 1);
      fills := [[q[j]] + rest[0]] + rest[1..];
      assert fills[1..] == rest[1..];
      assert q[j..] == [q[j]] + (rest[0] + Filled(p[i + 1..], rest[1..]));
    }
  }

  lemma {:induction false} FillsMatch(p: string, i: nat, q: string, j: nat, fills: seq<string>)
    requires i <= |p| && j <= |q| && Fills(fills) && |fills| == Stars(p[i..]) && Filled(p[i..], fills) == q[j..]
    ensures Match(p, i, q, j)
    decreases |q| - j, |p| - i, 1
  {
    if i < |p| {
      assert p[i..][1..] == p[i + 1..];
      if p[i] == '*' {
        FillsStar(p, i, q, j, fills);
      } else {
        assert q[j..][0] == p[i] && q[j..][1..] == q[j + 1..];
        FillsMatch(p, i + 1, q, j + 1, fills);
      }
    }
  }

  lemma {:induction false} FillsStar(p: string, i: nat, q: string, j: nat, fills: seq<string>)
    requires i < |p| && j <= |q| && p[i] == '*'
    requires Fills(fills) && |fills| == Stars(p[i..]) && Filled(p[i..], fills) == q[j..]
    ensures Star(p, i, q, j)
    decreases |q| - j, |p| - i, 0
  {
    assert p[i..][1..] == p[i + 1..];
    var f := fills[0];
    var rest := Filled(p[i + 1..], fills[1..]);
    assert q[j..] == f + rest;
    assert q[j] == f[0] && f[0] in f;
    assert q[j + 1..] == f[1..] + rest;
    if |f| == 1 {
      assert f[1..] + rest == rest;
      FillsMatch(p, i + 1, q, j + 1, fills[1..]);
    } else {
      var less := [f[1..]] + fills[1..];
      assert less[1..] == fills[1..];
      forall k | 0 <= k < |less| ensures less[k] != "" && '/' !in less[k] {
        if k > 0 { assert less[k] == fills[k]; }
      }
      FillsStar(p, i, q, j + 1, less);
    }
  }

  /** A pattern matches a path exactly when the path is the pattern with every star replaced by some
      non-empty text without a slash. */
  lemma {:induction false} GlobExact(p: string, q: string)
    ensures Match(p, 0, q, 0) <==> exists fills :: |fills| == Stars(p) && Fills(fills) && Filled(p, fills) == q
  {
    assert p[0..] == p && q[0..] == q;
    if Match(p, 0, q, 0) {
      var fills := MatchFills(p, 0, q, 0);
    }
    forall fills | |fills| == Stars(p) && Fills(fills) && Filled(p, fills) == q ensures Match(p, 0, q, 0) {
      FillsMatch(p, 0, q, 0, fills);
    }
  }

  function Count(s: string, c: char): nat {
    if s == "" then 0 else (if s[0] == c then 1 else 0) + Count(s[1..], c)
  }

  lemma {:induction false} CountFree(a: string, s: string, c: char)
    requires c !in a
    ensures Count(a + s, c) == Count(s, c)
  {
    if a == "" {
      assert a + s == s;
    } else {
      assert (a + s)[1..] == a[1..] + s;
      CountFree(a[1..], s, c);
    }
  }

  lemma {:induction false} FilledSlashes(p: string, fills: seq<string>)
    requires |fills| == Stars(p) && Fills(fills)
    ensures Count(Filled(p, fills), '/') == Count(p, '/')
  {
    if p != "" {
      if p[0] == '*' {
        FilledSlashes(p[1..], fills[1..]);
        CountFree(fills[0], Filled(p[1..], fills[1..]), '/');
      } else {
        FilledSlashes(p[1..], fills);
        var rest := Filled(p[1..], fills);
        assert ([p[0]] + rest)[1..] == rest;
      }
    }
  }

  /** A pattern never reaches across directories: pattern and path have equally many slashes. */
  lemma {:induction false} MatchSlashes(p: string, q: string)
    requires Match(p, 0, q, 0)
    ensures Count(p, '/') == Count(q, '/')
  {
    assert p[0..] == p && q[0..] == q;
    var fills := MatchFills(p, 0, q, 0);
    FilledSlashes(p, fills);
  }

  lemma {:induction false} NoStars(p: string, b: string)
    requires '*' !in p
    ensures Stars(p + b) == Stars(b)
    ensures forall fills :: |fills| == Stars(b) ==> |fills| == Stars(p + b) && Filled(p + b, fills) == p + Filled(b, fills)
  {
    if p == "" {
      assert p + b == b;
    } else {
      assert (p + b)[1..] == p[1..] + b;
      NoStars(p[1..], b);
      forall fills | |fills| == Stars(b) ensures Filled(p + b, fills) == p + Filled(b, fills) {
        assert p + Filled(b, fills) == [p[0]] + (p[1..] + Filled(b, fills));
      }
    }
  }

  /** A one-star pattern matches every path with a slug in the star's place. */
  lemma {:induction false} SlugFits(a: string, b: string, slug: string)
    requires '*' !in a && '*' !in b && slug != "" && '/' !in slug
    ensures Match(a + ("*" + b), 0, a + (slug + b), 0)
  {
    var p, q := a + ("*" + b), a + (slug + b);
    var fills := [slug];
    NoStars(b, "");
    assert b + "" == b && Filled("", []) == "";
    assert ("*" + b)[1..] == b;
    assert Stars("*" + b) == 1 && fills[1..] == [] && Filled("*" + b, fills) == slug + b;
    NoStars(a, "*" + b);
    assert p[0..] == p && q[0..] == q;
    FillsMatch(p, 0, q, 0, fills);
  }

  // ---------------------------------------------------------------- routes and edges

  /** The first route whose file matches, from index i. */
  function RouteFrom(routes: seq<Route>, path: string, i: nat): Option<Route>
    requires i <= |routes|
    decreases |routes| - i
  {
    if i == |routes| then None
    else if PathMatches(routes[i].file, path) then Some(routes[i])
    else RouteFrom(routes, path, i + 1)
  }

  function RouteOf(m: Schema, path: string): Option<Route> {
    if path == "" then None else RouteFrom(m.routes, path, 0)
  }

  method RouteFor(m: Schema, path: string) returns (r: Option<Route>)
    ensures r == RouteOf(m, path)
    ensures r.Some? ==> exists i :: 0 <= i < |m.routes| && m.routes[i] == r.value && PathMatches(r.value.file, path)
                                 && forall k :: 0 <= k < i ==> !PathMatches(m.routes[k].file, path)
    ensures r.None? && path != "" ==> forall k :: 0 <= k < |m.routes| ==> !PathMatches(m.routes[k].file, path)
  {
    hide PathMatches;
    if path == "" {
      return None;
    }
    var i := 0;
    while i < |m.routes|
      invariant 0 <= i <= |m.routes| && RouteFrom(m.routes, path, 0) == RouteFrom(m.routes, path, i)
      invariant forall k :: 0 <= k < i ==> !PathMatches(m.routes[k].file, path)
    {
      if PathMatches(m.routes[i].file, path) {
        return Some(m.routes[i]);
      }
      i := i + 1;
    }
    return None;
  }

  predicate IsProtected(m: Schema, path: string) {
    Norm(path) in m.protectedPaths ||
    var r := RouteOf(m, Norm(path)); r.Some? && Uppered(r.value.tier) == "PROTECTED"
  }

  function Edges(edges: seq<Edge>, path: string): seq<Edge> {
    if edges == [] then [] else
    var rest := Edges(edges[..|edges| - 1], path);
    if PathMatches(edges[|edges| - 1].source, path) then rest + [edges[|edges| - 1]] else rest
  }

  method CascadeFor(m: Schema, path: string) returns (out: seq<Edge>)
    ensures out == Edges(m.edges, path)
  {
    hide PathMatches;
    out := [];
    for i := 0 to |m.edges|
      invariant out == Edges(m.edges[..i], path)
    {
      assert m.edges[..i + 1][..i] == m.edges[..i];
      if PathMatches(m.edges[i].source, path) {
        out := out + [m.edges[i]];
      }
    }
    assert m.edges[..|m.edges|] == m.edges;
  }

  /** The places of the schema's edges out of the path. */
  function Places(edges: seq<Edge>, path: string): seq<nat> {
    if edges == [] then [] else
    var n := |edges| - 1;
    Places(edges[..n], path) + if PathMatches(edges[n].source, path) then [n] else []
  }

  lemma {:induction false} PlacesGrow(edges: seq<Edge>, path: string)
    ensures forall k :: 0 <= k < |Places(edges, path)| ==> Places(edges, path)[k] < |edges|
    ensures forall j, k :: 0 <= j < k < |Places(edges, path)| ==> Places(edges, path)[j] < Places(edges, path)[k]
  {
    hide PathMatches;
    if edges != [] { PlacesGrow(edges[..|edges| - 1], path); }
  }

  lemma {:induction false} PlacesMatch(edges: seq<Edge>, path: string, i: nat)
    requires i < |edges|
    ensures i in Places(edges, path) <==> PathMatches(edges[i].source, path)
  {
    hide PathMatches;
    var n := |edges| - 1;
    if i < n { PlacesMatch(edges[..n], path, i); } else { PlacesGrow(edges[..n], path); }
  }

  /** The edges returned are exactly the schema's edges out of the path, each as often as the schema has it and
      in the schema's order: they stand at increasing places, which are all the places of matching edges. */
  lemma {:induction false} EdgesExact(edges: seq<Edge>, path: string)
    ensures var places := Places(edges, path);
            && |Edges(edges, path)| == |places|
            && (forall k :: 0 <= k < |places| ==> places[k] < |edges| && edges[places[k]] == Edges(edges, path)[k])
            && (forall j, k :: 0 <= j < k < |places| ==> places[j] < places[k])
            && (forall i :: 0 <= i < |edges| ==> (i in places <==> PathMatches(edges[i].source, path)))
  {
    hide PathMatches;
    PlacesGrow(edges, path);
    EdgesAtPlaces(edges, path);
    hide Places;
    hide Edges;
    forall i | 0 <= i < |edges| ensures i in Places(edges, path) <==> PathMatches(edges[i].source, path) {
      PlacesMatch(edges, path, i);
    }
  }

  lemma {:induction false} EdgesAtPlaces(edges: seq<Edge>, path: string)
    ensures var places := Places(edges, path);
            && |Edges(edges, path)| == |places|
            && forall k :: 0 <= k < |places| ==> places[k] < |edges| && edges[places[k]] == Edges(edges, path)[k]
  {
    hide PathMatches;
    if edges != [] { EdgesAtPlaces(edges[..|edges| - 1], path); }
  }
}
