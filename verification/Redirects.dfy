/** Legacy redirects never loop: every save walks the other active redirects first. */
module Redirects {
  import opened Wrappers

  type Path = string
  type Id = nat

  datatype Kind = Permanent | Temporary | Gone

  /** The destination is empty for a path that answers "gone". */
  datatype Redirect = Redirect(source: Path, destination: Path, kind: Kind, active: bool)

  type Table = map<Id, Redirect>

  const PROTECTED := ["/admin/", "/integrations/", "/health/"]

  predicate Contains(s: string, part: string)
  {
    exists j | 0 <= j <= |s| :: part <= s[j..]
  }

  /** An exact internal path. */
  predicate Internal(p: Path)
  {
    "/" <= p && !("//" <= p) && !Contains(p, "://") && !Contains(p, "?") && !Contains(p, "#")
  }

  predicate Protected(p: Path) { exists prefix | prefix in PROTECTED :: prefix <= p }

  /** The checks of one redirect on its own. */
  predicate WellFormed(r: Redirect)
  {
    && (r.source != "" ==> Internal(r.source)) && !Protected(r.source)
    && (r.destination != "" ==> Internal(r.destination) && !Protected(r.destination))
    && (r.kind.Gone? <==> r.destination == "")
    && (r.destination != "" ==> r.source != r.destination)
  }

  // ----- Following redirects -----

  type Graph = map<Path, Path>

  /** The path reached after n hops, if there are that many. */
  function Walk(g: Graph, p: Path, n: nat): Option<Path>
  {
    if n == 0 then Some(p)
    else
      match Walk(g, p, n - 1)
      case None => None
      case Some(q) => if q in g then Some(g[q]) else None
  }

  ghost predicate Ends(g: Graph, p: Path) { exists n: nat :: Walk(g, p, n).None? }

  /** From every path, following redirects ends. */
  ghost predicate Acyclic(g: Graph) { forall p :: Ends(g, p) }

  ghost predicate Reaches(g: Graph, p: Path, q: Path) { exists n: nat :: Walk(g, p, n) == Some(q) }

  lemma {:induction false} WalkOn(g: Graph, p: Path, m: nat, n: nat)
    ensures Walk(g, p, m + n) == (match Walk(g, p, m) case None => None case Some(q) => Walk(g, q, n))
  {
    if n > 0 {
      WalkOn(g, p, m, n - 1);
    }
  }

  /** A walk that comes back to where it was never ends. */
  lemma {:induction false} RepeatNeverEnds(g: Graph, p: Path, i: nat, k: nat, n: nat)
    requires i < k && Walk(g, p, i) == Walk(g, p, k) && Walk(g, p, k).Some?
    ensures Walk(g, p, n).Some?
  {
    if n <= k {
      WalkOn(g, p, n, k - n);
    } else {
      RepeatNeverEnds(g, p, i, k, n - (k - i));
      WalkOn(g, p, k, n - k);
      WalkOn(g, p, i, n - k);
    }
  }

  /** Adding a redirect only changes walks that reach its source. */
  lemma {:induction false} WalkUnchanged(g: Graph, s: Path, d: Path, p: Path, n: nat)
    requires forall k: nat | k < n :: Walk(g, p, k) != Some(s)
    ensures Walk(g[s := d], p, n) == Walk(g, p, n)
  {
    if n > 0 {
      WalkUnchanged(g, s, d, p, n - 1);
      assert Walk(g, p, n - 1) != Some(s);
    }
  }

  /** A walk with fewer redirects follows the larger one until it stops. */
  lemma {:induction false} FewerRedirects(g: Graph, h: Graph, p: Path, n: nat)
    requires h.Keys <= g.Keys && forall q | q in h :: h[q] == g[q]
    ensures Walk(h, p, n) == Walk(g, p, n) || Walk(h, p, n).None?
  {
    if n > 0 {
      FewerRedirects(g, h, p, n - 1);
    }
  }

  lemma RemovingKeepsAcyclic(g: Graph, h: Graph)
    requires Acyclic(g) && h.Keys <= g.Keys && forall q | q in h :: h[q] == g[q]
    ensures Acyclic(h)
  {
    forall p ensures Ends(h, p) {
      assert Ends(g, p);
      var n: nat :| Walk(g, p, n).None?;
      FewerRedirects(g, h, p, n);
    }
  }

  /** The first time a walk of n hops is at s, or n when it is not before. */
  ghost function FirstVisit(g: Graph, p: Path, s: Path, n: nat): (first: nat)
    ensures first <= n && forall k: nat | k < first :: Walk(g, p, k) != Some(s)
    ensures first < n ==> Walk(g, p, first) == Some(s)
  {
    if n == 0 then 0
    else
      var before := FirstVisit(g, p, s, n - 1);
      if before < n - 1 || Walk(g, p, n - 1) == Some(s) then before else n
  }

  /** A redirect from s to d closes a loop exactly when d already leads to s. */
  lemma NewRedirectIsSafe(g: Graph, s: Path, d: Path)
    requires Acyclic(g) && s !in g
    ensures Acyclic(g[s := d]) <==> !Reaches(g, d, s)
  {
    var h := g[s := d];
    if Reaches(g, d, s) {
      var n: nat :| Walk(g, d, n) == Some(s);
      var first := FirstVisit(g, d, s, n);
      WalkUnchanged(g, s, d, d, first);
      WalkOn(h, s, 1, first);
      assert Walk(h, s, 0) == Some(s);
      assert Walk(h, s, 1) == Some(d);
      forall m: nat ensures Walk(h, s, m).Some? {
        RepeatNeverEnds(h, s, 0, 1 + first, m);
      }
      assert !Ends(h, s);
    } else {
      forall p ensures Ends(h, p) {
        EndsStill(g, s, d, p);
      }
    }
  }

  lemma EndsStill(g: Graph, s: Path, d: Path, p: Path)
    requires Acyclic(g) && !Reaches(g, d, s)
    ensures Ends(g[s := d], p)
  {
    var h := g[s := d];
    assert Ends(g, p) && Ends(g, d);
    var n: nat :| Walk(g, p, n).None?;
    var m: nat :| Walk(g, d, m).None?;
    var first := FirstVisit(g, p, s, n);
    WalkUnchanged(g, s, d, p, first);
    WalkUnchanged(g, s, d, d, m);
    if first < n {
      assert Walk(h, p, first + 1) == Some(d);
      WalkOn(h, p, first + 1, m);
      assert Walk(h, p, first + 1 + m).None?;
    }
  }

  // ----- The saved redirects -----

  ghost predicate UniqueSources(t: Table)
  {
    forall a, b | a in t && b in t && t[a].source == t[b].source :: a == b
  }

  /** The active redirects that lead somewhere, without the row `skip`. */
  ghost function Active(t: Table, skip: Option<Id>): Graph
    requires UniqueSources(t)
  {
    map p | p in Sources(t, skip) :: t[RowFor(t, skip, p)].destination
  }

  function Sources(t: Table, skip: Option<Id>): set<Path> { set id | id in t && Leads(t, skip, id) :: t[id].source }

  ghost function RowFor(t: Table, skip: Option<Id>, p: Path): (id: Id)
    requires p in Sources(t, skip)
    ensures Leads(t, skip, id) && t[id].source == p
  {
    var id :| Leads(t, skip, id) && t[id].source == p; id
  }

  predicate Leads(t: Table, skip: Option<Id>, id: Id)
  {
    id in t && Some(id) != skip && t[id].active && t[id].destination != ""
  }

  /** Sources are unique, and no active redirects form a loop. */
  ghost predicate Fits(t: Table) { UniqueSources(t) && Acyclic(Active(t, None)) }

  /** A leading row is what the graph says about its source. */
  lemma RowIsActive(t: Table, skip: Option<Id>, id: Id)
    requires UniqueSources(t) && Leads(t, skip, id)
    ensures t[id].source in Active(t, skip) && Active(t, skip)[t[id].source] == t[id].destination
  {
  }

  lemma SourceIsFree(t: Table, id: Id, r: Redirect)
    requires UniqueSources(t) && UniqueSources(t[id := r])
    ensures r.source !in Active(t, Some(id))
  {
    forall j | j in t && Leads(t, Some(id), j) ensures t[j].source != r.source {
      assert j in t[id := r] && id in t[id := r];
    }
  }

  /** The new row's source is free exactly when no other row has it. */
  lemma TakenSource(t: Table, id: Id, r: Redirect)
    requires UniqueSources(t)
    ensures UniqueSources(t[id := r]) <==> !exists j :: j in t && j != id && t[j].source == r.source
  {
    var after := t[id := r];
    if j :| j in t && j != id && t[j].source == r.source {
      assert after[j].source == after[id].source;
    }
  }

  lemma NoEmptyDestinations(t: Table, skip: Option<Id>)
    requires UniqueSources(t)
    ensures "" !in Active(t, skip).Values
  {
  }

  lemma SameGraph(g: Graph, h: Graph)
    requires forall p | p in g :: p in h && h[p] == g[p]
    requires forall p | p in h :: p in g
    ensures g == h
  {
  }

  /** Saving a row puts its redirect, if it leads anywhere, on top of the others. */
  lemma ActiveAfterSave(t: Table, id: Id, r: Redirect)
    requires UniqueSources(t) && UniqueSources(t[id := r])
    ensures r.source !in Active(t, Some(id))
    ensures Active(t[id := r], None) == WithRow(Active(t, Some(id)), r)
  {
    var after, others := t[id := r], Active(t, Some(id));
    SourceIsFree(t, id, r);
    forall p | p in Active(after, None)
      ensures p in WithRow(others, r) && WithRow(others, r)[p] == Active(after, None)[p]
    {
      var j := RowFor(after, None, p);
      if j != id { RowIsActive(t, Some(id), j); }
    }
    forall p | p in WithRow(others, r) ensures p in Active(after, None) {
      if p in others {
        RowIsActive(after, None, RowFor(t, Some(id), p));
      } else {
        RowIsActive(after, None, id);
      }
    }
    SameGraph(Active(after, None), WithRow(others, r));
  }

  function WithRow(g: Graph, r: Redirect): Graph
  {
    if r.active && r.destination != "" then g[r.source := r.destination] else g
  }

  lemma OthersAreAcyclic(t: Table, id: Id)
    requires Fits(t)
    ensures Acyclic(Active(t, Some(id)))
  {
    forall p | p in Active(t, Some(id))
      ensures p in Active(t, None) && Active(t, None)[p] == Active(t, Some(id))[p]
    {
      RowIsActive(t, None, RowFor(t, Some(id), p));
    }
    RemovingKeepsAcyclic(Active(t, None), Active(t, Some(id)));
  }

  /** The walk finds its way back to the redirect being saved. */
  ghost predicate Loops(t: Table, id: Id, r: Redirect)
    requires UniqueSources(t)
  {
    r.destination != "" && Reaches(Active(t, Some(id)), r.destination, r.source)
  }

  /** A save that passes the loop check keeps the redirects loop-free; for an active redirect
      the check refuses nothing that would have stayed loop-free. */
  lemma SaveKeepsFit(t: Table, id: Id, r: Redirect)
    requires Fits(t) && UniqueSources(t[id := r])
    ensures !Loops(t, id, r) ==> Fits(t[id := r])
    ensures r.active && Loops(t, id, r) ==> !Fits(t[id := r])
  {
    OthersAreAcyclic(t, id);
    ActiveAfterSave(t, id, r);
    NewRedirectIsSafe(Active(t, Some(id)), r.source, r.destination);
  }

  /** The paths met in the first n hops. */
  ghost function Seen(g: Graph, p: Path, n: nat): set<Path>
  {
    if n == 0 then {}
    else Seen(g, p, n - 1) + (match Walk(g, p, n - 1) case None => {} case Some(q) => {q})
  }

  lemma {:induction false} SeenIsMet(g: Graph, p: Path, n: nat, q: Path) returns (k: nat)
    requires q in Seen(g, p, n)
    ensures k < n && Walk(g, p, k) == Some(q)
  {
    if Walk(g, p, n - 1) == Some(q) {
      k := n - 1;
    } else {
      k := SeenIsMet(g, p, n - 1, q);
    }
  }

  lemma {:induction false} MetIsSeen(g: Graph, p: Path, n: nat, k: nat)
    requires k < n && Walk(g, p, k).Some?
    ensures Walk(g, p, k).value in Seen(g, p, n)
  {
    if k < n - 1 {
      MetIsSeen(g, p, n - 1, k);
    }
  }

  /** Without loops, a walk can only come back to the source being saved. */
  lemma VisitedMeansSource(g: Graph, p: Path, n: nat, s: Path)
    requires Acyclic(g) && Walk(g, p, n).Some?
    requires Walk(g, p, n).value == s || Walk(g, p, n).value in Seen(g, p, n)
    ensures Reaches(g, p, s)
  {
    if Walk(g, p, n).value != s {
      var k := SeenIsMet(g, p, n, Walk(g, p, n).value);
      assert Ends(g, p);
      var m: nat :| Walk(g, p, m).None?;
      RepeatNeverEnds(g, p, k, n, m);
      assert false;
    }
  }

  lemma StoppedWalkIsOver(g: Graph, p: Path, n: nat)
    requires Walk(g, p, n).None?
    ensures forall m: nat | m >= n :: Walk(g, p, m).None?
  {
    forall m: nat | m >= n ensures Walk(g, p, m).None? {
      WalkOn(g, p, n, m - n);
    }
  }

  lemma StoppedUnseen(g: Graph, p: Path, n: nat, s: Path)
    requires Walk(g, p, n).None? && s !in Seen(g, p, n)
    ensures !Reaches(g, p, s)
  {
    StoppedWalkIsOver(g, p, n);
    forall m: nat ensures Walk(g, p, m) != Some(s) {
      if m < n && Walk(g, p, m).Some? {
        MetIsSeen(g, p, n, m);
      }
    }
  }

  // ----- What is saved, in the rows' own fields -----

  /** The text stands in the path from its j-th character on. */
  predicate At(p: Path, j: int, text: string) { 0 <= j && j + |text| <= |p| && p[j..j + |text|] == text }

  /** The path starts with one slash, has no question mark, hash or scheme, and does not lie in the
      administration, the integrations or the health check. */
  ghost predicate PlainPath(p: Path)
  {
    && p != "" && p[0] == '/' && (|p| > 1 ==> p[1] != '/')
    && (forall j | 0 <= j < |p| :: p[j] != '?' && p[j] != '#')
    && (forall j :: !At(p, j, "://"))
    && Outside(p)
  }

  ghost predicate Outside(p: Path)
  {
    && !(|p| >= 7 && p[..7] == "/admin/")
    && !(|p| >= 14 && p[..14] == "/integrations/")
    && !(|p| >= 8 && p[..8] == "/health/")
  }

  /** A redirect is well formed exactly when its paths, where given, are plain, it leads somewhere
      unless it answers "gone", and not to itself. */
  ghost predicate Sensible(r: Redirect)
  {
    && (r.source != "" ==> PlainPath(r.source)) && (r.destination != "" ==> PlainPath(r.destination))
    && (r.kind == Gone <==> r.destination == "") && (r.destination != "" ==> r.destination != r.source)
  }

  lemma PrefixIs(prefix: string, p: Path)
    ensures prefix <= p <==> |p| >= |prefix| && p[..|prefix|] == prefix
  {
  }

  lemma ContainsChar(p: Path, c: char)
    ensures Contains(p, [c]) <==> exists j :: 0 <= j < |p| && p[j] == c
  {
    if j :| 0 <= j < |p| && p[j] == c {
      assert [c] <= p[j..];
    }
    if j :| 0 <= j <= |p| && [c] <= p[j..] {
      assert p[j..][0] == p[j] == c;
    }
  }

  lemma ContainsText(p: Path, text: string)
    requires text != ""
    ensures Contains(p, text) <==> exists j :: At(p, j, text)
  {
    if j :| At(p, j, text) {
      assert p[j..][..|text|] == p[j..j + |text|];
      PrefixIs(text, p[j..]);
    }
    if j :| 0 <= j <= |p| && text <= p[j..] {
      PrefixIs(text, p[j..]);
      assert p[j..][..|text|] == p[j..j + |text|];
      assert At(p, j, text);
    }
  }

  lemma ProtectedExactly(p: Path)
    ensures Protected(p) <==> !Outside(p)
  {
    PrefixIs("/admin/", p);
    PrefixIs("/integrations/", p);
    PrefixIs("/health/", p);
    assert "/admin/" in PROTECTED && "/integrations/" in PROTECTED && "/health/" in PROTECTED by {
      assert PROTECTED[0] == "/admin/" && PROTECTED[1] == "/integrations/" && PROTECTED[2] == "/health/";
    }
    assert forall prefix | prefix in PROTECTED :: prefix == "/admin/" || prefix == "/integrations/" || prefix == "/health/";
  }

  lemma StartsWithSlash(p: Path)
    requires p != ""
    ensures "/" <= p <==> p[0] == '/'
    ensures "//" <= p <==> |p| > 1 && p[0] == '/' && p[1] == '/'
  {
    PrefixIs("/", p);
    PrefixIs("//", p);
    assert p[..1] == [p[0]];
    if |p| > 1 { assert p[..2] == [p[0], p[1]]; }
  }

  lemma InternalExactly(p: Path)
    requires p != ""
    ensures Internal(p) && !Protected(p) <==> PlainPath(p)
  {
    ProtectedExactly(p);
    StartsWithSlash(p);
    ContainsChar(p, '?');
    ContainsChar(p, '#');
    ContainsText(p, "://");
    assert ['?'] == "?" && ['#'] == "#";
  }

  lemma WellFormedExactly(r: Redirect)
    ensures WellFormed(r) <==> Sensible(r)
  {
    if r.source != "" { InternalExactly(r.source); } else { ProtectedExactly(r.source); }
    if r.destination != "" { InternalExactly(r.destination); }
  }

  /** An active row other than `skip` leads from p to q. */
  ghost predicate Hop(t: Table, skip: Option<Id>, p: Path, q: Path)
  {
    exists id :: id in t && Some(id) != skip && t[id].active && t[id].source == p && t[id].destination == q && q != ""
  }

  ghost predicate Trail(t: Table, skip: Option<Id>, path: seq<Path>)
  {
    path != [] && forall j | 0 < j < |path| :: Hop(t, skip, path[j - 1], path[j])
  }

  lemma HopExactly(t: Table, skip: Option<Id>, p: Path, q: Path)
    requires UniqueSources(t)
    ensures Hop(t, skip, p, q) <==> p in Active(t, skip) && Active(t, skip)[p] == q
  {
    if Hop(t, skip, p, q) {
      var id :| id in t && Some(id) != skip && t[id].active && t[id].source == p && t[id].destination == q && q != "";
      RowIsActive(t, skip, id);
    }
    if p in Active(t, skip) {
      assert Leads(t, skip, RowFor(t, skip, p));
    }
  }

  lemma {:induction false} TrailIsWalk(t: Table, skip: Option<Id>, path: seq<Path>)
    requires UniqueSources(t) && Trail(t, skip, path)
    ensures Walk(Active(t, skip), path[0], |path| - 1) == Some(path[|path| - 1])
  {
    if |path| > 1 {
      var before := path[..|path| - 1];
      TrailIsWalk(t, skip, before);
      HopExactly(t, skip, path[|path| - 2], path[|path| - 1]);
    }
  }

  lemma LongerTrail(t: Table, skip: Option<Id>, path: seq<Path>, q: Path)
    requires Trail(t, skip, path) && Hop(t, skip, path[|path| - 1], q)
    ensures Trail(t, skip, path + [q])
  {
    var longer := path + [q];
    forall j | 0 < j < |longer| ensures Hop(t, skip, longer[j - 1], longer[j]) {
      if j < |path| { assert longer[j - 1] == path[j - 1] && longer[j] == path[j]; }
    }
  }

  /** The trail follows n hops of the graph from p. */
  ghost predicate Follows(t: Table, skip: Option<Id>, g: Graph, p: Path, n: nat, path: seq<Path>)
  {
    |path| == n + 1 && path[0] == p && Walk(g, p, n) == Some(path[n]) && Trail(t, skip, path)
  }

  lemma FirstTrail(t: Table, skip: Option<Id>, g: Graph, p: Path)
    ensures Follows(t, skip, g, p, 0, [p])
  {
  }

  lemma OneHopMore(t: Table, skip: Option<Id>, g: Graph, p: Path, n: nat, before: seq<Path>)
    requires UniqueSources(t) && g == Active(t, skip) && n > 0 && Follows(t, skip, g, p, n - 1, before) && Walk(g, p, n).Some?
    ensures Follows(t, skip, g, p, n, before + [Walk(g, p, n).value])
  {
    HopExactly(t, skip, before[n - 1], g[before[n - 1]]);
    LongerTrail(t, skip, before, g[before[n - 1]]);
  }

  lemma {:induction false} WalkHasTrail(t: Table, skip: Option<Id>, g: Graph, p: Path, n: nat) returns (path: seq<Path>)
    requires UniqueSources(t) && g == Active(t, skip) && Walk(g, p, n).Some?
    ensures Follows(t, skip, g, p, n, path)
    decreases n
  {
    if n == 0 {
      FirstTrail(t, skip, g, p);
      path := [p];
    } else {
      assert Walk(g, p, n - 1).Some?;
      var before := WalkHasTrail(t, skip, g, p, n - 1);
      OneHopMore(t, skip, g, p, n, before);
      path := before + [Walk(g, p, n).value];
    }
  }

  /** No trail of active rows comes back to where it started. */
  lemma TrailsNeverReturn(t: Table, path: seq<Path>)
    requires Fits(t) && Trail(t, None, path) && |path| > 1
    ensures path[0] != path[|path| - 1]
  {
    TrailIsWalk(t, None, path);
    if path[0] == path[|path| - 1] {
      var g := Active(t, None);
      assert Ends(g, path[0]);
      var n: nat :| Walk(g, path[0], n).None?;
      assert Walk(g, path[0], 0) == Some(path[0]);
      RepeatNeverEnds(g, path[0], 0, |path| - 1, n);
    }
  }

  /** The check finds a loop exactly when a trail of the other active rows leads from the new
      destination to the new source. */
  lemma LoopsExactly(t: Table, id: Id, r: Redirect)
    requires UniqueSources(t)
    ensures Loops(t, id, r) <==>
      r.destination != "" && exists path :: Trail(t, Some(id), path) && path[0] == r.destination && path[|path| - 1] == r.source
  {
    var g := Active(t, Some(id));
    if Loops(t, id, r) {
      var n: nat :| Walk(g, r.destination, n) == Some(r.source);
      var path := WalkHasTrail(t, Some(id), g, r.destination, n);
    }
    if r.destination != "" {
      if path :| Trail(t, Some(id), path) && path[0] == r.destination && path[|path| - 1] == r.source {
        TrailIsWalk(t, Some(id), path);
      }
    }
  }

  class Redirections {
    var rows: Table

    ghost predicate Valid() reads this { Fits(rows) }

    constructor ()
      ensures rows == map[] && Valid()
    {
      rows := map[];
      new;
      assert Active(rows, None) == map[];
      forall p ensures Ends(map[], p) { assert Walk(map[], p, 1).None?; }
    }

    /** The destination of the active row with this source, other than the row `id`. */
    method Follow(id: Id, p: Path) returns (next: Path)
      requires UniqueSources(rows)
      ensures next == if p in Active(rows, Some(id)) then Active(rows, Some(id))[p] else ""
    {
      if exists j | j in rows :: Leads(rows, Some(id), j) && rows[j].source == p {
        var j :| j in rows && Leads(rows, Some(id), j) && rows[j].source == p;
        RowIsActive(rows, Some(id), j);
        next := rows[j].destination;
      } else {
        next := "";
      }
    }

    /** Walks from the destination until it stops or comes to a path already seen. */
    method FindsLoop(id: Id, r: Redirect) returns (loop: bool)
      requires UniqueSources(rows) && Acyclic(Active(rows, Some(id))) && r.destination != ""
      ensures loop <==> Loops(rows, id, r)
    {
      ghost var g := Active(rows, Some(id));
      NoEmptyDestinations(rows, Some(id));
      ghost var all := {r.source, r.destination} + g.Values;
      var visited, at := {r.source}, r.destination;
      ghost var n: nat := 0;
      while at != ""
        invariant r.source in visited && visited <= all && (at == "" || at in all)
        invariant visited == {r.source} + Seen(g, r.destination, n)
        invariant r.source !in Seen(g, r.destination, n)
        invariant Walk(g, r.destination, n) == if at != "" then Some(at) else None
        decreases all - visited
      {
        if at in visited {
          VisitedMeansSource(g, r.destination, n, r.source);
          return true;
        }
        visited := visited + {at};
        at := Follow(id, at);
        n := n + 1;
      }
      StoppedUnseen(g, r.destination, n, r.source);
      return false;
    }

    /** Saves a row that passes every check. */
    method Save(id: Id, r: Redirect) returns (ok: bool)
      requires Valid()
      modifies this
      ensures Valid()
      ensures ok <==> WellFormed(r) && UniqueSources(old(rows)[id := r]) && !Loops(old(rows), id, r)
      ensures rows == if ok then old(rows)[id := r] else old(rows)
      ensures ok <==> Sensible(r) && (forall j | j in old(rows) && j != id :: old(rows)[j].source != r.source) && !Loops(old(rows), id, r)
    {
      WellFormedExactly(r);
      var loop := false;
      if r.destination != "" {
        OthersAreAcyclic(rows, id);
        loop := FindsLoop(id, r);
      }
      var taken := exists j | j in rows :: j != id && rows[j].source == r.source;
      TakenSource(rows, id, r);
      ok := WellFormed(r) && !taken && !loop;
      if ok {
        SaveKeepsFit(rows, id, r);
        rows := rows[id := r];
      }
    }

    method Delete(id: Id)
      requires Valid()
      modifies this
      ensures Valid() && rows == old(rows) - {id}
    {
      DeleteKeepsFit(rows, id);
      rows := rows - {id};
    }
  }

  lemma DeleteKeepsFit(t: Table, id: Id)
    requires Fits(t)
    ensures Fits(t - {id})
  {
    OthersAreAcyclic(t, id);
    var g, h := Active(t - {id}, None), Active(t, Some(id));
    forall p | p in g ensures p in h && h[p] == g[p] {
      RowIsActive(t, Some(id), RowFor(t - {id}, None, p));
    }
    forall p | p in h ensures p in g {
      RowIsActive(t - {id}, None, RowFor(t, Some(id), p));
    }
    SameGraph(g, h);
  }
}
