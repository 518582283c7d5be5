/**
 * The route trie. Its backtracking search is shown to find what a search through the list of all registered
 * patterns and their prefixes would, and what it finds always fits the path.
 */
module Router {
  import opened Wrappers

  type Handler = nat

  datatype Segment = Static(text: string) | Param | Wildcard | DeepWildcard
  {
    /** The order in which the search tries the children of a node. */
    function Rank(): nat {
      match this
      case Static(_) => 0
      case Param => 1
      case Wildcard => 2
      case DeepWildcard => 3
    }
  }

  type Shape = seq<Segment>

  datatype RouteNode = RouteNode(
    children: map<string, RouteNode>,
    paramChild: Option<RouteNode>,
    wildcardChild: Option<RouteNode>,
    deepWildcardChild: Option<RouteNode>,
    requestHandlers: map<string, Handler>,
    patternParts: seq<string>)

  const EMPTY := RouteNode(map[], None, None, None, map[], [])

  predicate IsParam(part: string) { part != [] && part[0] == '<' && part[|part| - 1] == '>' }

  function SegmentOf(part: string): Segment {
    if IsParam(part) then Param else if part == "**" then DeepWildcard else if part == "*" then Wildcard else Static(part)
  }

  function ShapeOf(parts: seq<string>): (s: Shape)
    ensures |s| == |parts| && forall i :: 0 <= i < |s| ==> s[i] == SegmentOf(parts[i])
  {
    seq(|parts|, i requires 0 <= i < |parts| => SegmentOf(parts[i]))
  }

  // ---------------------------------------------------------------- nodes of the trie

  function Child(n: RouteNode, seg: Segment): (c: Option<RouteNode>)
    ensures c.Some? ==> c.value < n
  {
    match seg
    case Static(s) => if s in n.children then Some(n.children[s]) else None
    case Param => n.paramChild
    case Wildcard => n.wildcardChild
    case DeepWildcard => n.deepWildcardChild
  }

  function WithChild(n: RouteNode, seg: Segment, c: RouteNode): RouteNode {
    match seg
    case Static(s) => n.(children := n.children[s := c])
    case Param => n.(paramChild := Some(c))
    case Wildcard => n.(wildcardChild := Some(c))
    case DeepWildcard => n.(deepWildcardChild := Some(c))
  }

  /** The node reached by following a shape. */
  function NodeAt(n: RouteNode, shape: Shape): Option<RouteNode>
    decreases |shape|
  {
    if shape == [] then Some(n)
    else match Child(n, shape[0]) case None => None case Some(c) => NodeAt(c, shape[1..])
  }

  /** The trie with nodes along the shape, and with the handler and the pattern at its end. */
  function Inserted(n: RouteNode, shape: Shape, method_: string, h: Handler, parts: seq<string>): RouteNode
    decreases |shape|
  {
    if shape == [] then n.(requestHandlers := n.requestHandlers[method_ := h], patternParts := parts)
    else
      var c := Child(n, shape[0]);
      WithChild(n, shape[0], Inserted(if c.Some? then c.value else EMPTY, shape[1..], method_, h, parts))
  }

  datatype Info = Info(handlers: map<string, Handler>, pattern: seq<string>)

  function InfoOf(n: Option<RouteNode>): Option<Info> {
    if n.None? then None else Some(Info(n.value.requestHandlers, n.value.patternParts))
  }

  function OrEmpty(i: Option<Info>): Info { if i.Some? then i.value else Info(map[], []) }

  lemma NothingAt(shape: Shape)
    requires shape != []
    ensures NodeAt(EMPTY, shape).None?
  {}

  lemma NodeAtStep(n: RouteNode, seg: Segment, rest: Shape)
    ensures NodeAt(n, [seg] + rest) == match Child(n, seg) case None => None case Some(c) => NodeAt(c, rest)
  {
    assert ([seg] + rest)[1..] == rest;
  }

  lemma ChildOfWith(n: RouteNode, seg: Segment, c: RouteNode, other: Segment)
    ensures Child(WithChild(n, seg, c), other) == if other == seg then Some(c) else Child(n, other)
    ensures InfoOf(Some(WithChild(n, seg, c))) == InfoOf(Some(n))
  {}

  /** Inserting a pattern changes what is at its own shape, makes nodes for its prefixes, and leaves everything else. */
  lemma {:induction false} InsertedAt(n: RouteNode, shape: Shape, method_: string, h: Handler, parts: seq<string>, other: Shape)
    ensures var before, after := InfoOf(NodeAt(n, other)), InfoOf(NodeAt(Inserted(n, shape, method_, h, parts), other));
      after == if other == shape then Some(Info(OrEmpty(before).handlers[method_ := h], parts))
               else if other <= shape then Some(OrEmpty(before))
               else before
    decreases |shape|
  {
    if shape != [] {
      var child := Child(n, shape[0]);
      var c := if child.Some? then child.value else EMPTY;
      var inner := Inserted(c, shape[1..], method_, h, parts);
      if other != [] {
        ChildOfWith(n, shape[0], inner, other[0]);
        if other[0] == shape[0] {
          InsertedAt(c, shape[1..], method_, h, parts, other[1..]);
          assert other == [other[0]] + other[1..] && shape == [shape[0]] + shape[1..];
          assert other <= shape <==> other[1..] <= shape[1..];
          if child.None? && other[1..] != [] { NothingAt(other[1..]); }
        }
      } else {
        ChildOfWith(n, shape[0], inner, shape[0]);
      }
    }
  }

  // ---------------------------------------------------------------- matching

  predicate SegmentMatches(seg: Segment, part: string) { seg.Static? ==> seg.text == part }

  /** A deep wildcard stands for one segment or more, and ends the match. */
  predicate Matches(shape: Shape, path: seq<string>)
    decreases |shape|
  {
    if shape == [] || path == [] then shape == [] && path == []
    else if shape[0].DeepWildcard? then |shape| == 1
    else SegmentMatches(shape[0], path[0]) && Matches(shape[1..], path[1..])
  }

  /** Segment by segment: static, parameter, `*`, `**`. */
  predicate Before(a: Shape, b: Shape)
    decreases |a|
  {
    && a != [] && b != []
    && (a[0].Rank() < b[0].Rank() || (a[0] == b[0] && Before(a[1..], b[1..])))
  }

  /** Two different shapes that match the same path are ordered one way. */
  lemma {:induction false} OneBefore(a: Shape, b: Shape, path: seq<string>)
    requires Matches(a, path) && Matches(b, path)
    ensures a == b <==> !Before(a, b) && !Before(b, a)
    ensures !(Before(a, b) && Before(b, a))
    decreases |a|
  {
    if a != [] && b != [] {
      assert a == [a[0]] + a[1..] && b == [b[0]] + b[1..];
      if a[0].Rank() == b[0].Rank() {
        assert a[0] == b[0];
        if !a[0].DeepWildcard? {
          OneBefore(a[1..], b[1..], path[1..]);
        } else {
          assert a[1..] == [] && b[1..] == [];
        }
      }
    }
  }

  /** `backtrack` */
  function Backtrack(n: RouteNode, path: seq<string>): Option<RouteNode>
    decreases |path|
  {
    if path == [] then Some(n)
    else
      var viaStatic := if path[0] in n.children then Backtrack(n.children[path[0]], path[1..]) else None;
      if viaStatic.Some? then viaStatic
      else
        var viaParam := if n.paramChild.Some? then Backtrack(n.paramChild.value, path[1..]) else None;
        if viaParam.Some? then viaParam
        else
          var viaWildcard := if n.wildcardChild.Some? then Backtrack(n.wildcardChild.value, path[1..]) else None;
          if viaWildcard.Some? then viaWildcard
          else if n.deepWildcardChild.Some? then Backtrack(n.deepWildcardChild.value, [])
          else None
  }

  predicate Candidate(n: RouteNode, path: seq<string>, shape: Shape) { NodeAt(n, shape).Some? && Matches(shape, path) }

  /** A shape of the trie that matches, before every other one that does. */
  ghost predicate Best(n: RouteNode, path: seq<string>, shape: Shape) {
    && Candidate(n, path, shape)
    && forall other: Shape :: Candidate(n, path, other) ==> other == shape || Before(shape, other)
  }

  ghost predicate Finds(n: RouteNode, path: seq<string>, r: Option<RouteNode>) {
    match r
    case None => forall other: Shape :: !Candidate(n, path, other)
    case Some(_) => exists shape :: Best(n, path, shape) && NodeAt(n, shape) == r
  }

  lemma CandidateStep(n: RouteNode, path: seq<string>, shape: Shape)
    requires path != []
    ensures Candidate(n, path, shape) <==>
      shape != [] && Child(n, shape[0]).Some? &&
      if shape[0].DeepWildcard? then |shape| == 1
      else SegmentMatches(shape[0], path[0]) && Candidate(Child(n, shape[0]).value, path[1..], shape[1..])
  {
    if shape != [] && Child(n, shape[0]).Some? {
      assert NodeAt(n, shape) == NodeAt(Child(n, shape[0]).value, shape[1..]);
      assert |shape| == 1 ==> shape[1..] == [];
    }
  }

  /** The best shape below one child is the best of all if the children tried before it have none. */
  lemma BestThrough(n: RouteNode, path: seq<string>, seg: Segment, below: Shape)
    requires path != [] && !seg.DeepWildcard? && SegmentMatches(seg, path[0]) && Child(n, seg).Some?
    requires Best(Child(n, seg).value, path[1..], below)
    requires forall other: Shape :: Candidate(n, path, other) ==> other != [] && (other[0].Rank() > seg.Rank() || other[0] == seg)
    ensures Best(n, path, [seg] + below) && NodeAt(n, [seg] + below) == NodeAt(Child(n, seg).value, below)
  {
    var shape := [seg] + below;
    assert shape[1..] == below;
    CandidateStep(n, path, shape);
    forall other: Shape | Candidate(n, path, other) ensures other == shape || Before(shape, other) {
      CandidateStep(n, path, other);
      if other[0] == seg {
        assert other == [seg] + other[1..];
        assert Candidate(Child(n, seg).value, path[1..], other[1..]);
      }
    }
  }

  /** No candidate begins with a segment that has no child, does not match, or finds nothing further down. */
  lemma NotThrough(n: RouteNode, path: seq<string>, seg: Segment)
    requires path != [] && !seg.DeepWildcard? && SegmentMatches(seg, path[0])
    requires Child(n, seg).Some? ==> forall other: Shape :: !Candidate(Child(n, seg).value, path[1..], other)
    ensures forall other: Shape :: Candidate(n, path, other) ==> other != [] && other[0] != seg
  {
    forall other: Shape | Candidate(n, path, other) ensures other != [] && other[0] != seg {
      CandidateStep(n, path, other);
    }
  }

  lemma DeepBest(n: RouteNode, path: seq<string>)
    requires path != [] && n.deepWildcardChild.Some?
    requires forall other: Shape :: Candidate(n, path, other) ==> other != [] && other[0].DeepWildcard?
    ensures Best(n, path, [DeepWildcard]) && NodeAt(n, [DeepWildcard]) == n.deepWildcardChild
  {
    CandidateStep(n, path, [DeepWildcard]);
    NodeAtStep(n, DeepWildcard, []);
    assert [DeepWildcard] + [] == [DeepWildcard];
    forall other: Shape | Candidate(n, path, other) ensures other == [DeepWildcard] || Before([DeepWildcard], other) {
      CandidateStep(n, path, other);
    }
  }

  lemma StartsSomehow(n: RouteNode, path: seq<string>, other: Shape)
    requires path != [] && Candidate(n, path, other)
    ensures other != [] && (other[0] == Static(path[0]) || other[0] == Param || other[0] == Wildcard || other[0] == DeepWildcard)
    ensures Child(n, other[0]).Some?
  {
    CandidateStep(n, path, other);
  }

  /** One child tried: what it finds is the best of all, or no candidate begins with its segment. */
  lemma Tried(n: RouteNode, path: seq<string>, seg: Segment, r: Option<RouteNode>)
    requires path != [] && !seg.DeepWildcard? && SegmentMatches(seg, path[0])
    requires r.Some? ==> Child(n, seg).Some?
    requires Child(n, seg).Some? ==> Finds(Child(n, seg).value, path[1..], r)
    requires forall other: Shape :: Candidate(n, path, other) ==> other != [] && (other[0].Rank() > seg.Rank() || other[0] == seg)
    ensures if r.Some? then Finds(n, path, r) else forall other: Shape :: Candidate(n, path, other) ==> other[0] != seg
  {
    if r.Some? {
      var below :| Best(Child(n, seg).value, path[1..], below) && NodeAt(Child(n, seg).value, below) == r;
      BestThrough(n, path, seg, below);
    } else {
      NotThrough(n, path, seg);
    }
  }

  /** For every trie and every path the search finds the best candidate, and nothing only if there is none. */
  lemma {:induction false} BacktrackFindsBest(n: RouteNode, path: seq<string>)
    ensures Finds(n, path, Backtrack(n, path))
    decreases |path|
  {
    if path == [] {
      assert Best(n, path, []) && NodeAt(n, []) == Some(n);
    } else {
      var rest := path[1..];
      forall other: Shape | Candidate(n, path, other)
        ensures other != [] && (other[0] == Static(path[0]) || other[0] == Param || other[0] == Wildcard || other[0] == DeepWildcard)
      {
        StartsSomehow(n, path, other);
      }
      var viaStatic := if path[0] in n.children then Backtrack(n.children[path[0]], rest) else None;
      if path[0] in n.children { BacktrackFindsBest(n.children[path[0]], rest); }
      Tried(n, path, Static(path[0]), viaStatic);
      if viaStatic.Some? { return; }
      var viaParam := if n.paramChild.Some? then Backtrack(n.paramChild.value, rest) else None;
      if n.paramChild.Some? { BacktrackFindsBest(n.paramChild.value, rest); }
      Tried(n, path, Param, viaParam);
      if viaParam.Some? { return; }
      var viaWildcard := if n.wildcardChild.Some? then Backtrack(n.wildcardChild.value, rest) else None;
      if n.wildcardChild.Some? { BacktrackFindsBest(n.wildcardChild.value, rest); }
      Tried(n, path, Wildcard, viaWildcard);
      if viaWildcard.Some? { return; }
      if n.deepWildcardChild.Some? {
        DeepBest(n, path);
        assert Backtrack(n, path) == Backtrack(n.deepWildcardChild.value, []) == n.deepWildcardChild;
      } else {
        forall other: Shape ensures !Candidate(n, path, other) {
          if Candidate(n, path, other) { StartsSomehow(n, path, other); }
        }
      }
    }
  }

  /** The first match in a list: of two that match, the one before the other. */
  function FirstMatch(shapes: seq<Shape>, path: seq<string>): (r: Option<Shape>)
    ensures r.Some? ==> r.value in shapes && Matches(r.value, path)
    ensures r.None? ==> forall s <- shapes :: !Matches(s, path)
  {
    if shapes == [] then None
    else
      var s := shapes[0];
      var r := FirstMatch(shapes[1..], path);
      assert forall t <- shapes :: t == s || t in shapes[1..];
      if !Matches(s, path) then r
      else if r.Some? && Before(r.value, s) then r
      else Some(s)
  }

  lemma {:induction false} BeforeTransitive(a: Shape, b: Shape, c: Shape)
    requires Before(a, b) && Before(b, c)
    ensures Before(a, c)
    decreases |a|
  {
    if a[0] == b[0] && b[0] == c[0] { BeforeTransitive(a[1..], b[1..], c[1..]); }
  }

  lemma {:induction false} FirstMatchIsFirst(shapes: seq<Shape>, path: seq<string>, s: Shape)
    requires s in shapes && Matches(s, path)
    ensures FirstMatch(shapes, path).Some?
    ensures var f := FirstMatch(shapes, path).value; f == s || Before(f, s)
  {
    var head, rest := shapes[0], FirstMatch(shapes[1..], path);
    if s != head { FirstMatchIsFirst(shapes[1..], path, s); }
    if Matches(head, path) && rest.Some? {
      OneBefore(head, rest.value, path);
      if s != head && rest.value != s && Before(head, rest.value) { BeforeTransitive(head, rest.value, s); }
    }
  }

  /** The search through the trie is the search through any list of the shapes it has nodes for. */
  lemma BacktrackIsLinear(n: RouteNode, path: seq<string>, shapes: seq<Shape>)
    requires forall s :: s in shapes <==> NodeAt(n, s).Some?
    ensures match FirstMatch(shapes, path)
      case None => Backtrack(n, path).None?
      case Some(s) => Backtrack(n, path) == NodeAt(n, s)
  {
    BacktrackFindsBest(n, path);
    var f := FirstMatch(shapes, path);
    if Backtrack(n, path).Some? {
      var best :| Best(n, path, best) && NodeAt(n, best) == Backtrack(n, path);
      FirstMatchIsFirst(shapes, path, best);
      assert Candidate(n, path, f.value);
      OneBefore(best, f.value, path);
    } else if f.Some? {
      assert Candidate(n, path, f.value);
    }
  }

  // ---------------------------------------------------------------- registered routes

  datatype Route = Route(parts: seq<string>, method_: string, handler: Handler)

  predicate IsName(s: string) {
    forall i :: 0 <= i < |s| ==> 'a' <= s[i] <= 'z' || 'A' <= s[i] <= 'Z' || '0' <= s[i] <= '9' || s[i] == '_'
  }

  function Name(part: string): string
    requires IsParam(part)
  {
    if |part| < 2 then "" else part[1..|part| - 1]
  }

  /** A segment that is allowed at its place, whatever the others are. */
  predicate ValidSegment(part: string, isLast: bool) {
    && part != ""
    && ((part == "*" || part == "**") ==> isLast)
    && (IsParam(part) ==> Name(part) != "" && IsName(Name(part)))
  }

  function NamesBefore(parts: seq<string>, i: nat): set<string>
    requires i <= |parts|
  {
    set j | 0 <= j < i && IsParam(parts[j]) :: Name(parts[j])
  }

  predicate ValidPattern(parts: seq<string>) {
    forall i :: 0 <= i < |parts| ==>
      ValidSegment(parts[i], i == |parts| - 1) && (IsParam(parts[i]) ==> Name(parts[i]) !in NamesBefore(parts, i))
  }

  method CheckSegment(part: string, isLast: bool) returns (ok: bool)
    ensures ok <==> ValidSegment(part, isLast)
  {
    if part == "" { return false; }
    if (part == "*" || part == "**") && !isLast { return false; }
    if IsParam(part) {
      if Name(part) == "" { return false; }
      if !IsName(Name(part)) { return false; }
    }
    return true;
  }

  /** `validatePattern`; false where it throws. */
  method ValidatePattern(parts: seq<string>) returns (ok: bool)
    ensures ok <==> ValidPattern(parts)
  {
    var params: set<string> := {};
    var i := 0;
    while i < |parts|
      invariant 0 <= i <= |parts| && params == NamesBefore(parts, i)
      invariant forall j :: 0 <= j < i ==>
        ValidSegment(parts[j], j == |parts| - 1) && (IsParam(parts[j]) ==> Name(parts[j]) !in NamesBefore(parts, j))
    {
      var fine := CheckSegment(parts[i], i == |parts| - 1);
      if !fine { return false; }
      if IsParam(parts[i]) {
        if Name(parts[i]) in params { return false; }
        params := params + {Name(parts[i])};
      }
      i := i + 1;
    }
    return true;
  }

  /** What the list of routes, in the order they were added, says of a shape. */
  function Recorded(routes: seq<Route>, shape: Shape): Option<Info> {
    if routes == [] then if shape == [] then Some(Info(map[], [])) else None
    else
      var r := routes[|routes| - 1];
      var before := Recorded(routes[..|routes| - 1], shape);
      if shape == ShapeOf(r.parts) then Some(Info(OrEmpty(before).handlers[r.method_ := r.handler], r.parts))
      else if shape <= ShapeOf(r.parts) then Some(OrEmpty(before))
      else before
  }

  predicate Present(routes: seq<Route>, shape: Shape, method_: string) {
    exists i :: 0 <= i < |routes| && ShapeOf(routes[i].parts) == shape && routes[i].method_ == method_
  }

  predicate NoDuplicates(routes: seq<Route>) {
    forall i, j :: 0 <= i < j < |routes| ==> ShapeOf(routes[i].parts) != ShapeOf(routes[j].parts) || routes[i].method_ != routes[j].method_
  }

  /** A shape is known if some route's shape begins with it. */
  predicate Known(routes: seq<Route>, shape: Shape) {
    shape == [] || exists i :: 0 <= i < |routes| && shape <= ShapeOf(routes[i].parts)
  }

  /** No route of this shape comes after the one at `i`. */
  predicate Latest(routes: seq<Route>, shape: Shape, i: nat) {
    && i < |routes| && ShapeOf(routes[i].parts) == shape
    && forall j :: i < j < |routes| ==> ShapeOf(routes[j].parts) != shape
  }

  lemma {:induction false} RecordedKnown(routes: seq<Route>, shape: Shape)
    ensures Recorded(routes, shape).Some? <==> Known(routes, shape)
  {
    if routes != [] {
      var n := |routes| - 1;
      RecordedKnown(routes[..n], shape);
      assert forall k :: 0 <= k < n ==> routes[..n][k] == routes[k];
      assert Known(routes[..n], shape) ==> Known(routes, shape);
    }
  }

  predicate HasHandlers(handlers: map<string, Handler>, routes: seq<Route>, shape: Shape) {
    forall k :: 0 <= k < |routes| && ShapeOf(routes[k].parts) == shape ==>
      routes[k].method_ in handlers && handlers[routes[k].method_] == routes[k].handler
  }

  lemma {:induction false} RecordedHandlers(routes: seq<Route>, shape: Shape)
    requires NoDuplicates(routes)
    ensures HasHandlers(OrEmpty(Recorded(routes, shape)).handlers, routes, shape)
    ensures forall m <- OrEmpty(Recorded(routes, shape)).handlers :: Present(routes, shape, m)
  {
    if routes != [] {
      var n := |routes| - 1;
      var before := OrEmpty(Recorded(routes[..n], shape)).handlers;
      RecordedHandlers(routes[..n], shape);
      forall m | m in before ensures Present(routes, shape, m) {
        PresentLater(routes, n, shape, m);
      }
      OneHandlerMore(before, routes, shape);
    }
  }

  lemma PresentLater(routes: seq<Route>, n: nat, shape: Shape, m: string)
    requires n <= |routes| && Present(routes[..n], shape, m)
    ensures Present(routes, shape, m)
  {
    var i :| 0 <= i < n && ShapeOf(routes[..n][i].parts) == shape && routes[..n][i].method_ == m;
    assert routes[i] == routes[..n][i];
  }

  lemma OneHandlerMore(before: map<string, Handler>, routes: seq<Route>, shape: Shape)
    requires routes != [] && NoDuplicates(routes) && HasHandlers(before, routes[..|routes| - 1], shape)
    ensures var r := routes[|routes| - 1];
      if ShapeOf(r.parts) == shape then HasHandlers(before[r.method_ := r.handler], routes, shape) && Present(routes, shape, r.method_)
      else HasHandlers(before, routes, shape)
  {
    var n := |routes| - 1;
    assert forall k :: 0 <= k < n ==> routes[..n][k] == routes[k];
  }

  /** Handlers are those of the routes with the shape, by method; the stored pattern is that of the latest of them. */
  lemma {:induction false} RecordedMeans(routes: seq<Route>, shape: Shape)
    requires NoDuplicates(routes)
    ensures Recorded(routes, shape).Some? <==> Known(routes, shape)
    ensures var i := OrEmpty(Recorded(routes, shape));
      && HasHandlers(i.handlers, routes, shape)
      && (forall m <- i.handlers :: Present(routes, shape, m))
      && (i.handlers != map[] ==> exists k: nat :: Latest(routes, shape, k) && i.pattern == routes[k].parts)
  {
    RecordedKnown(routes, shape);
    RecordedHandlers(routes, shape);
    if routes != [] {
      var n := |routes| - 1;
      var before := OrEmpty(Recorded(routes[..n], shape));
      RecordedMeans(routes[..n], shape);
      if shape == ShapeOf(routes[n].parts) {
        assert Latest(routes, shape, n);
      } else if before.handlers != map[] {
        var k: nat :| Latest(routes[..n], shape, k) && before.pattern == routes[..n][k].parts;
        assert Latest(routes, shape, k);
      }
    }
  }

  // ---------------------------------------------------------------- captured segments

  function Join(parts: seq<string>): string {
    if parts == [] then "" else if |parts| == 1 then parts[0] else parts[0] + "/" + Join(parts[1..])
  }

  /** The values for the parameters and wildcards of a pattern, in order. */
  function Captures(pattern: seq<string>, path: seq<string>, decode: string -> string): seq<(string, string)>
    requires Matches(ShapeOf(pattern), path)
    decreases |pattern|
  {
    if pattern == [] then []
    else
      assert ShapeOf(pattern)[1..] == ShapeOf(pattern[1..]);
      match SegmentOf(pattern[0])
      case DeepWildcard => [("**", Join(path))]
      case Wildcard => [("*", path[0])] + Captures(pattern[1..], path[1..], decode)
      case Param => [(Name(pattern[0]), decode(path[0]))] + Captures(pattern[1..], path[1..], decode)
      case Static(_) => Captures(pattern[1..], path[1..], decode)
  }

  /** The pattern with its parameters and wildcards replaced, one after the other. */
  function Fill(pattern: seq<string>, values: seq<(string, string)>): seq<string>
    decreases |pattern|
  {
    if pattern == [] then []
    else if SegmentOf(pattern[0]).Static? then [pattern[0]] + Fill(pattern[1..], values)
    else if values == [] then []
    else [values[0].1] + Fill(pattern[1..], values[1..])
  }

  /** Undecoded, the captures put back into the pattern give the path. */
  lemma {:induction false} CapturesFillPattern(pattern: seq<string>, path: seq<string>)
    requires Matches(ShapeOf(pattern), path)
    ensures Join(Fill(pattern, Captures(pattern, path, s => s))) == Join(path)
    ensures pattern != [] ==> Fill(pattern, Captures(pattern, path, s => s)) != []
    decreases |pattern|
  {
    if pattern != [] {
      var shape := ShapeOf(pattern);
      assert shape[1..] == ShapeOf(pattern[1..]);
      var all := Captures(pattern, path, s => s);
      if shape[0].DeepWildcard? {
        assert pattern[1..] == [] && all[1..] == [];
        assert Fill(pattern, all) == [Join(path)] + Fill([], []);
      } else {
        CapturesFillPattern(pattern[1..], path[1..]);
        var rest := Captures(pattern[1..], path[1..], s => s);
        if !shape[0].Static? { assert all[1..] == rest; }
        var filled := Fill(pattern, all);
        assert filled == [path[0]] + Fill(pattern[1..], rest);
        assert filled[1..] == Fill(pattern[1..], rest);
        assert |path| == 1 ==> pattern[1..] == [];
      }
    }
  }

  function Slashed(parts: seq<string>): string {
    if parts == [] then "" else Slashed(parts[..|parts| - 1]) + parts[|parts| - 1] + "/"
  }

  lemma {:induction false} SlashedIsJoin(parts: seq<string>)
    requires parts != []
    ensures Slashed(parts) == Join(parts) + "/"
  {
    var n := |parts| - 1;
    if n > 0 {
      SlashedIsJoin(parts[..n]);
      JoinSnoc(parts[..n], parts[n]);
      assert parts[..n] + [parts[n]] == parts;
    } else {
      assert parts[..0] == [];
    }
  }

  lemma {:induction false} JoinSnoc(parts: seq<string>, last: string)
    requires parts != []
    ensures Join(parts + [last]) == Join(parts) + "/" + last
  {
    var all := parts + [last];
    assert all[0] == parts[0] && all[1..] == parts[1..] + [last];
    if |parts| > 1 {
      JoinSnoc(parts[1..], last);
      assert parts[0] + "/" + (Join(parts[1..]) + "/" + last) == parts[0] + "/" + Join(parts[1..]) + "/" + last;
    }
  }

  lemma Regroup(a: seq<(string, string)>, b: seq<(string, string)>, c: seq<(string, string)>)
    ensures a + b + c == a + (b + c) && a + [] == a
  {}

  /** What one segment of a pattern captures, if it is not `**`. */
  function CaptureOf(part: string, text: string, decode: string -> string): seq<(string, string)> {
    match SegmentOf(part)
    case Wildcard => [("*", text)]
    case Param => [(Name(part), decode(text))]
    case _ => []
  }

  lemma CaptureStep(pattern: seq<string>, path: seq<string>, i: nat, decode: string -> string)
    requires i < |pattern| && i <= |path| && Matches(ShapeOf(pattern[i..]), path[i..])
    ensures i < |path|
    ensures SegmentOf(pattern[i]).DeepWildcard? ==> Captures(pattern[i..], path[i..], decode) == [("**", Join(path[i..]))]
    ensures !SegmentOf(pattern[i]).DeepWildcard? ==>
      && Matches(ShapeOf(pattern[i + 1..]), path[i + 1..])
      && Captures(pattern[i..], path[i..], decode)
         == CaptureOf(pattern[i], path[i], decode) + Captures(pattern[i + 1..], path[i + 1..], decode)
  {
    assert pattern[i..][1..] == pattern[i + 1..] && path[i..] != [] && path[i..][1..] == path[i + 1..];
    assert ShapeOf(pattern[i..])[1..] == ShapeOf(pattern[i + 1..]);
  }

  /** `getPathParams`: on a pattern that matches, no segment past the end of the path is looked at. */
  method GetPathParams(pattern: seq<string>, path: seq<string>, decode: string -> string) returns (params: seq<(string, string)>)
    requires Matches(ShapeOf(pattern), path)
    ensures params == Captures(pattern, path, decode)
  {
    params := [];
    var i := 0;
    assert pattern[0..] == pattern && path[0..] == path;
    while i < |pattern|
      invariant 0 <= i <= |pattern| && i <= |path|
      invariant Matches(ShapeOf(pattern[i..]), path[i..])
      invariant params + Captures(pattern[i..], path[i..], decode) == Captures(pattern, path, decode)
    {
      CaptureStep(pattern, path, i, decode);
      if pattern[i] == "**" {
        var captured := JoinFrom(path, i);
        return params + [("**", captured)];
      }
      Regroup(params, CaptureOf(pattern[i], path[i], decode), Captures(pattern[i + 1..], path[i + 1..], decode));
      if pattern[i] == "*" {
        params := params + [("*", path[i])];
      } else if IsParam(pattern[i]) {
        params := params + [(Name(pattern[i]), decode(path[i]))];
      }
      i := i + 1;
    }
    assert pattern[i..] == [];
  }

  method JoinFrom(path: seq<string>, i: nat) returns (captured: string)
    requires i < |path|
    ensures captured == Join(path[i..])
  {
    captured := "";
    var j := i;
    while j < |path|
      invariant i <= j <= |path| && captured == Slashed(path[i..j])
    {
      assert path[i..j + 1][..j - i] == path[i..j];
      captured := captured + path[j] + "/";
      j := j + 1;
    }
    assert path[i..j] == path[i..];
    SlashedIsJoin(path[i..]);
    captured := captured[..|captured| - 1];
  }

  // ---------------------------------------------------------------- the router

  datatype AddOutcome = Added | InvalidPattern | DuplicateRoute

  class Router {
    var pathTreeRoot: RouteNode
    /** The routes accepted so far. */
    ghost var routes: seq<Route>

    ghost predicate Valid() reads this {
      && NoDuplicates(routes) && (forall i :: 0 <= i < |routes| ==> ValidPattern(routes[i].parts))
      && forall shape :: InfoOf(NodeAt(pathTreeRoot, shape)) == Recorded(routes, shape)
    }

    constructor ()
      ensures Valid() && routes == []
    {
      pathTreeRoot, routes := EMPTY, [];
      new;
      forall shape ensures InfoOf(NodeAt(pathTreeRoot, shape)) == Recorded(routes, shape) {
        if shape != [] { NothingAt(shape); }
      }
    }

    /** A bad pattern and a second route of the same shape and method are refused, and then nothing changes. */
    method AddRoute(parts: seq<string>, method_: string, handler: Handler) returns (outcome: AddOutcome)
      requires Valid()
      modifies this
      ensures Valid()
      ensures outcome.InvalidPattern? <==> !ValidPattern(parts)
      ensures outcome.DuplicateRoute? <==> ValidPattern(parts) && Present(old(routes), ShapeOf(parts), method_)
      ensures routes == if outcome.Added? then old(routes) + [Route(parts, method_, handler)] else old(routes)
      ensures !outcome.Added? ==> pathTreeRoot == old(pathTreeRoot)
    {
      var ok := ValidatePattern(parts);
      if !ok { return InvalidPattern; }
      var shape := ShapeOf(parts);
      RecordedMeans(routes, shape);
      assert InfoOf(NodeAt(pathTreeRoot, shape)) == Recorded(routes, shape);
      var node := NodeAt(pathTreeRoot, shape);
      if node.Some? && method_ in node.value.requestHandlers { return DuplicateRoute; }
      RouteAdded(pathTreeRoot, routes, Route(parts, method_, handler));
      pathTreeRoot := Inserted(pathTreeRoot, shape, method_, handler, parts);
      routes := routes + [Route(parts, method_, handler)];
      return Added;
    }

    /**
     * `findMatchingRouteEntry`: the first match among the registered patterns and their prefixes, unless it has no
     * handler; its stored pattern, that of the route added last for its shape, fits the path.
     */
    method FindMatchingRouteEntry(path: seq<string>) returns (r: Option<RouteNode>)
      requires Valid()
      ensures r.None? <==> forall best :: FirstKnown(routes, path, best) ==> !HasHandler(routes, best)
      ensures r.Some? ==> exists best :: FirstKnown(routes, path, best) && Serves(r.value, routes, best)
      ensures r.Some? ==> Matches(ShapeOf(r.value.patternParts), path)
    {
      var node := Backtrack(pathTreeRoot, path);
      BacktrackFindsBest(pathTreeRoot, path);
      KnownCandidates(pathTreeRoot, routes, path);
      if node.None? { return None; }
      ghost var best :| Best(pathTreeRoot, path, best) && NodeAt(pathTreeRoot, best) == node;
      assert FirstKnown(routes, path, best);
      RecordedMeans(routes, best);
      assert InfoOf(node) == Recorded(routes, best);
      forall other | FirstKnown(routes, path, other) ensures other == best {
        OneBefore(best, other, path);
      }
      if node.value.requestHandlers == map[] { return None; }
      return node;
    }
  }

  /** A known shape that matches, before every other one that does. */
  ghost predicate FirstKnown(routes: seq<Route>, path: seq<string>, shape: Shape) {
    && Known(routes, shape) && Matches(shape, path)
    && forall other :: Known(routes, other) && Matches(other, path) ==> other == shape || Before(shape, other)
  }

  /** The shape is that of a whole route, not only of the beginning of one. */
  predicate HasHandler(routes: seq<Route>, shape: Shape) { exists i :: 0 <= i < |routes| && ShapeOf(routes[i].parts) == shape }

  /** The node has exactly the handlers of the shape's routes, and the pattern of the latest of them. */
  ghost predicate Serves(n: RouteNode, routes: seq<Route>, shape: Shape) {
    && HasHandlers(n.requestHandlers, routes, shape)
    && (forall m <- n.requestHandlers :: Present(routes, shape, m))
    && (exists k: nat :: Latest(routes, shape, k) && n.patternParts == routes[k].parts)
  }

  lemma KnownCandidates(root: RouteNode, routes: seq<Route>, path: seq<string>)
    requires NoDuplicates(routes) && forall shape :: InfoOf(NodeAt(root, shape)) == Recorded(routes, shape)
    ensures forall shape :: Candidate(root, path, shape) <==> Known(routes, shape) && Matches(shape, path)
    ensures forall shape :: Best(root, path, shape) <==> FirstKnown(routes, path, shape)
  {
    forall shape ensures NodeAt(root, shape).Some? <==> Known(routes, shape) {
      assert InfoOf(NodeAt(root, shape)) == Recorded(routes, shape);
      RecordedMeans(routes, shape);
    }
  }

  lemma RouteAdded(root: RouteNode, routes: seq<Route>, r: Route)
    requires forall shape :: InfoOf(NodeAt(root, shape)) == Recorded(routes, shape)
    ensures forall shape :: InfoOf(NodeAt(Inserted(root, ShapeOf(r.parts), r.method_, r.handler, r.parts), shape)) == Recorded(routes + [r], shape)
  {
    var all := routes + [r];
    assert all[..|all| - 1] == routes && all[|all| - 1] == r;
    forall shape ensures InfoOf(NodeAt(Inserted(root, ShapeOf(r.parts), r.method_, r.handler, r.parts), shape)) == Recorded(all, shape) {
      InsertedAt(root, ShapeOf(r.parts), r.method_, r.handler, r.parts, shape);
    }
  }

  // ---------------------------------------------------------------- parameters of routes that share a node

  /** The names a pattern gives to what it captures. */
  function Names(pattern: seq<string>): seq<string> {
    if pattern == [] then []
    else match SegmentOf(pattern[0])
      case DeepWildcard => ["**"]
      case Wildcard => ["*"] + Names(pattern[1..])
      case Param => [Name(pattern[0])] + Names(pattern[1..])
      case Static(_) => Names(pattern[1..])
  }

  function NamesOf(captures: seq<(string, string)>): (r: seq<string>)
    ensures |r| == |captures|
  {
    seq(|captures|, i requires 0 <= i < |captures| => captures[i].0)
  }

  lemma {:induction false} CaptureNames(pattern: seq<string>, path: seq<string>, decode: string -> string)
    requires Matches(ShapeOf(pattern), path)
    ensures NamesOf(Captures(pattern, path, decode)) == Names(pattern)
    decreases |pattern|
  {
    if pattern != [] {
      assert ShapeOf(pattern)[1..] == ShapeOf(pattern[1..]);
      if !SegmentOf(pattern[0]).DeepWildcard? { CaptureNames(pattern[1..], path[1..], decode); }
    }
  }

  /** Patterns of one shape capture the same segments, under their own names. */
  lemma {:induction false} CaptureValues(p: seq<string>, q: seq<string>, path: seq<string>, decode: string -> string)
    requires ShapeOf(p) == ShapeOf(q) && Matches(ShapeOf(p), path)
    ensures var c, d := Captures(p, path, decode), Captures(q, path, decode);
      |c| == |d| && forall i :: 0 <= i < |c| ==> c[i].1 == d[i].1
    decreases |p|
  {
    if p != [] {
      assert ShapeOf(p)[1..] == ShapeOf(p[1..]) && ShapeOf(q)[1..] == ShapeOf(q[1..]);
      assert SegmentOf(p[0]) == ShapeOf(p)[0] == ShapeOf(q)[0] == SegmentOf(q[0]);
      if !SegmentOf(p[0]).DeepWildcard? { CaptureValues(p[1..], q[1..], path[1..], decode); }
    }
  }

  lemma SameSegment(a: string, b: string)
    requires SegmentOf(a) == SegmentOf(b) && (SegmentOf(a).Param? ==> Name(a) == Name(b))
    ensures a == b
  {
    if SegmentOf(a).Param? {
      ParamText(a);
      ParamText(b);
    }
  }

  lemma ParamText(part: string)
    requires IsParam(part)
    ensures |part| >= 2 && part == ['<'] + Name(part) + ['>']
  {
    assert part[0] != part[|part| - 1];
  }

  /** A shape and the names say what the pattern is. */
  lemma {:induction false} SamePattern(p: seq<string>, q: seq<string>, path: seq<string>)
    requires ShapeOf(p) == ShapeOf(q) && Matches(ShapeOf(p), path) && Names(p) == Names(q)
    ensures p == q
    decreases |p|
  {
    if p != [] {
      assert ShapeOf(p)[1..] == ShapeOf(p[1..]) && ShapeOf(q)[1..] == ShapeOf(q[1..]);
      assert SegmentOf(p[0]) == ShapeOf(p)[0] == ShapeOf(q)[0] == SegmentOf(q[0]);
      var seg := SegmentOf(p[0]);
      if seg.Param? || seg.Wildcard? {
        assert Names(p)[1..] == Names(p[1..]) && Names(q)[1..] == Names(q[1..]);
        assert Names(p)[0] == Names(q)[0];
      }
      SameSegment(p[0], q[0]);
      assert p == [p[0]] + p[1..] && q == [q[0]] + q[1..];
      if !seg.DeepWildcard? {
        SamePattern(p[1..], q[1..], path[1..]);
      } else {
        assert p[1..] == [] && q[1..] == [];
      }
    }
  }

  /**
   * The handler of every route of the shape found gets the captures of its own pattern, under its own names, if and
   * only if the route added last for that shape has the same names, which is to say the same pattern.
   */
  lemma ParametersOfRoute(n: RouteNode, routes: seq<Route>, shape: Shape, path: seq<string>, k: nat, last: nat, decode: string -> string)
    requires Serves(n, routes, shape) && Matches(shape, path)
    requires k < |routes| && ShapeOf(routes[k].parts) == shape && Latest(routes, shape, last)
    ensures Matches(ShapeOf(n.patternParts), path)
    ensures NamesOf(Captures(n.patternParts, path, decode)) == Names(routes[k].parts) <==> Names(routes[last].parts) == Names(routes[k].parts)
    ensures Captures(n.patternParts, path, decode) == Captures(routes[k].parts, path, decode) <==> routes[last].parts == routes[k].parts
  {
    var i: nat :| Latest(routes, shape, i) && n.patternParts == routes[i].parts;
    assert i == last;
    CaptureNames(n.patternParts, path, decode);
    CaptureNames(routes[k].parts, path, decode);
    CaptureValues(n.patternParts, routes[k].parts, path, decode);
    if Captures(n.patternParts, path, decode) == Captures(routes[k].parts, path, decode) {
      SamePattern(n.patternParts, routes[k].parts, path);
    }
  }

  /** GET of `/<id>` and then POST of `/<name>`: the handler of the first is given the parameter `name`. */
  lemma SharedNode()
    ensures var id, name, path := ["<id>"], ["<name>"], ["7"];
      var root := Inserted(Inserted(EMPTY, ShapeOf(id), "GET", 1, id), ShapeOf(name), "POST", 2, name);
      var n := Backtrack(root, path);
      && n.Some? && "GET" in n.value.requestHandlers && n.value.requestHandlers["GET"] == 1
      && n.value.patternParts == name && Matches(ShapeOf(id), path) && Matches(ShapeOf(name), path)
      && Captures(n.value.patternParts, path, s => s) == [("name", "7")]
      && Captures(id, path, s => s) == [("id", "7")]
  {
    var id, name, path := ["<id>"], ["<name>"], ["7"];
    assert ShapeOf(id) == [Param] && ShapeOf(name) == [Param];
    assert path[1..] == [] && id[1..] == [] && name[1..] == [];
    var one := Inserted(EMPTY, [Param], "GET", 1, id);
    assert [Param][1..] == [];
    assert one.paramChild == Some(EMPTY.(requestHandlers := map["GET" := 1], patternParts := id));
    var two := Inserted(one, [Param], "POST", 2, name);
    assert two.paramChild == Some(EMPTY.(requestHandlers := map["GET" := 1, "POST" := 2], patternParts := name));
    assert Backtrack(two, path) == Backtrack(two.paramChild.value, []) == two.paramChild;
    assert Matches([Param], path);
    assert Name("<id>") == "id" && Name("<name>") == "name";
  }
}
