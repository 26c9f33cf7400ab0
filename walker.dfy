/**
 * `walk_packages` (venusian/__init__.py:284-356): the recursive submodule
 * walk with top-level ignore pruning, parent-before-child order, per-call
 * path de-duplication and its `onerror` policy.
 *
 * The generator is modelled by the whole sequence of steps it takes (the
 * package imports it performs, the `onerror` calls it makes and the items
 * it yields) together with the exception that ends it, if any.
 */
module Walker {
  import opened World
  import opened Strings
  import opened IgnoreMatcher

  /** One thing the walk does, in order. */
  datatype WalkStep =
    | PkgImport(name: string, node: ModNode)   // `__import__(name)` of a package, line 337
    | WalkOnError(name: string, node: ModNode) // `onerror(name)`, lines 340 and 343
    | Yielded(name: string, node: ModNode)     // `yield importer, name, ispkg`, lines 347 and 356

  function StepName(s: WalkStep): string {
    match s
    case PkgImport(n, _) => n
    case WalkOnError(n, _) => n
    case Yielded(n, _) => n
  }

  /** The entry a step is about. */
  function StepNode(s: WalkStep): ModNode {
    match s
    case PkgImport(_, m) => m
    case WalkOnError(_, m) => m
    case Yielded(_, m) => m
  }

  /**
   * One `(importer, name, ispkg)` of `iter_modules(path, prefix)`: its full
   * name, its entry, and the path item (the importer) it was found under.
   */
  datatype Listed = Listed(name: string, node: ModNode, item: PathItem)

  /** Every listed entry comes from one of the path items. */
  predicate ListedFrom(listed: seq<Listed>, path: seq<PathItem>) {
    forall i :: 0 <= i < |listed| ==> listed[i].item in path && listed[i].node in listed[i].item.entries
  }

  /** Every listed name is the prefix followed by the entry's own name. */
  predicate NamedUnder(listed: seq<Listed>, prefix: string) {
    forall i :: 0 <= i < |listed| ==> listed[i].name == prefix + listed[i].node.base
  }

  /** `iter_modules(path, prefix)`, taken as the entries of each path item in turn. */
  function IterModules(path: seq<PathItem>, prefix: string): (listed: seq<Listed>)
    ensures ListedFrom(listed, path)
    ensures NamedUnder(listed, prefix)
  {
    if path == [] then []
    else
      ListEntries(path[0], prefix) + IterModules(path[1..], prefix)
  }

  /** The entries of one path item, in order, with their full names. */
  function ListEntries(item: PathItem, prefix: string): (listed: seq<Listed>)
    ensures |listed| == |item.entries|
    ensures forall i :: 0 <= i < |listed| ==> listed[i].node == item.entries[i] && listed[i].item == item
    ensures NamedUnder(listed, prefix)
  {
    seq(|item.entries|, i requires 0 <= i < |item.entries| => Listed(prefix + item.entries[i].base, item.entries[i], item))
  }

  /** The path entries of a path list. */
  function Ids(path: seq<PathItem>): (ids: set<PathId>)
    ensures forall p :: p in path ==> p.id in ids
  {
    if path == [] then {} else {path[0].id} + Ids(path[1..])
  }

  /** No path entry occurs twice. */
  predicate DistinctIds(path: seq<PathItem>) {
    forall i, j :: 0 <= i < j < |path| ==> path[i].id != path[j].id
  }

  /**
   * `[p for p in path if not seen(p)]` with the `seen` dict of the calling
   * `walk_packages` (lines 320-323, 351): the path items whose entry has not
   * been met before in this call, each kept at its first occurrence, and the
   * `seen` set after the comprehension.
   */
  function FilterUnseen(path: seq<PathItem>, seen: set<PathId>): (r: (seq<PathItem>, set<PathId>))
    ensures forall p :: p in r.0 ==> p in path
  {
    if path == [] then ([], seen)
    else if path[0].id in seen then
      FilterUnseen(path[1..], seen)
    else
      var r := FilterUnseen(path[1..], seen + {path[0].id});
      var kids := [path[0]] + r.0;
      assert kids[1..] == r.0;
      (kids, r.1)
  }

  /**
   * The filter keeps exactly the path entries not seen before, each once,
   * and afterwards `seen` holds every entry of the path.
   */
  lemma {:induction false} FilterUnseenIds(path: seq<PathItem>, seen: set<PathId>)
    ensures var r := FilterUnseen(path, seen);
            Ids(r.0) == Ids(path) - seen && DistinctIds(r.0) && r.1 == seen + Ids(path)
  {
    if path != [] {
      var p := path[0];
      assert Ids(path) == {p.id} + Ids(path[1..]);
      if p.id in seen {
        FilterUnseenIds(path[1..], seen);
      } else {
        FilterUnseenIds(path[1..], seen + {p.id});
        var r := FilterUnseen(path[1..], seen + {p.id});
        var kids := [p] + r.0;
        assert kids[1..] == r.0;
        assert Ids(kids) == {p.id} + Ids(r.0);
        forall i, j | 0 <= i < j < |kids|
          ensures kids[i].id != kids[j].id
        {
          if i == 0 {
            assert kids[j] in r.0;
          } else {
            assert kids[i] == r.0[i - 1] && kids[j] == r.0[j - 1];
          }
        }
      }
    }
  }

  /**
   * What a failed package import leads to (lines 338-345): `onerror(name)`
   * when one is given, which may itself raise; without one an
   * `ImportError` is swallowed and any other exception propagates.
   */
  function RouteFailure(name: string, node: ModNode, kind: ErrorKind, onerror: Option<OnError>): (r: Outcome<WalkStep>)
    ensures onerror.Some? ==> r.events == [WalkOnError(name, node)]
                              && (r.raised.Some? <==> onerror.value.raises(name, kind))
    ensures onerror.None? ==> r.events == []
                              && (r.raised.Some? <==> kind == OtherErrorKind)
    ensures r.raised.Some? ==> r.raised == Some(if onerror.Some? then OnErrorFailed(name) else ImportFailed(name, kind))
  {
    match onerror
    case Some(h) =>
      Outcome([WalkOnError(name, node)], if h.raises(name, kind) then Some(OnErrorFailed(name)) else None)
    case None =>
      match kind
      case ImportErrorKind => Done([])
      case OtherErrorKind => Outcome([], Some(ImportFailed(name, kind)))
  }

  /**
   * `walk_packages(path, prefix, onerror, ignore)`. `bound` is the path
   * list some enclosing walk started from; it only serves termination.
   */
  function Walk(bound: seq<PathItem>, path: seq<PathItem>, prefix: string,
                onerror: Option<OnError>, ignore: Option<Matcher>): Outcome<WalkStep>
    requires forall p :: p in path ==> p in bound
    decreases bound, 1
  {
    WalkFrom(bound, path, IterModules(path, prefix), 0, {}, onerror, ignore)
  }

  /** The loop of lines 325-356 from the `k`-th listed entry on, with the call's `seen` set. */
  function WalkFrom(bound: seq<PathItem>, path: seq<PathItem>, listed: seq<Listed>, k: nat,
                    seen: set<PathId>, onerror: Option<OnError>, ignore: Option<Matcher>): Outcome<WalkStep>
    requires forall p :: p in path ==> p in bound
    requires ListedFrom(listed, path)
    requires k <= |listed|
    decreases bound, 0, |listed| - k
  {
    if k == |listed| then Done([])
    else
      var (o, seen') := Visit(bound, listed[k], seen, onerror, ignore);
      Then(o, WalkFrom(bound, path, listed, k + 1, seen', onerror, ignore))
  }

  /**
   * One pass of the loop body (lines 327-356) for the listed entry `l`:
   * what it does and the `seen` set after it.
   */
  function Visit(bound: seq<PathItem>, l: Listed, seen: set<PathId>,
                 onerror: Option<OnError>, ignore: Option<Matcher>): (Outcome<WalkStep>, set<PathId>)
    requires l.item in bound && l.node in l.item.entries
    decreases bound, 0, 0
  {
    if ignore.Some? && Ignored(ignore.value, l.name) then (Done([]), seen)
    else if !l.node.isPkg then (Done([Yielded(l.name, l.node)]), seen)
    else
      match l.node.outcome
      case Loads =>
        var (kids, seen') := FilterUnseen(l.node.path, seen);
        (Then(Done([PkgImport(l.name, l.node), Yielded(l.name, l.node)]),
              Walk(l.node.path, kids, l.name + ".", onerror, None)),
         seen')
      case RaisesImportError =>
        (Then(Done([PkgImport(l.name, l.node)]), RouteFailure(l.name, l.node, ImportErrorKind, onerror)), seen)
      case RaisesOther =>
        (Then(Done([PkgImport(l.name, l.node)]), RouteFailure(l.name, l.node, OtherErrorKind, onerror)), seen)
  }

  /** The comprehension of line 351, with `seen(p)` testing and then recording each entry. */
  method DropSeenPaths(path: seq<PathItem>, seen: set<PathId>) returns (kids: seq<PathItem>, seen': set<PathId>)
    ensures (kids, seen') == FilterUnseen(path, seen)
  {
    kids, seen' := [], seen;
    var i := 0;
    assert path[0..] == path && [] + FilterUnseen(path, seen).0 == FilterUnseen(path, seen).0;
    while i < |path|
      invariant 0 <= i <= |path|
      invariant FilterUnseen(path, seen).0 == kids + FilterUnseen(path[i..], seen').0
      invariant FilterUnseen(path, seen).1 == FilterUnseen(path[i..], seen').1
    {
      var p := path[i];
      ghost var r := FilterUnseen(path[i + 1..], seen' + {p.id});
      assert path[i..][1..] == path[i + 1..];
      if p.id !in seen' {
        assert kids + ([p] + r.0) == (kids + [p]) + r.0;
        seen' := seen' + {p.id};
        kids := kids + [p];
      }
      i := i + 1;
    }
    assert path[i..] == [] && kids + [] == kids;
  }

  /**
   * `walk_packages(path, prefix, onerror, ignore)` run to its end: the
   * steps it takes and the exception that stops it, if any.
   */
  method WalkPackages(ghost bound: seq<PathItem>, path: seq<PathItem>, prefix: string,
                      onerror: Option<OnError>, ignore: Option<Matcher>) returns (out: Outcome<WalkStep>)
    requires forall p :: p in path ==> p in bound
    ensures out == Walk(bound, path, prefix, onerror, ignore)
    decreases bound, 1
  {
    var listed := IterModules(path, prefix);
    var seen: set<PathId> := {};
    var steps: seq<WalkStep> := [];
    var k := 0;
    while k < |listed|
      invariant 0 <= k <= |listed|
      invariant Walk(bound, path, prefix, onerror, ignore)
                == Then(Done(steps), WalkFrom(bound, path, listed, k, seen, onerror, ignore))
    {
      var o, seen' := VisitEntry(bound, listed[k], seen, onerror, ignore);
      ghost var rest := WalkFrom(bound, path, listed, k + 1, seen', onerror, ignore);
      if o.raised.Some? {
        return Outcome(steps + o.events, o.raised);
      }
      ThenDone(steps, o.events, rest);
      steps := steps + o.events;
      seen := seen';
      k := k + 1;
    }
    out := Done(steps);
  }

  /** The loop body of lines 327-356 for one listed entry. */
  method VisitEntry(ghost bound: seq<PathItem>, l: Listed, seen: set<PathId>,
                    onerror: Option<OnError>, ignore: Option<Matcher>) returns (out: Outcome<WalkStep>, seen': set<PathId>)
    requires l.item in bound && l.node in l.item.entries
    ensures (out, seen') == Visit(bound, l, seen, onerror, ignore)
    decreases bound, 0
  {
    seen' := seen;
    var skip := false;
    if ignore.Some? {
      skip := MatchIgnore(ignore.value, l.name);
    }
    if skip {
      assert (Done([]), seen') == Visit(bound, l, seen, onerror, ignore);
      return Done([]), seen';
    }
    if !l.node.isPkg {
      return Done([Yielded(l.name, l.node)]), seen';
    }
    match l.node.outcome {
      case Loads =>
        var kids;
        kids, seen' := DropSeenPaths(l.node.path, seen);
        var sub := WalkPackages(l.node.path, kids, l.name + ".", onerror, None);
        out := Outcome([PkgImport(l.name, l.node), Yielded(l.name, l.node)] + sub.events, sub.raised);
        assert (out, seen') == Visit(bound, l, seen, onerror, ignore);
      case RaisesImportError =>
        out := Done([PkgImport(l.name, l.node)]);
        assert out.events + [] == out.events;
        if onerror.Some? {
          out := Outcome(out.events + [WalkOnError(l.name, l.node)],
                         if onerror.value.raises(l.name, ImportErrorKind) then Some(OnErrorFailed(l.name)) else None);
        }
      case RaisesOther =>
        out := Done([PkgImport(l.name, l.node)]);
        assert out.events + [] == out.events;
        if onerror.Some? {
          out := Outcome(out.events + [WalkOnError(l.name, l.node)],
                         if onerror.value.raises(l.name, OtherErrorKind) then Some(OnErrorFailed(l.name)) else None);
        } else {
          out := Outcome(out.events, Some(ImportFailed(l.name, OtherErrorKind)));
        }
        assert (out, seen') == Visit(bound, l, seen, onerror, ignore);
    }
  }

  /** `name` is `root` itself or a name below it. */
  predicate Under(name: string, root: string) {
    name == root || StartsWith(name, root + ".")
  }

  lemma UnderStartsWith(name: string, root: string)
    requires Under(name, root)
    ensures StartsWith(name, root)
  {
    if name != root {
      StartsWithAppend(root, ".", root);
      StartsWithTrans(name, root + ".", root);
    }
  }

  /**
   * The walk only imports packages, and yields a package only right after
   * importing it successfully; a plain module is yielded without an import.
   */
  predicate WellFormedSteps(steps: seq<WalkStep>) {
    forall j :: 0 <= j < |steps| ==> WellFormedAt(steps, j)
  }

  predicate WellFormedAt(steps: seq<WalkStep>, j: nat)
    requires j < |steps|
  {
    (steps[j].PkgImport? ==> steps[j].node.isPkg)
    && (steps[j].Yielded? && steps[j].node.isPkg ==>
          steps[j].node.outcome == Loads && 0 < j && steps[j - 1] == PkgImport(steps[j].name, steps[j].node))
  }

  lemma WellFormedAppend(a: seq<WalkStep>, b: seq<WalkStep>)
    requires WellFormedSteps(a) && WellFormedSteps(b)
    ensures WellFormedSteps(a + b)
  {
    var ab := a + b;
    forall j | 0 <= j < |ab|
      ensures WellFormedAt(ab, j)
    {
      if j < |a| {
        assert WellFormedAt(a, j);
        if j > 0 {
          assert ab[j - 1] == a[j - 1];
        }
      } else {
        assert WellFormedAt(b, j - |a|);
        if j > |a| {
          assert ab[j - 1] == b[j - 1 - |a|];
        }
      }
    }
  }

  /**
   * Every step of a walk is well formed and names a module below the
   * walk's prefix.
   */
  lemma {:induction false} WalkShape(bound: seq<PathItem>, path: seq<PathItem>, prefix: string,
                                     onerror: Option<OnError>, ignore: Option<Matcher>)
    requires forall p :: p in path ==> p in bound
    ensures var out := Walk(bound, path, prefix, onerror, ignore);
            WellFormedSteps(out.events) && forall s :: s in out.events ==> StartsWith(StepName(s), prefix)
    decreases bound, 1
  {
    WalkFromShape(bound, path, IterModules(path, prefix), 0, {}, prefix, onerror, ignore);
  }

  lemma {:induction false} WalkFromShape(bound: seq<PathItem>, path: seq<PathItem>, listed: seq<Listed>, k: nat,
                                         seen: set<PathId>, prefix: string, onerror: Option<OnError>, ignore: Option<Matcher>)
    requires forall p :: p in path ==> p in bound
    requires ListedFrom(listed, path) && NamedUnder(listed, prefix)
    requires k <= |listed|
    ensures var out := WalkFrom(bound, path, listed, k, seen, onerror, ignore);
            WellFormedSteps(out.events) && forall s :: s in out.events ==> StartsWith(StepName(s), prefix)
    decreases bound, 0, |listed| - k
  {
    if k < |listed| {
      var l := listed[k];
      var (o, seen') := Visit(bound, l, seen, onerror, ignore);
      VisitShape(bound, l, seen, onerror, ignore);
      WalkFromShape(bound, path, listed, k + 1, seen', prefix, onerror, ignore);
      var rest := WalkFrom(bound, path, listed, k + 1, seen', onerror, ignore);
      if o.raised.None? {
        WellFormedAppend(o.events, rest.events);
      }
      forall s | s in o.events
        ensures StartsWith(StepName(s), prefix)
      {
        UnderStartsWith(StepName(s), l.name);
        StartsWithAppend(prefix, l.node.base, prefix);
        StartsWithTrans(StepName(s), l.name, prefix);
      }
    }
  }

  lemma {:induction false} VisitShape(bound: seq<PathItem>, l: Listed, seen: set<PathId>,
                                      onerror: Option<OnError>, ignore: Option<Matcher>)
    requires l.item in bound && l.node in l.item.entries
    ensures var o := Visit(bound, l, seen, onerror, ignore).0;
            WellFormedSteps(o.events) && forall s :: s in o.events ==> Under(StepName(s), l.name)
    ensures ignore.Some? && Ignored(ignore.value, l.name) ==> Visit(bound, l, seen, onerror, ignore).0 == Done([])
    decreases bound, 0, 0
  {
    if !(ignore.Some? && Ignored(ignore.value, l.name)) && l.node.isPkg && l.node.outcome == Loads {
      var (kids, seen') := FilterUnseen(l.node.path, seen);
      WalkShape(l.node.path, kids, l.name + ".", onerror, None);
      var sub := Walk(l.node.path, kids, l.name + ".", onerror, None);
      var head := [PkgImport(l.name, l.node), Yielded(l.name, l.node)];
      WellFormedAppend(head, sub.events);
    }
  }

  /** `onerror` never raises. */
  ghost predicate NeverRaises(h: OnError) {
    forall n, k :: !h.raises(n, k)
  }

  /**
   * The error policy of lines 336-345: without `onerror` the walk never
   * calls one, swallows every `ImportError` and stops only on another
   * exception; with an `onerror` that never raises it never stops early.
   */
  ghost predicate FollowsErrorPolicy(out: Outcome<WalkStep>, onerror: Option<OnError>) {
    && (onerror.None? ==> (forall s :: s in out.events ==> !s.WalkOnError?)
                          && (out.raised.Some? ==> out.raised.value.ImportFailed? && out.raised.value.kind == OtherErrorKind))
    && (onerror.Some? && NeverRaises(onerror.value) ==> out.raised.None?)
    && (onerror.Some? ==> out.raised.Some? ==> out.raised.value.OnErrorFailed?)
  }

  lemma {:induction false} WalkErrors(bound: seq<PathItem>, path: seq<PathItem>, prefix: string,
                                      onerror: Option<OnError>, ignore: Option<Matcher>)
    requires forall p :: p in path ==> p in bound
    ensures FollowsErrorPolicy(Walk(bound, path, prefix, onerror, ignore), onerror)
    decreases bound, 1
  {
    WalkFromErrors(bound, path, IterModules(path, prefix), 0, {}, onerror, ignore);
  }

  lemma {:induction false} WalkFromErrors(bound: seq<PathItem>, path: seq<PathItem>, listed: seq<Listed>, k: nat,
                                          seen: set<PathId>, onerror: Option<OnError>, ignore: Option<Matcher>)
    requires forall p :: p in path ==> p in bound
    requires ListedFrom(listed, path)
    requires k <= |listed|
    ensures FollowsErrorPolicy(WalkFrom(bound, path, listed, k, seen, onerror, ignore), onerror)
    decreases bound, 0, |listed| - k
  {
    if k < |listed| {
      var (o, seen') := Visit(bound, listed[k], seen, onerror, ignore);
      VisitErrors(bound, listed[k], seen, onerror, ignore);
      WalkFromErrors(bound, path, listed, k + 1, seen', onerror, ignore);
    }
  }

  lemma {:induction false} VisitErrors(bound: seq<PathItem>, l: Listed, seen: set<PathId>,
                                       onerror: Option<OnError>, ignore: Option<Matcher>)
    requires l.item in bound && l.node in l.item.entries
    ensures FollowsErrorPolicy(Visit(bound, l, seen, onerror, ignore).0, onerror)
    decreases bound, 0, 0
  {
    if !(ignore.Some? && Ignored(ignore.value, l.name)) && l.node.isPkg && l.node.outcome == Loads {
      var (kids, seen') := FilterUnseen(l.node.path, seen);
      WalkErrors(l.node.path, kids, l.name + ".", onerror, None);
    }
  }

  /** `n` is an entry of one of the path items. */
  predicate Within(n: ModNode, path: seq<PathItem>) {
    exists it :: it in path && n in it.entries
  }

  /**
   * The step is about an entry that `iter_modules(path, prefix)` lists:
   * one of the items' entries, named with the prefix.
   */
  predicate DirectlyUnder(s: WalkStep, path: seq<PathItem>, prefix: string) {
    StepName(s) == prefix + StepNode(s).base && Within(StepNode(s), path)
  }

  /**
   * Each step is about an entry listed at the top of the walk, or about an
   * entry of the `__path__` of a package that an earlier step yielded after
   * importing it, named below that package.
   */
  predicate ParentFirst(steps: seq<WalkStep>, path: seq<PathItem>, prefix: string) {
    forall j :: 0 <= j < |steps| ==> HasParentBefore(steps, path, prefix, j)
  }

  predicate HasParentBefore(steps: seq<WalkStep>, path: seq<PathItem>, prefix: string, j: nat)
    requires j < |steps|
  {
    DirectlyUnder(steps[j], path, prefix)
    || exists i :: 0 <= i < j && YieldedParent(steps[i], steps[j])
  }

  /** `p` yields a package that loaded, and `s` is about one of its entries. */
  predicate YieldedParent(p: WalkStep, s: WalkStep) {
    p.Yielded? && p.node.isPkg && p.node.outcome == Loads && DirectlyUnder(s, p.node.path, p.name + ".")
  }

  lemma ParentFirstAppend(a: seq<WalkStep>, b: seq<WalkStep>, path: seq<PathItem>, prefix: string)
    requires ParentFirst(a, path, prefix) && ParentFirst(b, path, prefix)
    ensures ParentFirst(a + b, path, prefix)
  {
    var ab := a + b;
    forall j | 0 <= j < |ab|
      ensures HasParentBefore(ab, path, prefix, j)
    {
      if j < |a| {
        assert ab[j] == a[j];
        assert HasParentBefore(a, path, prefix, j);
        if !DirectlyUnder(a[j], path, prefix) {
          var i :| 0 <= i < j && YieldedParent(a[i], a[j]);
          assert ab[i] == a[i];
        }
      } else {
        var jb := j - |a|;
        assert ab[j] == b[jb];
        assert HasParentBefore(b, path, prefix, jb);
        if !DirectlyUnder(b[jb], path, prefix) {
          var i :| 0 <= i < jb && YieldedParent(b[i], b[jb]);
          assert ab[i + |a|] == b[i];
        }
      }
    }
  }

  /**
   * Lines 346-354: a package is imported and yielded before the walk
   * descends into its `__path__`, and a package that failed to import is
   * not descended into. So every step of a walk is about an entry the
   * top-level listing names, or about an entry of the `__path__` of a
   * package yielded at an earlier step, named below that package.
   */
  lemma {:induction false} WalkYieldsParentFirst(bound: seq<PathItem>, path: seq<PathItem>, prefix: string,
                                                 onerror: Option<OnError>, ignore: Option<Matcher>)
    requires forall p :: p in path ==> p in bound
    ensures ParentFirst(Walk(bound, path, prefix, onerror, ignore).events, path, prefix)
    decreases bound, 1
  {
    WalkFromParentFirst(bound, path, IterModules(path, prefix), 0, {}, prefix, onerror, ignore);
  }

  lemma {:induction false} WalkFromParentFirst(bound: seq<PathItem>, path: seq<PathItem>, listed: seq<Listed>, k: nat,
                                               seen: set<PathId>, prefix: string, onerror: Option<OnError>, ignore: Option<Matcher>)
    requires forall p :: p in path ==> p in bound
    requires ListedFrom(listed, path) && NamedUnder(listed, prefix)
    requires k <= |listed|
    ensures ParentFirst(WalkFrom(bound, path, listed, k, seen, onerror, ignore).events, path, prefix)
    decreases bound, 0, |listed| - k
  {
    if k < |listed| {
      var l := listed[k];
      var (o, seen') := Visit(bound, l, seen, onerror, ignore);
      WalkFromParentFirst(bound, path, listed, k + 1, seen', prefix, onerror, ignore);
      VisitParentFirst(bound, l, seen, path, prefix, onerror, ignore);
      if o.raised.None? {
        ParentFirstAppend(o.events, WalkFrom(bound, path, listed, k + 1, seen', onerror, ignore).events, path, prefix);
      }
    }
  }

  /**
   * The steps for one listed entry are about that entry, or about entries
   * below it once it has been imported and yielded.
   */
  lemma {:induction false} VisitParentFirst(bound: seq<PathItem>, l: Listed, seen: set<PathId>,
                                            path: seq<PathItem>, prefix: string,
                                            onerror: Option<OnError>, ignore: Option<Matcher>)
    requires l.item in bound && l.node in l.item.entries
    requires l.item in path && l.name == prefix + l.node.base
    ensures ParentFirst(Visit(bound, l, seen, onerror, ignore).0.events, path, prefix)
    decreases bound, 0, 0
  {
    var o := Visit(bound, l, seen, onerror, ignore).0;
    assert Within(l.node, path);
    if !(ignore.Some? && Ignored(ignore.value, l.name)) && l.node.isPkg && l.node.outcome == Loads {
      var (kids, _) := FilterUnseen(l.node.path, seen);
      var sub := Walk(l.node.path, kids, l.name + ".", onerror, None);
      WalkYieldsParentFirst(l.node.path, kids, l.name + ".", onerror, None);
      assert o.events == [PkgImport(l.name, l.node), Yielded(l.name, l.node)] + sub.events;
      assert HasParentBefore(o.events, path, prefix, 0) && HasParentBefore(o.events, path, prefix, 1);
      BelowYieldedParent(o.events, sub.events, kids, path, prefix);
    }
  }

  /**
   * Steps that follow an entry's import and yield, and keep the parent-first
   * order of a walk of (part of) its `__path__` below its name, keep it in
   * the enclosing walk.
   */
  lemma BelowYieldedParent(steps: seq<WalkStep>, sub: seq<WalkStep>, kids: seq<PathItem>,
                           path: seq<PathItem>, prefix: string)
    requires |steps| == 2 + |sub| && steps[2..] == sub
    requires steps[1].Yielded? && steps[1].node.isPkg && steps[1].node.outcome == Loads
    requires forall p :: p in kids ==> p in steps[1].node.path
    requires ParentFirst(sub, kids, steps[1].name + ".")
    requires HasParentBefore(steps, path, prefix, 0) && HasParentBefore(steps, path, prefix, 1)
    ensures ParentFirst(steps, path, prefix)
  {
    var parent := steps[1];
    forall j | 2 <= j < |steps|
      ensures HasParentBefore(steps, path, prefix, j)
    {
      var s := steps[j];
      assert s == sub[j - 2];
      assert HasParentBefore(sub, kids, parent.name + ".", j - 2);
      if DirectlyUnder(s, kids, parent.name + ".") {
        var it :| it in kids && StepNode(s) in it.entries;
        assert YieldedParent(parent, s);
      } else {
        var i :| 0 <= i < j - 2 && YieldedParent(sub[i], s);
        assert steps[i + 2] == sub[i];
      }
    }
  }

  /**
   * The order is strict enough to rule out a grandchild yielded before its
   * parent package, and anything found below a package whose import failed.
   */
  lemma ParentFirstRejectsOrphans()
    ensures var b := ModNode("b", false, Loads, true, [], []);
            var a := ModNode("a", true, Loads, true, [], [PathItem(3, [b])]);
            var p := ModNode("p", true, Loads, true, [], [PathItem(2, [a])]);
            var path := [PathItem(1, [p])];
            !ParentFirst([PkgImport("p", p), Yielded("p", p), Yielded("p.a.b", b), PkgImport("p.a", a), Yielded("p.a", a)], path, "")
    ensures var x := ModNode("x", false, Loads, true, [], []);
            var a := ModNode("a", true, RaisesImportError, true, [], [PathItem(3, [x])]);
            var p := ModNode("p", true, Loads, true, [], [PathItem(2, [a])]);
            var path := [PathItem(1, [p])];
            !ParentFirst([PkgImport("p", p), Yielded("p", p), PkgImport("p.a", a), Yielded("p.a.x", x)], path, "")
  {
    var b := ModNode("b", false, Loads, true, [], []);
    var a := ModNode("a", true, Loads, true, [], [PathItem(3, [b])]);
    var p := ModNode("p", true, Loads, true, [], [PathItem(2, [a])]);
    var path := [PathItem(1, [p])];
    var early := [PkgImport("p", p), Yielded("p", p), Yielded("p.a.b", b), PkgImport("p.a", a), Yielded("p.a", a)];
    assert "" + "b" != "p.a.b" && "p." + "b" != "p.a.b" && "p" + "." == "p.";
    assert !HasParentBefore(early, path, "", 2);
    var x := ModNode("x", false, Loads, true, [], []);
    var a' := ModNode("a", true, RaisesImportError, true, [], [PathItem(3, [x])]);
    var p' := ModNode("p", true, Loads, true, [], [PathItem(2, [a'])]);
    var path' := [PathItem(1, [p'])];
    var orphan := [PkgImport("p", p'), Yielded("p", p'), PkgImport("p.a", a'), Yielded("p.a.x", x)];
    assert "" + "x" != "p.a.x" && "p." + "x" != "p.a.x";
    assert !HasParentBefore(orphan, path', "", 3);
  }

  /** `name` lies under a top-level entry that `m` does not match. */
  predicate UnderKept(name: string, listed: seq<Listed>, m: Matcher) {
    exists i :: 0 <= i < |listed| && !Ignored(m, listed[i].name) && Under(name, listed[i].name)
  }

  /**
   * Lines 328-331: an entry whose name `ignore` matches is neither
   * imported nor yielded nor descended into, so every step of a walk lies
   * under a top-level entry that `ignore` does not match.
   */
  lemma WalkPrunesIgnored(bound: seq<PathItem>, path: seq<PathItem>, prefix: string,
                          onerror: Option<OnError>, m: Matcher)
    requires forall p :: p in path ==> p in bound
    ensures forall s :: s in Walk(bound, path, prefix, onerror, Some(m)).events ==>
              UnderKept(StepName(s), IterModules(path, prefix), m)
  {
    var listed := IterModules(path, prefix);
    WalkFromPrunesIgnored(bound, path, listed, 0, {}, onerror, m);
    var out := WalkFrom(bound, path, listed, 0, {}, onerror, Some(m));
    assert Walk(bound, path, prefix, onerror, Some(m)) == out;
    forall s | s in out.events
      ensures UnderKept(StepName(s), listed, m)
    {
      var i :| 0 <= i < |listed| && !Ignored(m, listed[i].name) && Under(StepName(s), listed[i].name);
    }
  }

  lemma {:induction false} WalkFromPrunesIgnored(bound: seq<PathItem>, path: seq<PathItem>, listed: seq<Listed>, k: nat,
                                                 seen: set<PathId>, onerror: Option<OnError>, m: Matcher)
    requires forall p :: p in path ==> p in bound
    requires ListedFrom(listed, path)
    requires k <= |listed|
    ensures forall s :: s in WalkFrom(bound, path, listed, k, seen, onerror, Some(m)).events ==>
              exists i :: k <= i < |listed| && !Ignored(m, listed[i].name) && Under(StepName(s), listed[i].name)
    decreases |listed| - k
  {
    if k < |listed| {
      var (o, seen') := Visit(bound, listed[k], seen, onerror, Some(m));
      VisitShape(bound, listed[k], seen, onerror, Some(m));
      WalkFromPrunesIgnored(bound, path, listed, k + 1, seen', onerror, m);
    }
  }

  /**
   * Line 353 does not pass `ignore` on: below the top level nothing is
   * pruned. With `ignore` naming `p.a.b`, a walk of package `p` still
   * imports `p.a` and yields `p.a.b`.
   */
  lemma NestedIgnoreNotForwarded()
    ensures var leaf := ModNode("b", false, Loads, true, [], []);
            var sub := ModNode("a", true, Loads, true, [], [PathItem(2, [leaf])]);
            var path := [PathItem(1, [sub])];
            var m := Matcher("p", [DottedName("p.a.b")]);
            Ignored(m, "p.a.b")
            && Walk(path, path, "p.", None, Some(m))
               == Done([PkgImport("p.a", sub), Yielded("p.a", sub), Yielded("p.a.b", leaf)])
  {
    var leaf := ModNode("b", false, Loads, true, [], []);
    var sub := ModNode("a", true, Loads, true, [], [PathItem(2, [leaf])]);
    var path := [PathItem(1, [sub])];
    var m := Matcher("p", [DottedName("p.a.b")]);
    assert ItemMatches(m.pkgName, m.items[0], "p.a.b");
    assert !ItemMatches(m.pkgName, m.items[0], "p.a");
    assert "p." + "a" == "p.a" && "p.a" + "." == "p.a." && "p.a." + "b" == "p.a.b";
    var top := IterModules(path, "p.");
    assert path[1..] == [];
    assert |ListEntries(path[0], "p.")| == 1;
    assert top == ListEntries(path[0], "p.") + IterModules([], "p.");
    assert top == [Listed("p.a", sub, path[0])];
    var kids := [PathItem(2, [leaf])];
    assert sub.path[1..] == [];
    var none: set<PathId> := {};
    assert none + {sub.path[0].id} == {2};
    assert FilterUnseen([], {2}) == ([], {2});
    assert [sub.path[0]] + [] == kids;
    assert FilterUnseen(sub.path, {}) == ([sub.path[0]] + FilterUnseen([], {2}).0, FilterUnseen([], {2}).1);
    assert FilterUnseen(sub.path, {}) == (kids, {2});
    var inner := IterModules(kids, "p.a.");
    assert kids[1..] == [];
    assert |ListEntries(kids[0], "p.a.")| == 1;
    assert inner == ListEntries(kids[0], "p.a.") + IterModules([], "p.a.");
    assert inner == [Listed("p.a.b", leaf, kids[0])];
    assert WalkFrom(sub.path, kids, inner, 1, {}, None, None) == Done([]);
    assert Visit(sub.path, inner[0], {}, None, None) == (Done([Yielded("p.a.b", leaf)]), {});
    assert WalkFrom(sub.path, kids, inner, 0, {}, None, None) == Done([Yielded("p.a.b", leaf)]);
    assert Walk(sub.path, kids, "p.a.", None, None) == Done([Yielded("p.a.b", leaf)]);
    assert WalkFrom(path, path, top, 1, {2}, None, Some(m)) == Done([]);
    assert !Ignored(m, "p.a");
    assert [PkgImport("p.a", sub), Yielded("p.a", sub)] + [Yielded("p.a.b", leaf)]
           == [PkgImport("p.a", sub), Yielded("p.a", sub), Yielded("p.a.b", leaf)];
    assert Walk(top[0].node.path, kids, top[0].name + ".", None, None) == Done([Yielded("p.a.b", leaf)]);
    assert Visit(path, top[0], {}, None, Some(m))
           == (Done([PkgImport("p.a", sub), Yielded("p.a", sub), Yielded("p.a.b", leaf)]), {2});
    assert Walk(path, path, "p.", None, Some(m)) == WalkFrom(path, path, top, 0, {}, None, Some(m));
  }

  // ---- Every entry is listed, and every kept entry is walked ----

  /** Listing a concatenation of path lists lists each of them in turn. */
  lemma {:induction false} IterModulesAppend(p1: seq<PathItem>, p2: seq<PathItem>, prefix: string)
    ensures IterModules(p1 + p2, prefix) == IterModules(p1, prefix) + IterModules(p2, prefix)
  {
    if p1 == [] {
      assert p1 + p2 == p2;
    } else {
      assert (p1 + p2)[0] == p1[0];
      assert (p1 + p2)[1..] == p1[1..] + p2;
      IterModulesAppend(p1[1..], p2, prefix);
    }
  }

  /** Entry `n` of path item `it` is among `listed`. */
  ghost predicate ListsEntry(listed: seq<Listed>, it: PathItem, n: ModNode) {
    exists i :: 0 <= i < |listed| && listed[i].item == it && listed[i].node == n
  }

  /**
   * `iter_modules` misses nothing: every entry of every path item is
   * listed, under that item. With `IterModulesAppend` and `ListEntries`
   * the listing is in path order, each item's entries in their own order.
   */
  lemma {:induction false} IterModulesComplete(path: seq<PathItem>, prefix: string)
    ensures forall it, n :: it in path && n in it.entries ==> ListsEntry(IterModules(path, prefix), it, n)
  {
    if path != [] {
      IterModulesComplete(path[1..], prefix);
      var head := ListEntries(path[0], prefix);
      var tail := IterModules(path[1..], prefix);
      var listed := IterModules(path, prefix);
      assert listed == head + tail;
      forall it, n | it in path && n in it.entries
        ensures ListsEntry(listed, it, n)
      {
        if it == path[0] {
          var k :| 0 <= k < |it.entries| && it.entries[k] == n;
          assert listed[k] == head[k];
        } else {
          assert path == [path[0]] + path[1..];
          assert it in path[1..];
          assert ListsEntry(tail, it, n);
          var i :| 0 <= i < |tail| && tail[i].item == it && tail[i].node == n;
          assert listed[|head| + i] == tail[i];
        }
      }
    }
  }

  /** The call's `seen` set after the loop body has handled `l` (line 351). */
  function SeenAfterVisit(l: Listed, seen: set<PathId>, ignore: Option<Matcher>): set<PathId> {
    if !(ignore.Some? && Ignored(ignore.value, l.name)) && l.node.isPkg && l.node.outcome == Loads
    then seen + Ids(l.node.path)
    else seen
  }

  /** The call's `seen` set when the loop reaches the `i`-th listed entry, from `seen` at the `k`-th. */
  function SeenAt(listed: seq<Listed>, k: nat, i: nat, seen: set<PathId>, ignore: Option<Matcher>): set<PathId>
    requires k <= i <= |listed|
    decreases i - k
  {
    if k == i then seen else SeenAt(listed, k + 1, i, SeenAfterVisit(listed[k], seen, ignore), ignore)
  }

  /** Only a package that is descended into adds its path entries to `seen`. */
  lemma VisitSeen(bound: seq<PathItem>, l: Listed, seen: set<PathId>,
                  onerror: Option<OnError>, ignore: Option<Matcher>)
    requires l.item in bound && l.node in l.item.entries
    ensures Visit(bound, l, seen, onerror, ignore).1 == SeenAfterVisit(l, seen, ignore)
  {
    FilterUnseenIds(l.node.path, seen);
  }

  /**
   * `events` holds what lines 333-356 do for the kept entry `l` when
   * `seen` is the call's set at that point: a module is yielded; a
   * package that imports is imported, yielded and, right after, walked
   * with its unseen path items; a package that fails is imported and then
   * passed to `onerror` when there is one.
   */
  ghost predicate Reports(events: seq<WalkStep>, l: Listed, seen: set<PathId>, onerror: Option<OnError>) {
    if !l.node.isPkg then
      Yielded(l.name, l.node) in events
    else if l.node.outcome == Loads then
      var sub := Walk(l.node.path, FilterUnseen(l.node.path, seen).0, l.name + ".", onerror, None);
      sub.raised.None? && Infix([PkgImport(l.name, l.node), Yielded(l.name, l.node)] + sub.events, events)
    else
      Infix([PkgImport(l.name, l.node)] + (if onerror.Some? then [WalkOnError(l.name, l.node)] else []), events)
  }

  /** What a trace reports it still reports with more steps around it. */
  lemma ReportsWithin(x: seq<WalkStep>, events: seq<WalkStep>, y: seq<WalkStep>,
                      l: Listed, seen: set<PathId>, onerror: Option<OnError>)
    requires Reports(events, l, seen, onerror)
    ensures Reports(x + events + y, l, seen, onerror)
  {
    if !l.node.isPkg {
      var j :| 0 <= j < |events| && events[j] == Yielded(l.name, l.node);
      assert (x + events + y)[|x| + j] == events[j];
    } else if l.node.outcome == Loads {
      var sub := Walk(l.node.path, FilterUnseen(l.node.path, seen).0, l.name + ".", onerror, None);
      InfixWithin([PkgImport(l.name, l.node), Yielded(l.name, l.node)] + sub.events, events, x, y);
    } else {
      InfixWithin([PkgImport(l.name, l.node)] + (if onerror.Some? then [WalkOnError(l.name, l.node)] else []), events, x, y);
    }
  }

  /** A loop pass over a kept entry that does not raise does all that entry calls for. */
  lemma VisitReports(bound: seq<PathItem>, l: Listed, seen: set<PathId>,
                     onerror: Option<OnError>, ignore: Option<Matcher>)
    requires l.item in bound && l.node in l.item.entries
    requires !(ignore.Some? && Ignored(ignore.value, l.name))
    requires Visit(bound, l, seen, onerror, ignore).0.raised.None?
    ensures Reports(Visit(bound, l, seen, onerror, ignore).0.events, l, seen, onerror)
  {
    var o := Visit(bound, l, seen, onerror, ignore).0;
    if !l.node.isPkg {
      assert o.events == [Yielded(l.name, l.node)];
    } else if l.node.outcome == Loads {
      var sub := Walk(l.node.path, FilterUnseen(l.node.path, seen).0, l.name + ".", onerror, None);
      var want := [PkgImport(l.name, l.node), Yielded(l.name, l.node)] + sub.events;
      assert o.events == want;
      assert InfixAt(want, o.events, 0);
    } else {
      var want := [PkgImport(l.name, l.node)] + (if onerror.Some? then [WalkOnError(l.name, l.node)] else []);
      assert o.events == want;
      assert InfixAt(want, o.events, 0);
    }
  }

  /**
   * Lines 325-356 from the `k`-th entry on: when the loop does not raise,
   * every listed entry that `ignore` keeps is handled in full.
   */
  lemma {:induction false} WalkFromReports(bound: seq<PathItem>, path: seq<PathItem>, listed: seq<Listed>, k: nat,
                                           seen: set<PathId>, onerror: Option<OnError>, ignore: Option<Matcher>)
    requires forall p :: p in path ==> p in bound
    requires ListedFrom(listed, path)
    requires k <= |listed|
    requires WalkFrom(bound, path, listed, k, seen, onerror, ignore).raised.None?
    ensures forall i :: k <= i < |listed| && !(ignore.Some? && Ignored(ignore.value, listed[i].name)) ==>
              Reports(WalkFrom(bound, path, listed, k, seen, onerror, ignore).events,
                      listed[i], SeenAt(listed, k, i, seen, ignore), onerror)
    decreases |listed| - k
  {
    if k < |listed| {
      var l := listed[k];
      var (o, seen') := Visit(bound, l, seen, onerror, ignore);
      var rest := WalkFrom(bound, path, listed, k + 1, seen', onerror, ignore);
      var out := WalkFrom(bound, path, listed, k, seen, onerror, ignore);
      assert out == Then(o, rest);
      assert o.raised.None? && rest.raised.None?;
      assert out.events == o.events + rest.events;
      VisitSeen(bound, l, seen, onerror, ignore);
      if !(ignore.Some? && Ignored(ignore.value, l.name)) {
        VisitReports(bound, l, seen, onerror, ignore);
      }
      WalkFromReports(bound, path, listed, k + 1, seen', onerror, ignore);
      ReportsSplit(o.events, rest.events, listed, k, seen, seen', onerror, ignore);
    }
  }

  /** One loop pass followed by the rest of the loop reports what each reports. */
  lemma ReportsSplit(first: seq<WalkStep>, rest: seq<WalkStep>, listed: seq<Listed>, k: nat,
                     seen: set<PathId>, seen': set<PathId>, onerror: Option<OnError>, ignore: Option<Matcher>)
    requires k < |listed|
    requires !(ignore.Some? && Ignored(ignore.value, listed[k].name)) ==> Reports(first, listed[k], seen, onerror)
    requires seen' == SeenAfterVisit(listed[k], seen, ignore)
    requires forall i :: k + 1 <= i < |listed| && !(ignore.Some? && Ignored(ignore.value, listed[i].name)) ==>
               Reports(rest, listed[i], SeenAt(listed, k + 1, i, seen', ignore), onerror)
    ensures forall i :: k <= i < |listed| && !(ignore.Some? && Ignored(ignore.value, listed[i].name)) ==>
              Reports(first + rest, listed[i], SeenAt(listed, k, i, seen, ignore), onerror)
  {
    forall i | k <= i < |listed| && !(ignore.Some? && Ignored(ignore.value, listed[i].name))
      ensures Reports(first + rest, listed[i], SeenAt(listed, k, i, seen, ignore), onerror)
    {
      if i == k {
        ReportsWithin([], first, rest, listed[k], seen, onerror);
        assert [] + first + rest == first + rest;
      } else {
        assert SeenAt(listed, k, i, seen, ignore) == SeenAt(listed, k + 1, i, seen', ignore);
        ReportsWithin(first, rest, [], listed[i], SeenAt(listed, k + 1, i, seen', ignore), onerror);
        assert first + rest + [] == first + rest;
      }
    }
  }

  /**
   * `walk_packages` misses nothing: when it does not raise, every entry
   * `iter_modules` lists and `ignore` keeps is yielded or, for a package,
   * imported and then yielded and walked, or passed to `onerror`.
   */
  lemma WalkReports(bound: seq<PathItem>, path: seq<PathItem>, prefix: string,
                    onerror: Option<OnError>, ignore: Option<Matcher>)
    requires forall p :: p in path ==> p in bound
    requires Walk(bound, path, prefix, onerror, ignore).raised.None?
    ensures var listed := IterModules(path, prefix);
            forall i :: 0 <= i < |listed| && !(ignore.Some? && Ignored(ignore.value, listed[i].name)) ==>
              Reports(Walk(bound, path, prefix, onerror, ignore).events, listed[i], SeenAt(listed, 0, i, {}, ignore), onerror)
  {
    WalkFromReports(bound, path, IterModules(path, prefix), 0, {}, onerror, ignore);
  }
}
