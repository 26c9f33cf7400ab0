/**
 * `Scanner.scan` (venusian/__init__.py:15-200): the root package's members,
 * then the modules `walk_packages` finds, each object passed to `invoke`,
 * which dispatches each object at most once per scan.
 */
module Scanner {
  import opened World
  import opened Strings
  import opened IgnoreMatcher
  import opened Registry
  import opened CategoryDispatch
  import opened Walker

  /**
   * What `getattr(ob, ATTACH_ATTR)` and `attached_to(ob)` do for an object
   * that has the attribute: raise (metaclass proxies and the like, lines
   * 140-155) or yield a registry. An object absent from the table has no
   * attribute at all.
   */
  datatype Marking = Unreadable | Marked(registry: Categories)

  /**
   * Everything `invoke` consults: the compiled `_ignore`, the
   * `categories` argument, each object's `ATTACH_ATTR` and which
   * callbacks raise when called.
   */
  datatype ScanCtx = ScanCtx(
    matcher: Matcher,
    categories: Option<seq<Category>>,
    attrs: map<ObjId, Marking>,
    fails: (CallbackId, string, ObjId) -> bool)

  /**
   * Lines 156-160: the registry `invoke` dispatches from, or `None` when
   * the object has none, reading it raises, or it is not attached to the
   * object; all of these return silently.
   */
  function Gate(attrs: map<ObjId, Marking>, ob: ObjId): Option<Categories> {
    if ob in attrs && attrs[ob].Marked? && AttachedTo(attrs[ob].registry, ob) then Some(attrs[ob].registry)
    else None
  }

  /**
   * `invoke(mod_name, name, ob)` (lines 127-167) with the scan's `seen`
   * set: the calls it makes, the exception that escapes it, and `seen`
   * afterwards. `ob` is recorded as seen before the ignore test.
   */
  function InvokeSpec(ctx: ScanCtx, seen: set<ObjId>, modName: string, name: string, ob: ObjId)
    : (r: (Outcome<Event>, set<ObjId>))
    ensures r.1 == seen + {ob}
    ensures ob in seen ==> r.0 == Done([])
    ensures Ignored(ctx.matcher, modName + "." + name) ==> r.0 == Done([])
    ensures Gate(ctx.attrs, ob).None? ==> r.0 == Done([])
    ensures forall e :: e in r.0.events ==> e.Called? && e.name == name && e.obj == ob
    ensures r.0.raised.Some? ==> r.0.raised.value.CallbackFailed? || r.0.raised == Some(SortFailed(ob))
  {
    if ob in seen then (Done([]), seen)
    else
      var seen' := seen + {ob};
      if Ignored(ctx.matcher, modName + "." + name) then (Done([]), seen')
      else
        match Gate(ctx.attrs, ob)
        case None => (Done([]), seen')
        case Some(c) =>
          match ctx.categories
          case Some(keys) => (DispatchSpec(keys, c.entries, name, ob, ctx.fails), seen')
          case None =>
            match SortKeys(Keys(c.entries))
            case None => (Outcome([], Some(SortFailed(ob))), seen')
            case Some(keys) => (DispatchSpec(keys, c.entries, name, ob, ctx.fails), seen')
  }

  /** `for name, ob in getmembers(module): invoke(mod_name, name, ob)`, stopping at an exception. */
  function InvokeAllSpec(ctx: ScanCtx, seen: set<ObjId>, modName: string, members: seq<Member>)
    : (Outcome<Event>, set<ObjId>)
    decreases |members|
  {
    if members == [] then (Done([]), seen)
    else
      var (o, seen1) := InvokeSpec(ctx, seen, modName, members[0].name, members[0].obj);
      if o.raised.Some? then (o, seen1)
      else
        var (rest, seen2) := InvokeAllSpec(ctx, seen1, modName, members[1..]);
        (Then(o, rest), seen2)
  }

  /**
   * A failed `__import__(modname)` in the scan (lines 190-196): `onerror`
   * when given, which may raise, and then no members (the module is not in
   * `sys.modules`); without `onerror` the exception propagates.
   */
  function ScanImportFailure(modName: string, kind: ErrorKind, onerror: Option<OnError>): (r: Outcome<Event>)
    ensures onerror.Some? ==> r.events == [OnErrorCalled(modName)]
                              && (r.raised.Some? <==> onerror.value.raises(modName, kind))
    ensures onerror.None? ==> r == Outcome([], Some(ImportFailed(modName, kind)))
  {
    match onerror
    case Some(h) => Outcome([OnErrorCalled(modName)], if h.raises(modName, kind) then Some(OnErrorFailed(modName)) else None)
    case None => Outcome([], Some(ImportFailed(modName, kind)))
  }

  /**
   * What the scan does for one step of the walk. The generator runs
   * lazily, so its own imports and `onerror` calls happen in step order
   * with the scan's work on the items it yields (lines 176-200).
   */
  function ProcessStep(ctx: ScanCtx, onerror: Option<OnError>, s: WalkStep, seen: set<ObjId>)
    : (Outcome<Event>, set<ObjId>)
  {
    match s
    case PkgImport(n, _) => (Done([ImportCalled(n)]), seen)
    case WalkOnError(n, _) => (Done([OnErrorCalled(n)]), seen)
    case Yielded(n, node) =>
      if !node.scrapeable then (Done([]), seen)
      else
        match node.outcome
        case Loads =>
          var (o, seen') := InvokeAllSpec(ctx, seen, n, node.members);
          (Then(Done([ImportCalled(n)]), o), seen')
        case RaisesImportError =>
          (Then(Done([ImportCalled(n)]), ScanImportFailure(n, ImportErrorKind, onerror)), seen)
        case RaisesOther =>
          (Then(Done([ImportCalled(n)]), ScanImportFailure(n, OtherErrorKind, onerror)), seen)
  }

  /** The loop of lines 178-200 over the walk's steps, ending with the walk's own exception. */
  function ProcessSteps(ctx: ScanCtx, onerror: Option<OnError>, steps: seq<WalkStep>,
                        final: Option<Exc>, seen: set<ObjId>): Outcome<Event>
    decreases |steps|
  {
    if steps == [] then Outcome([], final)
    else
      var (o, seen') := ProcessStep(ctx, onerror, steps[0], seen);
      Then(o, ProcessSteps(ctx, onerror, steps[1..], final, seen'))
  }

  /** `_ignore` and the other inputs of one `scan` call. */
  function Context(pkg: Package, categories: Option<seq<Category>>, ignore: IgnoreArg,
                   attrs: map<ObjId, Marking>, fails: (CallbackId, string, ObjId) -> bool): ScanCtx {
    ScanCtx(Compile(pkg.name, ignore), categories, attrs, fails)
  }

  /**
   * `scan(package, categories, onerror, ignore)`: the root's members
   * with a fresh `seen` set, then, for a package, the walk of its
   * `__path__` with `ignore=_ignore`.
   */
  function ScanSpec(pkg: Package, categories: Option<seq<Category>>, onerror: Option<OnError>, ignore: IgnoreArg,
                    attrs: map<ObjId, Marking>, fails: (CallbackId, string, ObjId) -> bool): Outcome<Event>
  {
    var ctx := Context(pkg, categories, ignore, attrs, fails);
    var (root, seen) := InvokeAllSpec(ctx, {}, pkg.name, pkg.members);
    if root.raised.Some? || pkg.path.None? then root
    else
      var path := pkg.path.value;
      var walk := Walk(path, path, pkg.name + ".", onerror, Some(ctx.matcher));
      Then(root, ProcessSteps(ctx, onerror, walk.events, walk.raised, seen))
  }

  // ---------------------------------------------------------------------
  // The imperative scan.

  /** `invoke(mod_name, name, ob)`. */
  method Invoke(ctx: ScanCtx, seen: set<ObjId>, modName: string, name: string, ob: ObjId)
    returns (out: Outcome<Event>, seen': set<ObjId>)
    ensures (out, seen') == InvokeSpec(ctx, seen, modName, name, ob)
  {
    if ob in seen {
      return Done([]), seen;
    }
    seen' := seen + {ob};
    var ignored := MatchIgnore(ctx.matcher, modName + "." + name);
    if ignored {
      return Done([]), seen';
    }
    var attached := Gate(ctx.attrs, ob);
    if attached.None? {
      return Done([]), seen';
    }
    var categories := attached.value;
    var keys;
    if ctx.categories.Some? {
      keys := ctx.categories.value;
    } else {
      var sorted := SortKeys(Keys(categories.entries));
      if sorted.None? {
        return Outcome([], Some(SortFailed(ob))), seen';
      }
      keys := sorted.value;
    }
    out := Dispatch(keys, categories.entries, name, ob, ctx.fails);
  }

  /** The member loop of lines 169-173 and 198-200. */
  method InvokeAll(ctx: ScanCtx, seen: set<ObjId>, modName: string, members: seq<Member>)
    returns (out: Outcome<Event>, seen': set<ObjId>)
    ensures (out, seen') == InvokeAllSpec(ctx, seen, modName, members)
  {
    var events: seq<Event> := [];
    seen' := seen;
    var i := 0;
    assert members[0..] == members;
    assert [] + InvokeAllSpec(ctx, seen, modName, members).0.events == InvokeAllSpec(ctx, seen, modName, members).0.events;
    while i < |members|
      invariant 0 <= i <= |members|
      invariant InvokeAllSpec(ctx, seen, modName, members)
                == (Then(Done(events), InvokeAllSpec(ctx, seen', modName, members[i..]).0),
                    InvokeAllSpec(ctx, seen', modName, members[i..]).1)
    {
      assert members[i..][1..] == members[i + 1..];
      var o;
      o, seen' := Invoke(ctx, seen', modName, members[i].name, members[i].obj);
      if o.raised.Some? {
        return Outcome(events + o.events, o.raised), seen';
      }
      ThenDone(events, o.events, InvokeAllSpec(ctx, seen', modName, members[i + 1..]).0);
      events := events + o.events;
      i := i + 1;
    }
    assert members[i..] == [] && events + [] == events;
    out := Done(events);
  }

  /** `scan(package, categories, onerror, ignore)`. */
  method Scan(pkg: Package, categories: Option<seq<Category>>, onerror: Option<OnError>, ignore: IgnoreArg,
              attrs: map<ObjId, Marking>, fails: (CallbackId, string, ObjId) -> bool)
    returns (out: Outcome<Event>)
    ensures out == ScanSpec(pkg, categories, onerror, ignore, attrs, fails)
  {
    var ctx := Context(pkg, categories, ignore, attrs, fails);
    var root, seen := InvokeAll(ctx, {}, pkg.name, pkg.members);
    if root.raised.Some? || pkg.path.None? {
      return root;
    }
    var path := pkg.path.value;
    var walk := WalkPackages(path, path, pkg.name + ".", onerror, Some(ctx.matcher));
    var rest := ScanSteps(ctx, onerror, walk.events, walk.raised, seen);
    out := Outcome(root.events + rest.events, rest.raised);
  }

  /** The loop of lines 179-200 over the walk's steps, ending with the walk's own exception. */
  method ScanSteps(ctx: ScanCtx, onerror: Option<OnError>, steps: seq<WalkStep>, final: Option<Exc>, seen: set<ObjId>)
    returns (out: Outcome<Event>)
    ensures out == ProcessSteps(ctx, onerror, steps, final, seen)
  {
    var events: seq<Event> := [];
    var seen' := seen;
    var i := 0;
    assert steps[0..] == steps;
    assert [] + ProcessSteps(ctx, onerror, steps, final, seen).events == ProcessSteps(ctx, onerror, steps, final, seen).events;
    while i < |steps|
      invariant 0 <= i <= |steps|
      invariant ProcessSteps(ctx, onerror, steps, final, seen)
                == Then(Done(events), ProcessSteps(ctx, onerror, steps[i..], final, seen'))
    {
      assert steps[i..][1..] == steps[i + 1..];
      var o, seen'' := ScanStep(ctx, onerror, steps[i], seen');
      if o.raised.Some? {
        return Outcome(events + o.events, o.raised);
      }
      ThenDone(events, o.events, ProcessSteps(ctx, onerror, steps[i + 1..], final, seen''));
      events := events + o.events;
      seen' := seen'';
      i := i + 1;
    }
    assert steps[i..] == [];
    out := Outcome(events, final);
  }

  /** The body of the loop of lines 178-200 for one step of the walk. */
  method ScanStep(ctx: ScanCtx, onerror: Option<OnError>, s: WalkStep, seen: set<ObjId>)
    returns (out: Outcome<Event>, seen': set<ObjId>)
    ensures (out, seen') == ProcessStep(ctx, onerror, s, seen)
  {
    seen' := seen;
    match s {
      case PkgImport(n, _) =>
        out := Done([ImportCalled(n)]);
      case WalkOnError(n, _) =>
        out := Done([OnErrorCalled(n)]);
      case Yielded(n, node) =>
        if !node.scrapeable {
          return Done([]), seen';
        }
        match node.outcome {
          case Loads =>
            var o;
            o, seen' := InvokeAll(ctx, seen, n, node.members);
            out := Outcome([ImportCalled(n)] + o.events, o.raised);
          case RaisesImportError =>
            out := Outcome([ImportCalled(n)], None);
            if onerror.Some? {
              out := Outcome(out.events + [OnErrorCalled(n)],
                             if onerror.value.raises(n, ImportErrorKind) then Some(OnErrorFailed(n)) else None);
            } else {
              out := Outcome(out.events, Some(ImportFailed(n, ImportErrorKind)));
            }
            assert [ImportCalled(n)] + [] == [ImportCalled(n)];
          case RaisesOther =>
            out := Outcome([ImportCalled(n)], None);
            if onerror.Some? {
              out := Outcome(out.events + [OnErrorCalled(n)],
                             if onerror.value.raises(n, OtherErrorKind) then Some(OnErrorFailed(n)) else None);
            } else {
              out := Outcome(out.events, Some(ImportFailed(n, OtherErrorKind)));
            }
            assert [ImportCalled(n)] + [] == [ImportCalled(n)];
        }
    }
  }

  // ---------------------------------------------------------------------
  // Properties of a scan.

  predicate NoCallsOn(events: seq<Event>, objs: set<ObjId>) {
    forall i :: 0 <= i < |events| && events[i].Called? ==> events[i].obj !in objs
  }

  predicate CallsWithin(events: seq<Event>, objs: set<ObjId>) {
    forall i :: 0 <= i < |events| && events[i].Called? ==> events[i].obj in objs
  }

  /**
   * Every object reached category dispatch at most once: the calls made
   * for it form one unbroken run under one name. The predicate alone would
   * also accept two back-to-back dispatches of the same object under the
   * same name; `seen` rules those out (lines 129-131), and `InvokeThreaded`
   * shows each dispatch is of an object not seen before.
   */
  predicate DispatchedOnce(events: seq<Event>) {
    forall i, j :: 0 <= i < j < |events| ==> OneRun(events, i, j)
  }

  predicate OneRun(events: seq<Event>, i: nat, j: nat)
    requires i <= j < |events|
  {
    events[i].Called? && events[j].Called? && events[i].obj == events[j].obj ==>
      forall k :: i <= k <= j ==> events[k].Called? && events[k].obj == events[i].obj && events[k].name == events[i].name
  }

  /** A piece of the scan run from `seen == before` to `seen == after`. */
  predicate Threaded(out: Outcome<Event>, before: set<ObjId>, after: set<ObjId>) {
    before <= after && NoCallsOn(out.events, before) && CallsWithin(out.events, after) && DispatchedOnce(out.events)
  }

  lemma ThreadedThen(a: Outcome<Event>, b: Outcome<Event>, s0: set<ObjId>, s1: set<ObjId>, s2: set<ObjId>)
    requires Threaded(a, s0, s1) && Threaded(b, s1, s2)
    ensures Threaded(Then(a, b), s0, s2)
  {
    if a.raised.None? {
      var ea, eb := a.events, b.events;
      var ab := ea + eb;
      forall i, j | 0 <= i < j < |ab|
        ensures OneRun(ab, i, j)
      {
        if j < |ea| {
          assert OneRun(ea, i, j);
          assert forall k :: i <= k <= j ==> ab[k] == ea[k];
        } else if i >= |ea| {
          assert OneRun(eb, i - |ea|, j - |ea|);
          assert forall k :: i <= k <= j ==> ab[k] == eb[k - |ea|];
        } else if ab[i].Called? && ab[j].Called? {
          assert ab[i] == ea[i] && ab[j] == eb[j - |ea|];
          assert ab[i].obj in s1 && ab[j].obj !in s1;
        }
      }
      assert NoCallsOn(ab, s0) by {
        forall i | 0 <= i < |ab| && ab[i].Called?
          ensures ab[i].obj !in s0
        {
          if i >= |ea| {
            assert ab[i] == eb[i - |ea|];
          }
        }
      }
      assert CallsWithin(ab, s2) by {
        forall i | 0 <= i < |ab| && ab[i].Called?
          ensures ab[i].obj in s2
        {
          if i < |ea| {
            assert ab[i] == ea[i];
          } else {
            assert ab[i] == eb[i - |ea|];
          }
        }
      }
    }
  }

  /** `invoke` calls callbacks only for an object it had not seen, and records it. */
  lemma InvokeThreaded(ctx: ScanCtx, seen: set<ObjId>, modName: string, name: string, ob: ObjId)
    ensures var r := InvokeSpec(ctx, seen, modName, name, ob);
            Threaded(r.0, seen, r.1)
  {
    var r := InvokeSpec(ctx, seen, modName, name, ob);
    var es := r.0.events;
    forall i, j | 0 <= i < j < |es|
      ensures OneRun(es, i, j)
    {
      assert forall k :: i <= k <= j ==> es[k] in es;
    }
    assert forall i :: 0 <= i < |es| ==> es[i] in es;
  }

  /**
   * The member loop visits objects through `invoke` only: it makes only
   * callback calls, each for an object not yet seen, and any exception is
   * a callback's or the key sort's.
   */
  lemma {:induction false} InvokeAllThreaded(ctx: ScanCtx, seen: set<ObjId>, modName: string, members: seq<Member>)
    ensures var r := InvokeAllSpec(ctx, seen, modName, members);
            Threaded(r.0, seen, r.1)
            && (forall e :: e in r.0.events ==> e.Called?)
            && (r.0.raised.Some? ==> r.0.raised.value.CallbackFailed? || r.0.raised.value.SortFailed?)
    decreases |members|
  {
    if members != [] {
      var (o, seen1) := InvokeSpec(ctx, seen, modName, members[0].name, members[0].obj);
      InvokeThreaded(ctx, seen, modName, members[0].name, members[0].obj);
      if o.raised.None? {
        var (rest, seen2) := InvokeAllSpec(ctx, seen1, modName, members[1..]);
        InvokeAllThreaded(ctx, seen1, modName, members[1..]);
        ThreadedThen(o, rest, seen, seen1, seen2);
      }
    }
  }

  lemma ProcessStepThreaded(ctx: ScanCtx, onerror: Option<OnError>, s: WalkStep, seen: set<ObjId>)
    ensures var r := ProcessStep(ctx, onerror, s, seen);
            Threaded(r.0, seen, r.1)
  {
    if s.Yielded? && s.node.scrapeable && s.node.outcome == Loads {
      var (o, seen') := InvokeAllSpec(ctx, seen, s.name, s.node.members);
      InvokeAllThreaded(ctx, seen, s.name, s.node.members);
      ThreadedThen(Done([ImportCalled(s.name)]), o, seen, seen, seen');
    }
  }

  /** `seen` after the scan has processed `steps`. */
  function SeenAfter(ctx: ScanCtx, onerror: Option<OnError>, steps: seq<WalkStep>, seen: set<ObjId>): set<ObjId>
    decreases |steps|
  {
    if steps == [] then seen
    else SeenAfter(ctx, onerror, steps[1..], ProcessStep(ctx, onerror, steps[0], seen).1)
  }

  lemma {:induction false} ProcessStepsThreaded(ctx: ScanCtx, onerror: Option<OnError>, steps: seq<WalkStep>,
                                                final: Option<Exc>, seen: set<ObjId>)
    ensures Threaded(ProcessSteps(ctx, onerror, steps, final, seen), seen, SeenAfter(ctx, onerror, steps, seen))
    decreases |steps|
  {
    if steps != [] {
      var (o, seen') := ProcessStep(ctx, onerror, steps[0], seen);
      ProcessStepThreaded(ctx, onerror, steps[0], seen);
      ProcessStepsThreaded(ctx, onerror, steps[1..], final, seen');
      var rest := ProcessSteps(ctx, onerror, steps[1..], final, seen');
      ThreadedThen(o, rest, seen, seen', SeenAfter(ctx, onerror, steps[1..], seen'));
    }
  }

  /**
   * Lines 127-131: within one scan every object reaches category dispatch
   * at most once, however many modules expose it and under whatever
   * names; the calls made for it form one unbroken run.
   */
  lemma ScanDispatchesOnce(pkg: Package, categories: Option<seq<Category>>, onerror: Option<OnError>, ignore: IgnoreArg,
                           attrs: map<ObjId, Marking>, fails: (CallbackId, string, ObjId) -> bool)
    ensures DispatchedOnce(ScanSpec(pkg, categories, onerror, ignore, attrs, fails).events)
  {
    var ctx := Context(pkg, categories, ignore, attrs, fails);
    var (root, seen) := InvokeAllSpec(ctx, {}, pkg.name, pkg.members);
    InvokeAllThreaded(ctx, {}, pkg.name, pkg.members);
    if root.raised.None? && pkg.path.Some? {
      var path := pkg.path.value;
      var walk := Walk(path, path, pkg.name + ".", onerror, Some(ctx.matcher));
      var rest := ProcessSteps(ctx, onerror, walk.events, walk.raised, seen);
      ProcessStepsThreaded(ctx, onerror, walk.events, walk.raised, seen);
      ThreadedThen(root, rest, {}, seen, SeenAfter(ctx, onerror, walk.events, seen));
    }
  }

  /**
   * Lines 129-136: `seen` is updated before the ignore test, so an object
   * whose first sighting is ignored is not dispatched when it shows up
   * again under a name that is not ignored.
   */
  lemma IgnoredFirstSightingSuppresses(ctx: ScanCtx, seen: set<ObjId>, modName: string,
                                       ignoredName: string, otherName: string, ob: ObjId)
    requires Ignored(ctx.matcher, modName + "." + ignoredName)
    ensures var r := InvokeAllSpec(ctx, seen, modName, [Member(ignoredName, ob), Member(otherName, ob)]);
            r.0 == Done([]) && ob in r.1
  {
    var ms := [Member(ignoredName, ob), Member(otherName, ob)];
    var (o, seen1) := InvokeSpec(ctx, seen, modName, ignoredName, ob);
    assert ms[1..] == [Member(otherName, ob)];
    assert ms[1..][1..] == [];
    var (o2, seen2) := InvokeSpec(ctx, seen1, modName, otherName, ob);
    assert o2 == Done([]);
    assert InvokeAllSpec(ctx, seen1, modName, ms[1..]) == (Then(o2, Done([])), seen2);
  }

  /**
   * Lines 169-179: every member of the scanned package or module is
   * handled before the walk starts, so the scan's trace begins with the
   * root members' callback calls, and an exception among them ends the
   * scan.
   */
  lemma RootMembersFirst(pkg: Package, categories: Option<seq<Category>>, onerror: Option<OnError>, ignore: IgnoreArg,
                         attrs: map<ObjId, Marking>, fails: (CallbackId, string, ObjId) -> bool)
    ensures var root := InvokeAllSpec(Context(pkg, categories, ignore, attrs, fails), {}, pkg.name, pkg.members).0;
            var out := ScanSpec(pkg, categories, onerror, ignore, attrs, fails);
            root.events <= out.events
            && (forall e :: e in root.events ==> e.Called?)
            && (root.raised.Some? || pkg.path.None? ==> out == root)
  {
    InvokeAllThreaded(Context(pkg, categories, ignore, attrs, fails), {}, pkg.name, pkg.members);
  }

  function EventName(e: Event): string
    requires !e.Called?
  {
    match e
    case ImportCalled(n) => n
    case OnErrorCalled(n) => n
  }

  /**
   * The scan's imports and `onerror` calls during the walk all name steps
   * of the walk, and without `onerror` it never calls one itself nor ends
   * with an `onerror` failure of its own.
   */
  lemma {:induction false} ProcessStepsOrigins(ctx: ScanCtx, onerror: Option<OnError>, steps: seq<WalkStep>,
                                               final: Option<Exc>, seen: set<ObjId>)
    ensures var out := ProcessSteps(ctx, onerror, steps, final, seen);
            (forall e :: e in out.events && !e.Called? ==> exists s :: s in steps && StepName(s) == EventName(e))
            && (onerror.None? && (forall s :: s in steps ==> !s.WalkOnError?) ==>
                  (forall e :: e in out.events ==> !e.OnErrorCalled?))
            && (onerror.None? && out.raised.Some? && out.raised != final ==> !out.raised.value.OnErrorFailed?)
    decreases |steps|
  {
    if steps != [] {
      var s0 := steps[0];
      var (o, seen') := ProcessStep(ctx, onerror, s0, seen);
      ProcessStepsOrigins(ctx, onerror, steps[1..], final, seen');
      ProcessStepOrigin(ctx, onerror, s0, seen);
      assert forall s :: s in steps[1..] ==> s in steps;
    }
  }

  /** One step of the scan: its imports and `onerror` calls name the step. */
  lemma ProcessStepOrigin(ctx: ScanCtx, onerror: Option<OnError>, s: WalkStep, seen: set<ObjId>)
    ensures var o := ProcessStep(ctx, onerror, s, seen).0;
            (forall e :: e in o.events && !e.Called? ==> EventName(e) == StepName(s))
            && (onerror.None? && !s.WalkOnError? ==> forall e :: e in o.events ==> !e.OnErrorCalled?)
            && (onerror.None? && o.raised.Some? ==> !o.raised.value.OnErrorFailed?)
  {
    if s.Yielded? && s.node.scrapeable && s.node.outcome == Loads {
      InvokeAllThreaded(ctx, seen, s.name, s.node.members);
    }
  }

  /**
   * Without `onerror` (lines 192-196 and 336-345) the scan never calls one
   * and never ends with an `onerror` failure: a failed module import
   * propagates, and a package import error during the walk is swallowed.
   */
  lemma NoHandlerNoOnErrorCall(pkg: Package, categories: Option<seq<Category>>, ignore: IgnoreArg,
                               attrs: map<ObjId, Marking>, fails: (CallbackId, string, ObjId) -> bool)
    ensures var out := ScanSpec(pkg, categories, None, ignore, attrs, fails);
            (forall e :: e in out.events ==> !e.OnErrorCalled?)
            && (out.raised.Some? ==> !out.raised.value.OnErrorFailed?)
  {
    var ctx := Context(pkg, categories, ignore, attrs, fails);
    var (root, seen) := InvokeAllSpec(ctx, {}, pkg.name, pkg.members);
    InvokeAllThreaded(ctx, {}, pkg.name, pkg.members);
    if root.raised.None? && pkg.path.Some? {
      var path := pkg.path.value;
      var walk := Walk(path, path, pkg.name + ".", None, Some(ctx.matcher));
      WalkErrors(path, path, pkg.name + ".", None, Some(ctx.matcher));
      ProcessStepsOrigins(ctx, None, walk.events, walk.raised, seen);
    }
  }

  /**
   * Lines 175-177 and 328-331: the scan imports nothing at or below a
   * top-level module or package that `ignore` matches.
   */
  lemma ScanImportsOnlyKept(pkg: Package, categories: Option<seq<Category>>, onerror: Option<OnError>, ignore: IgnoreArg,
                            attrs: map<ObjId, Marking>, fails: (CallbackId, string, ObjId) -> bool)
    requires pkg.path.Some?
    ensures forall e :: e in ScanSpec(pkg, categories, onerror, ignore, attrs, fails).events && e.ImportCalled? ==>
              UnderKept(e.modName, IterModules(pkg.path.value, pkg.name + "."), Compile(pkg.name, ignore))
  {
    var ctx := Context(pkg, categories, ignore, attrs, fails);
    var (root, seen) := InvokeAllSpec(ctx, {}, pkg.name, pkg.members);
    InvokeAllThreaded(ctx, {}, pkg.name, pkg.members);
    if root.raised.None? {
      var path := pkg.path.value;
      var walk := Walk(path, path, pkg.name + ".", onerror, Some(ctx.matcher));
      WalkPrunesIgnored(path, path, pkg.name + ".", onerror, ctx.matcher);
      ProcessStepsOrigins(ctx, onerror, walk.events, walk.raised, seen);
      var rest := ProcessSteps(ctx, onerror, walk.events, walk.raised, seen);
      forall e | e in rest.events && e.ImportCalled?
        ensures UnderKept(e.modName, IterModules(path, pkg.name + "."), ctx.matcher)
      {
        assert !e.Called?;
        assert exists s :: s in walk.events && StepName(s) == EventName(e);
        var s :| s in walk.events && StepName(s) == EventName(e);
      }
    }
  }

  /**
   * Lines 161-167 with `categories=None`: once an unseen, kept object
   * passes the gate, its registry's keys are sorted. The sort raises
   * exactly when `None` is one of two or more keys; otherwise every key is
   * visited in ascending order, and when no callback raises every callback
   * of every key is called once, in list order.
   */
  lemma InvokeAllCategoriesSorted(ctx: ScanCtx, seen: set<ObjId>, modName: string, name: string, ob: ObjId)
    requires ob !in seen && !Ignored(ctx.matcher, modName + "." + name)
    requires Gate(ctx.attrs, ob).Some? && ctx.categories.None?
    ensures var c := Gate(ctx.attrs, ob).value;
            var ks := Keys(c.entries);
            var r := InvokeSpec(ctx, seen, modName, name, ob).0;
            (r == Outcome([], Some(SortFailed(ob))) <==> |ks| >= 2 && Uncategorized in ks)
            && (!(|ks| >= 2 && Uncategorized in ks) ==>
                  exists sorted :: SortedKeys(sorted) && multiset(sorted) == multiset(ks)
                                   && r == DispatchSpec(sorted, c.entries, name, ob, ctx.fails)
                                   && ((forall cb :: !ctx.fails(cb, name, ob)) ==> r == Done(AllCalls(sorted, c.entries, name, ob))))
  {
    var c := Gate(ctx.attrs, ob).value;
    var ks := Keys(c.entries);
    var sorted := SortKeys(ks);
    var r := InvokeSpec(ctx, seen, modName, name, ob).0;
    if sorted.Some? {
      assert r == DispatchSpec(sorted.value, c.entries, name, ob, ctx.fails);
      assert r.raised != Some(SortFailed(ob));
      if forall cb :: !ctx.fails(cb, name, ob) {
        DispatchAllSucceed(sorted.value, c.entries, name, ob, ctx.fails);
      }
    } else {
      assert r == Outcome([], Some(SortFailed(ob)));
    }
  }

  /**
   * Lines 161-167 with `categories` given: the requested keys are visited
   * in the caller's order, and when no callback raises every callback of
   * every requested key is called once, in list order.
   */
  lemma InvokeRequestedCategories(ctx: ScanCtx, seen: set<ObjId>, modName: string, name: string, ob: ObjId)
    requires ob !in seen && !Ignored(ctx.matcher, modName + "." + name)
    requires Gate(ctx.attrs, ob).Some? && ctx.categories.Some?
    ensures var c := Gate(ctx.attrs, ob).value;
            var r := InvokeSpec(ctx, seen, modName, name, ob).0;
            r == DispatchSpec(ctx.categories.value, c.entries, name, ob, ctx.fails)
            && ((forall cb :: !ctx.fails(cb, name, ob)) ==> r == Done(AllCalls(ctx.categories.value, c.entries, name, ob)))
  {
    var c := Gate(ctx.attrs, ob).value;
    if forall cb :: !ctx.fails(cb, name, ob) {
      DispatchAllSucceed(ctx.categories.value, c.entries, name, ob, ctx.fails);
    }
  }

  /**
   * An unseen, non-ignored object whose registry is attached to it, invoked
   * with a single category and no failing callback, gets exactly that
   * category's callbacks, in order.
   */
  lemma InvokeCallsCategory(m: Matcher, reg: Categories, cat: Category, fails: (CallbackId, string, ObjId) -> bool,
                            seen: set<ObjId>, modName: string, name: string, ob: ObjId)
    requires AttachedTo(reg, ob) && ob !in seen && !Ignored(m, modName + "." + name)
    requires forall c :: !fails(c, name, ob)
    ensures var r := InvokeSpec(ScanCtx(m, Some([cat]), map[ob := Marked(reg)], fails), seen, modName, name, ob).0;
            var cbs := Get(reg.entries, cat);
            r.raised.None? && |r.events| == |cbs|
            && forall i :: 0 <= i < |r.events| ==> r.events[i] == Called(cbs[i], name, ob)
  {
    var ctx := ScanCtx(m, Some([cat]), map[ob := Marked(reg)], fails);
    assert Gate(ctx.attrs, ob) == Some(reg);
    assert InvokeSpec(ctx, seen, modName, name, ob).0 == DispatchSpec([cat], reg.entries, name, ob, fails);
    DispatchOneCategory(cat, reg.entries, name, ob, fails);
  }

  /**
   * `attach` outside a class body followed by `invoke` on the decorated
   * object: the registry `getattr` then finds passes the gate, and
   * dispatching its category ends with the callback just attached.
   */
  lemma AttachThenInvoke(own: map<ObjId, Categories>, lookup: seq<ObjId>, wrapped: ObjId, cb: CallbackId,
                         cat: Category, m: Matcher, fails: (CallbackId, string, ObjId) -> bool,
                         seen: set<ObjId>, modName: string, name: string)
    requires |lookup| > 0 && lookup[0] == wrapped
    requires wrapped !in seen && !Ignored(m, modName + "." + name)
    requires forall c :: !fails(c, name, wrapped)
    ensures var reg := Lookup(AttachOutsideClass(own, lookup, wrapped, cb, cat), lookup);
            reg.Some?
            && var ctx := ScanCtx(m, Some([cat]), map[wrapped := Marked(reg.value)], fails);
               var r := InvokeSpec(ctx, seen, modName, name, wrapped).0;
               r.raised.None? && |r.events| > 0 && r.events[|r.events| - 1] == Called(cb, name, wrapped)
  {
    var reg := Lookup(AttachOutsideClass(own, lookup, wrapped, cb, cat), lookup);
    AttachedRegistryIsReadBack(own, lookup, wrapped, cb, cat);
    InvokeEndsWithLast(m, reg.value, cat, cb, fails, seen, modName, name, wrapped);
  }

  lemma InvokeEndsWithLast(m: Matcher, reg: Categories, cat: Category, cb: CallbackId,
                           fails: (CallbackId, string, ObjId) -> bool,
                           seen: set<ObjId>, modName: string, name: string, ob: ObjId)
    requires AttachedTo(reg, ob) && ob !in seen && !Ignored(m, modName + "." + name)
    requires forall c :: !fails(c, name, ob)
    requires var cbs := Get(reg.entries, cat); |cbs| > 0 && cbs[|cbs| - 1] == cb
    ensures var r := InvokeSpec(ScanCtx(m, Some([cat]), map[ob := Marked(reg)], fails), seen, modName, name, ob).0;
            r.raised.None? && |r.events| > 0 && r.events[|r.events| - 1] == Called(cb, name, ob)
  {
    var cbs := Get(reg.entries, cat);
    InvokeCallsCategory(m, reg, cat, fails, seen, modName, name, ob);
    var r := InvokeSpec(ScanCtx(m, Some([cat]), map[ob := Marked(reg)], fails), seen, modName, name, ob).0;
    assert r.events[|r.events| - 1] == Called(cbs[|cbs| - 1], name, ob);
  }

  // ---------------------------------------------------------------------
  // Nothing is skipped: every first sighting is invoked in full.

  /** The objects a member list exposes. */
  function MemberObjs(members: seq<Member>): (objs: set<ObjId>)
    ensures forall i :: 0 <= i < |members| ==> members[i].obj in objs
  {
    if members == [] then {} else {members[0].obj} + MemberObjs(members[1..])
  }

  /** The `i`-th member shows an object that neither `seen` nor an earlier member holds. */
  predicate FirstSighting(members: seq<Member>, seen: set<ObjId>, i: nat)
    requires i < |members|
  {
    members[i].obj !in seen && forall j :: 0 <= j < i ==> members[j].obj != members[i].obj
  }

  /** `invoke` on an object not seen before does what it does at the start of a scan. */
  lemma InvokeUnseen(ctx: ScanCtx, seen: set<ObjId>, modName: string, name: string, ob: ObjId)
    requires ob !in seen
    ensures InvokeSpec(ctx, seen, modName, name, ob).0 == InvokeSpec(ctx, {}, modName, name, ob).0
  {
  }

  /**
   * Lines 127-131 and 169-173: when the member loop does not raise it has
   * added every member's object to `seen`, and for each object's first
   * sighting it has made all the calls `invoke` makes for a fresh object,
   * as one unbroken block.
   */
  lemma {:induction false} InvokeAllReaches(ctx: ScanCtx, seen: set<ObjId>, modName: string, members: seq<Member>)
    requires InvokeAllSpec(ctx, seen, modName, members).0.raised.None?
    ensures var r := InvokeAllSpec(ctx, seen, modName, members);
            r.1 == seen + MemberObjs(members)
            && forall i :: 0 <= i < |members| && FirstSighting(members, seen, i) ==>
                 Infix(InvokeSpec(ctx, {}, modName, members[i].name, members[i].obj).0.events, r.0.events)
    decreases |members|
  {
    if members != [] {
      var m := members[0];
      var (o, seen1) := InvokeSpec(ctx, seen, modName, m.name, m.obj);
      var (rest, seen2) := InvokeAllSpec(ctx, seen1, modName, members[1..]);
      var out := InvokeAllSpec(ctx, seen, modName, members).0;
      assert o.raised.None?;
      assert out == Then(o, rest);
      InvokeAllReaches(ctx, seen1, modName, members[1..]);
      forall i | 0 <= i < |members| && FirstSighting(members, seen, i)
        ensures Infix(InvokeSpec(ctx, {}, modName, members[i].name, members[i].obj).0.events, out.events)
      {
        if i == 0 {
          InvokeUnseen(ctx, seen, modName, m.name, m.obj);
          assert InfixAt(o.events, out.events, 0);
        } else {
          assert members[1..][i - 1] == members[i];
          assert FirstSighting(members[1..], seen1, i - 1);
          InfixWithin(InvokeSpec(ctx, {}, modName, members[i].name, members[i].obj).0.events, rest.events, o.events, []);
          assert o.events + rest.events + [] == out.events;
        }
      }
    }
  }

  /** A step of the walk whose module the scan imports and whose members it scans (lines 181-200). */
  predicate Scanned(s: WalkStep) {
    s.Yielded? && s.node.scrapeable && s.node.outcome == Loads
  }

  /** The objects exposed by the modules scanned among `steps`. */
  function ScannedObjs(steps: seq<WalkStep>): set<ObjId> {
    if steps == [] then {}
    else (if Scanned(steps[0]) then MemberObjs(steps[0].node.members) else {}) + ScannedObjs(steps[1..])
  }

  /**
   * `events` holds, as a block, all that `invoke` does for a fresh object
   * for each member of the module step `s` scans whose object is first
   * seen there, given the scan's `seen` set before the step.
   */
  ghost predicate StepInFull(ctx: ScanCtx, s: WalkStep, seen: set<ObjId>, events: seq<Event>) {
    Scanned(s) ==>
      forall i :: 0 <= i < |s.node.members| && FirstSighting(s.node.members, seen, i) ==>
        Infix(InvokeSpec(ctx, {}, s.name, s.node.members[i].name, s.node.members[i].obj).0.events, events)
  }

  /** `StepInFull` for every step, each with the objects of the modules scanned before it added to `seen`. */
  ghost predicate ScansInFull(ctx: ScanCtx, steps: seq<WalkStep>, seen: set<ObjId>, events: seq<Event>) {
    forall t :: 0 <= t < |steps| ==> StepInFull(ctx, steps[t], seen + ScannedObjs(steps[..t]), events)
  }

  lemma StepInFullWithin(ctx: ScanCtx, s: WalkStep, seen: set<ObjId>, x: seq<Event>, events: seq<Event>, y: seq<Event>)
    requires StepInFull(ctx, s, seen, events)
    ensures StepInFull(ctx, s, seen, x + events + y)
  {
    if Scanned(s) {
      var ms := s.node.members;
      forall i | 0 <= i < |ms| && FirstSighting(ms, seen, i)
        ensures Infix(InvokeSpec(ctx, {}, s.name, ms[i].name, ms[i].obj).0.events, x + events + y)
      {
        InfixWithin(InvokeSpec(ctx, {}, s.name, ms[i].name, ms[i].obj).0.events, events, x, y);
      }
    }
  }

  /** One step of the scan that does not raise reaches every first sighting among its module's members. */
  lemma ProcessStepReaches(ctx: ScanCtx, onerror: Option<OnError>, s: WalkStep, seen: set<ObjId>)
    requires ProcessStep(ctx, onerror, s, seen).0.raised.None?
    ensures var r := ProcessStep(ctx, onerror, s, seen);
            r.1 == seen + (if Scanned(s) then MemberObjs(s.node.members) else {})
            && StepInFull(ctx, s, seen, r.0.events)
  {
    if Scanned(s) {
      var ms := s.node.members;
      var inv := InvokeAllSpec(ctx, seen, s.name, ms).0;
      var o := ProcessStep(ctx, onerror, s, seen).0;
      assert o == Then(Done([ImportCalled(s.name)]), inv);
      InvokeAllReaches(ctx, seen, s.name, ms);
      StepInFullWithin(ctx, s, seen, [ImportCalled(s.name)], inv.events, []);
      assert [ImportCalled(s.name)] + inv.events + [] == o.events;
    }
  }

  /** One step followed by the rest of the steps reaches what each reaches. */
  lemma ScansInFullSplit(ctx: ScanCtx, steps: seq<WalkStep>, seen: set<ObjId>, seen': set<ObjId>,
                         first: seq<Event>, rest: seq<Event>)
    requires |steps| > 0
    requires seen' == seen + (if Scanned(steps[0]) then MemberObjs(steps[0].node.members) else {})
    requires StepInFull(ctx, steps[0], seen, first)
    requires ScansInFull(ctx, steps[1..], seen', rest)
    ensures ScansInFull(ctx, steps, seen, first + rest)
  {
    forall t | 0 <= t < |steps|
      ensures StepInFull(ctx, steps[t], seen + ScannedObjs(steps[..t]), first + rest)
    {
      if t == 0 {
        assert steps[..0] == [];
        assert seen + ScannedObjs(steps[..0]) == seen;
        StepInFullWithin(ctx, steps[0], seen, [], first, rest);
        assert [] + first + rest == first + rest;
      } else {
        assert steps[..t][0] == steps[0] && steps[..t][1..] == steps[1..][..t - 1];
        assert seen + ScannedObjs(steps[..t]) == seen' + ScannedObjs(steps[1..][..t - 1]);
        assert steps[1..][t - 1] == steps[t];
        StepInFullWithin(ctx, steps[t], seen' + ScannedObjs(steps[1..][..t - 1]), first, rest, []);
        assert first + rest + [] == first + rest;
      }
    }
  }

  /**
   * Lines 178-200: when the scan of the walk's steps does not raise, each
   * module it scans has every member whose object no earlier module (nor
   * the starting `seen`) exposed invoked in full.
   */
  lemma {:induction false} ProcessStepsReaches(ctx: ScanCtx, onerror: Option<OnError>, steps: seq<WalkStep>,
                                               final: Option<Exc>, seen: set<ObjId>)
    requires ProcessSteps(ctx, onerror, steps, final, seen).raised.None?
    ensures ScansInFull(ctx, steps, seen, ProcessSteps(ctx, onerror, steps, final, seen).events)
    decreases |steps|
  {
    if steps != [] {
      var (o, seen') := ProcessStep(ctx, onerror, steps[0], seen);
      var rest := ProcessSteps(ctx, onerror, steps[1..], final, seen');
      var out := ProcessSteps(ctx, onerror, steps, final, seen);
      assert out == Then(o, rest);
      assert o.raised.None? && rest.raised.None?;
      ProcessStepReaches(ctx, onerror, steps[0], seen);
      ProcessStepsReaches(ctx, onerror, steps[1..], final, seen');
      ScansInFullSplit(ctx, steps, seen, seen', o.events, rest.events);
    }
  }

  /**
   * Lines 169-173: a scan that does not raise invokes every member of the
   * scanned package or module in full at the member's object's first
   * sighting.
   */
  lemma ScanReachesRootMembers(pkg: Package, categories: Option<seq<Category>>, onerror: Option<OnError>, ignore: IgnoreArg,
                               attrs: map<ObjId, Marking>, fails: (CallbackId, string, ObjId) -> bool)
    requires ScanSpec(pkg, categories, onerror, ignore, attrs, fails).raised.None?
    ensures var ctx := Context(pkg, categories, ignore, attrs, fails);
            forall i :: 0 <= i < |pkg.members| && FirstSighting(pkg.members, {}, i) ==>
              Infix(InvokeSpec(ctx, {}, pkg.name, pkg.members[i].name, pkg.members[i].obj).0.events,
                    ScanSpec(pkg, categories, onerror, ignore, attrs, fails).events)
  {
    var ctx := Context(pkg, categories, ignore, attrs, fails);
    var root := InvokeAllSpec(ctx, {}, pkg.name, pkg.members).0;
    var out := ScanSpec(pkg, categories, onerror, ignore, attrs, fails);
    RootMembersFirst(pkg, categories, onerror, ignore, attrs, fails);
    InvokeAllReaches(ctx, {}, pkg.name, pkg.members);
    forall i | 0 <= i < |pkg.members| && FirstSighting(pkg.members, {}, i)
      ensures Infix(InvokeSpec(ctx, {}, pkg.name, pkg.members[i].name, pkg.members[i].obj).0.events, out.events)
    {
      InfixPrefix(InvokeSpec(ctx, {}, pkg.name, pkg.members[i].name, pkg.members[i].obj).0.events, root.events, out.events);
    }
  }

  /**
   * Lines 176-200: a scan that does not raise imports each module the walk
   * yields and can scan, and invokes in full every member of it whose
   * object neither the root nor an earlier scanned module exposed.
   */
  lemma ScanReachesWalkedMembers(pkg: Package, categories: Option<seq<Category>>, onerror: Option<OnError>, ignore: IgnoreArg,
                                 attrs: map<ObjId, Marking>, fails: (CallbackId, string, ObjId) -> bool)
    requires pkg.path.Some?
    requires ScanSpec(pkg, categories, onerror, ignore, attrs, fails).raised.None?
    ensures var ctx := Context(pkg, categories, ignore, attrs, fails);
            var steps := Walk(pkg.path.value, pkg.path.value, pkg.name + ".", onerror, Some(ctx.matcher)).events;
            var out := ScanSpec(pkg, categories, onerror, ignore, attrs, fails).events;
            (forall t :: 0 <= t < |steps| && steps[t].Yielded? && steps[t].node.scrapeable ==> ImportCalled(steps[t].name) in out)
            && ScansInFull(ctx, steps, MemberObjs(pkg.members), out)
  {
    var ctx := Context(pkg, categories, ignore, attrs, fails);
    var (root, seen) := InvokeAllSpec(ctx, {}, pkg.name, pkg.members);
    var out := ScanSpec(pkg, categories, onerror, ignore, attrs, fails);
    assert root.raised.None?;
    InvokeAllReaches(ctx, {}, pkg.name, pkg.members);
    assert seen == MemberObjs(pkg.members);
    var path := pkg.path.value;
    var walk := Walk(path, path, pkg.name + ".", onerror, Some(ctx.matcher));
    var steps := walk.events;
    var rest := ProcessSteps(ctx, onerror, steps, walk.raised, seen);
    assert out == Then(root, rest);
    assert rest.raised.None?;
    ProcessStepsReaches(ctx, onerror, steps, walk.raised, seen);
    ProcessStepsImports(ctx, onerror, steps, walk.raised, seen);
    ScansInFullWithin(ctx, steps, seen, root.events, rest.events);
    forall t | 0 <= t < |steps| && steps[t].Yielded? && steps[t].node.scrapeable
      ensures ImportCalled(steps[t].name) in out.events
    {
      assert ImportCalled(steps[t].name) in rest.events;
    }
  }

  lemma ScansInFullWithin(ctx: ScanCtx, steps: seq<WalkStep>, seen: set<ObjId>, x: seq<Event>, events: seq<Event>)
    requires ScansInFull(ctx, steps, seen, events)
    ensures ScansInFull(ctx, steps, seen, x + events)
  {
    forall t | 0 <= t < |steps|
      ensures StepInFull(ctx, steps[t], seen + ScannedObjs(steps[..t]), x + events)
    {
      StepInFullWithin(ctx, steps[t], seen + ScannedObjs(steps[..t]), x, events, []);
      assert x + events + [] == x + events;
    }
  }

  /** When the scan of the walk's steps does not raise, it imports every module it scans. */
  lemma {:induction false} ProcessStepsImports(ctx: ScanCtx, onerror: Option<OnError>, steps: seq<WalkStep>,
                                               final: Option<Exc>, seen: set<ObjId>)
    requires ProcessSteps(ctx, onerror, steps, final, seen).raised.None?
    ensures forall t :: 0 <= t < |steps| && steps[t].Yielded? && steps[t].node.scrapeable ==>
              ImportCalled(steps[t].name) in ProcessSteps(ctx, onerror, steps, final, seen).events
    decreases |steps|
  {
    if steps != [] {
      var (o, seen') := ProcessStep(ctx, onerror, steps[0], seen);
      var rest := ProcessSteps(ctx, onerror, steps[1..], final, seen');
      var out := ProcessSteps(ctx, onerror, steps, final, seen);
      assert out == Then(o, rest);
      assert o.raised.None? && out.events == o.events + rest.events;
      ProcessStepsImports(ctx, onerror, steps[1..], final, seen');
      forall t | 0 <= t < |steps| && steps[t].Yielded? && steps[t].node.scrapeable
        ensures ImportCalled(steps[t].name) in out.events
      {
        if t == 0 {
          assert o.events[0] == ImportCalled(steps[0].name);
        } else {
          assert steps[1..][t - 1] == steps[t];
        }
      }
    }
  }

  /**
   * With `categories` given and no failing callback, a scan that does not
   * raise calls, in order and as one block, every callback of every
   * requested key of each root member it keeps, at that member's object's
   * first sighting.
   */
  lemma ScanCallsRootCallbacks(pkg: Package, ks: seq<Category>, onerror: Option<OnError>, ignore: IgnoreArg,
                               attrs: map<ObjId, Marking>, fails: (CallbackId, string, ObjId) -> bool, i: nat)
    requires ScanSpec(pkg, Some(ks), onerror, ignore, attrs, fails).raised.None?
    requires i < |pkg.members| && FirstSighting(pkg.members, {}, i)
    requires !Ignored(Compile(pkg.name, ignore), pkg.name + "." + pkg.members[i].name)
    requires Gate(attrs, pkg.members[i].obj).Some?
    requires forall cb :: !fails(cb, pkg.members[i].name, pkg.members[i].obj)
    ensures var m := pkg.members[i];
            Infix(AllCalls(ks, Gate(attrs, m.obj).value.entries, m.name, m.obj),
                  ScanSpec(pkg, Some(ks), onerror, ignore, attrs, fails).events)
  {
    var ctx := Context(pkg, Some(ks), ignore, attrs, fails);
    var m := pkg.members[i];
    ScanReachesRootMembers(pkg, Some(ks), onerror, ignore, attrs, fails);
    InvokeRequestedCategories(ctx, {}, pkg.name, m.name, m.obj);
  }
}
