/**
 * The abstract world a venusian scan runs in.
 *
 * Python's runtime (object identities, `__import__`, `inspect.getmembers`,
 * `pkgutil.iter_modules` and the loaders it returns) is replaced by given
 * data: a finite tree of module entries, each with its import outcome and
 * its member list, and opaque identities for objects and callbacks.
 */
module World {

  datatype Option<+T> = None | Some(value: T)

  /** `id(ob)` of a Python object. */
  type ObjId = nat
  /** An opaque callback closure registered through `attach`. */
  type CallbackId = nat
  /** One entry of a package's `__path__` list. */
  type PathId = nat
  /** An executing class statement whose body `attach` can be called from. */
  type FrameId = nat

  /** One `(name, ob)` pair as `inspect.getmembers` returns it. */
  datatype Member = Member(name: string, obj: ObjId)

  /** What `__import__(name)` does for one module. */
  datatype ImportOutcome = Loads | RaisesImportError | RaisesOther

  datatype ErrorKind = ImportErrorKind | OtherErrorKind

  /**
   * A module or package found by `iter_modules`: its last name component,
   * whether it is a package, what importing it does, whether its loader
   * classifies it as a source file or package directory (the only kinds
   * the scanner scrapes), its members once imported, and (for a package)
   * its `__path__`.
   */
  datatype ModNode = ModNode(
    base: string,
    isPkg: bool,
    outcome: ImportOutcome,
    scrapeable: bool,
    members: seq<Member>,
    path: seq<PathItem>)

  /** A `__path__` entry and the modules `iter_modules` lists under it. */
  datatype PathItem = PathItem(id: PathId, entries: seq<ModNode>)

  /**
   * The package or module handed to `Scanner.scan`: its `__name__`, its
   * members, and its `__path__` when it is a package.
   */
  datatype Package = Package(name: string, members: seq<Member>, path: Option<seq<PathItem>>)

  /**
   * A caller-supplied `onerror(name)`. It sees the name and, through the
   * ambient exception, the kind of failure; `raises` says whether it lets
   * an exception escape (re-raising or raising its own).
   */
  datatype OnError = OnError(raises: (string, ErrorKind) -> bool)

  /** The exception that ends a walk or a scan. */
  datatype Exc =
    | ImportFailed(modName: string, kind: ErrorKind)
    | OnErrorFailed(modName: string)
    | CallbackFailed(cb: CallbackId, name: string, obj: ObjId)
    | SortFailed(obj: ObjId)

  /** Observable effects of a scan, in the order they happen. */
  datatype Event =
    | ImportCalled(modName: string)
    | OnErrorCalled(modName: string)
    | Called(cb: CallbackId, name: string, obj: ObjId)

  /** The effects of a computation and the exception that stopped it, if any. */
  datatype Outcome<E> = Outcome(events: seq<E>, raised: Option<Exc>)

  function Done<E>(events: seq<E>): Outcome<E> {
    Outcome(events, None)
  }

  /** Run `a`, then `b` unless `a` raised. */
  function Then<E>(a: Outcome<E>, b: Outcome<E>): (r: Outcome<E>)
    ensures a.events <= r.events
    ensures r.raised.None? <==> a.raised.None? && b.raised.None?
  {
    if a.raised.Some? then a else Outcome(a.events + b.events, b.raised)
  }

  lemma ThenAssoc<E>(a: Outcome<E>, b: Outcome<E>, c: Outcome<E>)
    ensures Then(Then(a, b), c) == Then(a, Then(b, c))
  {
    if a.raised.None? && b.raised.None? {
      assert (a.events + b.events) + c.events == a.events + (b.events + c.events);
    }
  }

  /** `a` occurs in `b` as the block that starts at index `j`. */
  ghost predicate InfixAt<E>(a: seq<E>, b: seq<E>, j: int) {
    0 <= j && j + |a| <= |b| && b[j..j + |a|] == a
  }

  /** `a` occurs in `b` as one contiguous block. */
  ghost predicate Infix<E>(a: seq<E>, b: seq<E>) {
    exists j :: InfixAt(a, b, j)
  }

  /** A block of `b` is still a block once anything is put around `b`. */
  lemma InfixWithin<E>(a: seq<E>, b: seq<E>, x: seq<E>, y: seq<E>)
    requires Infix(a, b)
    ensures Infix(a, x + b + y)
  {
    var j :| InfixAt(a, b, j);
    var c := x + b + y;
    assert c[|x| + j..|x| + j + |a|] == b[j..j + |a|];
    assert InfixAt(a, c, |x| + j);
  }

  /** A block of a prefix of `b` is a block of `b`. */
  lemma InfixPrefix<E>(a: seq<E>, p: seq<E>, b: seq<E>)
    requires Infix(a, p) && p <= b
    ensures Infix(a, b)
  {
    InfixWithin(a, p, [], b[|p|..]);
    assert [] + p + b[|p|..] == b;
  }

  /** Nothing done and nothing raised is a unit on both sides. */
  lemma ThenUnit<E>(a: Outcome<E>)
    ensures Then(Done([]), a) == a
    ensures Then(a, Done([])) == a
  {
    assert [] + a.events == a.events;
    assert a.events + [] == a.events;
  }

  lemma ThenDone<E>(a: seq<E>, b: seq<E>, c: Outcome<E>)
    ensures Then(Done(a), Then(Done(b), c)) == Then(Done(a + b), c)
  {
    assert a + (b + c.events) == (a + b) + c.events;
  }
}
