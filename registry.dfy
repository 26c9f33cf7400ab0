/**
 * The per-object callback registry `Categories` and the `attach`
 * operation that fills it (venusian/__init__.py:246-282).
 */
module Registry {
  import opened World

  /** A category key: `None` (the default) or a string label. */
  datatype Category = Uncategorized | Named(key: string)

  /** The dict part of `Categories`: category -> callbacks, in insertion order. */
  type Entries = seq<(Category, seq<CallbackId>)>

  /** `Categories`: its `attached_id` and its dict entries. */
  datatype Categories = Categories(attachedId: Option<ObjId>, entries: Entries)

  /** `Categories(attached_to)`, lines 247-252: empty, owned by `id(attached_to)` or by nobody. */
  function NewCategories(owner: Option<ObjId>): (c: Categories)
    ensures c.entries == [] && c.attachedId == owner
    ensures Keys(c.entries) == [] && forall k :: Get(c.entries, k) == []
    ensures forall x :: AttachedTo(c, x) <==> owner.None? || owner.value == 0 || owner.value == x
  {
    Categories(owner, [])
  }

  /**
   * `attached_to(obj)`, lines 254-257. `attached_id` is tested for
   * truthiness, so an id of 0 behaves like `None`.
   */
  predicate AttachedTo(c: Categories, ob: ObjId) {
    if c.attachedId.Some? && c.attachedId.value != 0 then c.attachedId.value == ob else true
  }

  /** An owned registry belongs to its owner alone; an unowned one to everybody. */
  lemma AttachedToOwnerOnly(c: Categories, ob: ObjId)
    ensures c.attachedId == None ==> AttachedTo(c, ob)
    ensures c.attachedId.Some? && c.attachedId.value != 0 ==> (AttachedTo(c, ob) <==> ob == c.attachedId.value)
    ensures AttachedTo(NewCategories(Some(ob)), ob)
  {
  }

  /** `list(categories.keys())`. */
  function Keys(e: Entries): (ks: seq<Category>)
    ensures |ks| == |e|
    ensures forall i :: 0 <= i < |e| ==> ks[i] == e[i].0
  {
    if e == [] then [] else [e[0].0] + Keys(e[1..])
  }

  /** A dict has each key once. */
  predicate DistinctKeys(e: Entries) {
    forall i, j :: 0 <= i < j < |e| ==> e[i].0 != e[j].0
  }

  /** `categories.get(category, [])`. */
  function Get(e: Entries, cat: Category): (cbs: seq<CallbackId>)
    ensures cat !in Keys(e) ==> cbs == []

  {
    if e == [] then []
    else if e[0].0 == cat then e[0].1
    else Get(e[1..], cat)
  }

  /** How `Keys` and `Get` see a dict given as its first entry and the rest. */
  lemma Unfold(x: (Category, seq<CallbackId>), rest: Entries)
    ensures Keys([x] + rest) == [x.0] + Keys(rest)
    ensures forall k :: Get([x] + rest, k) == if x.0 == k then x.1 else Get(rest, k)
  {
    assert ([x] + rest)[1..] == rest;
  }

  /** A dict given as its first entry and the rest has distinct keys iff the rest does and lacks the first key. */
  lemma DistinctCons(x: (Category, seq<CallbackId>), rest: Entries)
    ensures DistinctKeys([x] + rest) <==> x.0 !in Keys(rest) && DistinctKeys(rest)
  {
    var e := [x] + rest;
    if DistinctKeys(e) {
      DistinctTail(x, rest);
    }
    if x.0 !in Keys(rest) && DistinctKeys(rest) {
      forall i, j | 0 <= i < j < |e|
        ensures e[i].0 != e[j].0
      {
        if i == 0 {
          assert Keys(rest)[j - 1] == e[j].0;
        } else {
          assert e[i] == rest[i - 1] && e[j] == rest[j - 1];
        }
      }
    }
  }

  lemma DistinctTail(x: (Category, seq<CallbackId>), rest: Entries)
    requires DistinctKeys([x] + rest)
    ensures x.0 !in Keys(rest) && DistinctKeys(rest)
  {
    var e := [x] + rest;
    forall i, j | 0 <= i < j < |rest|
      ensures rest[i].0 != rest[j].0
    {
      assert e[i + 1] == rest[i] && e[j + 1] == rest[j];
    }
    forall i | 0 <= i < |rest|
      ensures Keys(rest)[i] != x.0
    {
      assert e[0] == x && e[i + 1] == rest[i];
      assert e[0].0 != e[i + 1].0;
    }
  }

  /** `get` finds the list of the first entry with the key. */
  lemma {:induction false} GetFindsFirst(e: Entries, cat: Category, i: nat)
    requires i < |e| && e[i].0 == cat
    requires forall j :: 0 <= j < i ==> e[j].0 != cat
    ensures Get(e, cat) == e[i].1
  {
    if i > 0 {
      assert e[0].0 != cat;
      GetFindsFirst(e[1..], cat, i - 1);
    }
  }

  /**
   * `categories.setdefault(category, []).append(callback)`: the callback
   * goes to the end of its category's list, and a new key is added last.
   */
  function AppendCallback(e: Entries, cat: Category, cb: CallbackId): Entries {
    if e == [] then [(cat, [cb])]
    else if e[0].0 == cat then [(cat, e[0].1 + [cb])] + e[1..]
    else [e[0]] + AppendCallback(e[1..], cat, cb)
  }

  /** After the append, the category's list ends with `cb`; every other category keeps its list. */
  lemma {:induction false} AppendCallbackLists(e: Entries, cat: Category, cb: CallbackId)
    ensures Get(AppendCallback(e, cat, cb), cat) == Get(e, cat) + [cb]
    ensures forall k :: k != cat ==> Get(AppendCallback(e, cat, cb), k) == Get(e, k)
  {
    if e == [] {
      Unfold((cat, [cb]), []);
    } else {
      var x, tail := e[0], e[1..];
      assert e == [x] + tail;
      Unfold(x, tail);
      if x.0 == cat {
        Unfold((cat, x.1 + [cb]), tail);
      } else {
        AppendCallbackLists(tail, cat, cb);
        Unfold(x, AppendCallback(tail, cat, cb));
      }
    }
  }

  /** The append keeps the existing keys in order and adds a new one last. */
  lemma {:induction false} AppendCallbackKeys(e: Entries, cat: Category, cb: CallbackId)
    ensures Keys(AppendCallback(e, cat, cb)) == if cat in Keys(e) then Keys(e) else Keys(e) + [cat]
  {
    if e == [] {
      Unfold((cat, [cb]), []);
    } else {
      var x, tail := e[0], e[1..];
      assert e == [x] + tail;
      Unfold(x, tail);
      if x.0 == cat {
        Unfold((cat, x.1 + [cb]), tail);
      } else {
        AppendCallbackKeys(tail, cat, cb);
        Unfold(x, AppendCallback(tail, cat, cb));
        if cat !in Keys(tail) {
          assert [x.0] + (Keys(tail) + [cat]) == Keys(e) + [cat];
        }
      }
    }
  }

  /** The append keeps the keys of a dict distinct. */
  lemma {:induction false} AppendCallbackDistinct(e: Entries, cat: Category, cb: CallbackId)
    requires DistinctKeys(e)
    ensures DistinctKeys(AppendCallback(e, cat, cb))
  {
    if e == [] {
      DistinctCons((cat, [cb]), []);
    } else {
      var x, tail := e[0], e[1..];
      assert e == [x] + tail;
      DistinctCons(x, tail);
      if x.0 == cat {
        Unfold(x, tail);
        DistinctCons((cat, x.1 + [cb]), tail);
      } else {
        AppendCallbackDistinct(tail, cat, cb);
        AppendCallbackKeys(tail, cat, cb);
        DistinctCons(x, AppendCallback(tail, cat, cb));
      }
    }
  }

  /** Where the frame probe says `attach` is running. */
  datatype Scope = ClassBody(frame: FrameId) | ModuleScope | FunctionCall | Exec | UnknownScope

  /** What `attach` returns; the frame details of `AttachInfo` are not modelled. */
  datatype AttachInfo = AttachInfo(scope: Scope, category: Category)

  /**
   * The object on whose own attributes `getattr(ob, ATTACH_ATTR, None)`
   * finds a registry: `ob` itself, else the first of its bases (in lookup
   * order) that has one.
   */
  function FindHolder(own: map<ObjId, Categories>, lookup: seq<ObjId>): (h: Option<ObjId>)
    ensures h.Some? ==> h.value in own && h.value in lookup
    ensures |lookup| > 0 && lookup[0] in own ==> h == Some(lookup[0])
    ensures h.None? <==> forall o :: o in lookup ==> o !in own
  {
    if lookup == [] then None
    else if lookup[0] in own then Some(lookup[0])
    else FindHolder(own, lookup[1..])
  }

  /**
   * `getattr(ob, ATTACH_ATTR, None)` along `ob`'s lookup order: the own
   * registry of the first object in it that has one, or nothing.
   */
  function Lookup(own: map<ObjId, Categories>, lookup: seq<ObjId>): (r: Option<Categories>)
    ensures |lookup| > 0 && lookup[0] in own ==> r == Some(own[lookup[0]])
    ensures r.None? <==> forall o :: o in lookup ==> o !in own
    ensures r.Some? ==> exists i: nat :: FirstHolder(own, lookup, i) && r == Some(own[lookup[i]])
  {
    var h := FindHolder(own, lookup);
    FindHolderIsFirst(own, lookup);
    if h.Some? then Some(own[h.value]) else None
  }

  /** The holder is the first object of the lookup order that has an own registry. */
  predicate FirstHolder(own: map<ObjId, Categories>, lookup: seq<ObjId>, i: nat) {
    i < |lookup| && lookup[i] in own && forall j :: 0 <= j < i ==> lookup[j] !in own
  }

  lemma {:induction false} FindHolderIsFirst(own: map<ObjId, Categories>, lookup: seq<ObjId>)
    ensures var h := FindHolder(own, lookup);
            h.Some? ==> exists i: nat :: FirstHolder(own, lookup, i) && lookup[i] == h.value
  {
    if lookup != [] && lookup[0] !in own {
      var h := FindHolder(own, lookup[1..]);
      FindHolderIsFirst(own, lookup[1..]);
      if h.Some? {
        var i: nat :| FirstHolder(own, lookup[1..], i) && lookup[1..][i] == h.value;
        assert FirstHolder(own, lookup, i + 1);
      }
    } else if lookup != [] {
      assert FirstHolder(own, lookup, 0);
    }
  }

  /**
   * Lines 272-279, `attach` outside a class body, on the own-attribute
   * table: reuse the registry `getattr` finds when it is attached to
   * `wrapped` (appending in place, wherever it lives); otherwise store a
   * fresh registry owned by `wrapped` on `wrapped` itself.
   */
  function AttachOutsideClass(own: map<ObjId, Categories>, lookup: seq<ObjId>,
                              wrapped: ObjId, cb: CallbackId, cat: Category): (r: map<ObjId, Categories>)
    ensures var h := FindHolder(own, lookup);
      if h.Some? && AttachedTo(own[h.value], wrapped) then
        r.Keys == own.Keys
        && r[h.value].attachedId == own[h.value].attachedId
        && Get(r[h.value].entries, cat) == Get(own[h.value].entries, cat) + [cb]
        && (forall k :: k != cat ==> Get(r[h.value].entries, k) == Get(own[h.value].entries, k))
        && (forall o :: o in own && o != h.value ==> r[o] == own[o])
      else
        r.Keys == own.Keys + {wrapped}
        && r[wrapped].attachedId == Some(wrapped)
        && Get(r[wrapped].entries, cat) == [cb]
        && (forall k :: k != cat ==> Get(r[wrapped].entries, k) == [])
        && (forall o :: o in own && o != wrapped ==> r[o] == own[o])
  {
    var h := FindHolder(own, lookup);
    if h.Some? && AttachedTo(own[h.value], wrapped) then
      var c := own[h.value];
      AppendCallbackLists(c.entries, cat, cb);
      own[h.value := c.(entries := AppendCallback(c.entries, cat, cb))]
    else
      var c := NewCategories(Some(wrapped));
      AppendCallbackLists(c.entries, cat, cb);
      own[wrapped := c.(entries := AppendCallback(c.entries, cat, cb))]
  }

  /**
   * Lines 266-270, `attach` inside a class body: the pending locals get an
   * unowned registry by `setdefault` (an existing one is kept) and the
   * callback is appended to it.
   */
  function AttachInClass(pending: map<FrameId, Categories>, frame: FrameId,
                         cb: CallbackId, cat: Category): (r: map<FrameId, Categories>)
    ensures r.Keys == pending.Keys + {frame}
    ensures frame in pending ==> r[frame].attachedId == pending[frame].attachedId
                                 && Get(r[frame].entries, cat) == Get(pending[frame].entries, cat) + [cb]
    ensures frame !in pending ==> r[frame].attachedId == None && Get(r[frame].entries, cat) == [cb]
    ensures forall k :: k != cat ==> Get(r[frame].entries, k) == (if frame in pending then Get(pending[frame].entries, k) else [])
    ensures forall f :: f in pending && f != frame ==> r[f] == pending[f]
  {
    var c := if frame in pending then pending[frame] else NewCategories(None);
    AppendCallbackLists(c.entries, cat, cb);
    pending[frame := c.(entries := AppendCallback(c.entries, cat, cb))]
  }

  /** Each registry of the table has each category once. */
  predicate AllDicts<K>(m: map<K, Categories>) {
    forall k :: k in m ==> DistinctKeys(m[k].entries)
  }

  /** `attach` outside a class body keeps every registry a dict. */
  lemma AttachOutsideClassKeepsDicts(own: map<ObjId, Categories>, lookup: seq<ObjId>,
                                     wrapped: ObjId, cb: CallbackId, cat: Category)
    requires AllDicts(own)
    ensures AllDicts(AttachOutsideClass(own, lookup, wrapped, cb, cat))
  {
    var h := FindHolder(own, lookup);
    var c := if h.Some? && AttachedTo(own[h.value], wrapped) then own[h.value] else NewCategories(Some(wrapped));
    AppendCallbackDistinct(c.entries, cat, cb);
  }

  /** `attach` in a class body keeps every pending registry a dict. */
  lemma AttachInClassKeepsDicts(pending: map<FrameId, Categories>, frame: FrameId, cb: CallbackId, cat: Category)
    requires AllDicts(pending)
    ensures AllDicts(AttachInClass(pending, frame, cb, cat))
  {
    var c := if frame in pending then pending[frame] else NewCategories(None);
    AppendCallbackDistinct(c.entries, cat, cb);
  }

  /**
   * The attribute state `attach` works on: each object's own
   * `__venusian_callbacks__`, the order in which `getattr` searches an
   * object's bases, and the `__venusian_callbacks__` slot of the locals of
   * each class body being executed.
   */
  class ObjectSpace {
    var own: map<ObjId, Categories>
    const bases: map<ObjId, seq<ObjId>>
    var pending: map<FrameId, Categories>

    constructor (bases: map<ObjId, seq<ObjId>>)
      ensures this.bases == bases && own == map[] && pending == map[]
      ensures Valid()
    {
      this.bases := bases;
      own := map[];
      pending := map[];
    }

    /** The objects `getattr(ob, ...)` looks at, in order. */
    function LookupOrder(ob: ObjId): (order: seq<ObjId>)
      ensures |order| > 0 && order[0] == ob
    {
      [ob] + (if ob in bases then bases[ob] else [])
    }

    /** Every registry is a dict: each category appears once in it. */
    ghost predicate Valid()
      reads this
    {
      AllDicts(own) && AllDicts(pending)
    }

    /** `attach(wrapped, callback, category)` run in the given scope. */
    method Attach(wrapped: ObjId, callback: CallbackId, category: Category, scope: Scope)
      returns (info: AttachInfo)
      requires Valid()
      modifies this
      ensures Valid()
      ensures info == AttachInfo(scope, category)
      ensures scope.ClassBody? ==>
        own == old(own) && pending == AttachInClass(old(pending), scope.frame, callback, category)
      ensures !scope.ClassBody? ==>
        pending == old(pending) && own == AttachOutsideClass(old(own), LookupOrder(wrapped), wrapped, callback, category)
    {
      if scope.ClassBody? {
        ghost var expected := AttachInClass(pending, scope.frame, callback, category);
        var categories := if scope.frame in pending then pending[scope.frame] else NewCategories(None);
        pending := pending[scope.frame := categories];
        categories := categories.(entries := AppendCallback(categories.entries, category, callback));
        pending := pending[scope.frame := categories];
        assert pending == expected;
        AttachInClassKeepsDicts(old(pending), scope.frame, callback, category);
      } else {
        ghost var expected := AttachOutsideClass(own, LookupOrder(wrapped), wrapped, callback, category);
        var holder := FindHolder(own, LookupOrder(wrapped));
        var categories;
        if holder.None? || !AttachedTo(own[holder.value], wrapped) {
          // none found, or found by inheritance: a fresh registry on `wrapped`
          categories := NewCategories(Some(wrapped));
          holder := Some(wrapped);
        } else {
          categories := own[holder.value];
        }
        own := own[holder.value := categories.(entries := AppendCallback(categories.entries, category, callback))];
        assert own == expected;
        AttachOutsideClassKeepsDicts(old(own), LookupOrder(wrapped), wrapped, callback, category);
      }
      info := AttachInfo(scope, category);
    }
  }

  /**
   * After `attach` outside a class body, `getattr(wrapped, ATTACH_ATTR)`
   * yields a registry that is attached to `wrapped` and whose list for the
   * category ends with the new callback.
   */
  lemma AttachedRegistryIsReadBack(own: map<ObjId, Categories>, lookup: seq<ObjId>,
                                   wrapped: ObjId, cb: CallbackId, cat: Category)
    requires |lookup| > 0 && lookup[0] == wrapped
    ensures var r := Lookup(AttachOutsideClass(own, lookup, wrapped, cb, cat), lookup);
            r.Some? && AttachedTo(r.value, wrapped)
            && |Get(r.value.entries, cat)| > 0 && Get(r.value.entries, cat)[|Get(r.value.entries, cat)| - 1] == cb
  {
    var r := AttachOutsideClass(own, lookup, wrapped, cb, cat);
    var h := FindHolder(own, lookup);
    if h.Some? && AttachedTo(own[h.value], wrapped) {
      var h' := FindHolder(r, lookup);
      assert h' == h by {
        FindHolderSameKeys(own, r, lookup);
      }
    } else {
      assert wrapped in r;
    }
  }

  lemma {:induction false} FindHolderSameKeys(own: map<ObjId, Categories>, own': map<ObjId, Categories>, lookup: seq<ObjId>)
    requires own.Keys == own'.Keys
    ensures FindHolder(own, lookup) == FindHolder(own', lookup)
  {
    if lookup != [] {
      FindHolderSameKeys(own, own', lookup[1..]);
    }
  }

  /**
   * Decorating an object that only inherits a registry owned by a base
   * leaves the base's registry as it was: the new callback lands in a
   * fresh registry on the object itself.
   */
  lemma InheritedOwnedRegistryUntouched(own: map<ObjId, Categories>, wrapped: ObjId, base: ObjId,
                                        cb: CallbackId, cat: Category)
    requires wrapped !in own && base in own
    requires own[base].attachedId == Some(base) && base != 0 && base != wrapped
    ensures var r := AttachOutsideClass(own, [wrapped, base], wrapped, cb, cat);
            r[base] == own[base] && r[wrapped].attachedId == Some(wrapped)
  {
    assert FindHolder(own, [wrapped, base]) == Some(base) by {
      assert [wrapped, base][1..] == [base];
    }
  }

  /**
   * As written, an unowned registry (one made in a class body) is attached
   * to everything, so decorating a subclass that inherits it appends the
   * callback to the base's registry instead of creating a new one.
   */
  lemma InheritedUnownedRegistryIsShared(own: map<ObjId, Categories>, wrapped: ObjId, base: ObjId,
                                         cb: CallbackId, cat: Category)
    requires wrapped !in own && base in own && base != wrapped
    requires own[base].attachedId == None
    ensures var r := AttachOutsideClass(own, [wrapped, base], wrapped, cb, cat);
            wrapped !in r && Get(r[base].entries, cat) == Get(own[base].entries, cat) + [cb]
  {
    assert FindHolder(own, [wrapped, base]) == Some(base) by {
      assert [wrapped, base][1..] == [base];
    }
  }
}
