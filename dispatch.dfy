/**
 * Category dispatch inside `invoke` (venusian/__init__.py:161-167): the
 * choice of category keys, the `sort()` of a registry's own keys, and the
 * calls `callback(self, name, ob)` in category and list order.
 */
module CategoryDispatch {
  import opened World
  import opened Strings
  import opened Registry

  /** `a <= b` for category keys; only string keys can be ordered against each other. */
  predicate KeyLeq(a: Category, b: Category) {
    a.Named? && b.Named? && LexLeq(a.key, b.key)
  }

  /** Keys in ascending order. */
  predicate SortedKeys(ks: seq<Category>) {
    forall i, j :: 0 <= i < j < |ks| ==> KeyLeq(ks[i], ks[j])
  }

  predicate AllNamed(ks: seq<Category>) {
    forall k :: k in ks ==> k.Named?
  }

  /**
   * `category_keys.sort()` on the registry's keys (lines 161-163). Python 3
   * cannot compare `None` with a string, so a key list holding `None`
   * beside any other key raises `TypeError`; otherwise the result is the
   * keys in ascending order.
   */
  function SortKeys(ks: seq<Category>): (r: Option<seq<Category>>)
    ensures r.None? <==> |ks| >= 2 && Uncategorized in ks
    ensures r.Some? ==> SortedKeys(r.value) && multiset(r.value) == multiset(ks)
  {
    if |ks| >= 2 && Uncategorized in ks then None
    else if |ks| < 2 then Some(ks)
    else
      SortNamedSorts(ks);
      Some(SortNamed(ks))
  }

  /** Insertion sort of string keys. */
  function SortNamed(ks: seq<Category>): seq<Category> {
    if ks == [] then [] else Insert(ks[0], SortNamed(ks[1..]))
  }

  function Insert(x: Category, s: seq<Category>): seq<Category> {
    if s == [] then [x]
    else if x.Named? && s[0].Named? && LexLeq(x.key, s[0].key) then [x] + s
    else [s[0]] + Insert(x, s[1..])
  }

  lemma {:induction false} SortNamedSorts(ks: seq<Category>)
    requires AllNamed(ks)
    ensures var r := SortNamed(ks);
            SortedKeys(r) && multiset(r) == multiset(ks) && AllNamed(r)
  {
    if ks != [] {
      assert ks == [ks[0]] + ks[1..];
      SortNamedSorts(ks[1..]);
      InsertKeepsOrder(ks[0], SortNamed(ks[1..]));
    }
  }

  lemma {:induction false} InsertKeepsOrder(x: Category, s: seq<Category>)
    requires x.Named? && AllNamed(s) && SortedKeys(s)
    ensures var r := Insert(x, s);
            SortedKeys(r) && multiset(r) == multiset(s) + multiset{x} && AllNamed(r)
  {
    if s == [] {
    } else if LexLeq(x.key, s[0].key) {
      forall k | k in s
        ensures KeyLeq(x, k)
      {
        var j :| 0 <= j < |s| && s[j] == k;
        if j > 0 {
          assert KeyLeq(s[0], s[j]);
          LexLeqTrans(x.key, s[0].key, k.key);
        }
      }
      SortedCons(x, s);
    } else {
      LexLeqTotal(x.key, s[0].key);
      var tail := s[1..];
      assert s == [s[0]] + tail;
      SortedTail(s);
      InsertKeepsOrder(x, tail);
      var rest := Insert(x, tail);
      forall k | k in rest
        ensures KeyLeq(s[0], k)
      {
        assert k in multiset(rest);
        if k != x {
          assert k in multiset(tail);
          var m :| 0 <= m < |tail| && tail[m] == k;
          assert KeyLeq(s[0], s[m + 1]);
        }
      }
      SortedCons(s[0], rest);
    }
  }

  /** The tail of an ascending list is ascending. */
  lemma SortedTail(s: seq<Category>)
    requires s != [] && SortedKeys(s)
    ensures SortedKeys(s[1..])
  {
    var tail := s[1..];
    forall i, j | 0 <= i < j < |tail|
      ensures KeyLeq(tail[i], tail[j])
    {
      assert KeyLeq(s[i + 1], s[j + 1]);
    }
  }

  /** A key no greater than any key of an ascending list can go in front of it. */
  lemma SortedCons(y: Category, rest: seq<Category>)
    requires y.Named? && AllNamed(rest) && SortedKeys(rest)
    requires forall k :: k in rest ==> KeyLeq(y, k)
    ensures SortedKeys([y] + rest) && AllNamed([y] + rest)
  {
    var r := [y] + rest;
    forall i, j | 0 <= i < j < |r|
      ensures KeyLeq(r[i], r[j])
    {
      assert r[j] == rest[j - 1];
      if i > 0 {
        assert r[i] == rest[i - 1];
      }
    }
  }

  /**
   * The callbacks of one category called in list order as
   * `callback(self, name, ob)` (lines 165-167), up to and including the
   * first one that raises.
   */
  function CallEach(cbs: seq<CallbackId>, name: string, ob: ObjId,
                    fails: (CallbackId, string, ObjId) -> bool): (r: Outcome<Event>)
    ensures |r.events| <= |cbs|
    ensures forall i :: 0 <= i < |r.events| ==> r.events[i] == Called(cbs[i], name, ob)
    ensures r.raised.Some? ==> 0 < |r.events| && r.raised == Some(CallbackFailed(cbs[|r.events| - 1], name, ob))
  {
    if cbs == [] then Done([])
    else if fails(cbs[0], name, ob) then Outcome([Called(cbs[0], name, ob)], Some(CallbackFailed(cbs[0], name, ob)))
    else
      var rest := CallEach(cbs[1..], name, ob, fails);
      assert forall i :: 1 <= i < |cbs| ==> cbs[i] == cbs[1..][i - 1];
      Outcome([Called(cbs[0], name, ob)] + rest.events, rest.raised)
  }

  /**
   * The calls stop exactly at the first callback that raises: there is a
   * raise iff some callback raises, it comes from the first such, and
   * without one every callback is called.
   */
  lemma {:induction false} CallEachStopsAtFirstFailure(cbs: seq<CallbackId>, name: string, ob: ObjId,
                                                       fails: (CallbackId, string, ObjId) -> bool)
    ensures var r := CallEach(cbs, name, ob, fails);
            && (r.raised.None? <==> forall i :: 0 <= i < |cbs| ==> !fails(cbs[i], name, ob))
            && (r.raised.None? ==> |r.events| == |cbs|)
            && (r.raised.Some? ==> fails(cbs[|r.events| - 1], name, ob)
                                   && forall i :: 0 <= i < |r.events| - 1 ==> !fails(cbs[i], name, ob))
  {
    if cbs != [] && !fails(cbs[0], name, ob) {
      var tail := cbs[1..];
      CallEachStopsAtFirstFailure(tail, name, ob, fails);
      var rest := CallEach(tail, name, ob, fails);
      var r := CallEach(cbs, name, ob, fails);
      assert r.events == [Called(cbs[0], name, ob)] + rest.events && r.raised == rest.raised;
      if rest.raised.None? {
        forall i | 0 <= i < |cbs|
          ensures !fails(cbs[i], name, ob)
        {
          if i > 0 {
            assert cbs[i] == tail[i - 1];
          }
        }
      } else {
        assert cbs[|r.events| - 1] == tail[|rest.events| - 1];
        forall i | 0 <= i < |r.events| - 1
          ensures !fails(cbs[i], name, ob)
        {
          if i > 0 {
            assert cbs[i] == tail[i - 1];
          }
        }
        var j :| 0 <= j < |tail| && fails(tail[j], name, ob);
        assert cbs[j + 1] == tail[j];
      }
    }
  }

  /**
   * Lines 163-167: each category key in turn, its callbacks
   * `attached_categories.get(category, [])` in order; a key the registry
   * does not hold contributes nothing.
   */
  function DispatchSpec(keys: seq<Category>, entries: Entries, name: string, ob: ObjId,
                        fails: (CallbackId, string, ObjId) -> bool): (r: Outcome<Event>)
    ensures forall e :: e in r.events ==> e.Called? && e.name == name && e.obj == ob
    ensures r.raised.Some? ==> r.raised.value.CallbackFailed?
    ensures (forall k :: k in keys ==> k !in Keys(entries)) ==> r == Done([])
  {
    if keys == [] then Done([])
    else
      var first := CallEach(Get(entries, keys[0]), name, ob, fails);
      Then(first, DispatchSpec(keys[1..], entries, name, ob, fails))
  }

  /** Visiting `k1` then `k2` is visiting `k1 + k2`. */
  lemma {:induction false} DispatchConcat(k1: seq<Category>, k2: seq<Category>, entries: Entries, name: string,
                                          ob: ObjId, fails: (CallbackId, string, ObjId) -> bool)
    ensures DispatchSpec(k1 + k2, entries, name, ob, fails)
            == Then(DispatchSpec(k1, entries, name, ob, fails), DispatchSpec(k2, entries, name, ob, fails))
  {
    if k1 == [] {
      assert k1 + k2 == k2;
    } else {
      assert (k1 + k2)[1..] == k1[1..] + k2;
      DispatchConcat(k1[1..], k2, entries, name, ob, fails);
      ThenAssoc(CallEach(Get(entries, k1[0]), name, ob, fails),
                DispatchSpec(k1[1..], entries, name, ob, fails),
                DispatchSpec(k2, entries, name, ob, fails));
    }
  }

  /**
   * When no callback raises, dispatch makes every call of every visited
   * category: for a single category exactly its list, in order.
   */
  lemma DispatchOneCategory(cat: Category, entries: Entries, name: string, ob: ObjId,
                            fails: (CallbackId, string, ObjId) -> bool)
    requires forall i :: 0 <= i < |Get(entries, cat)| ==> !fails(Get(entries, cat)[i], name, ob)
    ensures var r := DispatchSpec([cat], entries, name, ob, fails);
            r.raised.None? && |r.events| == |Get(entries, cat)|
            && forall i :: 0 <= i < |r.events| ==> r.events[i] == Called(Get(entries, cat)[i], name, ob)
  {
    var first := CallEach(Get(entries, cat), name, ob, fails);
    CallEachStopsAtFirstFailure(Get(entries, cat), name, ob, fails);
    assert [cat][1..] == [];
    assert DispatchSpec([cat], entries, name, ob, fails) == Then(first, Done([]));
    assert first.events + [] == first.events;
  }

  /** One call of each callback of the list, in list order. */
  function Calls(cbs: seq<CallbackId>, name: string, ob: ObjId): seq<Event> {
    seq(|cbs|, i requires 0 <= i < |cbs| => Called(cbs[i], name, ob))
  }

  /** The calls of every callback of each key in turn, in key order and then list order. */
  function AllCalls(keys: seq<Category>, entries: Entries, name: string, ob: ObjId): seq<Event> {
    if keys == [] then [] else Calls(Get(entries, keys[0]), name, ob) + AllCalls(keys[1..], entries, name, ob)
  }

  /**
   * When no callback raises, dispatch calls every callback of every key
   * exactly once: the keys in the given order, each key's list in order.
   */
  lemma {:induction false} DispatchAllSucceed(keys: seq<Category>, entries: Entries, name: string, ob: ObjId,
                                              fails: (CallbackId, string, ObjId) -> bool)
    requires forall c :: !fails(c, name, ob)
    ensures DispatchSpec(keys, entries, name, ob, fails) == Done(AllCalls(keys, entries, name, ob))
  {
    if keys != [] {
      var cbs := Get(entries, keys[0]);
      var first := CallEach(cbs, name, ob, fails);
      CallEachStopsAtFirstFailure(cbs, name, ob, fails);
      assert first.events == Calls(cbs, name, ob);
      DispatchAllSucceed(keys[1..], entries, name, ob, fails);
    }
  }

  /** The inner loop of lines 165-167: one category's callbacks, stopping at the first that raises. */
  method CallAll(cbs: seq<CallbackId>, name: string, ob: ObjId,
                 fails: (CallbackId, string, ObjId) -> bool) returns (out: Outcome<Event>)
    ensures out == CallEach(cbs, name, ob, fails)
  {
    var events: seq<Event> := [];
    var j := 0;
    while j < |cbs|
      invariant 0 <= j <= |cbs|
      invariant CallEach(cbs, name, ob, fails) == Then(Done(events), CallEach(cbs[j..], name, ob, fails))
    {
      var cb := cbs[j];
      assert cbs[j..][1..] == cbs[j + 1..];
      if fails(cb, name, ob) {
        return Outcome(events + [Called(cb, name, ob)], Some(CallbackFailed(cb, name, ob)));
      }
      ThenDone(events, [Called(cb, name, ob)], CallEach(cbs[j + 1..], name, ob, fails));
      events := events + [Called(cb, name, ob)];
      j := j + 1;
    }
    assert cbs[j..] == [] && events + [] == events;
    return Done(events);
  }

  /** The outer loop of lines 163-167, over the category keys. */
  method Dispatch(keys: seq<Category>, entries: Entries, name: string, ob: ObjId,
                  fails: (CallbackId, string, ObjId) -> bool) returns (out: Outcome<Event>)
    ensures out == DispatchSpec(keys, entries, name, ob, fails)
  {
    var events: seq<Event> := [];
    var i := 0;
    while i < |keys|
      invariant 0 <= i <= |keys|
      invariant DispatchSpec(keys, entries, name, ob, fails)
                == Then(Done(events), DispatchSpec(keys[i..], entries, name, ob, fails))
    {
      assert keys[i..][1..] == keys[i + 1..];
      var callbacks := Get(entries, keys[i]);
      var o := CallAll(callbacks, name, ob, fails);
      if o.raised.Some? {
        return Outcome(events + o.events, o.raised);
      }
      ThenDone(events, o.events, DispatchSpec(keys[i + 1..], entries, name, ob, fails));
      events := events + o.events;
      i := i + 1;
    }
    assert keys[i..] == [] && events + [] == events;
    return Done(events);
  }
}
