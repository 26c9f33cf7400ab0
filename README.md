# venusian: deferred registration, modelled in Dafny

venusian lets a decorator record a callback on the object it decorates
without running anything. `attach` stores the callback in a per-object
registry, a `Categories` dict that maps each category to its callback
list and records which object owns it. Later, `Scanner.scan(package)`
walks the package and hands every object it finds to `invoke`. `invoke`
does four things:

- it skips objects it has already seen and names that `ignore` matches;
- it reads the object's registry;
- it checks that the registry is attached to the object (an unowned registry is attached to every object);
- it calls `callback(scanner, name, ob)` for each category and each callback.

Submodules are found by `walk_packages`. This is a recursive generator. It
skips ignored names, imports each package before yielding it and
descending into it, never visits the same path entry twice within one
call, and routes import failures through `onerror`.

The model covers `venusian/__init__.py`. It has seven modules:

- `World` (world.dfy) holds the given world:
  - a package tree whose entries have a name, a package flag, an import outcome and a member list;
  - objects as ids;
  - callbacks as ids;
  - `onerror` as a datatype that says only whether it raises.

  It also defines an `Outcome`: a trace of events plus the exception that ended the run, if any.
- `Strings` (strings.dfy) holds `startswith` and the ordering of `str`.
- `IgnoreMatcher` (ignore.dfy) models the normalisation of `ignore` and the `_ignore` predicate.
- `Registry` (registry.dfy) models `Categories`, `attached_to` and `attach`. An `ObjectSpace` class holds the registries that `setattr` stores on objects and those pending in class bodies.
- `Walker` (walker.dfy) models `walk_packages`. The generator is written out as the full sequence of its steps: package imports, `onerror` calls and yields.
- `CategoryDispatch` (dispatch.dfy) models the key sort and the callback loops of `invoke`.
- `Scanner` (scanner.dfy) models `invoke` and `scan`. The scan consumes the walk's steps in order, so its own work interleaves with the generator's imports exactly as the lazy generator does.

Each loop and each in-place update of the source is a Dafny method, with
one exception: the in-place `category_keys.sort()` at line 163 is the
function `CategoryDispatch.SortKeys` on a sequence (see "Left out"). Each
such method is proved equal to a specification function. The properties
are proved about those functions.

Four behaviours of the code differ from what venusian's prose
documentation leads one to expect. The model follows the code.

- In `walk_packages`, an `ImportError` from a package with no `onerror` is swallowed (lines 338-340). `scan` passes its `onerror` through unchanged (line 177). So with the default `onerror=None`, a subpackage failing with `ImportError` is skipped silently, not re-raised. Any other exception from a subpackage import still propagates (lines 341-345), and a failing plain module, imported by `scan` itself, re-raises (lines 190-196). `Walker.WalkErrors` states this.
- The recursive call at line 353 forwards `onerror` but not `ignore`. So only the top level of the walk is pruned, and a nested ignored module is still imported and yielded. `invoke` still filters its members by name. `Walker.NestedIgnoreNotForwarded` shows a concrete case.
- A registry created in a class body is unowned: its `attached_id` is `None` (lines 249-250, 268). `attached_to` holds for every object when `attached_id` is `None` or `0`. So a subclass shares that registry, and `attach` on the subclass appends to the base's registry. `Registry.InheritedUnownedRegistryIsShared` states this.
- The documentation of `ignore` (lines 78-82) says a callable does not ignore submodules of the names it accepts. In the walk, however, a callable that accepts a top-level package's name prunes that package's whole subtree (lines 328-331): it is not imported, yielded or descended into. `Walker.WalkPrunesIgnored` states this.

## Model

| member | source | states |
|---|---|---|
| IgnoreMatcher.MatchIgnore | venusian/__init__.py:107-123 | `_ignore(fullname)` is true iff some element of `ignore` matches: a leading-dot string is a prefix of `pkg_name + ign`, another string is a prefix, a callable returns true. When it is true, it returns at the first element that matches |
| IgnoreMatcher.Normalize | venusian/__init__.py:104-108 | definition of the normalisation of `ignore` to a list; properties in `IgnoreMatcher.SingleIsOneElementList` |
| IgnoreMatcher.ItemMatches | venusian/__init__.py:109-122 | definition of one element's test; properties in `IgnoreMatcher.RelativeNameMatches`, `IgnoreMatcher.DottedNameCoversDescendants` and `IgnoreMatcher.CallableMatchesOnlyWhatItSays` |
| IgnoreMatcher.Ignored | venusian/__init__.py:107-123 | definition of `_ignore`; properties in `IgnoreMatcher.MatchIgnore` and `IgnoreMatcher.SingleIsOneElementList` |
| IgnoreMatcher.SingleIsOneElementList | venusian/__init__.py:104-108 | a lone string or callable matches exactly as a one-element list does, and exactly when that item matches; `None` matches nothing |
| IgnoreMatcher.RelativeNameMatches | venusian/__init__.py:111-114 | `.x` matches exactly the names that start with the scanned package's name followed by `.x` |
| IgnoreMatcher.DottedNameCoversDescendants | venusian/__init__.py:110-118 | a string element that matches a name also matches every longer name that starts with it, so ignoring a package name ignores everything below it |
| IgnoreMatcher.CallableMatchesOnlyWhatItSays | venusian/__init__.py:119-122 | a callable matches only the names it accepts: one accepting `n` alone does not match `n.sub` |
| IgnoreMatcher.Compile | venusian/__init__.py:102-106 | definition of `_ignore` built from `package.__name__` and the normalised `ignore`; properties in `IgnoreMatcher.SingleIsOneElementList` |
| Registry.NewCategories | venusian/__init__.py:247-257 | a new registry has no keys and gives `[]` for every category; it is attached to every object when it has no owner or owner id 0, and otherwise exactly to its owner |
| Registry.AttachedTo | venusian/__init__.py:254-257 | definition of `attached_to`; properties in `Registry.AttachedToOwnerOnly` |
| Registry.AttachedToOwnerOnly | venusian/__init__.py:254-257 | `attached_to` holds for every object when `attached_id` is `None`, and with a non-zero id exactly for the owner; a fresh registry is attached to its owner |
| Registry.Keys | venusian/__init__.py:162 | the registry's keys, in insertion order, one per entry |
| Registry.Get | venusian/__init__.py:165 | `get(category, [])` is empty when the key is absent |
| Registry.GetFindsFirst | venusian/__init__.py:165 | `get(category, [])` is the list stored under the category |
| Registry.DistinctCons | venusian/__init__.py:269 | a dict has distinct keys iff its first key does not recur and the rest has distinct keys |
| Registry.AppendCallback | venusian/__init__.py:269-270 | definition of `setdefault(category, []).append(cb)`; properties in `Registry.AppendCallbackLists`, `Registry.AppendCallbackKeys` and `Registry.AppendCallbackDistinct` |
| Registry.AppendCallbackLists | venusian/__init__.py:269-270 | `setdefault(category, []).append(cb)`: that category's list gains `cb` at its end, and every other category's list is unchanged |
| Registry.AppendCallbackKeys | venusian/__init__.py:269 | `setdefault` keeps the existing keys in their order and adds a new key last |
| Registry.AppendCallbackDistinct | venusian/__init__.py:269-270 | the append keeps each key present once |
| Registry.FindHolder | venusian/__init__.py:272 | attribute lookup along the object and its bases: the first one holding a registry, which is the object itself when it holds one; none exactly when no object on the lookup path holds one |
| Registry.AttachOutsideClass | venusian/__init__.py:271-279 | a registry found and attached to `wrapped` gets `cb` appended to the category and nothing else changes; otherwise `wrapped` gets a fresh owned registry holding only `[cb]` under the category, and every other object's registry is unchanged |
| Registry.AttachInClass | venusian/__init__.py:266-270 | in a class body, the frame's pending registry, or a new unowned one, gets `cb` appended to the category; every other frame and category is unchanged |
| Registry.FindHolderIsFirst | venusian/__init__.py:272 | the holder found is the first object of the lookup order that holds a registry |
| Registry.Lookup | venusian/__init__.py:272 | `getattr(ob, ATTACH_ATTR, None)`: the object's own registry when it has one; otherwise the registry of the first object in the lookup order that holds one; nothing exactly when no object on the lookup path holds one |
| Registry.AttachOutsideClassKeepsDicts | venusian/__init__.py:271-279 | `attach` outside a class body keeps each category of each registry present once |
| Registry.AttachInClassKeepsDicts | venusian/__init__.py:266-270 | `attach` in a class body keeps each category of each pending registry present once |
| Registry.ObjectSpace.constructor | venusian/__init__.py:272 | the state before any `attach`: no object holds a registry of its own, so `getattr(ob, ATTACH_ATTR, None)` yields the default `None`, and no class body has a pending one |
| Registry.ObjectSpace.LookupOrder | venusian/__init__.py:272 | the order in which `getattr` looks for `ATTACH_ATTR` starts with the object itself, then its bases; `bases[ob]` stands for the class's method resolution order, which the model takes as given data |
| Registry.ObjectSpace.Attach | venusian/__init__.py:259-282 | `attach` in a class body changes only the pending class-body registries; elsewhere it changes only the objects' registries, as `AttachOutsideClass` says; it keeps every registry a dict and returns the scope and category |
| Registry.AttachedRegistryIsReadBack | venusian/__init__.py:272-279 | after `attach` outside a class body, looking up `wrapped` finds a registry attached to `wrapped` whose list for the category ends with the new callback |
| Registry.FindHolderSameKeys | venusian/__init__.py:272 | the lookup depends only on which objects hold a registry, not on what the registries contain |
| Registry.InheritedOwnedRegistryUntouched | venusian/__init__.py:273-277 | when `wrapped` only inherits a registry owned by its base, `attach` gives `wrapped` a new registry of its own and leaves the base's unchanged |
| Registry.InheritedUnownedRegistryIsShared | venusian/__init__.py:254-257 | when `wrapped` inherits an unowned class-body registry, `attach` appends to that shared registry and `wrapped` gets none of its own |
| Walker.IterModules | venusian/__init__.py:326 | each `(importer, name, ispkg)` comes from an entry of one of the path items, and its name is the prefix followed by the entry's own name; the converse and the order are `Walker.IterModulesComplete` and `Walker.IterModulesAppend` |
| Walker.IterModulesAppend | venusian/__init__.py:326 | listing a concatenation of path lists gives the listing of the first followed by that of the second: the path items are listed in path order, each one's entries in their own order |
| Walker.IterModulesComplete | venusian/__init__.py:326 | nothing is missed: every entry of every path item is listed, under that path item |
| Walker.Ids | venusian/__init__.py:351 | the identities of a path list include the identity of each of its items |
| Walker.FilterUnseen | venusian/__init__.py:351 | the `seen` filter keeps only items of the path, so the recursion descends into nothing else |
| Walker.FilterUnseenIds | venusian/__init__.py:320-323 | the filter keeps exactly the path entries not seen before in this call, each once; afterwards `seen` holds every entry of the path |
| Walker.DropSeenPaths | venusian/__init__.py:351 | the comprehension loop computes `FilterUnseen` |
| Walker.RouteFailure | venusian/__init__.py:336-345 | a package import failure calls `onerror(name)`, once and about that entry, when one is given and raises only if `onerror` raises. Without `onerror`, an `ImportError` is swallowed and any other exception propagates |
| Walker.Walk | venusian/__init__.py:284-356 | definition of `walk_packages`; properties in `Walker.WalkShape`, `Walker.WalkErrors`, `Walker.WalkYieldsParentFirst`, `Walker.WalkPrunesIgnored` and, for the converse direction, `Walker.WalkReports` |
| Walker.WalkFrom | venusian/__init__.py:325-356 | definition of the loop over the listing; properties in `Walker.WalkFromShape`, `Walker.WalkFromErrors`, `Walker.WalkFromParentFirst`, `Walker.WalkFromPrunesIgnored` and `Walker.WalkFromReports` |
| Walker.Visit | venusian/__init__.py:327-356 | definition of one pass of the loop; properties in `Walker.VisitShape`, `Walker.VisitErrors` and `Walker.VisitParentFirst` |
| Walker.WalkPackages | venusian/__init__.py:284-356 | the generator loop produces exactly the steps of the recursive walk, with its own `seen` per call |
| Walker.VisitEntry | venusian/__init__.py:328-354 | one entry of the listing: skipped if ignored; a plain module is yielded; a package is imported, then yielded and walked with prefix `name.`, or routed to the failure policy |
| Walker.UnderStartsWith | venusian/__init__.py:353 | a name at or below a package starts with that package's name |
| Walker.WellFormedAppend | venusian/__init__.py:346-354 | concatenated well-formed step sequences stay well formed |
| Walker.WalkShape | venusian/__init__.py:335-356 | only packages are imported by the walk; a plain module is yielded without import; a yielded package imported successfully, and its import comes just before its yield; every step's name starts with the prefix |
| Walker.VisitShape | venusian/__init__.py:328-356 | every step for one entry names the entry or something below it, and an ignored entry produces no step at all |
| Walker.WalkErrors | venusian/__init__.py:336-345 | without `onerror` the walk calls none and stops only on a non-`ImportError`; with an `onerror` that never raises it never stops; with one that raises, the raise is `onerror`'s own |
| Walker.ParentFirstAppend | venusian/__init__.py:346-354 | the parent-before-child order survives concatenation |
| Walker.BelowYieldedParent | venusian/__init__.py:346-354 | steps that keep that order below a package's name, following the package's import and yield, keep it in the enclosing walk |
| Walker.VisitParentFirst | venusian/__init__.py:327-356 | every step for one listed entry is about that entry, or about an entry of the `__path__` of a package yielded at an earlier step, named below that package |
| Walker.WalkFromParentFirst | venusian/__init__.py:325-356 | the same holds for the loop over the listing from any position |
| Walker.WalkYieldsParentFirst | venusian/__init__.py:346-354 | each step is about an entry the top-level listing names, or about an entry of the `__path__` of a package that an earlier step yielded after a successful import, named below that package. So a package is yielded before anything below it, and nothing below a package whose import failed is visited |
| Walker.ParentFirstRejectsOrphans | venusian/__init__.py:346-354 | that order rejects a grandchild yielded before its parent, and an entry below a package whose import failed |
| Walker.WalkPrunesIgnored | venusian/__init__.py:328-331 | every step lies at or below a top-level entry that `ignore` does not match: an ignored package, whether matched by a string or by a callable, is not imported, yielded or descended into |
| Walker.NestedIgnoreNotForwarded | venusian/__init__.py:353 | with `ignore=["p.a.b"]`, the walk of `p` still yields the nested module `p.a.b`, because the recursive call drops `ignore` |
| Walker.VisitSeen | venusian/__init__.py:346-351 | the call's `seen` set grows only when a kept package imports, and then by exactly the entries of its `__path__` |
| Walker.VisitReports | venusian/__init__.py:333-356 | a loop pass over a kept entry that does not raise does all the entry calls for: a module is yielded; a package that imports is imported, then yielded, then immediately walked with its unseen path items and `ignore=None`, and that walk does not raise; a package that fails is imported and then passed to `onerror` when there is one |
| Walker.WalkFromReports | venusian/__init__.py:325-356 | from any position, when the rest of the loop does not raise, every later listed entry that `ignore` keeps is handled in full as in `Walker.VisitReports`, with the `seen` set the loop has built by then |
| Walker.WalkReports | venusian/__init__.py:284-356 | when `walk_packages` does not raise, every entry `iter_modules` lists (every entry of every path item, by `Walker.IterModulesComplete`) that `ignore` keeps is yielded, or for a package imported and then yielded and walked, or passed to `onerror` |
| CategoryDispatch.SortKeys | venusian/__init__.py:161-163 | sorting the keys raises exactly when `None` is one of two or more keys; otherwise the result is ascending and a permutation of the keys |
| CategoryDispatch.SortNamed | venusian/__init__.py:163 | definition of `sorted` on string keys; properties in `CategoryDispatch.SortNamedSorts` |
| CategoryDispatch.Insert | venusian/__init__.py:163 | definition of one insertion step of the sort; properties in `CategoryDispatch.InsertKeepsOrder` |
| CategoryDispatch.SortNamedSorts | venusian/__init__.py:163 | sorting string keys gives an ascending permutation of them |
| CategoryDispatch.InsertKeepsOrder | venusian/__init__.py:163 | inserting a string key into an ascending list keeps it ascending and adds exactly that key |
| CategoryDispatch.SortedTail | venusian/__init__.py:163 | the tail of an ascending key list is ascending |
| CategoryDispatch.SortedCons | venusian/__init__.py:163 | a key no greater than every key of an ascending list can be put in front of it |
| CategoryDispatch.CallEach | venusian/__init__.py:166-167 | the calls are `callback(self, name, ob)` for a prefix of the list, in list order; an exception escaping is that of the last callback called |
| CategoryDispatch.CallEachStopsAtFirstFailure | venusian/__init__.py:166-167 | the calls stop exactly at the first callback that raises: there is a raise iff some callback raises, every earlier callback did not raise, and without a raise every callback is called |
| CategoryDispatch.DispatchSpec | venusian/__init__.py:164-167 | every call made is for this `name` and `ob`; only a callback's exception escapes; keys absent from the registry produce no calls |
| CategoryDispatch.DispatchConcat | venusian/__init__.py:164-167 | visiting keys `k1 + k2` is visiting `k1` then `k2`, so the caller's keys are visited in the caller's order |
| CategoryDispatch.Calls | venusian/__init__.py:166-167 | definition of one call per callback of a list, in order; properties in `CategoryDispatch.DispatchAllSucceed` |
| CategoryDispatch.AllCalls | venusian/__init__.py:164-167 | definition of those calls for each key in turn; properties in `CategoryDispatch.DispatchAllSucceed` |
| CategoryDispatch.DispatchAllSucceed | venusian/__init__.py:164-167 | when no callback raises, dispatch raises nothing and calls every callback of every key exactly once, keys in the given order and each list in order |
| CategoryDispatch.DispatchOneCategory | venusian/__init__.py:165-167 | when no callback raises, one category produces exactly its callback list, in order |
| CategoryDispatch.CallAll | venusian/__init__.py:166-167 | the inner callback loop computes `CallEach` |
| CategoryDispatch.Dispatch | venusian/__init__.py:164-167 | the category loop computes `DispatchSpec` |
| Scanner.Gate | venusian/__init__.py:156-160 | definition of the registry read and the `attached_to` test; properties in `Scanner.InvokeSpec` and `Scanner.InvokeCallsCategory` |
| Scanner.InvokeAllSpec | venusian/__init__.py:169-173 | definition of the member loop; properties in `Scanner.InvokeAllThreaded` (at most once), `Scanner.InvokeAllReaches` (every first sighting) and `Scanner.InvokeAll` |
| Scanner.ProcessStep | venusian/__init__.py:179-200 | definition of the scan's handling of one walk result; properties in `Scanner.ProcessStepThreaded` and `Scanner.ProcessStepOrigin` |
| Scanner.ProcessSteps | venusian/__init__.py:179-200 | definition of the loop over the walk's results; properties in `Scanner.ProcessStepsThreaded` and `Scanner.ProcessStepsOrigins` |
| Scanner.ScanSpec | venusian/__init__.py:102-200 | definition of `scan`; properties in `Scanner.ScanDispatchesOnce`, `Scanner.RootMembersFirst`, `Scanner.NoHandlerNoOnErrorCall`, `Scanner.ScanImportsOnlyKept` and, for the converse direction, `Scanner.ScanReachesRootMembers`, `Scanner.ScanReachesWalkedMembers` and `Scanner.ScanCallsRootCallbacks` |
| Scanner.Context | venusian/__init__.py:102-106 | definition of what `invoke` consults in one `scan`: `_ignore` compiled from `package.__name__` and `ignore`, with `categories`, the objects' attributes and the failing callbacks as given |
| Scanner.InvokeSpec | venusian/__init__.py:127-167 | `ob` is added to `seen` in every case. An object already seen, an ignored name, or an object with no readable registry attached to it produces nothing. Every call is for this `name` and `ob`. Only a callback's exception or the key sort's `TypeError` escapes |
| Scanner.ScanImportFailure | venusian/__init__.py:190-196 | a failed module import in the scan calls `onerror(modname)` and raises only if `onerror` raises; without `onerror` the import exception propagates |
| Scanner.Invoke | venusian/__init__.py:127-167 | `invoke` computes `InvokeSpec` |
| Scanner.InvokeAll | venusian/__init__.py:169-173 | the member loop computes `InvokeAllSpec`, stopping at the first exception |
| Scanner.ScanStep | venusian/__init__.py:179-200 | one walk result: an unscrapeable entry is skipped; otherwise the module is imported and its members invoked, or the failure goes to `onerror` or propagates |
| Scanner.Scan | venusian/__init__.py:102-200 | `scan` computes `ScanSpec`: the root's members with an empty `seen`, then, for a package, every step of the walk in order |
| Scanner.ScanSteps | venusian/__init__.py:179-200 | the loop over the walk's results computes `ProcessSteps`, stopping at the first exception and otherwise ending with the walk's own |
| Scanner.ThreadedThen | venusian/__init__.py:125-131 | two pieces of a scan that each respect `seen` compose into one that does |
| Scanner.InvokeThreaded | venusian/__init__.py:127-131 | `invoke` calls back only on objects not seen before, adds them to `seen`, and dispatches each in one run |
| Scanner.InvokeAllThreaded | venusian/__init__.py:127-131 | a member loop dispatches each object at most once and only unseen ones. It makes only callback calls, and only a callback's exception or a sort failure escapes |
| Scanner.ProcessStepThreaded | venusian/__init__.py:179-200 | a step of the scan respects and extends `seen` |
| Scanner.ProcessStepsThreaded | venusian/__init__.py:179-200 | all walk steps of the scan respect and extend `seen` |
| Scanner.ScanDispatchesOnce | venusian/__init__.py:125-131 | within one `scan`, the calls for any object form one unbroken run under one name: each object reaches dispatch at most once; `Scanner.ScanReachesRootMembers` and `Scanner.ScanReachesWalkedMembers` give the other direction: every first sighting is dispatched in full |
| Scanner.IgnoredFirstSightingSuppresses | venusian/__init__.py:129-136 | an object first met under an ignored name is marked seen, so a later sighting under a kept name produces nothing |
| Scanner.RootMembersFirst | venusian/__init__.py:169-179 | the root's member calls come first in the trace, before anything from the walk; a module root or an exception among them ends the scan there |
| Scanner.ProcessStepOrigin | venusian/__init__.py:179-200 | every import or `onerror` event of one step names that step; without `onerror`, a step other than the walk's own `onerror` call makes no `onerror` call and ends in no `onerror` failure |
| Scanner.ProcessStepsOrigins | venusian/__init__.py:179-200 | every import or `onerror` event of the scan names a walk step; without `onerror`, no `onerror` call or `onerror` failure arises in the scan loop |
| Scanner.NoHandlerNoOnErrorCall | venusian/__init__.py:190-196 | `scan` with `onerror=None` never calls `onerror` and never ends with an `onerror` failure |
| Scanner.ScanImportsOnlyKept | venusian/__init__.py:175-177 | every import made during the scan is of a name at or below a top-level submodule that `ignore` does not match |
| Scanner.InvokeAllCategoriesSorted | venusian/__init__.py:156-167 | with `categories=None`, an unseen, non-ignored object that passes the gate has its registry's keys sorted: the sort raises exactly when `None` is one of two or more keys; otherwise the keys are visited in ascending order as a permutation of the registry's keys, and without a failing callback every callback of every key is called once, in list order |
| Scanner.InvokeRequestedCategories | venusian/__init__.py:156-167 | with `categories` given, such an object has the requested keys visited in the caller's order, and without a failing callback every callback of every requested key is called once, in list order |
| Scanner.InvokeCallsCategory | venusian/__init__.py:156-167 | an unseen, non-ignored object whose registry is attached to it, invoked with one category and no failing callback, gets exactly that category's callbacks in order |
| Scanner.InvokeEndsWithLast | venusian/__init__.py:164-167 | under the same conditions, the last call made is to the last callback of the category's list |
| Scanner.AttachThenInvoke | venusian/__init__.py:156-167 | after `attach` outside a class body, invoking the unseen, non-ignored `wrapped` with that category raises nothing and ends by calling the new callback |
| Scanner.InvokeUnseen | venusian/__init__.py:127-131 | `invoke` on an object not in `seen` does exactly what it does for a fresh object: `seen` matters only through the membership test |
| Scanner.InvokeAllReaches | venusian/__init__.py:127-173 | when the member loop does not raise, `seen` afterwards is the old `seen` plus every member's object, and every member whose object is not in `seen` and not shown by an earlier member gets, as one contiguous block, all the calls `invoke` makes for a fresh object |
| Scanner.ProcessStepReaches | venusian/__init__.py:181-200 | a walk step that does not raise adds to `seen` exactly the objects of the module it scans, and for that module does what `Scanner.InvokeAllReaches` says |
| Scanner.ProcessStepsReaches | venusian/__init__.py:178-200 | when the scan of the walk's steps does not raise, every scanned module has every member whose object neither the starting `seen` nor an earlier scanned module holds invoked in full |
| Scanner.ProcessStepsImports | venusian/__init__.py:181-189 | when the scan of the walk's steps does not raise, every yielded scrapeable module is imported by the scan |
| Scanner.ScanReachesRootMembers | venusian/__init__.py:169-173 | a `scan` that does not raise invokes in full every member of the scanned package or module at its object's first sighting |
| Scanner.ScanReachesWalkedMembers | venusian/__init__.py:175-200 | a `scan` of a package that does not raise imports every scrapeable module the walk yields, and invokes in full every member of each such module whose object neither the root nor an earlier scanned module exposed |
| Scanner.ScanCallsRootCallbacks | venusian/__init__.py:156-173 | with `categories` given and no failing callback, a `scan` that does not raise calls every callback of every requested key of each kept root member that passes the gate, in order and as one block, at that member's first sighting |
| Strings.StartsWithTrans | venusian/__init__.py:113 | `startswith` is transitive |
| Strings.StartsWithAppend | venusian/__init__.py:117 | a name that starts with a prefix still does after anything is appended |
| Strings.LexLeqTotal | venusian/__init__.py:163 | any two strings are ordered one way or the other |
| Strings.LexLeqTrans | venusian/__init__.py:163 | the string order is transitive |
| Strings.LexLeqAntisym | venusian/__init__.py:163 | the string order is antisymmetric |
| World.Then | venusian/__init__.py:179-200 | running one piece after another keeps the first piece's events as a prefix, and raises nothing exactly when neither piece raises |
| World.ThenUnit | venusian/__init__.py:179-200 | an empty, exception-free piece is a unit on both sides |
| World.ThenAssoc | venusian/__init__.py:179-200 | running outcomes in sequence is associative |
| World.ThenDone | venusian/__init__.py:179-200 | two exception-free pieces run in sequence before a third equal their concatenation before it |

## Left out

- Frame inspection. `sys._getframe` and `getFrameInfo` come from `venusian.advice`, which is not part of this model. The scope of `attach` is an input, and a class body is identified by a frame id.
- The module, locals, globals and code information of `AttachInfo` are left out. The record keeps only the scope and the category.
- The host runtime's effects are given data:
  - `__import__` is an import outcome per entry: loads, raises `ImportError`, or raises another exception;
  - `sys.modules` and `getmembers` are a member list per module;
  - `importer.find_module` and the `imp` module-type check are one "scrapeable" flag per entry;
  - `loader.file.close` is left out.
- `pkgutil.iter_modules` is modelled as the entries of each path item in order. Its removal of duplicate names across path items is not modelled.
- Path items are identified by a given id. The `seen` dict compares path strings; here two items with the same id are the same path.
- Callbacks and `onerror` are opaque. The model records each call and whether it raises. Their other side effects, including new registrations during a scan, are not modelled.
- The walk's generator is modelled as the sequence of steps it produces. The scan consumes them in order. Nothing the scan does changes what the walk produces in this model.
- Ignore callables are total functions from names to booleans. In the code, a callable that raises ends the scan: `_ignore` calls it at line 121 and is reached from `invoke` at line 135, outside its `try`, and from the walk at line 328.
- The package tree is a finite, acyclic datatype. The `seen` dict of `walk_packages` lives for one call only (lines 320-323), and the recursive call at line 353 starts a new one, so in the code a `__path__` that leads back to an enclosing package would be walked without end; the model cannot express that case.
- The scanner reads registries from its own `attrs` table, which is not linked to the `ObjectSpace` that `attach` updates. Registries pending in a class body never become class attributes in this model. Only `Scanner.AttachThenInvoke` connects `attach` and `invoke`, through `Registry.Lookup`.
- Category labels are `None` or strings. Other hashable labels are not modelled.
- `category_keys.sort()` (line 163) sorts a local list in place. The model sorts a sequence with the pure function `CategoryDispatch.SortKeys`, an insertion sort, so the in-place update of that list is not modelled. The list is a fresh local that nothing else refers to, so only the resulting order matters, and `SortKeys` states that order.
- Sorting uses Python 3's rules: mixing `None` with strings raises `TypeError`. Python 2's ordering of mixed types is not modelled.
- `Scanner.__init__` (storing keyword arguments) is not modelled. Callbacks receive the scanner implicitly.
- `lift` and `onlyliftedfrom` are not defined in `venusian/__init__.py`, so they are not part of this model.
- The runtime check `is_nonstr_iter` from `venusian/compat` is replaced by the `IgnoreArg` datatype: a lone item or a sequence.
- The metaclass failures that `invoke` guards against are one `Unreadable` marking per object. Every way of reading the registry that raises is treated alike.
