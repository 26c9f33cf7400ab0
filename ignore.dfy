/**
 * The `ignore` argument of `Scanner.scan` and the predicate `_ignore`
 * compiled from it (venusian/__init__.py:102-123).
 */
module IgnoreMatcher {
  import opened Strings

  /**
   * One element of `ignore`: a dotted-name string (absolute, or relative
   * to the scanned package when it starts with '.') or a callable over
   * full dotted names whose truthiness decides.
   */
  datatype IgnoreItem = DottedName(text: string) | Callable(test: string -> bool)

  /** `ignore` as passed: `None`, a lone string or callable, or a sequence. */
  datatype IgnoreArg = NoIgnore | Single(item: IgnoreItem) | Several(items: seq<IgnoreItem>)

  /** `_ignore`: the scanned package's `__name__` and the normalised list. */
  datatype Matcher = Matcher(pkgName: string, items: seq<IgnoreItem>)

  /** Lines 104-105 and 108: a lone item is wrapped in a list; `None` matches nothing. */
  function Normalize(arg: IgnoreArg): seq<IgnoreItem> {
    match arg
    case NoIgnore => []
    case Single(item) => [item]
    case Several(items) => items
  }

  function Compile(pkgName: string, arg: IgnoreArg): Matcher {
    Matcher(pkgName, Normalize(arg))
  }

  /** Lines 110-122: whether one element of `ignore` matches `fullname`. */
  predicate ItemMatches(pkgName: string, item: IgnoreItem, fullname: string) {
    match item
    case DottedName(s) =>
      if |s| > 0 && s[0] == '.' then StartsWith(fullname, pkgName + s)
      else StartsWith(fullname, s)
    case Callable(f) => f(fullname)
  }

  /** `_ignore(fullname)` is true iff some element of `ignore` matches. */
  predicate Ignored(m: Matcher, fullname: string) {
    exists i :: 0 <= i < |m.items| && ItemMatches(m.pkgName, m.items[i], fullname)
  }

  /** The loop of `_ignore`, returning at the first element that matches. */
  method MatchIgnore(m: Matcher, fullname: string) returns (ignored: bool)
    ensures ignored <==> exists i :: 0 <= i < |m.items| && ItemMatches(m.pkgName, m.items[i], fullname)
    ensures ignored ==> exists i :: 0 <= i < |m.items| && ItemMatches(m.pkgName, m.items[i], fullname)
                                    && forall j :: 0 <= j < i ==> !ItemMatches(m.pkgName, m.items[j], fullname)
  {
    var i := 0;
    while i < |m.items|
      invariant 0 <= i <= |m.items|
      invariant forall j :: 0 <= j < i ==> !ItemMatches(m.pkgName, m.items[j], fullname)
    {
      var ign := m.items[i];
      match ign {
        case DottedName(s) =>
          if |s| > 0 && s[0] == '.' {
            if StartsWith(fullname, m.pkgName + s) {
              return true;
            }
          } else if StartsWith(fullname, s) {
            return true;
          }
        case Callable(f) =>
          if f(fullname) {
            return true;
          }
      }
      i := i + 1;
    }
    return false;
  }

  /** A lone string or callable behaves exactly as a one-element list. */
  lemma SingleIsOneElementList(pkgName: string, item: IgnoreItem, fullname: string)
    ensures Ignored(Compile(pkgName, Single(item)), fullname)
        <==> Ignored(Compile(pkgName, Several([item])), fullname)
    ensures Ignored(Compile(pkgName, Single(item)), fullname) <==> ItemMatches(pkgName, item, fullname)
    ensures !Ignored(Compile(pkgName, NoIgnore), fullname)
  {
    var m := Compile(pkgName, Single(item));
    if ItemMatches(pkgName, item, fullname) {
      assert ItemMatches(m.pkgName, m.items[0], fullname);
    }
  }

  /**
   * A leading-dot name is resolved against the scanned package: `.x`
   * matches exactly the names that start with `pkgName + ".x"`.
   */
  lemma RelativeNameMatches(pkgName: string, rel: string, fullname: string)
    ensures ItemMatches(pkgName, DottedName("." + rel), fullname)
        <==> StartsWith(fullname, pkgName + "." + rel)
  {
    assert pkgName + ("." + rel) == pkgName + "." + rel;
  }

  /**
   * String matches are prefix matches: a dotted name that matches a
   * package also matches every name below it.
   */
  lemma DottedNameCoversDescendants(m: Matcher, s: string, name: string, rest: string)
    requires DottedName(s) in m.items
    requires ItemMatches(m.pkgName, DottedName(s), name)
    ensures Ignored(m, name + rest)
  {
    var prefix := if |s| > 0 && s[0] == '.' then m.pkgName + s else s;
    StartsWithAppend(name, rest, prefix);
    var i :| 0 <= i < |m.items| && m.items[i] == DottedName(s);
    assert ItemMatches(m.pkgName, m.items[i], name + rest);
  }

  /**
   * A callable matches individual names only: one that matches a package
   * need not match the names below it.
   */
  lemma CallableMatchesOnlyWhatItSays(pkgName: string, name: string)
    ensures var m := Matcher(pkgName, [Callable(n => n == name)]);
            Ignored(m, name) && !Ignored(m, name + ".sub")
  {
    var m := Matcher(pkgName, [Callable(n => n == name)]);
    assert ItemMatches(m.pkgName, m.items[0], name);
    assert |name + ".sub"| != |name|;
  }
}
