/** Dotted data-model paths. */
module Paths {
  /** One past the last dot. */
  function ObjectLength(path: string): (n: nat)
    ensures n <= |path|
  {
    if path == "" then 0
    else if path[|path| - 1] == '.' then |path|
    else ObjectLength(path[..|path| - 1])
  }

  function ObjectPath(path: string): (r: string) {
    path[..ObjectLength(path)]
  }

  function ParamName(path: string): (r: string) {
    path[ObjectLength(path)..]
  }

  /** A path is cut behind its last dot. */
  lemma {:induction false} CutBehindLastDot(path: string)
    ensures ObjectPath(path) == "" || ObjectPath(path)[|ObjectPath(path)| - 1] == '.'
    ensures '.' !in ParamName(path)
  {
    if path != "" && path[|path| - 1] != '.' {
      var init := path[..|path| - 1];
      CutBehindLastDot(init);
      assert ParamName(path) == ParamName(init) + [path[|path| - 1]];
    }
  }

  lemma PathIsObjectAndParam(path: string)
    ensures ObjectPath(path) + ParamName(path) == path
  {
  }

  predicate IsObjectPath(path: string) {
    path != "" && path[|path| - 1] == '.'
  }

  /** Neither empty nor with a dot inside. */
  predicate SimpleName(name: string) {
    name != "" && '.' !in name
  }

  function ChildPath(path: string, name: string): (r: string) {
    path + name + "."
  }

  /** The object that a parameter or object path belongs to. */
  function Parent(path: string): (r: string) {
    if path == "" then "" else ObjectPath(path[..|path| - 1])
  }

  lemma {:induction false} ObjectOfExtension(path: string, name: string)
    requires IsObjectPath(path) && '.' !in name
    ensures ObjectPath(path + name) == path
  {
    if name == "" {
      assert path + name == path;
    } else {
      var init := name[..|name| - 1];
      ObjectOfExtension(path, init);
      assert (path + name)[..|path + name| - 1] == path + init;
      assert (path + name)[|path + name| - 1] == name[|name| - 1];
      assert (path + name)[..ObjectLength(path + name)] == (path + init)[..ObjectLength(path + init)];
    }
  }

  lemma ParentOfParam(path: string, name: string)
    requires IsObjectPath(path) && SimpleName(name)
    ensures Parent(path + name) == path
  {
    assert (path + name)[..|path + name| - 1] == path + name[..|name| - 1];
    ObjectOfExtension(path, name[..|name| - 1]);
  }

  lemma ParentOfChild(path: string, name: string)
    requires IsObjectPath(path) && SimpleName(name)
    ensures Parent(ChildPath(path, name)) == path
  {
    assert ChildPath(path, name)[..|ChildPath(path, name)| - 1] == path + name;
    ObjectOfExtension(path, name);
  }

  lemma ShorterChild(path: string, c: string, d: string, s: string)
    requires |c| <= |d| && ChildPath(path, c) <= s && ChildPath(path, d) <= s
    ensures c == d || '.' in d
  {
    assert forall k :: 0 <= k < |c| ==> c[k] == s[|path| + k] == d[k];
    assert s[|path| + |c|] == '.';
    if |c| < |d| {
      assert d[|c|] == s[|path| + |c|];
    }
  }

  /** A path lies below at most one child of an object. */
  lemma ChildPathsDisjoint(path: string, c: string, d: string, s: string)
    requires SimpleName(c) && SimpleName(d) && ChildPath(path, c) <= s && ChildPath(path, d) <= s
    ensures c == d
  {
    if |c| <= |d| {
      ShorterChild(path, c, d, s);
    } else {
      ShorterChild(path, d, c, s);
    }
  }

  /** Whatever lies below a child of an object is not one of its parameters. */
  lemma BelowChildIsNotParam(path: string, name: string, c: string)
    requires ChildPath(path, c) <= path + name
    ensures '.' in name
  {
    assert name[|c|] == (path + name)[|path| + |c|];
  }
}
