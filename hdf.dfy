/**
  An HDF5 container as the converter sees it through h5py: groups that carry
  attributes and named members, and datasets that carry numbers. Members are
  reached by `/`-separated paths, as in `f.get("entry/data")` or `g[name]`.
 */
module Hdf {
  import opened Wrappers

  /** An attribute value: a scalar byte string, or a one-dimensional array of
      byte strings. Byte strings are shown here already decoded to text. */
  datatype Attr = Text(s: string) | TextList(items: seq<string>)

  /** A group or a dataset. Datasets are flattened to their samples and carry
      no attributes in this model. */
  datatype Node =
    | Group(attrs: map<string, Attr>, members: map<string, Node>)
    | Dataset(data: seq<real>)

  /** `n.attrs.get(key)`: the value stored under `key`, or None. */
  function AttrOf(n: Node, key: string): (r: Option<Attr>)
    ensures r.Some? <==> n.Group? && key in n.attrs
    ensures r.Some? ==> r.value == n.attrs[key]
  {
    if n.Group? && key in n.attrs then Some(n.attrs[key]) else None
  }

  /** A link name: non-empty and free of separators. */
  predicate IsName(s: string) {
    s != [] && '/' !in s
  }

  function Flush(cur: string): seq<string> {
    if cur == [] then [] else [cur]
  }

  /** The names along `p`, with `cur` the part of the current name read so far. */
  function SplitFrom(p: string, cur: string): (r: seq<string>)
    requires '/' !in cur
    ensures forall k :: 0 <= k < |r| ==> IsName(r[k])
    decreases |p|
  {
    if p == [] then Flush(cur)
    else if p[0] == '/' then Flush(cur) + SplitFrom(p[1..], [])
    else SplitFrom(p[1..], cur + [p[0]])
  }

  /** The link names of a path: separators split it, and the empty names
      between a leading, trailing or doubled `/` are dropped, as HDF5 does
      inside a path. The empty path as a whole is refused by `Get`. */
  function Components(p: string): (r: seq<string>)
    ensures forall k :: 0 <= k < |r| ==> IsName(r[k])
  {
    SplitFrom(p, [])
  }

  /** The path that names the given links, separated by `/`. */
  function JoinNames(names: seq<string>): string {
    if names == [] then ""
    else if |names| == 1 then names[0]
    else names[0] + "/" + JoinNames(names[1..])
  }

  /** Follows the links `names` down from `n`; a missing link, or a link
      below a dataset, gives None. */
  function Walk(n: Node, names: seq<string>): Option<Node>
    decreases |names|
  {
    if names == [] then Some(n)
    else match n
      case Dataset(_) => None
      case Group(_, members) =>
        if names[0] in members then Walk(members[names[0]], names[1..]) else None
  }

  /** The member at `path` below `n`, or None; `path in n` holds exactly when
      it is Some. HDF5 refuses the empty name, so it reaches nothing. */
  function Get(n: Node, path: string): (r: Option<Node>)
    ensures path == "" ==> r.None?
    ensures r.Some? && Components(path) != [] ==> n.Group? && Components(path)[0] in n.members
    ensures r.Some? && n.Dataset? ==> r == Some(n)
  {
    if path == "" then None else Walk(n, Components(path))
  }

  /** Reading the current name on across `a`, a separator and `b` splits into
      the names of the two halves. */
  lemma {:induction false} SplitFromJoin(a: string, b: string, cur: string)
    requires '/' !in cur
    ensures SplitFrom(a + "/" + b, cur) == SplitFrom(a, cur) + SplitFrom(b, [])
    decreases |a|
  {
    if a == [] {
      assert a + "/" + b == ['/'] + b;
      assert (['/'] + b)[1..] == b;
    } else {
      assert (a + "/" + b)[0] == a[0];
      assert (a + "/" + b)[1..] == a[1..] + "/" + b;
      if a[0] == '/' {
        SplitFromJoin(a[1..], b, []);
      } else {
        SplitFromJoin(a[1..], b, cur + [a[0]]);
      }
    }
  }

  /** The names of `a/b` are those of `a` followed by those of `b`. */
  lemma ComponentsOfJoin(a: string, b: string)
    ensures Components(a + "/" + b) == Components(a) + Components(b)
  {
    SplitFromJoin(a, b, []);
  }

  /** A single name is read as itself, whatever was read before it. */
  lemma {:induction false} SplitFromName(s: string, cur: string)
    requires '/' !in s && '/' !in cur
    requires cur + s != []
    ensures SplitFrom(s, cur) == [cur + s]
    decreases |s|
  {
    if s == [] {
      assert cur + s == cur;
    } else {
      assert (cur + [s[0]]) + s[1..] == cur + s;
      SplitFromName(s[1..], cur + [s[0]]);
    }
  }

  /** Splitting a path built from link names gives back those names. */
  lemma {:induction false} ComponentsJoinNames(names: seq<string>)
    requires forall k :: 0 <= k < |names| ==> IsName(names[k])
    ensures Components(JoinNames(names)) == names
    decreases |names|
  {
    if names == [] {
    } else if |names| == 1 {
      SplitFromName(names[0], []);
      assert [] + names[0] == names[0];
    } else {
      SplitFromName(names[0], []);
      assert [] + names[0] == names[0];
      ComponentsOfJoin(names[0], JoinNames(names[1..]));
      ComponentsJoinNames(names[1..]);
      assert names == [names[0]] + names[1..];
    }
  }

  /** Following `p + q` is following `p`, then `q` from where it ends. */
  lemma {:induction false} WalkAppend(n: Node, p: seq<string>, q: seq<string>)
    ensures Walk(n, p + q) == (match Walk(n, p) case None => None case Some(m) => Walk(m, q))
    decreases |p|
  {
    if p != [] {
      assert (p + q)[0] == p[0];
      assert (p + q)[1..] == p[1..] + q;
      if n.Group? && p[0] in n.members {
        WalkAppend(n.members[p[0]], p[1..], q);
      }
    } else {
      assert p + q == q;
    }
  }

  /** `f.get(a + "/" + b)` finds what `f.get(a).get(b)` finds. */
  lemma GetJoin(n: Node, a: string, b: string)
    requires a != "" && b != ""
    ensures Get(n, a + "/" + b) == (match Get(n, a) case None => None case Some(m) => Get(m, b))
  {
    ComponentsOfJoin(a, b);
    WalkAppend(n, Components(a), Components(b));
  }

  /** A single link name reaches the member of that name, if there is one. */
  lemma GetName(n: Node, name: string)
    requires IsName(name)
    ensures Get(n, name) == if n.Group? && name in n.members then Some(n.members[name]) else None
  {
    SplitFromName(name, []);
    assert [] + name == name;
    assert Components(name) == [name];
    assert [name][1..] == [];
    if n.Group? && name in n.members {
      assert Walk(n.members[name], []) == Some(n.members[name]);
    }
  }
}
