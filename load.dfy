/**
  Loading a volume from a NeXus file (`load_vol_nxs`): resolving the
  `default` attribute chain to a data group, choosing the signal dataset and
  the axis names (from the NXdata attributes `signal` and `axes`, or from the
  caller), and reading every axis into an insertion-ordered table.

  The specification is a set of functions, one per decision, composed by
  `Load`; `LoadVolNxs` is the step-by-step procedure, proved to agree with it.
 */
module NxsLoad {
  import opened Wrappers
  import opened Hdf

  /** What the caller asks for: the fallback group path, the fallback signal
      name and, optionally, the axis names. */
  datatype Request = Request(group: string, dataName: string, axisNames: Option<seq<string>>)

  /** The caller's defaults when none are given. */
  const Defaults: Request := Request("processed/reciprocal_space", "volume", None)

  datatype Axis = Axis(name: string, samples: seq<real>)

  /** The loaded data: the group it came from, the signal samples and, when
      axis names were known, the axis table in insertion order. */
  datatype VolumeData = VolumeData(group: string, volume: seq<real>, axes: Option<seq<Axis>>)

  /** What `load_vol_nxs` raises. */
  datatype Failure =
    | NotFound(path: string)                  // `f[path]` or `g[name]` has no such member
    | NotADataset(path: string)               // `[...]` applied to a group
    | BadAttribute(path: string, key: string) // an attribute value of a shape the code cannot use
    | EmptyName(path: string)                 // `get("")` on the group at `path`, refused by HDF5

  /** The path reported for member `name` of the group at `group`. */
  function MemberPath(group: string, name: string): string {
    group + "/" + name
  }

  // ---------------------------------------------------------------------------
  // The default chain

  /** All four links of the chain hold: the root's `default` names entry `e`,
      the entry exists, its `default` names `d`, and `d` is a member of it. */
  predicate DefaultLinks(root: Node, e: string, d: string) {
    && AttrOf(root, "default") == Some(Text(e))
    && Get(root, e).Some?
    && AttrOf(Get(root, e).value, "default") == Some(Text(d))
    && Get(Get(root, e).value, d).Some?
  }

  /** An attribute that is absent or a scalar string, so `.decode()` applies. */
  predicate Decodable(a: Option<Attr>) {
    a.None? || a.value.Text?
  }

  /** Every `default` attribute the chain reads can be decoded. */
  ghost predicate DefaultsDecodable(root: Node) {
    && Decodable(AttrOf(root, "default"))
    && forall e :: AttrOf(root, "default") == Some(Text(e)) && Get(root, e).Some? ==>
         Decodable(AttrOf(Get(root, e).value, "default"))
  }

  /** The group the data is read from: `entry/data` when the whole chain
      holds, otherwise the caller's group. A missing attribute, entry or member
      never fails; an array-valued `default` does, since it has no
      `.decode()`, and so does an empty entry name, which `f.get` refuses. An
      empty data name is simply not a member of the entry. */
  function ResolveGroup(root: Node, group: string): (r: Result<string, Failure>)
    ensures forall e, d :: DefaultLinks(root, e, d) ==> r == Success(e + "/" + d)
    ensures r.Success? && r.value != group ==>
      exists e, d :: DefaultLinks(root, e, d) && r.value == e + "/" + d
    ensures r.Failure? <==> !DefaultsDecodable(root) || AttrOf(root, "default") == Some(Text(""))
    ensures AttrOf(root, "default") == Some(Text("")) ==> r == Failure(EmptyName("/"))
    ensures r.Failure? ==> (r.error.BadAttribute? && r.error.key == "default") || r.error == EmptyName("/")
  {
    match AttrOf(root, "default")
    case None => Success(group)
    case Some(TextList(_)) => Failure(BadAttribute("/", "default"))
    case Some(Text(e)) =>
      if e == "" then Failure(EmptyName("/")) else
      match Get(root, e)
      case None => Success(group)
      case Some(entry) =>
        match AttrOf(entry, "default")
        case None => Success(group)
        case Some(TextList(_)) => Failure(BadAttribute(e, "default"))
        case Some(Text(d)) =>
          if Get(entry, d).Some? then
            assert DefaultLinks(root, e, d);
            Success(e + "/" + d)
          else Success(group)
  }

  /** `f[group]`. */
  function OpenGroup(root: Node, group: string): (r: Result<Node, Failure>)
    ensures r.Success? <==> Get(root, group).Some?
    ensures r.Success? ==> Get(root, group) == Some(r.value)
    ensures r.Failure? ==> r.error == NotFound(group)
  {
    match Get(root, group)
    case None => Failure(NotFound(group))
    case Some(g) => Success(g)
  }

  // ---------------------------------------------------------------------------
  // Signal and axis names

  /** `g.attrs.get("NX_class") == b"NXdata"` as a condition. An array value is
      compared element by element, and the resulting array has a truth value
      only when it holds exactly one element. */
  function IsNXdata(g: Node, group: string): (r: Result<bool, Failure>)
    ensures r == Success(true) <==>
      AttrOf(g, "NX_class") == Some(Text("NXdata")) || AttrOf(g, "NX_class") == Some(TextList(["NXdata"]))
    ensures r.Failure? <==> AttrOf(g, "NX_class").Some? && AttrOf(g, "NX_class").value.TextList?
                            && |AttrOf(g, "NX_class").value.items| != 1
    ensures r.Failure? ==> r.error == BadAttribute(group, "NX_class")
  {
    match AttrOf(g, "NX_class")
    case None => Success(false)
    case Some(Text(c)) => Success(c == "NXdata")
    case Some(TextList(cs)) =>
      if |cs| == 1 then
        assert cs == [cs[0]];
        Success(cs[0] == "NXdata")
      else Failure(BadAttribute(group, "NX_class"))
  }

  /** `g.attrs.get("signal", "data")`; an array value cannot name a member. */
  function SignalName(g: Node, group: string): (r: Result<string, Failure>)
    ensures AttrOf(g, "signal").None? ==> r == Success("data")
    ensures forall s :: AttrOf(g, "signal") == Some(Text(s)) ==> r == Success(s)
    ensures r.Failure? <==> AttrOf(g, "signal").Some? && AttrOf(g, "signal").value.TextList?
  {
    match AttrOf(g, "signal")
    case None => Success("data")
    case Some(Text(s)) => Success(s)
    case Some(TextList(_)) => Failure(BadAttribute(group, "signal"))
  }

  /** `g[name][...]`. */
  function ReadMember(g: Node, group: string, name: string): (r: Result<seq<real>, Failure>)
    ensures r.Success? <==> Get(g, name).Some? && Get(g, name).value.Dataset?
    ensures r.Success? ==> Get(g, name) == Some(Dataset(r.value))
    ensures r.Failure? ==> r.error.path == MemberPath(group, name)
                           && (r.error.NotFound? <==> Get(g, name).None?)
  {
    match Get(g, name)
    case None => Failure(NotFound(MemberPath(group, name)))
    case Some(Group(_, _)) => Failure(NotADataset(MemberPath(group, name)))
    case Some(Dataset(d)) => Success(d)
  }

  /** The signal samples. In an NXdata group the member named by `signal` is
      read when it exists; otherwise, and in any other group, `dataName` is.
      A `signal` that cannot name a member, or names a group, fails. */
  function Volume(g: Node, group: string, nx: bool, dataName: string): (r: Result<seq<real>, Failure>)
    ensures !nx ==> r == ReadMember(g, group, dataName)
    ensures nx ==> forall s, d :: SignalName(g, group) == Success(s) && Get(g, s) == Some(Dataset(d)) ==> r == Success(d)
    ensures nx ==> forall s :: SignalName(g, group) == Success(s) && s != "" && Get(g, s).None? ==>
              r == ReadMember(g, group, dataName)
    ensures nx ==> forall s :: SignalName(g, group) == Success(s) && Get(g, s).Some? && Get(g, s).value.Group? ==>
              r == Failure(NotADataset(MemberPath(group, s)))
    ensures nx && SignalName(g, group) == Success("") ==> r == Failure(EmptyName(group))
    ensures nx && SignalName(g, group).Failure? ==> r == Failure(SignalName(g, group).error)
    ensures r.Success? ==> exists name :: Get(g, name) == Some(Dataset(r.value))
  {
    if !nx then ReadMember(g, group, dataName)
    else
      var s :- SignalName(g, group);
      if s == "" then Failure(EmptyName(group)) else
      match Get(g, s)
      case None => ReadMember(g, group, dataName)
      case Some(Group(_, _)) => Failure(NotADataset(MemberPath(group, s)))
      case Some(Dataset(d)) => Success(d)
  }

  /** `[a.decode() for a in axes_attr]`. Iterating a scalar byte string yields
      integers, which have no `.decode()`, unless the string is empty. */
  function DecodeNames(a: Attr, group: string): (r: Result<seq<string>, Failure>)
    ensures r.Success? <==> a.TextList? || a == Text("")
    ensures a.TextList? ==> r == Success(a.items)
    ensures a == Text("") ==> r == Success([])
    ensures r.Failure? ==> r.error == BadAttribute(group, "axes")
  {
    match a
    case TextList(items) => Success(items)
    case Text(s) => if s == "" then Success([]) else Failure(BadAttribute(group, "axes"))
  }

  /** The axis names in force: those of the `axes` attribute of an NXdata
      group that has one, otherwise the caller's. */
  function AxisNames(g: Node, group: string, nx: bool, given: Option<seq<string>>)
    : (r: Result<Option<seq<string>>, Failure>)
    ensures !nx || AttrOf(g, "axes").None? ==> r == Success(given)
    ensures nx && AttrOf(g, "axes").Some? ==>
      (r.Success? && r.value.Some?) || r == Failure(BadAttribute(group, "axes"))
    ensures nx && AttrOf(g, "axes").Some? ==>
      var decoded := DecodeNames(AttrOf(g, "axes").value, group);
      && (decoded.Success? ==> r == Success(Some(decoded.value)))
      && (decoded.Failure? ==> r == Failure(decoded.error))
  {
    if nx && AttrOf(g, "axes").Some? then
      var names :- DecodeNames(AttrOf(g, "axes").value, group);
      Success(Some(names))
    else Success(given)
  }

  // ---------------------------------------------------------------------------
  // The axis table

  function Names(axes: seq<Axis>): (r: seq<string>)
    ensures |r| == |axes|
    ensures forall k :: 0 <= k < |axes| ==> r[k] == axes[k].name
  {
    if axes == [] then [] else [axes[0].name] + Names(axes[1..])
  }

  /** `table[a.name] = a.samples` on an insertion-ordered table: a name
      already present keeps its place and takes the new samples, a new name
      goes last. */
  function Put(axes: seq<Axis>, a: Axis): (r: seq<Axis>)
    ensures Names(r) == if a.name in Names(axes) then Names(axes) else Names(axes) + [a.name]
    ensures forall k :: 0 <= k < |r| ==> r[k] == a || r[k] in axes
    ensures a.name !in Names(axes) ==> r == axes + [a]
    ensures a.name in Names(axes) ==>
      var i := FirstIndex(Names(axes), a.name);
      && |r| == |axes| && r[i] == a
      && forall k :: 0 <= k < |r| && k != i ==> r[k] == axes[k]
  {
    if axes == [] then [a]
    else if axes[0].name == a.name then [a] + axes[1..]
    else
      var rest := Put(axes[1..], a);
      assert Names(axes) == [axes[0].name] + Names(axes[1..]);
      assert ([axes[0]] + rest)[1..] == rest;
      [axes[0]] + rest
  }

  /** The distinct names of `s`, in the order of their first occurrence. */
  function Distinct(s: seq<string>): seq<string>
    decreases |s|
  {
    if s == [] then []
    else
      var front := s[..|s| - 1];
      if s[|s| - 1] in front then Distinct(front) else Distinct(front) + [s[|s| - 1]]
  }

  /** Where `x` first occurs in `s`. */
  function FirstIndex(s: seq<string>, x: string): (i: nat)
    requires x in s
    ensures i < |s| && s[i] == x && x !in s[..i]
  {
    if s[0] == x then 0
    else
      var j := FirstIndex(s[1..], x);
      assert s[..j + 1] == [s[0]] + s[1..][..j];
      j + 1
  }

  /** Adding an element at the end does not move a first occurrence, and an
      element not seen before first occurs at the end. */
  lemma FirstIndexAppend(s: seq<string>, y: string, x: string)
    requires x in s + [y]
    ensures x in s ==> FirstIndex(s + [y], x) == FirstIndex(s, x)
    ensures x !in s ==> FirstIndex(s + [y], x) == |s|
  {
    var t := s + [y];
    var j := FirstIndex(t, x);
    if x in s {
      var i := FirstIndex(s, x);
      assert t[i] == x;
    }
  }

  /** The distinct names hold exactly the names of `s`, each once, ordered by
      first occurrence. */
  lemma {:induction false} DistinctOrdered(s: seq<string>)
    ensures forall x :: x in Distinct(s) <==> x in s
    ensures forall k, l :: 0 <= k < l < |Distinct(s)| ==>
      FirstIndex(s, Distinct(s)[k]) < FirstIndex(s, Distinct(s)[l])
    ensures forall k, l :: 0 <= k < l < |Distinct(s)| ==> Distinct(s)[k] != Distinct(s)[l]
    decreases |s|
  {
    if s != [] {
      var front := s[..|s| - 1];
      var y := s[|s| - 1];
      assert s == front + [y];
      DistinctOrdered(front);
      var dist := Distinct(s);
      forall x
        ensures x in dist <==> x in s
      {
        assert x in s <==> x in front || x == y;
      }
      forall k | 0 <= k < |dist|
        ensures dist[k] in front ==> FirstIndex(s, dist[k]) == FirstIndex(front, dist[k])
        ensures dist[k] !in front ==> k == |dist| - 1 && FirstIndex(s, dist[k]) == |front|
      {
        FirstIndexAppend(front, y, dist[k]);
      }
    }
  }

  /** Names that never repeat are their own distinct names. */
  lemma {:induction false} DistinctOfRepeatFree(s: seq<string>)
    requires forall i, j :: 0 <= i < j < |s| ==> s[i] != s[j]
    ensures Distinct(s) == s
    decreases |s|
  {
    if s != [] {
      var front := s[..|s| - 1];
      DistinctOfRepeatFree(front);
      assert s == front + [s[|s| - 1]];
    }
  }

  /** `{n: g[n][...] for n in names}`: every name is read in order, and the
      first one that cannot be read is what fails. */
  function CollectAxes(g: Node, group: string, names: seq<string>): (r: Result<seq<Axis>, Failure>)
    ensures r.Success? <==> forall i :: 0 <= i < |names| ==> ReadMember(g, group, names[i]).Success?
    ensures r.Failure? ==> exists i :: (0 <= i < |names| && ReadMember(g, group, names[i]) == Failure(r.error)
      && forall j :: 0 <= j < i ==> ReadMember(g, group, names[j]).Success?)
    ensures r.Success? ==> Names(r.value) == Distinct(names)
    ensures r.Success? ==> forall k :: 0 <= k < |r.value| ==>
      ReadMember(g, group, r.value[k].name) == Success(r.value[k].samples)
    decreases |names|
  {
    if names == [] then Success([])
    else
      var front := names[..|names| - 1];
      var n := names[|names| - 1];
      assert names == front + [n];
      var axes :- CollectAxes(g, group, front);
      var samples :- ReadMember(g, group, n);
      DistinctOrdered(front);
      Success(Put(axes, Axis(n, samples)))
  }

  /** The table when axis names are known, nothing otherwise. */
  function Axes(g: Node, group: string, names: Option<seq<string>>): (r: Result<Option<seq<Axis>>, Failure>)
    ensures names.None? ==> r == Success(None)
    ensures names.Some? ==> (r.Success? <==> forall i :: 0 <= i < |names.value| ==>
                                                 ReadMember(g, group, names.value[i]).Success?)
    ensures r.Success? && names.Some? ==> r.value.Some? && Names(r.value.value) == Distinct(names.value)
    ensures r.Failure? ==> names.Some? && r == Failure(CollectAxes(g, group, names.value).error)
  {
    match names
    case None => Success(None)
    case Some(ns) =>
      var table :- CollectAxes(g, group, ns);
      Success(Some(table))
  }

  // ---------------------------------------------------------------------------
  // The whole load

  /** `load_vol_nxs(root, req.group, req.dataName, req.axisNames)`; each step
      may raise, in the order the source meets them. */
  function Load(root: Node, req: Request): (r: Result<VolumeData, Failure>)
    ensures r.Success? ==> ResolveGroup(root, req.group) == Success(r.value.group)
    ensures r.Success? ==> OpenGroup(root, r.value.group).Success?
  {
    var group :- ResolveGroup(root, req.group);
    var g :- OpenGroup(root, group);
    var nx :- IsNXdata(g, group);
    var volume :- Volume(g, group, nx, req.dataName);
    var names :- AxisNames(g, group, nx, req.axisNames);
    var axes :- Axes(g, group, names);
    Success(VolumeData(group, volume, axes))
  }

  /** Lines 43-58: the chain of `default` attributes, each missing link
      leaving `group` as it was. */
  method FollowDefaults(root: Node, group: string) returns (r: Result<string, Failure>)
    ensures r == ResolveGroup(root, group)
  {
    var resolved := group;
    var defEntry := AttrOf(root, "default");
    if defEntry.Some? {
      if defEntry.value.TextList? {
        return Failure(BadAttribute("/", "default"));
      }
      var e := defEntry.value.s;
      if e == "" {
        return Failure(EmptyName("/"));
      }
      var entry := Get(root, e);
      if entry.Some? {
        var defData := AttrOf(entry.value, "default");
        if defData.Some? {
          if defData.value.TextList? {
            return Failure(BadAttribute(e, "default"));
          }
          var d := defData.value.s;
          if Get(entry.value, d).Some? {
            resolved := e + "/" + d;
          }
        }
      }
    }
    return Success(resolved);
  }

  /** One more name read into the table. */
  lemma CollectAxesStep(g: Node, group: string, names: seq<string>, i: nat, table: seq<Axis>)
    requires i < |names|
    requires CollectAxes(g, group, names[..i]) == Success(table)
    ensures CollectAxes(g, group, names[..i + 1]) ==
      var read := ReadMember(g, group, names[i]);
      if read.Failure? then Failure(read.error) else Success(Put(table, Axis(names[i], read.value)))
  {
    assert names[..i + 1][..i] == names[..i];
  }

  /** A name that cannot be read, after names that all could, decides the
      failure of the whole table. */
  lemma CollectAxesFailsAt(g: Node, group: string, names: seq<string>, i: nat)
    requires i < |names|
    requires CollectAxes(g, group, names[..i]).Success?
    requires ReadMember(g, group, names[i]).Failure?
    ensures CollectAxes(g, group, names) == Failure(ReadMember(g, group, names[i]).error)
  {
    var r := CollectAxes(g, group, names);
    forall j | 0 <= j < i
      ensures ReadMember(g, group, names[j]).Success?
    {
      assert names[..i][j] == names[j];
    }
    var k :| 0 <= k < |names| && ReadMember(g, group, names[k]) == Failure(r.error)
      && forall j :: 0 <= j < k ==> ReadMember(g, group, names[j]).Success?;
    assert k == i;
  }

  /** A name not read before, whose member can be read, goes last in the
      table. */
  lemma CollectAxesAppendNew(g: Node, group: string, names: seq<string>, table: seq<Axis>, n: string, samples: seq<real>)
    requires CollectAxes(g, group, names) == Success(table)
    requires n !in names
    requires ReadMember(g, group, n) == Success(samples)
    ensures CollectAxes(g, group, names + [n]) == Success(table + [Axis(n, samples)])
  {
  }

  /** For names that never repeat and can all be read, the table holds one
      entry per name, in the given order. */
  lemma {:induction false} CollectAxesOfRepeatFree(g: Node, group: string, names: seq<string>, table: seq<Axis>)
    requires |table| == |names|
    requires forall i :: 0 <= i < |names| ==>
      table[i].name == names[i] && ReadMember(g, group, names[i]) == Success(table[i].samples)
    requires forall i, j :: 0 <= i < j < |names| ==> names[i] != names[j]
    ensures CollectAxes(g, group, names) == Success(table)
    decreases |names|
  {
    if names != [] {
      var k := |names| - 1;
      CollectAxesOfRepeatFree(g, group, names[..k], table[..k]);
      assert names[k] !in names[..k];
      CollectAxesAppendNew(g, group, names[..k], table[..k], names[k], table[k].samples);
      assert names[..k] + [names[k]] == names;
      assert table[..k] + [Axis(names[k], table[k].samples)] == table;
    }
  }

  /** Line 88: the axis table filled name by name, stopping at the first name
      that cannot be read. */
  method ReadAxes(g: Node, group: string, names: seq<string>) returns (r: Result<seq<Axis>, Failure>)
    ensures r == CollectAxes(g, group, names)
  {
    var table: seq<Axis> := [];
    var i := 0;
    while i < |names|
      invariant 0 <= i <= |names|
      invariant CollectAxes(g, group, names[..i]) == Success(table)
    {
      var read := ReadMember(g, group, names[i]);
      CollectAxesStep(g, group, names, i, table);
      if read.Failure? {
        CollectAxesFailsAt(g, group, names, i);
        return Failure(read.error);
      }
      table := Put(table, Axis(names[i], read.value));
      i := i + 1;
    }
    assert names[..i] == names;
    return Success(table);
  }

  /** The procedure as the source runs it: `group` is reassigned along the
      chain, the signal and the `axes` attribute are picked up in the NXdata
      branch, the caller's names are replaced when that attribute was found,
      and the axis table is filled last. */
  method LoadVolNxs(root: Node, req: Request) returns (r: Result<VolumeData, Failure>)
    ensures r == Load(root, req)
  {
    var group :- FollowDefaults(root, req.group);
    var g :- OpenGroup(root, group);
    var volume: Option<seq<real>> := None;
    var axesAttr: Option<Attr> := None;
    var nx :- IsNXdata(g, group);
    if nx {
      var signalName :- SignalName(g, group);
      if signalName == "" {
        return Failure(EmptyName(group));
      }
      match Get(g, signalName) {
        case None =>
        case Some(Group(_, _)) =>
          return Failure(NotADataset(MemberPath(group, signalName)));
        case Some(Dataset(d)) =>
          volume := Some(d);
      }
      axesAttr := AttrOf(g, "axes");
    }

    if volume.None? {
      var d :- ReadMember(g, group, req.dataName);
      volume := Some(d);
    }

    var axisNames := req.axisNames;
    if axesAttr.Some? {
      var decoded :- DecodeNames(axesAttr.value, group);
      axisNames := Some(decoded);
    }

    var axes: Option<seq<Axis>> := None;
    if axisNames.Some? {
      var table :- ReadAxes(g, group, axisNames.value);
      axes := Some(table);
    }
    return Success(VolumeData(group, volume.value, axes));
  }

  // ---------------------------------------------------------------------------
  // Properties of the whole load

  /** When the whole chain holds, the data group is the entry's member, it is
      found when opened by its joined path, and the caller's group plays no
      part. */
  lemma DefaultChainOverridesGroup(root: Node, req: Request, e: string, d: string, other: string)
    requires DefaultLinks(root, e, d)
    ensures OpenGroup(root, e + "/" + d) == Success(Get(Get(root, e).value, d).value)
    ensures Load(root, req).Success? ==> Load(root, req).value.group == e + "/" + d
    ensures Load(root, req) == Load(root, req.(group := other))
  {
    GetJoin(root, e, d);
  }

  /** In an NXdata group whose `signal` member is a dataset, that dataset is
      the volume, whatever signal name the caller gave. */
  lemma SignalOverridesDataName(root: Node, req: Request, group: string, g: Node, s: string, d: seq<real>, other: string)
    requires ResolveGroup(root, req.group) == Success(group)
    requires Get(root, group) == Some(g)
    requires IsNXdata(g, group) == Success(true)
    requires SignalName(g, group) == Success(s)
    requires Get(g, s) == Some(Dataset(d))
    ensures Load(root, req).Success? ==> Load(root, req).value.volume == d
    ensures Load(root, req) == Load(root, req.(dataName := other))
  {
  }

  /** Outside NXdata, or when the `signal` member is missing, the volume is
      the caller's `dataName` member, and if that cannot be read the load
      fails with exactly that error. */
  lemma VolumeFromDataName(root: Node, req: Request, group: string, g: Node)
    requires ResolveGroup(root, req.group) == Success(group)
    requires Get(root, group) == Some(g)
    requires || IsNXdata(g, group) == Success(false)
             || (&& IsNXdata(g, group) == Success(true)
                 && SignalName(g, group).Success?
                 && SignalName(g, group).value != ""
                 && Get(g, SignalName(g, group).value).None?)
    ensures Load(root, req).Success? ==> ReadMember(g, group, req.dataName) == Success(Load(root, req).value.volume)
    ensures ReadMember(g, group, req.dataName).Failure? ==> Load(root, req) == Failure(ReadMember(g, group, req.dataName).error)
  {
  }

  /** The result has an axis table exactly when axis names are in force,
      from the NXdata `axes` attribute or else from the caller; its names are
      those names without repeats, in first-occurrence order, and each entry
      holds the samples of the member of that name. */
  lemma AxesFollowNamesInForce(root: Node, req: Request, group: string, g: Node, nx: bool)
    requires ResolveGroup(root, req.group) == Success(group)
    requires Get(root, group) == Some(g)
    requires IsNXdata(g, group) == Success(nx)
    requires Load(root, req).Success?
    ensures AxisNames(g, group, nx, req.axisNames).Success?
    ensures var names := AxisNames(g, group, nx, req.axisNames).value;
            var axes := Load(root, req).value.axes;
            && (axes.Some? <==> names.Some?)
            && (axes.Some? ==> Names(axes.value) == Distinct(names.value))
            && (axes.Some? ==> forall k :: 0 <= k < |axes.value| ==>
                  ReadMember(g, group, axes.value[k].name) == Success(axes.value[k].samples))
    ensures !nx || AttrOf(g, "axes").None? ==> AxisNames(g, group, nx, req.axisNames).value == req.axisNames
    ensures nx ==> forall items :: AttrOf(g, "axes") == Some(TextList(items)) ==>
              AxisNames(g, group, nx, req.axisNames).value == Some(items)
  {
  }

  /** Outside NXdata the `axes` attribute is never consulted: giving the
      group any `axes` value leaves the volume and the axis names as they
      were. */
  lemma AxesAttributeIgnoredOutsideNXdata(attrs: map<string, Attr>, members: map<string, Node>, group: string, a: Attr, req: Request)
    requires IsNXdata(Group(attrs, members), group) == Success(false)
    ensures var g := Group(attrs, members);
            var g' := Group(attrs["axes" := a], members);
            && IsNXdata(g', group) == Success(false)
            && Volume(g', group, false, req.dataName) == Volume(g, group, false, req.dataName)
            && AxisNames(g', group, false, req.axisNames) == Success(req.axisNames)
  {
  }

  /** The converter calls `load_vol_nxs(in_name)` with the defaults: in a
      file without a `default` attribute, and in a group that is not NXdata,
      the volume is the `volume` member of `processed/reciprocal_space` and
      there are no axes. */
  lemma ConverterDefaultsWithoutChain(root: Node, g: Node)
    requires AttrOf(root, "default").None?
    requires Get(root, Defaults.group) == Some(g)
    requires IsNXdata(g, Defaults.group) == Success(false)
    ensures ReadMember(g, Defaults.group, Defaults.dataName).Success? ==>
      Load(root, Defaults) == Success(VolumeData(Defaults.group, ReadMember(g, Defaults.group, Defaults.dataName).value, None))
    ensures ReadMember(g, Defaults.group, Defaults.dataName).Failure? ==>
      Load(root, Defaults) == Failure(ReadMember(g, Defaults.group, Defaults.dataName).error)
  {
  }

  /** A file laid out as NeXus recommends: the root's `default` names entry
      `e`, whose `default` names `d`, an NXdata group whose `signal` is `s`
      and whose `axes` are `[x, y, z]`, holding those four datasets. */
  function ExampleFile(e: string, d: string, s: string, x: string, y: string, z: string,
                       v: seq<real>, vx: seq<real>, vy: seq<real>, vz: seq<real>): Node
  {
    var data := Group(
      map["NX_class" := Text("NXdata"), "signal" := Text(s), "axes" := TextList([x, y, z])],
      map[s := Dataset(v), x := Dataset(vx), y := Dataset(vy), z := Dataset(vz)]);
    var entry := Group(map["default" := Text(d)], map[d := data]);
    Group(map["default" := Text(e)], map[e := entry])
  }

  /** The example's chain leads to `e/d`, and that path opens the data group. */
  lemma ExampleResolves(e: string, d: string, s: string, x: string, y: string, z: string,
                        v: seq<real>, vx: seq<real>, vy: seq<real>, vz: seq<real>, group: string)
    requires IsName(e) && IsName(d)
    ensures var root := ExampleFile(e, d, s, x, y, z, v, vx, vy, vz);
            && ResolveGroup(root, group) == Success(e + "/" + d)
            && OpenGroup(root, e + "/" + d) == Success(root.members[e].members[d])
  {
    var root := ExampleFile(e, d, s, x, y, z, v, vx, vy, vz);
    GetName(root, e);
    GetName(root.members[e], d);
    assert DefaultLinks(root, e, d);
    GetJoin(root, e, d);
  }

  /** In the data group the signal is `s` and the axis names are `x`, `y`, `z`. */
  lemma ExampleSelects(e: string, d: string, s: string, x: string, y: string, z: string,
                       v: seq<real>, vx: seq<real>, vy: seq<real>, vz: seq<real>, group: string, req: Request)
    requires IsName(s) && s != x && s != y && s != z
    ensures var data := ExampleFile(e, d, s, x, y, z, v, vx, vy, vz).members[e].members[d];
            && IsNXdata(data, group) == Success(true)
            && Volume(data, group, true, req.dataName) == Success(v)
            && AxisNames(data, group, true, req.axisNames) == Success(Some([x, y, z]))
  {
    var data := ExampleFile(e, d, s, x, y, z, v, vx, vy, vz).members[e].members[d];
    GetName(data, s);
    assert SignalName(data, group) == Success(s);
    assert Get(data, s) == Some(Dataset(v));
  }

  /** The data group's table holds `x`, `y`, `z` in that order. */
  lemma ExampleAxes(e: string, d: string, s: string, x: string, y: string, z: string,
                    v: seq<real>, vx: seq<real>, vy: seq<real>, vz: seq<real>, group: string)
    requires IsName(x) && IsName(y) && IsName(z)
    requires s != x && s != y && s != z && x != y && x != z && y != z
    ensures var data := ExampleFile(e, d, s, x, y, z, v, vx, vy, vz).members[e].members[d];
            CollectAxes(data, group, [x, y, z]) == Success([Axis(x, vx), Axis(y, vy), Axis(z, vz)])
  {
    var data := ExampleFile(e, d, s, x, y, z, v, vx, vy, vz).members[e].members[d];
    GetName(data, x);
    GetName(data, y);
    GetName(data, z);
    var ax, ay, az := Axis(x, vx), Axis(y, vy), Axis(z, vz);
    assert ReadMember(data, group, x) == Success(vx);
    assert ReadMember(data, group, y) == Success(vy);
    assert ReadMember(data, group, z) == Success(vz);
    CollectAxesOfRepeatFree(data, group, [x, y, z], [ax, ay, az]);
  }

  /** Loading the example file gives the data group's signal and its three
      axes in order, whatever group, signal name and axis names the caller
      passed. */
  lemma ExampleLoad(e: string, d: string, s: string, x: string, y: string, z: string,
                    v: seq<real>, vx: seq<real>, vy: seq<real>, vz: seq<real>, req: Request)
    requires IsName(e) && IsName(d) && IsName(s) && IsName(x) && IsName(y) && IsName(z)
    requires s != x && s != y && s != z && x != y && x != z && y != z
    ensures Load(ExampleFile(e, d, s, x, y, z, v, vx, vy, vz), req)
         == Success(VolumeData(e + "/" + d, v, Some([Axis(x, vx), Axis(y, vy), Axis(z, vz)])))
  {
    ExampleResolves(e, d, s, x, y, z, v, vx, vy, vz, req.group);
    ExampleSelects(e, d, s, x, y, z, v, vx, vy, vz, e + "/" + d, req);
    ExampleAxes(e, d, s, x, y, z, v, vx, vy, vz, e + "/" + d);
  }
}
