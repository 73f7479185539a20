/** The docking main window of phy/gui/gui.py, without Qt: the registry of
    views (unique names, per-class counters, removal when a dock closes), the
    locked status bar, the menu cache and the close protocol. Qt's widgets,
    geometry blobs and the event bus are reduced to plain values: an emitted
    event is appended to `events`, a geometry blob is an opaque string. */
module Gui {
  import opened Common
  import opened GuiState
  import ArrayOps

  /** A view class. Python compares classes by identity; a class is identified
      here by the module that defines it and its `__name__`. */
  datatype ViewClass = ViewClass(home: string, name: string)

  datatype DockArea = LeftArea | RightArea | TopArea | BottomArea
  datatype DockFeature = Movable | Closable | Floatable

  /** The dock widget wrapping one view: its title, feature flags, the area it
      was added to, and the floating flag passed to `add_view` (None: not set). */
  datatype Dock = Dock(title: string, features: set<DockFeature>, area: DockArea, floating: Option<bool>)

  /** A view object. `hasAttach`: it has an `attach(gui)` method;
      `hasActions`: it exposes a non-empty `actions` attribute. */
  class View {
    const cls: ViewClass
    const hasAttach: bool
    const hasActions: bool
    var name: string
    var dock: Option<Dock>

    constructor (cls: ViewClass, hasAttach: bool, hasActions: bool)
      ensures this.cls == cls && this.hasAttach == hasAttach && this.hasActions == hasActions
      ensures name == [] && dock == None
    {
      this.cls, this.hasAttach, this.hasActions := cls, hasAttach, hasActions;
      name, dock := [], None;
    }
  }

  /** A menu of the menu bar. */
  class Menu {
    const title: string
    constructor (title: string)
      ensures this.title == title
    {
      this.title := title;
    }
  }

  /** The events the window emits, in the order they were emitted. */
  datatype Event = ShowEvent | CloseEvent | AddViewEvent(view: View) | CloseViewEvent(view: View)

  /** How `closeEvent` ended: already closed (nothing done), ignored because a
      listener returned False, or accepted. */
  datatype CloseOutcome = AlreadyClosed | Ignored | Accepted

  /** What `restore_geometry_state` hands to Qt: the window geometry and the
      dock state, each only when present and non-empty. */
  datatype Restore = Restore(geometry: Option<Value>, dockState: Option<Value>)

  /** An entry of `view_creator`: a function that returns a new view, or one
      that returns None (as `create_feature_view` does without features). */
  datatype Factory = Produces(cls: ViewClass, hasAttach: bool, hasActions: bool) | ProducesNone

  // ---------------------------------------------------------------------------
  // View names: "Name" for the first view of a class, "Name (k)" afterwards
  // ---------------------------------------------------------------------------

  function DigitChar(d: nat): (c: char)
    requires d < 10
    ensures '0' <= c <= '9' && c as int - '0' as int == d
  {
    (d + '0' as int) as char
  }

  /** `'%d' % n` for a non-negative n. */
  function Decimal(n: nat): (s: string)
    ensures |s| >= 1 && (|s| == 1 <==> n < 10)
    ensures forall i :: 0 <= i < |s| ==> '0' <= s[i] <= '9'
  {
    if n < 10 then [DigitChar(n)] else Decimal(n / 10) + [DigitChar(n % 10)]
  }

  /** Different numbers are written differently. */
  lemma {:induction false} DecimalInjective(m: nat, n: nat)
    requires Decimal(m) == Decimal(n)
    ensures m == n
  {
    if m >= 10 {
      var sm, sn := Decimal(m), Decimal(n);
      assert sm[..|sm| - 1] == Decimal(m / 10) && sn[..|sn| - 1] == Decimal(n / 10);
      DecimalInjective(m / 10, n / 10);
      assert sm[|sm| - 1] == DigitChar(m % 10) && sn[|sn| - 1] == DigitChar(n % 10);
    } else {
      assert Decimal(m)[0] == DigitChar(m) && Decimal(n)[0] == DigitChar(n);
    }
  }

  /** `'%s (%d)' % (basename, index)`. */
  function IndexedName(base: string, index: nat): string
  {
    base + " (" + Decimal(index) + ")"
  }

  /** An indexed name differs from the bare name and from every other index. */
  lemma IndexedNamesDistinct(base: string, i: nat, j: nat)
    ensures IndexedName(base, i) != base
    ensures i != j ==> IndexedName(base, i) != IndexedName(base, j)
  {
    var si, sj := IndexedName(base, i), IndexedName(base, j);
    if si == sj {
      assert si[|base| + 2..|si| - 1] == Decimal(i);
      assert sj[|base| + 2..|sj| - 1] == Decimal(j);
      DecimalInjective(i, j);
    }
  }

  /** A name the window may have given to a view of class `cls` while the
      class counter was below `next`. */
  ghost predicate IssuedName(cls: ViewClass, name: string, next: nat)
  {
    name == cls.name || exists k :: 1 <= k < next && name == IndexedName(cls.name, k)
  }

  /** `_view_class_indices.get(cls, 0)`. */
  function NextOf(indices: map<ViewClass, nat>, cls: ViewClass): nat
  {
    if cls in indices then indices[cls] else 0
  }

  /** The naming invariant over the (class, name) pairs of the tracked views
      and the class counters: every name was issued below its class counter,
      which is at least 1, and names within a class are pairwise distinct. */
  ghost predicate NamesConsistent(e: seq<(ViewClass, string)>, indices: map<ViewClass, nat>)
  {
    && (forall i :: 0 <= i < |e| ==>
          e[i].0 in indices && indices[e[i].0] >= 1 && IssuedName(e[i].0, e[i].1, indices[e[i].0]))
    && (forall i, j :: 0 <= i < j < |e| && e[i].0 == e[j].0 ==> e[i].1 != e[j].1)
  }

  /** Naming a new view as `_set_view_name` does (the bare name when its
      class has no view, else the counter's indexed name) and incrementing
      the counter keeps the invariant, and the new name is not taken. */
  lemma AppendNamed(e: seq<(ViewClass, string)>, indices: map<ViewClass, nat>, cls: ViewClass, n: string)
    requires NamesConsistent(e, indices)
    requires || (n == cls.name && forall i :: 0 <= i < |e| ==> e[i].0 != cls)
             || (NextOf(indices, cls) >= 1 && n == IndexedName(cls.name, NextOf(indices, cls)))
    ensures forall i :: 0 <= i < |e| && e[i].0 == cls ==> e[i].1 != n
    ensures NamesConsistent(e + [(cls, n)], indices[cls := NextOf(indices, cls) + 1])
  {
    var next := NextOf(indices, cls);
    var indices' := indices[cls := next + 1];
    var e' := e + [(cls, n)];
    forall i | 0 <= i < |e| && e[i].0 == cls
      ensures e[i].1 != n
    {
      IndexedNamesDistinct(cls.name, next, 0);
      if e[i].1 != cls.name {
        var k :| 1 <= k < next && e[i].1 == IndexedName(cls.name, k);
        IndexedNamesDistinct(cls.name, k, next);
      }
    }
    forall i | 0 <= i < |e'|
      ensures e'[i].0 in indices' && indices'[e'[i].0] >= 1 && IssuedName(e'[i].0, e'[i].1, indices'[e'[i].0])
    {
      if i < |e| {
        assert e'[i] == e[i];
        if e[i].1 != e[i].0.name {
          var k :| 1 <= k < indices[e[i].0] && e[i].1 == IndexedName(e[i].0.name, k);
        }
      } else if n != cls.name {
        assert n == IndexedName(cls.name, next);
      }
    }
  }

  /** Deleting one view keeps the invariant. */
  lemma RemoveKeepsConsistent(e: seq<(ViewClass, string)>, indices: map<ViewClass, nat>, k: nat)
    requires NamesConsistent(e, indices) && k < |e|
    ensures NamesConsistent(e[..k] + e[k + 1..], indices)
  {
    var r := e[..k] + e[k + 1..];
    assert forall i :: 0 <= i < |r| ==> r[i] == if i < k then e[i] else e[i + 1];
  }

  // ---------------------------------------------------------------------------
  // Queries over a list of views
  // ---------------------------------------------------------------------------

  /** `[view for view in views if view.__class__ == cls]`. */
  function OfClass(vs: seq<View>, cls: ViewClass): (r: seq<View>)
    ensures |r| <= |vs|
    ensures forall i :: 0 <= i < |r| ==> r[i] in vs && r[i].cls == cls
    ensures forall i :: 0 <= i < |vs| && vs[i].cls == cls ==> vs[i] in r
  {
    if vs == [] then []
    else OfClass(vs[..|vs| - 1], cls) + (if vs[|vs| - 1].cls == cls then [vs[|vs| - 1]] else [])
  }

  /** The filter keeps insertion order: it distributes over concatenation, and
      on a single view it keeps the view exactly when the class matches. */
  lemma {:induction false} OfClassAppend(a: seq<View>, b: seq<View>, cls: ViewClass)
    ensures OfClass(a + b, cls) == OfClass(a, cls) + OfClass(b, cls)
    ensures |b| == 1 ==> OfClass(b, cls) == if b[0].cls == cls then b else []
    decreases |b|
  {
    if b == [] {
      assert a + b == a;
    } else {
      var b0, last := b[..|b| - 1], b[|b| - 1];
      assert (a + b)[..|a + b| - 1] == a + b0;
      OfClassAppend(a, b0, cls);
      assert b[..|b| - 1] == b0;
      if |b| == 1 {
        assert b0 == [];
      }
    }
  }

  /** One more view of the list adds it to its own class and to no other. */
  lemma OfClassStep(vs: seq<View>, i: nat)
    requires i < |vs|
    ensures forall d :: OfClass(vs[..i + 1], d) == OfClass(vs[..i], d) + (if vs[i].cls == d then [vs[i]] else [])
  {
    assert vs[..i + 1][..i] == vs[..i];
  }

  /** The (class, name) pair of each view, in list order. */
  ghost function Entries(vs: seq<View>): (e: seq<(ViewClass, string)>)
    reads vs`name
    ensures |e| == |vs|
    ensures forall i :: 0 <= i < |vs| ==> e[i] == (vs[i].cls, vs[i].name)
  {
    if vs == [] then [] else Entries(vs[..|vs| - 1]) + [(vs[|vs| - 1].cls, vs[|vs| - 1].name)]
  }

  /** The registry invariant: no view is tracked twice, and the names of the
      tracked views agree with the class counters. */
  ghost predicate Registry(vs: seq<View>, indices: map<ViewClass, nat>)
    reads vs`name
  {
    && (forall i, j :: 0 <= i < j < |vs| ==> vs[i] != vs[j])
    && NamesConsistent(Entries(vs), indices)
  }

  /** Appending a view appends its (class, name) pair. */
  lemma EntriesAppend(vs: seq<View>, v: View)
    ensures Entries(vs + [v]) == Entries(vs) + [(v.cls, v.name)]
  {
    assert (vs + [v])[..|vs|] == vs;
  }

  /** Appending a view that is not tracked yet, under the name
      `_set_view_name` gives it, and incrementing its class counter keeps the
      registry invariant. */
  lemma RegistryAppend(vs: seq<View>, indices: map<ViewClass, nat>, view: View, n: string)
    requires Registry(vs, indices) && view !in vs
    requires || (n == view.cls.name && OfClass(vs, view.cls) == [])
             || (NextOf(indices, view.cls) >= 1 && n == IndexedName(view.cls.name, NextOf(indices, view.cls)))
    ensures NamesConsistent(Entries(vs) + [(view.cls, n)], indices[view.cls := NextOf(indices, view.cls) + 1])
    ensures forall i, j :: 0 <= i < j < |vs + [view]| ==> (vs + [view])[i] != (vs + [view])[j]
  {
    var e := Entries(vs);
    if OfClass(vs, view.cls) == [] {
      assert forall i :: 0 <= i < |e| ==> e[i].0 == vs[i].cls;
    }
    AppendNamed(e, indices, view.cls, n);
    var vs' := vs + [view];
    assert forall i :: 0 <= i < |vs| ==> vs'[i] == vs[i] && vs'[i] != view;
  }

  /** The distinct classes of `vs` in order of first occurrence: the keys of
      the dictionary `view_count` builds, in its own key order. */
  function Classes(vs: seq<View>): (cs: seq<ViewClass>)
    ensures forall c :: c in cs <==> OfClass(vs, c) != []
    ensures forall i, j :: 0 <= i < j < |cs| ==> cs[i] != cs[j]
  {
    if vs == [] then []
    else
      var cs := Classes(vs[..|vs| - 1]);
      var c := vs[|vs| - 1].cls;
      assert forall d :: d != c ==> OfClass(vs, d) == OfClass(vs[..|vs| - 1], d);
      assert vs[|vs| - 1] in OfClass(vs, c);
      if c in cs then cs else cs + [c]
  }

  /** The sum of the per-class counts over the classes `cs`. */
  function SumCounts(vs: seq<View>, cs: seq<ViewClass>): nat
  {
    if cs == [] then 0 else SumCounts(vs, cs[..|cs| - 1]) + |OfClass(vs, cs[|cs| - 1])|
  }

  /** The sum of a dictionary's values over the keys `cs`. */
  function MapTotal(m: map<ViewClass, nat>, cs: seq<ViewClass>): nat
  {
    if cs == [] then 0 else MapTotal(m, cs[..|cs| - 1]) + (if cs[|cs| - 1] in m then m[cs[|cs| - 1]] else 0)
  }

  /** A dictionary holding each class's number of views sums, over any keys,
      to the sum of those classes' counts. */
  lemma {:induction false} MapTotalCounts(m: map<ViewClass, nat>, vs: seq<View>, cs: seq<ViewClass>)
    requires forall c :: c in cs ==> c in m && m[c] == |OfClass(vs, c)|
    ensures MapTotal(m, cs) == SumCounts(vs, cs)
  {
    if cs != [] {
      MapTotalCounts(m, vs, cs[..|cs| - 1]);
    }
  }

  /** Appending one view adds, to the sum over `cs`, one per occurrence of its class in `cs`. */
  lemma {:induction false} SumCountsAppend(vs: seq<View>, v: View, cs: seq<ViewClass>)
    ensures SumCounts(vs + [v], cs) == SumCounts(vs, cs) + ArrayOps.Count(cs, v.cls)
  {
    if cs != [] {
      var init, c := cs[..|cs| - 1], cs[|cs| - 1];
      SumCountsAppend(vs, v, init);
      assert (vs + [v])[..|vs + [v]| - 1] == vs;
    }
  }

  /** The values of `view_count` add up to the number of tracked views. */
  lemma {:induction false} ViewCountsSum(vs: seq<View>)
    ensures SumCounts(vs, Classes(vs)) == |vs|
  {
    if vs != [] {
      var init, v := vs[..|vs| - 1], vs[|vs| - 1];
      assert vs == init + [v];
      var cs := Classes(init);
      ViewCountsSum(init);
      SumCountsAppend(init, v, cs);
      if v.cls in cs {
        DistinctCountOne(cs, v.cls);
      } else {
        assert Classes(vs) == cs + [v.cls];
        assert (cs + [v.cls])[..|cs|] == cs;
        assert ArrayOps.Count(cs, v.cls) == 0;
        assert OfClass(init, v.cls) == [];
      }
    }
  }

  lemma {:induction false} DistinctCountOne(cs: seq<ViewClass>, c: ViewClass)
    requires c in cs
    requires forall i, j :: 0 <= i < j < |cs| ==> cs[i] != cs[j]
    ensures ArrayOps.Count(cs, c) == 1
  {
    var init := cs[..|cs| - 1];
    if cs[|cs| - 1] == c {
      assert c !in init;
    } else {
      assert c in init;
      DistinctCountOne(init, c);
    }
  }

  /** The position of the first occurrence of `v` (`list.index`). */
  function Position(vs: seq<View>, v: View): (k: nat)
    requires v in vs
    ensures k < |vs| && vs[k] == v
    ensures forall j :: 0 <= j < k ==> vs[j] != v
  {
    if vs[0] == v then 0 else 1 + Position(vs[1..], v)
  }

  /** `list.remove(v)`: the list without the first occurrence of `v`. */
  function Remove(vs: seq<View>, v: View): (r: seq<View>)
    requires v in vs
    ensures |r| == |vs| - 1
  {
    vs[..Position(vs, v)] + vs[Position(vs, v) + 1..]
  }

  /** Removing a view from a list without repetitions deletes exactly that
      view and keeps the list free of repetitions. */
  lemma RemoveExactly(vs: seq<View>, v: View)
    requires v in vs
    requires forall i, j :: 0 <= i < j < |vs| ==> vs[i] != vs[j]
    ensures forall u :: u in Remove(vs, v) <==> u in vs && u != v
    ensures var r := Remove(vs, v); forall i, j :: 0 <= i < j < |r| ==> r[i] != r[j]
  {
    var k := Position(vs, v);
    var r := Remove(vs, v);
    assert forall i :: 0 <= i < |r| ==> r[i] == if i < k then vs[i] else vs[i + 1];
    forall u ensures u in r <==> u in vs && u != v {
      if u in vs && u != v {
        var j :| 0 <= j < |vs| && vs[j] == u;
        assert r[if j < k then j else j - 1] == u;
      }
    }
  }

  /** Dropping a tracked view keeps the registry invariant. */
  lemma RegistryRemove(vs: seq<View>, indices: map<ViewClass, nat>, v: View)
    requires Registry(vs, indices) && v in vs
    ensures Registry(Remove(vs, v), indices)
  {
    RemoveExactly(vs, v);
    var k := Position(vs, v);
    var e := Entries(vs);
    RemoveKeepsConsistent(e, indices, k);
    var r := Remove(vs, v);
    assert r == vs[..k] + vs[k + 1..];
    assert Entries(r) == e[..k] + e[k + 1..];
  }

  /** Closing a view's dock lowers the count of its class by one and leaves
      every other class's count as it was. */
  lemma RemoveCount(vs: seq<View>, v: View, cls: ViewClass)
    requires v in vs
    ensures |OfClass(Remove(vs, v), cls)| == |OfClass(vs, cls)| - (if v.cls == cls then 1 else 0)
  {
    var k := Position(vs, v);
    assert vs == vs[..k] + [v] + vs[k + 1..];
    OfClassAppend(vs[..k] + [v], vs[k + 1..], cls);
    OfClassAppend(vs[..k], [v], cls);
    OfClassAppend(vs[..k], vs[k + 1..], cls);
  }

  // ---------------------------------------------------------------------------
  // Docks, titles, geometry
  // ---------------------------------------------------------------------------

  /** `_get_dock_position`: None and the empty string mean 'right'; any other
      unknown name raises KeyError (None here). */
  function DockPosition(position: Option<string>): (area: Option<DockArea>)
    ensures position.None? || position.value == "" || position.value == "right" ==> area == Some(RightArea)
    ensures position == Some("left") ==> area == Some(LeftArea)
    ensures position == Some("top") ==> area == Some(TopArea)
    ensures position == Some("bottom") ==> area == Some(BottomArea)
    ensures area.None? <==> position.Some? && position.value !in {"", "left", "right", "top", "bottom"}
  {
    var p := if position.None? || position.value == "" then "right" else position.value;
    if p == "left" then Some(LeftArea)
    else if p == "right" then Some(RightArea)
    else if p == "top" then Some(TopArea)
    else if p == "bottom" then Some(BottomArea)
    else None
  }

  /** `_create_dock_widget` feature flags: always movable, closable and
      floatable on request. */
  function DockFeatures(closable: bool, floatable: bool): (fs: set<DockFeature>)
    ensures Movable in fs
    ensures Closable in fs <==> closable
    ensures Floatable in fs <==> floatable
  {
    {Movable} + (if closable then {Closable} else {}) + (if floatable then {Floatable} else {})
  }

  /** `_set_name`: the window title is the name, followed by " - subtitle"
      when a non-empty subtitle is given. */
  function WindowTitle(name: string, subtitle: Option<string>): (title: string)
    ensures subtitle.None? || subtitle.value == [] ==> title == name
    ensures subtitle.Some? && subtitle.value != [] ==> title == name + " - " + subtitle.value
  {
    if subtitle.None? || subtitle.value == [] then name else name + " - " + subtitle.value
  }

  /** `save_geometry_state`: the window geometry and the dock state blobs. */
  function SavedGeometry(geometry: string, dockState: string): Value
  {
    Dict(map["geometry" := Leaf(geometry), "state" := Leaf(dockState)])
  }

  /** `restore_geometry_state(gs)`: nothing for a missing or empty `gs`;
      otherwise the non-empty `geometry` and `state` entries. A non-empty
      leaf has no `get` method (AttributeError). */
  function RestoreGeometryState(gs: Option<Value>): (r: Result<Restore>)
    ensures gs.None? || !Truthy(gs.value) ==> r == Ok(Restore(None, None))
    ensures r.Err? <==> gs.Some? && gs.value.Leaf? && Truthy(gs.value)
    ensures r.Ok? && r.value.geometry.Some? ==>
      gs.Some? && gs.value.Dict? && "geometry" in gs.value.entries
      && r.value.geometry.value == gs.value.entries["geometry"] && Truthy(r.value.geometry.value)
    ensures r.Ok? && r.value.dockState.Some? ==>
      gs.Some? && gs.value.Dict? && "state" in gs.value.entries
      && r.value.dockState.value == gs.value.entries["state"] && Truthy(r.value.dockState.value)
  {
    if gs.None? || !Truthy(gs.value) then Ok(Restore(None, None))
    else match gs.value
      case Leaf(_) => Err(AttributeError)
      case Dict(d) =>
        Ok(Restore(if "geometry" in d && Truthy(d["geometry"]) then Some(d["geometry"]) else None,
                   if "state" in d && Truthy(d["state"]) then Some(d["state"]) else None))
  }

  /** What the window stores on close is what it restores on the next show:
      both blobs come back when they are non-empty. */
  lemma GeometryRoundTrip(geometry: string, dockState: string)
    requires geometry != [] && dockState != []
    ensures RestoreGeometryState(Some(SavedGeometry(geometry, dockState)))
         == Ok(Restore(Some(Leaf(geometry)), Some(Leaf(dockState))))
  {
    var d := map["geometry" := Leaf(geometry), "state" := Leaf(dockState)];
    assert "geometry" in d && Truthy(d["geometry"]);
  }

  /** `False in res`: some close listener returned False. */
  predicate Vetoed(listenerResults: seq<Option<bool>>)
  {
    Some(false) in listenerResults
  }

  // ---------------------------------------------------------------------------
  // create_views: which views a plan adds, and whether it fails
  // ---------------------------------------------------------------------------

  /** Whether `_create_and_add_view` raises for an item: a factory that
      returns None makes `add_view` set a name on None (AttributeError). */
  predicate ItemFails(creator: map<ViewClass, Factory>, cls: ViewClass, n: int)
  {
    n > 0 && cls in creator && creator[cls].ProducesNone?
  }

  /** How many views one item of `create_views` adds to the window: the
      first view, and the n - 1 extra ones only when the first view has
      actions; views with an `attach` method add themselves, not the window. */
  function ItemAdds(creator: map<ViewClass, Factory>, cls: ViewClass, n: int): nat
  {
    if n <= 0 || cls !in creator || creator[cls].ProducesNone? || creator[cls].hasAttach then 0
    else if creator[cls].hasActions then n
    else 1
  }

  /** `after` is `before` followed by views of the classes `cs`, in order. */
  predicate AppendsClasses(after: seq<View>, before: seq<View>, cs: seq<ViewClass>)
  {
    && |after| == |before| + |cs|
    && (forall i :: 0 <= i < |before| ==> after[i] == before[i])
    && (forall i :: |before| <= i < |after| ==> after[i].cls == cs[i - |before|])
  }

  /** Appending one view, or none. */
  lemma AppendsOne(before: seq<View>, v: View, add: bool)
    ensures AppendsClasses(if add then before + [v] else before, before, if add then [v.cls] else [])
  {
  }

  /** Two appends in a row append both lists of classes. */
  lemma AppendsTrans(a: seq<View>, b: seq<View>, c: seq<View>, cs: seq<ViewClass>, ds: seq<ViewClass>)
    requires AppendsClasses(b, a, cs) && AppendsClasses(c, b, ds)
    ensures AppendsClasses(c, a, cs + ds)
  {
    forall i | |a| <= i < |c|
      ensures c[i].cls == (cs + ds)[i - |a|]
    {
      if i < |b| {
        assert c[i] == b[i];
      }
    }
  }

  /** `k` copies of one class. */
  function Repeat(c: ViewClass, k: nat): seq<ViewClass>
  {
    seq(k, _ => c)
  }

  /** The classes of the views one item of `create_views` adds: as many as
      `ItemAdds` says, each of the class its factory makes. */
  function ItemClasses(creator: map<ViewClass, Factory>, cls: ViewClass, n: int): seq<ViewClass>
  {
    if cls in creator && creator[cls].Produces? then Repeat(creator[cls].cls, ItemAdds(creator, cls, n)) else []
  }

  /** One more call of `_create_and_add_view` for a class whose factory
      makes views: one more view of its class, unless it attaches itself. */
  lemma MoreStep(creator: map<ViewClass, Factory>, cls: ViewClass, base: seq<View>, before: seq<View>, after: seq<View>, j: nat)
    requires cls in creator && creator[cls].Produces?
    requires AppendsClasses(before, base, Repeat(creator[cls].cls, if creator[cls].hasAttach then 0 else j))
    requires AppendsClasses(after, before, ItemClasses(creator, cls, 1))
    ensures AppendsClasses(after, base, Repeat(creator[cls].cls, if creator[cls].hasAttach then 0 else j + 1))
  {
    var c := creator[cls].cls;
    var k := if creator[cls].hasAttach then 0 else j;
    AppendsTrans(base, before, after, Repeat(c, k), ItemClasses(creator, cls, 1));
    assert Repeat(c, k) + ItemClasses(creator, cls, 1) == Repeat(c, if creator[cls].hasAttach then 0 else j + 1);
  }

  /** What one item adds: the first view's class (none when the factory is
      missing, returns None or makes views that attach themselves), then,
      when the views have actions, the classes of the `n - 1` extra views. */
  lemma ItemOutcome(creator: map<ViewClass, Factory>, cls: ViewClass, n: int, before: seq<View>, mid: seq<View>, after: seq<View>)
    requires n > 0
    requires AppendsClasses(mid, before, ItemClasses(creator, cls, 1))
    requires cls in creator && creator[cls].Produces? && creator[cls].hasActions ==>
      AppendsClasses(after, mid, Repeat(creator[cls].cls, if creator[cls].hasAttach then 0 else n - 1))
    requires !(cls in creator && creator[cls].Produces? && creator[cls].hasActions) ==> after == mid
    ensures AppendsClasses(after, before, ItemClasses(creator, cls, n))
  {
    if cls in creator && creator[cls].Produces? && creator[cls].hasActions {
      var c, k := creator[cls].cls, if creator[cls].hasAttach then 0 else n - 1;
      AppendsTrans(before, mid, after, ItemClasses(creator, cls, 1), Repeat(c, k));
      assert ItemClasses(creator, cls, 1) + Repeat(c, k) == ItemClasses(creator, cls, n);
    } else if cls in creator && creator[cls].Produces? {
      assert ItemClasses(creator, cls, 1) == ItemClasses(creator, cls, n);
    }
  }

  /** Whether some item of the plan fails. */
  predicate PlanFails(creator: map<ViewClass, Factory>, items: seq<(ViewClass, int)>)
  {
    items != [] &&
    (PlanFails(creator, items[..|items| - 1]) || ItemFails(creator, items[|items| - 1].0, items[|items| - 1].1))
  }

  /** The classes of the views added by the items up to the first failing
      one, in the order they are added. */
  function PlanClasses(creator: map<ViewClass, Factory>, items: seq<(ViewClass, int)>): seq<ViewClass>
  {
    if items == [] then []
    else
      var init, last := items[..|items| - 1], items[|items| - 1];
      if PlanFails(creator, init) then PlanClasses(creator, init)
      else PlanClasses(creator, init) + ItemClasses(creator, last.0, last.1)
  }

  /** Item `item` of a plan has a factory that makes views of class `c`
      which the window adds itself. */
  predicate ItemMakes(creator: map<ViewClass, Factory>, item: (ViewClass, int), c: ViewClass)
  {
    item.1 >= 1 && item.0 in creator && creator[item.0].Produces? && !creator[item.0].hasAttach && creator[item.0].cls == c
  }

  /** Every view `create_views` adds is of the class some item's factory
      makes, for an item asking for at least one view. */
  lemma {:induction false} PlanClassesFromItems(creator: map<ViewClass, Factory>, items: seq<(ViewClass, int)>)
    ensures forall c :: c in PlanClasses(creator, items) ==> exists k :: 0 <= k < |items| && ItemMakes(creator, items[k], c)
  {
    if items != [] {
      var init, last := items[..|items| - 1], items[|items| - 1];
      PlanClassesFromItems(creator, init);
      forall c | c in PlanClasses(creator, items)
        ensures exists k :: 0 <= k < |items| && ItemMakes(creator, items[k], c)
      {
        if c in PlanClasses(creator, init) {
          var k :| 0 <= k < |init| && ItemMakes(creator, init[k], c);
          assert items[k] == init[k];
        } else {
          assert c in ItemClasses(creator, last.0, last.1);
          assert ItemMakes(creator, items[|items| - 1], c);
        }
      }
    }
  }

  /** One more item of a plan that has not failed yet. */
  lemma PlanStep(creator: map<ViewClass, Factory>, items: seq<(ViewClass, int)>, k: nat)
    requires k < |items| && !PlanFails(creator, items[..k])
    ensures PlanFails(creator, items[..k + 1]) == ItemFails(creator, items[k].0, items[k].1)
    ensures PlanClasses(creator, items[..k + 1]) == PlanClasses(creator, items[..k]) + ItemClasses(creator, items[k].0, items[k].1)
  {
    assert items[..k + 1][..k] == items[..k];
  }

  /** Once a prefix of the plan fails, the rest of the plan adds nothing. */
  lemma {:induction false} PlanStopsAtFailure(creator: map<ViewClass, Factory>, items: seq<(ViewClass, int)>, k: nat)
    requires k <= |items| && PlanFails(creator, items[..k])
    ensures PlanFails(creator, items) && PlanClasses(creator, items) == PlanClasses(creator, items[..k])
    decreases |items| - k
  {
    if k < |items| {
      assert items[..k + 1][..k] == items[..k];
      PlanStopsAtFailure(creator, items, k + 1);
    } else {
      assert items[..k] == items;
    }
  }

  // ---------------------------------------------------------------------------
  // The main window
  // ---------------------------------------------------------------------------

  class GUI {
    const name: string
    const title: string
    const state: GUIState
    /** `view_creator`: {view class: function that creates a view}. */
    const viewCreator: map<ViewClass, Factory>
    /** `_views`: the tracked views, in the order they were added. */
    var views: seq<View>
    /** `_view_class_indices`: the next usable index per class (0 when absent). */
    var classIndices: map<ViewClass, nat>
    var lockStatus: bool
    var statusMessage: string
    /** `_menus`: the menu of each name, and the menu bar in creation order. */
    var menus: map<string, Menu>
    var menuBar: seq<Menu>
    var closed: bool
    var events: seq<Event>

    /** The registry invariant: no view is tracked twice, and the names and
        class counters satisfy `NamesConsistent`. */
    ghost predicate Valid()
      reads this`views, this`classIndices, views`name
    {
      Registry(views, classIndices)
    }

    constructor (name: Option<string>, subtitle: Option<string>, viewCreator: map<ViewClass, Factory>,
                 configDir: Option<string>, defaultDir: string, extra: map<string, Value>, file: StateFile)
      requires NameKey !in extra && ConfigDirKey !in extra
      ensures Valid()
      ensures this.name == (if name.Some? then name.value else "GUI")
      ensures title == WindowTitle(this.name, subtitle) && this.viewCreator == viewCreator
      ensures views == [] && classIndices == map[] && events == []
      ensures !lockStatus && statusMessage == [] && menus == map[] && menuBar == [] && !closed
      ensures fresh(state) && state.written == []
      ensures state.entries == InitialEntries(this.name, ConfigDir(configDir, defaultDir), extra, file)
    {
      var n := if name.Some? then name.value else "GUI";
      this.name := n;
      title := WindowTitle(n, subtitle);
      this.viewCreator := viewCreator;
      state := new GUIState(n, configDir, defaultDir, extra, file);
      views, classIndices, events := [], map[], [];
      lockStatus, statusMessage, menus, menuBar, closed := false, [], map[], [], false;
    }

    /** `_view_class_indices.get(cls, 0)`. */
    function NextIndex(cls: ViewClass): nat
      reads this
    {
      NextOf(classIndices, cls)
    }

    /** `list_views(cls)`: the tracked views of exactly that class, in the
        order they were added. */
    function ListViews(cls: ViewClass): (r: seq<View>)
      reads this
      ensures forall i :: 0 <= i < |r| ==> r[i] in views && r[i].cls == cls
      ensures forall i :: 0 <= i < |views| && views[i].cls == cls ==> views[i] in r
    {
      OfClass(views, cls)
    }

    /** `get_view(cls, index)`: the index-th tracked view of the class, None
        past the end; a negative index counts from the end as in Python, and
        raises IndexError below minus the count. */
    function GetView(cls: ViewClass, index: int): (r: Result<Option<View>>)
      reads this
      ensures var vs := OfClass(views, cls);
        && (0 <= index < |vs| ==> r == Ok(Some(vs[index])))
        && (index >= |vs| ==> r == Ok(None))
        && (-|vs| <= index < 0 ==> r == Ok(Some(vs[|vs| + index])))
        && (index < -|vs| ==> r == Err(IndexError))
      ensures r.Ok? && r.value.Some? ==> r.value.value in views && r.value.value.cls == cls
    {
      var vs := ListViews(cls);
      if index <= |vs| - 1 then
        if index >= 0 then Ok(Some(vs[index]))
        else if index >= -|vs| then Ok(Some(vs[|vs| + index]))
        else Err(IndexError)
      else Ok(None)
    }

    /** The name `_set_view_name` gives `view`: AssertionError for a view
        already tracked, the bare class name when no view of its class is
        tracked, and otherwise "Name (k)" with k the class counter, which
        must be at least 1. */
    function NameFor(view: View): (r: Result<string>)
      reads this
      ensures r.Err? <==> view in views || (OfClass(views, view.cls) != [] && NextIndex(view.cls) < 1)
      ensures r.Err? ==> r.error == AssertionError
      ensures r.Ok? ==> (r.value == view.cls.name <==> OfClass(views, view.cls) == [])
      ensures r.Ok? && OfClass(views, view.cls) != [] ==> r.value == IndexedName(view.cls.name, NextIndex(view.cls))
    {
      if view in views then Err(AssertionError)
      else if ListViews(view.cls) == [] then Ok(view.cls.name)
      else if NextIndex(view.cls) < 1 then Err(AssertionError)
      else
        IndexedNamesDistinct(view.cls.name, NextIndex(view.cls), 0);
        Ok(IndexedName(view.cls.name, NextIndex(view.cls)))
    }

    /** In a consistent window, a view that is not yet tracked always gets a
        name (the `index >= 1` assertion cannot fail), and no tracked view of
        its class already has that name. */
    lemma FreshNameIsUnique(view: View)
      requires Valid() && view !in views
      ensures NameFor(view).Ok?
      ensures forall i :: 0 <= i < |views| && views[i].cls == view.cls ==> views[i].name != NameFor(view).value
    {
      var vs := OfClass(views, view.cls);
      var e := Entries(views);
      if vs != [] {
        var i :| 0 <= i < |views| && views[i] == vs[0];
        assert e[i].0 == view.cls;
      }
      AppendNamed(e, classIndices, view.cls, NameFor(view).value);
    }

    /** `view_count`: {class: number of tracked views of that class}, for
        exactly the classes that have a tracked view. */
    method ViewCount() returns (vc: map<ViewClass, nat>)
      ensures forall c :: c in vc <==> OfClass(views, c) != []
      ensures forall c :: c in vc ==> vc[c] == |OfClass(views, c)|
      ensures MapTotal(vc, Classes(views)) == |views|
    {
      vc := map[];
      var i := 0;
      while i < |views|
        invariant 0 <= i <= |views|
        invariant forall c :: c in vc <==> OfClass(views[..i], c) != []
        invariant forall c :: c in vc ==> vc[c] == |OfClass(views[..i], c)|
      {
        var c := views[i].cls;
        OfClassStep(views, i);
        var vc1 := vc[c := (if c in vc then vc[c] else 0) + 1];
        forall d
          ensures d in vc1 <==> OfClass(views[..i + 1], d) != []
          ensures d in vc1 ==> vc1[d] == |OfClass(views[..i + 1], d)|
        {
          if d == c {
            assert OfClass(views[..i + 1], d) == OfClass(views[..i], d) + [views[i]];
          }
        }
        vc, i := vc1, i + 1;
      }
      assert views[..i] == views;
      MapTotalCounts(vc, views, Classes(views));
      ViewCountsSum(views);
    }

    /** `_set_view_name`: give `view` the name `NameFor` picks. */
    method SetViewName(view: View) returns (r: Result<string>)
      requires Valid()
      modifies view`name
      ensures Valid()
      ensures r == old(NameFor(view))
      ensures r.Err? <==> view in views
      ensures r.Ok? ==> view.name == r.value
      ensures r.Ok? ==>
        || (r.value == view.cls.name && OfClass(views, view.cls) == [])
        || (NextOf(classIndices, view.cls) >= 1 && r.value == IndexedName(view.cls.name, NextOf(classIndices, view.cls)))
      ensures r.Err? ==> view.name == old(view.name)
    {
      if view !in views {
        FreshNameIsUnique(view);
      }
      r := NameFor(view);
      if r.Ok? {
        view.name := r.value;
      }
    }

    /** `add_view`: name the view, append it and increment its class
        counter by one, then wrap it in a dock at the requested area and emit
        `add_view`. A view already tracked fails the assertion and changes
        nothing; an unknown position raises KeyError only after the view was
        named, appended and counted, so no dock is made and nothing is emitted. */
    method AddView(view: View, position: Option<string>, closable: bool, floatable: bool, floating: Option<bool>)
      returns (r: Result<Dock>)
      requires Valid()
      modifies this`views, this`classIndices, this`events, view`name, view`dock
      ensures Valid()
      ensures old(view in views) ==>
        && r == Err(AssertionError) && views == old(views) && classIndices == old(classIndices)
        && events == old(events) && view.name == old(view.name) && view.dock == old(view.dock)
      ensures old(view !in views) ==>
        && old(NameFor(view)) == Ok(view.name)
        && views == old(views) + [view]
        && classIndices == old(classIndices)[view.cls := NextOf(old(classIndices), view.cls) + 1]
      ensures old(view !in views) && DockPosition(position).None? ==>
        r == Err(KeyError) && events == old(events) && view.dock == old(view.dock)
      ensures old(view !in views) && DockPosition(position).Some? ==>
        && r == Ok(Dock(view.name, DockFeatures(closable, floatable), DockPosition(position).value, floating))
        && view.dock == Some(r.value) && events == old(events) + [AddViewEvent(view)]
    {
      if view in views {
        return Err(AssertionError);
      }
      Register(view);
      r := DockView(view, position, closable, floatable, floating);
    }

    /** The part of `add_view` after the assertion: give the view the name
        `_set_view_name` picks, append it and increment its class counter. */
    method Register(view: View)
      requires Valid() && view !in views
      modifies this`views, this`classIndices, view`name
      ensures Valid()
      ensures old(NameFor(view)) == Ok(view.name)
      ensures views == old(views) + [view]
      ensures classIndices == old(classIndices)[view.cls := NextOf(old(classIndices), view.cls) + 1]
    {
      FreshNameIsUnique(view);
      var name := NameFor(view).value;
      var views1, indices1 := views + [view], classIndices[view.cls := NextOf(classIndices, view.cls) + 1];
      ghost var views0, e := views, Entries(views);
      RegistryAppend(views, classIndices, view, name);
      view.name := name;
      views, classIndices := views1, indices1;
      assert Entries(views0) == e;
      EntriesAppend(views0, view);
      assert Entries(views) == e + [(view.cls, name)];
      assert NamesConsistent(Entries(views), classIndices);
      assert Registry(views, classIndices);
    }

    /** The end of `add_view`: wrap the named view in a dock at the requested
        area and emit `add_view`; an unknown position raises KeyError before
        any dock is made. */
    method DockView(view: View, position: Option<string>, closable: bool, floatable: bool, floating: Option<bool>)
      returns (r: Result<Dock>)
      requires Valid()
      modifies this`events, view`dock
      ensures Valid()
      ensures DockPosition(position).None? ==>
        r == Err(KeyError) && events == old(events) && view.dock == old(view.dock)
      ensures DockPosition(position).Some? ==>
        && r == Ok(Dock(view.name, DockFeatures(closable, floatable), DockPosition(position).value, floating))
        && view.dock == Some(r.value) && events == old(events) + [AddViewEvent(view)]
    {
      var area := DockPosition(position);
      if area.None? {
        return Err(KeyError);
      }
      var dock := Dock(view.name, DockFeatures(closable, floatable), area.value, floating);
      view.dock := Some(dock);
      events := events + [AddViewEvent(view)];
      r := Ok(dock);
    }


    /** The handler connected to a view's dock: closing the dock removes the
        view from the list (ValueError when it is not there) and emits
        `close_view`. Class counters are left as they are. */
    method OnCloseDockWidget(view: View) returns (r: Result<()>)
      requires Valid()
      modifies this`views, this`events
      ensures Valid()
      ensures old(view !in views) ==> r == Err(ValueError) && views == old(views) && events == old(events)
      ensures old(view in views) ==>
        && r == Ok(()) && views == Remove(old(views), view)
        && events == old(events) + [CloseViewEvent(view)]
      ensures forall u :: u in views <==> u in old(views) && u != view
    {
      if view !in views {
        return Err(ValueError);
      }
      RemoveExactly(views, view);
      RegistryRemove(views, classIndices, view);
      var r0, events1 := Remove(views, view), events + [CloseViewEvent(view)];
      ghost var e := Entries(r0);
      views, events := r0, events1;
      assert Entries(r0) == e;
      assert Registry(views, classIndices);
      r := Ok(());
    }

    /** `_create_and_add_view(cls)`: nothing for a class without a factory;
        a factory returning None raises AttributeError; otherwise a new view,
        which attaches itself when it has `attach` (code outside this
        window, so the registry is left as it is) or else is added at the
        default position. */
    method CreateAndAddView(cls: ViewClass) returns (r: Result<Option<View>>)
      requires Valid()
      modifies this`views, this`classIndices, this`events
      ensures Valid()
      ensures r.Err? <==> cls in viewCreator && viewCreator[cls].ProducesNone?
      ensures r.Err? ==> r.error == AttributeError
      ensures r == Ok(None) <==> cls !in viewCreator
      ensures r.Ok? && r.value.Some? ==>
        var v := r.value.value;
        && fresh(v) && v.cls == viewCreator[cls].cls
        && v.hasAttach == viewCreator[cls].hasAttach && v.hasActions == viewCreator[cls].hasActions
        && views == if v.hasAttach then old(views) else old(views) + [v]
      ensures r.Err? || r == Ok(None) ==> views == old(views)
      ensures AppendsClasses(views, old(views), ItemClasses(viewCreator, cls, 1))
    {
      if cls !in viewCreator {
        return Ok(None);
      }
      var f := viewCreator[cls];
      if f.ProducesNone? {
        return Err(AttributeError);
      }
      assert ItemClasses(viewCreator, cls, 1) == if f.hasAttach then [] else [f.cls];
      var v := new View(f.cls, f.hasAttach, f.hasActions);
      if !f.hasAttach {
        var added := AddView(v, None, true, true, None);
      }
      AppendsOne(old(views), v, !f.hasAttach);
      r := Ok(Some(v));
    }

    /** The extra views of one `create_views` item: `count` more calls to
        `_create_and_add_view` for a class whose factory returns views. */
    method CreateMoreViews(cls: ViewClass, count: nat)
      requires Valid() && cls in viewCreator && viewCreator[cls].Produces?
      modifies this`views, this`classIndices, this`events
      ensures Valid()
      ensures AppendsClasses(views, old(views), Repeat(viewCreator[cls].cls, if viewCreator[cls].hasAttach then 0 else count))
    {
      var c := viewCreator[cls].cls;
      var j := 0;
      while j < count
        invariant 0 <= j <= count
        invariant Valid()
        invariant AppendsClasses(views, old(views), Repeat(c, if viewCreator[cls].hasAttach then 0 else j))
      {
        ghost var before := views;
        var extra := CreateAndAddView(cls);
        MoreStep(viewCreator, cls, old(views), before, views, j);
        j := j + 1;
      }
    }

    /** One item (class, n) of `create_views`: nothing when n <= 0;
        otherwise a first view, and n - 1 more when it has actions. */
    method CreateItem(cls: ViewClass, n: int) returns (r: Result<()>)
      requires Valid()
      modifies this`views, this`classIndices, this`events
      ensures Valid()
      ensures r.Err? <==> ItemFails(viewCreator, cls, n)
      ensures r.Err? ==> r.error == AttributeError
      ensures AppendsClasses(views, old(views), ItemClasses(viewCreator, cls, n))
    {
      if n <= 0 {
        return Ok(());
      }
      var first := CreateAndAddView(cls);
      if first.Err? {
        return Err(first.error);
      }
      r := Ok(());
      ghost var mid := views;
      if first.value.Some? && first.value.value.hasActions {
        CreateMoreViews(cls, n - 1);
      }
      ItemOutcome(viewCreator, cls, n, old(views), mid, views);
    }

    /** `create_views(view_count)`: for each (class, n) with n >= 1, create a
        first view, and when it has actions n - 1 more; stops at the first
        factory that returns None. The views added are appended. */
    method CreateViews(viewCount: seq<(ViewClass, int)>) returns (r: Result<()>)
      requires Valid()
      modifies this`views, this`classIndices, this`events
      ensures Valid()
      ensures r.Err? <==> PlanFails(viewCreator, viewCount)
      ensures r.Err? ==> r.error == AttributeError
      ensures AppendsClasses(views, old(views), PlanClasses(viewCreator, viewCount))
    {
      var k := 0;
      while k < |viewCount|
        invariant 0 <= k <= |viewCount|
        invariant Valid()
        invariant !PlanFails(viewCreator, viewCount[..k])
        invariant AppendsClasses(views, old(views), PlanClasses(viewCreator, viewCount[..k]))
      {
        PlanStep(viewCreator, viewCount, k);
        ghost var before := views;
        var item := CreateItem(viewCount[k].0, viewCount[k].1);
        AppendsTrans(old(views), before, views,
          PlanClasses(viewCreator, viewCount[..k]), ItemClasses(viewCreator, viewCount[k].0, viewCount[k].1));
        if item.Err? {
          PlanStopsAtFailure(viewCreator, viewCount, k + 1);
          return item;
        }
        k := k + 1;
      }
      assert viewCount[..k] == viewCount;
      r := Ok(());
    }

    /** `get_menu(name)`: the cached menu of that name, or a new one added to
        the menu bar and cached. */
    method GetMenu(title: string) returns (m: Menu)
      modifies this`menus, this`menuBar
      ensures title in old(menus) ==> m == old(menus)[title] && menus == old(menus) && menuBar == old(menuBar)
      ensures title !in old(menus) ==>
        fresh(m) && m.title == title && menus == old(menus)[title := m] && menuBar == old(menuBar) + [m]
    {
      if title !in menus {
        var created := new Menu(title);
        menus := menus[title := created];
        menuBar := menuBar + [created];
      }
      m := menus[title];
    }

    /** Setting `status_message` is ignored while the status is locked. */
    method SetStatusMessage(value: string)
      modifies this`statusMessage
      ensures statusMessage == if lockStatus then old(statusMessage) else value
    {
      if !lockStatus {
        statusMessage := value;
      }
    }

    method LockStatus()
      modifies this`lockStatus
      ensures lockStatus
    {
      lockStatus := true;
    }

    method UnlockStatus()
      modifies this`lockStatus
      ensures !lockStatus
    {
      lockStatus := false;
    }

    /** `closeEvent`: once closed, nothing happens. Otherwise emit `close`;
        when a listener returned False the event is ignored and only the
        emission is recorded; else mark the window closed, store the
        geometry under `geometry_state` and save the state once. */
    method OnCloseEvent(listenerResults: seq<Option<bool>>, geometry: string, dockState: string)
      returns (outcome: CloseOutcome)
      modifies this`closed, this`events, state`entries, state`written
      ensures old(closed) ==>
        && outcome == AlreadyClosed && closed && events == old(events)
        && state.entries == old(state.entries) && state.written == old(state.written)
      ensures !old(closed) ==> events == old(events) + [CloseEvent]
      ensures !old(closed) && Vetoed(listenerResults) ==>
        && outcome == Ignored && !closed
        && state.entries == old(state.entries) && state.written == old(state.written)
      ensures !old(closed) && !Vetoed(listenerResults) ==>
        && outcome == Accepted && closed
        && state.entries == old(state.entries)[GeometryKey := SavedGeometry(geometry, dockState)]
        && state.written == old(state.written) + [Savable(state.entries)]
    {
      if closed {
        return AlreadyClosed;
      }
      events := events + [CloseEvent];
      if Vetoed(listenerResults) {
        return Ignored;
      }
      closed := true;
      state.entries := state.entries[GeometryKey := SavedGeometry(geometry, dockState)];
      state.Save();
      outcome := Accepted;
    }

    /** `show`: emit `show`; the window's own `on_show` listener restores the
        geometry stored under `geometry_state`. */
    method Show() returns (restore: Result<Restore>)
      modifies this`events
      ensures events == old(events) + [ShowEvent]
      ensures restore == RestoreGeometryState(if GeometryKey in state.entries then Some(state.entries[GeometryKey]) else None)
    {
      events := events + [ShowEvent];
      restore := RestoreGeometryState(if GeometryKey in state.entries then Some(state.entries[GeometryKey]) else None);
    }
  }

  /** The first view of a class gets the bare class name. */
  method FirstViewScenario() returns (gui: GUI, v1: View)
  {
    gui := new GUI(None, None, map[], None, "config", map[], Missing);
    v1 := new View(ViewClass("tests", "Foo"), false, false);
    var r1 := gui.AddView(v1, None, true, true, None);
    assert v1.name == "Foo" && r1.Ok? && r1.value.area == RightArea;
  }

  /** The second view of a class is "Foo (1)". */
  method SecondViewScenario(gui: GUI, v1: View)
    requires gui.Valid() && gui.views == [v1] && gui.classIndices == map[v1.cls := 1]
    requires v1.cls.name == "Foo"
    modifies gui
  {
    var v2 := new View(v1.cls, false, false);
    assert v1 in OfClass(gui.views, v1.cls);
    assert gui.NameFor(v2) == Ok(IndexedName(v1.cls.name, 1));
    var r2 := gui.AddView(v2, Some("left"), true, true, None);
    assert Decimal(1) == "1";
    assert v2.name == "Foo (1)" && r2.Ok? && r2.value.area == LeftArea;
  }

  /** Closing a view does not reuse its index: the next one is "Foo (3)". */
  method ClosedIndexNotReused(gui: GUI, v1: View, v2: View, v3: View)
    requires gui.Valid() && gui.views == [v1, v2, v3]
    requires v1.cls == v2.cls == v3.cls && gui.classIndices == map[v1.cls := 3]
    modifies gui, v1, v2, v3
  {
    var v4 := new View(v1.cls, false, false);
    var closed := gui.OnCloseDockWidget(v1);
    assert gui.views == [v2, v3];
    assert gui.classIndices == map[v1.cls := 3];
    assert v2 in OfClass(gui.views, v1.cls);
    assert gui.NameFor(v4) == Ok(IndexedName(v1.cls.name, 3));
    var r4 := gui.AddView(v4, None, true, true, None);
    assert Decimal(3) == "3";
    assert v4.name == IndexedName(v1.cls.name, 3);
  }

  /** While the status bar is locked, messages are ignored. */
  method StatusLockScenario(gui: GUI)
    modifies gui
  {
    gui.UnlockStatus();
    gui.SetStatusMessage("hello");
    gui.LockStatus();
    gui.SetStatusMessage("ignored");
    gui.UnlockStatus();
    assert gui.statusMessage == "hello";
    gui.SetStatusMessage("world");
    assert gui.statusMessage == "world";
  }

  /** The state is written once: a second close does nothing. */
  method CloseTwiceScenario(gui: GUI)
    requires !gui.closed
    modifies gui, gui.state
  {
    var first := gui.OnCloseEvent([None, Some(true)], "geometry", "docks");
    assert first == Accepted && |gui.state.written| == |old(gui.state.written)| + 1;
    var second := gui.OnCloseEvent([], "other", "other");
    assert second == AlreadyClosed && |gui.state.written| == |old(gui.state.written)| + 1;
    assert gui.state.entries[GeometryKey] == SavedGeometry("geometry", "docks");
  }
}
