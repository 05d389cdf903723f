/**
  The build's source-set hierarchy helpers: reachability over the declared parent-to-children
  graph, the Darwin-related selection, the Windows test on names, and the wiring of source
  sets in a container (find or create by name, then add dependsOn edges).
*/
module SourceSets {
  import opened Frames

  /**
    A parent-to-children declaration, in declaration order, with a depth per name that
    witnesses that the graph is acyclic (every child is deeper than each of its parents).
  */
  datatype Hierarchy = Hierarchy(parentsToChildren: seq<(string, seq<string>)>, depth: map<string, nat>)

  ghost predicate Layered(h: Hierarchy)
  {
    forall i, c :: 0 <= i < |h.parentsToChildren| && c in h.parentsToChildren[i].1 ==>
      && h.parentsToChildren[i].0 in h.depth && c in h.depth
      && h.depth[h.parentsToChildren[i].0] < h.depth[c]
  }

  function Depth(h: Hierarchy, name: string): nat
  {
    if name in h.depth then h.depth[name] else 0
  }

  /** Every name the hierarchy declares, as a parent or as a child. */
  function Names(h: Hierarchy): set<string>
  {
    (set i | 0 <= i < |h.parentsToChildren| :: h.parentsToChildren[i].0)
    + (set i, c | 0 <= i < |h.parentsToChildren| && c in h.parentsToChildren[i].1 :: c)
  }

  /** The parents of `name`: every declared parent whose child list holds it, in declaration order. */
  function ParentsIn(entries: seq<(string, seq<string>)>, name: string): (ps: seq<string>)
    ensures forall p :: p in ps <==> exists i :: 0 <= i < |entries| && entries[i].0 == p && name in entries[i].1
  {
    if entries == [] then []
    else
      var rest := ParentsIn(entries[1..], name);
      assert forall i :: 0 <= i < |entries[1..]| ==> entries[1..][i] == entries[i + 1];
      (if name in entries[0].1 then [entries[0].0] else []) + rest
  }

  function Parents(h: Hierarchy, name: string): seq<string>
  {
    ParentsIn(h.parentsToChildren, name)
  }

  lemma ParentsAreShallower(h: Hierarchy, name: string)
    requires Layered(h)
    ensures forall p :: p in Parents(h, name) ==> Depth(h, p) < Depth(h, name) && p in Names(h)
  {
  }

  /** `ancestors`: the parents, together with the ancestors of each parent. */
  function Ancestors(h: Hierarchy, name: string): set<string>
    requires Layered(h)
    decreases Depth(h, name), 1
  {
    ParentsAreShallower(h, name);
    AncestorsVia(h, name, Parents(h, name))
  }

  /** The parents in `ps` and their ancestors. */
  function AncestorsVia(h: Hierarchy, name: string, ps: seq<string>): set<string>
    requires Layered(h)
    requires forall p :: p in ps ==> Depth(h, p) < Depth(h, name)
    decreases Depth(h, name), 0, |ps|
  {
    if ps == [] then {}
    else {ps[0]} + Ancestors(h, ps[0]) + AncestorsVia(h, name, ps[1..])
  }

  predicate IsDarwin(name: string)
  {
    name == "darwin"
  }

  /** `isDarwinOrDarwinDescendant`: the name is darwin, or one of its parents is darwin or a descendant of it. */
  predicate IsDarwinOrDescendant(h: Hierarchy, name: string)
    requires Layered(h)
    decreases Depth(h, name), 1
  {
    ParentsAreShallower(h, name);
    IsDarwin(name) || AnyDarwinOrDescendant(h, name, Parents(h, name))
  }

  predicate AnyDarwinOrDescendant(h: Hierarchy, name: string, ps: seq<string>)
    requires Layered(h)
    requires forall p :: p in ps ==> Depth(h, p) < Depth(h, name)
    decreases Depth(h, name), 0, |ps|
  {
    ps != [] && (IsDarwinOrDescendant(h, ps[0]) || AnyDarwinOrDescendant(h, name, ps[1..]))
  }

  /** `darwinRelatedSourceSetRefs`: darwin and its descendants, and darwin's ancestors; no darwin is an error. */
  function DarwinRelated(h: Hierarchy): Option<set<string>>
    requires Layered(h)
  {
    if "darwin" in Names(h) then
      Some((set n | n in Names(h) && IsDarwinOrDescendant(h, n)) + Ancestors(h, "darwin"))
    else
      None
  }

  const WindowsPrefix: string := "mingw"

  /** `isWindows`: the name starts with the Windows prefix. */
  predicate IsWindows(name: string)
  {
    WindowsPrefix <= name
  }

  // ---------------------------------------------------------------------------
  // Reachability laws

  lemma {:induction false} AncestorsViaMembers(h: Hierarchy, name: string, ps: seq<string>, a: string)
    requires Layered(h)
    requires forall p :: p in ps ==> Depth(h, p) < Depth(h, name)
    ensures a in AncestorsVia(h, name, ps) <==> exists p :: p in ps && (a == p || a in Ancestors(h, p))
    decreases |ps|
  {
    if ps != [] {
      var rest := ps[1..];
      AncestorsViaMembers(h, name, rest, a);
      assert AncestorsVia(h, name, ps) == {ps[0]} + Ancestors(h, ps[0]) + AncestorsVia(h, name, rest);
      if a in AncestorsVia(h, name, rest) {
        var p :| p in rest && (a == p || a in Ancestors(h, p));
        assert p in ps;
      }
      if exists p :: p in ps && (a == p || a in Ancestors(h, p)) {
        var p :| p in ps && (a == p || a in Ancestors(h, p));
        if p != ps[0] {
          assert p in rest;
        }
      }
    }
  }

  /** `ancestors(r)` holds exactly the parents of r and their ancestors. */
  lemma AncestorsMembers(h: Hierarchy, name: string, a: string)
    requires Layered(h)
    ensures a in Ancestors(h, name) <==> exists p :: p in Parents(h, name) && (a == p || a in Ancestors(h, p))
  {
    ParentsAreShallower(h, name);
    AncestorsViaMembers(h, name, Parents(h, name), a);
  }

  /** Every direct parent is an ancestor. */
  lemma ParentsAreAncestors(h: Hierarchy, name: string, p: string)
    requires Layered(h) && p in Parents(h, name)
    ensures p in Ancestors(h, name)
  {
    AncestorsMembers(h, name, p);
  }

  /** Ancestors are strictly shallower, hence declared names, and no name is its own ancestor. */
  lemma {:induction false} AncestorsAreShallower(h: Hierarchy, name: string, a: string)
    requires Layered(h) && a in Ancestors(h, name)
    ensures Depth(h, a) < Depth(h, name) && a in Names(h)
    ensures a != name
    decreases Depth(h, name)
  {
    AncestorsMembers(h, name, a);
    ParentsAreShallower(h, name);
    var p :| p in Parents(h, name) && (a == p || a in Ancestors(h, p));
    if a != p {
      AncestorsAreShallower(h, p, a);
    }
  }

  /** `ancestors` is transitively closed. */
  lemma {:induction false} AncestorsTransitive(h: Hierarchy, name: string, a: string, b: string)
    requires Layered(h)
    requires a in Ancestors(h, name) && b in Ancestors(h, a)
    ensures b in Ancestors(h, name)
    decreases Depth(h, name)
  {
    AncestorsMembers(h, name, a);
    AncestorsMembers(h, name, b);
    ParentsAreShallower(h, name);
    var p :| p in Parents(h, name) && (a == p || a in Ancestors(h, p));
    if a != p {
      AncestorsTransitive(h, p, a, b);
    }
  }

  lemma {:induction false} AnyDarwinOrDescendantMeans(h: Hierarchy, name: string, ps: seq<string>)
    requires Layered(h)
    requires forall p :: p in ps ==> Depth(h, p) < Depth(h, name)
    ensures AnyDarwinOrDescendant(h, name, ps) <==> "darwin" in AncestorsVia(h, name, ps)
    decreases Depth(h, name), 0, |ps|
  {
    if ps != [] {
      DarwinOrDescendantMeans(h, ps[0]);
      AnyDarwinOrDescendantMeans(h, name, ps[1..]);
    }
  }

  /** A source set is darwin or a darwin descendant exactly when it is darwin or darwin is among its ancestors. */
  lemma {:induction false} DarwinOrDescendantMeans(h: Hierarchy, name: string)
    requires Layered(h)
    ensures IsDarwinOrDescendant(h, name) <==> name == "darwin" || "darwin" in Ancestors(h, name)
    decreases Depth(h, name), 1
  {
    ParentsAreShallower(h, name);
    AnyDarwinOrDescendantMeans(h, name, Parents(h, name));
  }

  /** The Darwin-related selection: darwin, every descendant of darwin, and every ancestor of darwin. */
  lemma DarwinRelatedMembers(h: Hierarchy, name: string)
    requires Layered(h) && "darwin" in Names(h)
    ensures DarwinRelated(h).Some?
    ensures name in DarwinRelated(h).value <==>
      name == "darwin"
      || (name in Names(h) && "darwin" in Ancestors(h, name))
      || name in Ancestors(h, "darwin")
  {
    DarwinOrDescendantMeans(h, name);
    if name in Ancestors(h, "darwin") {
      AncestorsAreShallower(h, "darwin", name);
    }
  }

  /** No ancestor of darwin is also a darwin descendant: the two parts of the selection are disjoint. */
  lemma DarwinAncestorsAreNotDescendants(h: Hierarchy, name: string)
    requires Layered(h) && name in Ancestors(h, "darwin")
    ensures !IsDarwinOrDescendant(h, name)
  {
    DarwinOrDescendantMeans(h, name);
    AncestorsAreShallower(h, "darwin", name);
    if "darwin" in Ancestors(h, name) {
      AncestorsAreShallower(h, name, "darwin");
    }
  }

  /** A name is a Windows one exactly when its first five characters are "mingw". */
  lemma IsWindowsMeans(name: string)
    ensures IsWindows(name) <==> |name| >= 5 && name[..5] == "mingw"
  {
  }

  // ---------------------------------------------------------------------------
  // The hierarchy the build declares

  const NativeHierarchy: Hierarchy := Hierarchy(
    [
      ("native", ["desktop", "unix", "nonDarwin"]),
      ("desktop", ["linuxX64", "mingwX64", "macosX64", "macosArm64"]),
      ("unix", ["darwin", "linuxX64"]),
      ("nonDarwin", ["linuxX64", "mingwX64"]),
      ("darwin", ["ios", "iosSimulatorArm64", "tvos", "tvosSimulatorArm64", "watchos",
                  "watchosX86", "watchosSimulatorArm64", "macosX64", "macosArm64"])
    ],
    map[
      "native" := 0,
      "desktop" := 1, "unix" := 1, "nonDarwin" := 1,
      "darwin" := 2, "linuxX64" := 2, "mingwX64" := 2,
      "ios" := 3, "iosSimulatorArm64" := 3, "tvos" := 3, "tvosSimulatorArm64" := 3, "watchos" := 3,
      "watchosX86" := 3, "watchosSimulatorArm64" := 3, "macosX64" := 3, "macosArm64" := 3
    ])

  const DarwinChildren: set<string> := {"ios", "iosSimulatorArm64", "tvos", "tvosSimulatorArm64", "watchos",
                                         "watchosX86", "watchosSimulatorArm64", "macosX64", "macosArm64"}

  /** The declared depths order every parent above each of its children. */
  lemma NativeHierarchyLayered()
    ensures Layered(NativeHierarchy)
  {
    var e := NativeHierarchy.parentsToChildren;
    forall i, c | 0 <= i < |e| && c in e[i].1
      ensures e[i].0 in NativeHierarchy.depth && c in NativeHierarchy.depth
      ensures NativeHierarchy.depth[e[i].0] < NativeHierarchy.depth[c]
    {
      assert i == 0 || i == 1 || i == 2 || i == 3 || i == 4;
    }
  }

  /** Darwin, its platform children, and the two source sets above it. */
  const DarwinRelatedNames: set<string> := DarwinChildren + {"darwin", "unix", "native"}

  const NativeNames: set<string> :=
    {"native", "desktop", "unix", "nonDarwin", "darwin", "linuxX64", "mingwX64"} + DarwinChildren

  /** The hierarchy declares exactly the native names. */
  lemma NativeHierarchyNames()
    ensures Names(NativeHierarchy) == NativeNames
  {
    var e := NativeHierarchy.parentsToChildren;
    forall n | n in Names(NativeHierarchy) ensures n in NativeNames {
      if exists i :: 0 <= i < |e| && e[i].0 == n {
        var i :| 0 <= i < |e| && e[i].0 == n;
        assert i == 0 || i == 1 || i == 2 || i == 3 || i == 4;
      } else {
        var i, c :| 0 <= i < |e| && c in e[i].1 && c == n;
        assert i == 0 || i == 1 || i == 2 || i == 3 || i == 4;
      }
    }
    forall n | n in NativeNames ensures n in Names(NativeHierarchy) {
      if n in DarwinChildren {
        assert n in e[4].1;
      } else if n == "native" || n == "desktop" || n == "unix" || n == "nonDarwin" || n == "darwin" {
        assert e[0].0 == "native" && e[1].0 == "desktop" && e[2].0 == "unix" && e[3].0 == "nonDarwin" && e[4].0 == "darwin";
      } else {
        assert n in e[1].1;
      }
    }
  }

  lemma NativeRootHasNoParents()
    ensures Parents(NativeHierarchy, "native") == []
  {
    var e := NativeHierarchy.parentsToChildren;
    assert ParentsIn(e[4..], "native") == [];
    assert ParentsIn(e[2..], "native") == [];
  }

  lemma NativeParentOfUnix()
    ensures Parents(NativeHierarchy, "unix") == ["native"]
  {
    var e := NativeHierarchy.parentsToChildren;
    assert ParentsIn(e[4..], "unix") == [];
    assert ParentsIn(e[2..], "unix") == [];
  }

  lemma NativeParentOfDarwin()
    ensures Parents(NativeHierarchy, "darwin") == ["unix"]
  {
    var e := NativeHierarchy.parentsToChildren;
    assert ParentsIn(e[4..], "darwin") == [];
    assert ParentsIn(e[2..], "darwin") == ["unix"];
  }

  lemma NativeDarwinChildren()
    ensures forall c :: c in DarwinChildren ==> "darwin" in Parents(NativeHierarchy, c)
  {
    var e := NativeHierarchy.parentsToChildren;
    forall c | c in DarwinChildren ensures "darwin" in Parents(NativeHierarchy, c) {
      assert e[4].0 == "darwin" && c in e[4].1;
    }
  }

  lemma NativeDarwinIsDeepest()
    ensures forall n :: n in NativeNames - DarwinChildren ==> Depth(NativeHierarchy, n) <= Depth(NativeHierarchy, "darwin")
  {
  }

  /** In any hierarchy where darwin's only parent is unix, unix's only parent is native, and native has none. */
  lemma DarwinAncestorsIn(h: Hierarchy)
    requires Layered(h)
    requires Parents(h, "native") == []
    requires Parents(h, "unix") == ["native"]
    requires Parents(h, "darwin") == ["unix"]
    ensures Ancestors(h, "darwin") == {"unix", "native"}
  {
    forall a ensures a in Ancestors(h, "darwin") <==> a == "unix" || a == "native" {
      AncestorsMembers(h, "darwin", a);
      AncestorsMembers(h, "unix", a);
      AncestorsMembers(h, "native", a);
    }
  }

  lemma DarwinRelatedMemberIn(h: Hierarchy, n: string)
    requires Layered(h) && "darwin" in Names(h)
    requires Ancestors(h, "darwin") == {"unix", "native"}
    requires forall c :: c in DarwinChildren ==> "darwin" in Parents(h, c)
    requires forall n :: n in Names(h) - DarwinChildren ==> Depth(h, n) <= Depth(h, "darwin")
    ensures n in DarwinRelated(h).value <==> n in DarwinRelatedNames
  {
    DarwinRelatedMembers(h, n);
    if n in DarwinChildren {
      ParentsAreAncestors(h, n, "darwin");
    } else if n in Names(h) && "darwin" in Ancestors(h, n) {
      AncestorsAreShallower(h, n, "darwin");
    }
  }

  lemma DarwinRelatedIn(h: Hierarchy)
    requires Layered(h) && "darwin" in Names(h)
    requires Ancestors(h, "darwin") == {"unix", "native"}
    requires forall c :: c in DarwinChildren ==> "darwin" in Parents(h, c)
    requires forall n :: n in Names(h) - DarwinChildren ==> Depth(h, n) <= Depth(h, "darwin")
    ensures DarwinRelated(h) == Some(DarwinRelatedNames)
  {
    var related := DarwinRelated(h).value;
    forall n ensures n in related <==> n in DarwinRelatedNames {
      DarwinRelatedMemberIn(h, n);
    }
    assert related == DarwinRelatedNames;
  }

  /**
    The Darwin-related refs of the native hierarchy: darwin, its nine platform children,
    and unix and native above it; desktop, nonDarwin, linuxX64 and mingwX64 are not among them.
  */
  lemma NativeDarwinRelated()
    ensures Layered(NativeHierarchy)
    ensures DarwinRelated(NativeHierarchy) == Some(DarwinRelatedNames)
  {
    NativeHierarchyLayered();
    NativeHierarchyNames();
    NativeRootHasNoParents();
    NativeParentOfUnix();
    NativeParentOfDarwin();
    NativeDarwinChildren();
    NativeDarwinIsDeepest();
    DarwinAncestorsIn(NativeHierarchy);
    DarwinRelatedIn(NativeHierarchy);
  }

  /** Among the native names only mingwX64 is a Windows one. */
  lemma NativeWindows()
    ensures (set n | n in Names(NativeHierarchy) && IsWindows(n)) == {"mingwX64"}
  {
    NativeHierarchyNames();
    NativeWindowsNames();
    var windows := set n | n in Names(NativeHierarchy) && IsWindows(n);
    assert windows == {"mingwX64"};
  }

  lemma NativeWindowsNames()
    ensures forall n :: n in NativeNames ==> (IsWindows(n) <==> n == "mingwX64")
  {
    forall n | n in NativeNames ensures IsWindows(n) <==> n == "mingwX64" {
      if n != "mingwX64" {
        assert n[0] != 'm' || n[1] != 'i';
      }
    }
  }

  // ---------------------------------------------------------------------------
  // Wiring source sets in a container

  /** A source set reference: its name and its parents' names. */
  datatype Ref = Ref(name: string, parents: seq<string>)

  /**
    The references of the hierarchy's `names`: one per name, whose parents are the declared
    parents listing it as a child; in an acyclic hierarchy every parent is a declared name
    shallower than its child.
  */
  function RefsOf(h: Hierarchy, names: seq<string>): (refs: seq<Ref>)
    ensures |refs| == |names|
    ensures forall i :: 0 <= i < |refs| ==> refs[i].name == names[i]
    ensures forall i, p :: 0 <= i < |refs| && p in refs[i].parents ==>
      exists j :: 0 <= j < |h.parentsToChildren| && h.parentsToChildren[j].0 == p && names[i] in h.parentsToChildren[j].1
    ensures forall i, j :: 0 <= i < |refs| && 0 <= j < |h.parentsToChildren| && names[i] in h.parentsToChildren[j].1 ==>
      h.parentsToChildren[j].0 in refs[i].parents
    ensures Layered(h) ==> forall i, p :: 0 <= i < |refs| && p in refs[i].parents ==>
      p in Names(h) && Depth(h, p) < Depth(h, refs[i].name)
  {
    seq(|names|, i requires 0 <= i < |names| => Ref(names[i], Parents(h, names[i])))
  }

  /** The references with `suffix` appended to every name, parents included. */
  function WithAppendedNames(refs: seq<Ref>, suffix: string): seq<Ref>
  {
    seq(|refs|, i requires 0 <= i < |refs| =>
      Ref(refs[i].name + suffix,
          seq(|refs[i].parents|, j requires 0 <= j < |refs[i].parents| => refs[i].parents[j] + suffix)))
  }

  /** A source-set container: each existing source set's name, mapped to the names it depends on. */
  type Container = map<string, set<string>>

  function Existing(m: Container, name: string): set<string>
  {
    if name in m then m[name] else {}
  }

  /** `findByName(name) ?: create(name)`. */
  function GetOrCreate(m: Container, name: string): Container
  {
    if name in m then m else m[name := {}]
  }

  /** Gets or creates `parent`, then makes `child` depend on it. */
  function AddDependency(m: Container, child: string, parent: string): Container
  {
    var m1 := GetOrCreate(m, parent);
    m1[child := Existing(m1, child) + {parent}]
  }

  /** The inner loop: `child` depends on each of `parents`, in order. */
  function Wire(m: Container, child: string, parents: seq<string>): (w: Container)
    ensures m.Keys <= w.Keys
    decreases |parents|
  {
    if parents == [] then m
    else AddDependency(Wire(m, child, parents[..|parents| - 1]), child, parents[|parents| - 1])
  }

  /** One reference: its source set, found or created, depends on its parents' source sets. */
  function SetupRef(m: Container, ref: Ref): (s: Container)
    ensures m.Keys + {ref.name} <= s.Keys
  {
    Wire(GetOrCreate(m, ref.name), ref.name, ref.parents)
  }

  /** `setupSourceSetsTree`: every reference set up, in order. */
  function Tree(m: Container, refs: seq<Ref>): (t: Container)
    ensures m.Keys <= t.Keys
    decreases |refs|
  {
    if refs == [] then m
    else SetupRef(Tree(m, refs[..|refs| - 1]), refs[|refs| - 1])
  }

  /** Some reference is named `name` or lists it as a parent. */
  ghost predicate Mentions(refs: seq<Ref>, name: string)
  {
    exists i :: 0 <= i < |refs| && (refs[i].name == name || name in refs[i].parents)
  }

  /** The parents declared for `name` by the references named `name`. */
  function DeclaredParents(refs: seq<Ref>, name: string): set<string>
  {
    set i, p | 0 <= i < |refs| && refs[i].name == name && p in refs[i].parents :: p
  }

  lemma {:induction false} WireAt(m: Container, child: string, parents: seq<string>, name: string)
    requires child in m
    ensures var w := Wire(m, child, parents);
      && (name in w <==> name in m || name in parents)
      && (name in w ==> w[name] == Existing(m, name) + (if name == child then set p | p in parents else {}))
    decreases |parents|
  {
    if parents != [] {
      var init := parents[..|parents| - 1];
      var last := parents[|parents| - 1];
      WireAt(m, child, init, name);
      WireAt(m, child, init, child);
      assert parents == init + [last];
      assert forall p :: p in parents <==> p in init || p == last;
    }
  }

  lemma SetupRefAt(m: Container, ref: Ref, name: string)
    ensures var s := SetupRef(m, ref);
      && (name in s <==> name in m || name == ref.name || name in ref.parents)
      && (name in s ==> s[name] == Existing(m, name) + (if name == ref.name then set p | p in ref.parents else {}))
  {
    WireAt(GetOrCreate(m, ref.name), ref.name, ref.parents, name);
  }

  /** Appending a reference adds its own name and its parents to the names the references mention. */
  lemma MentionsSnoc(refs: seq<Ref>, name: string)
    requires refs != []
    ensures var init, last := refs[..|refs| - 1], refs[|refs| - 1];
      Mentions(refs, name) <==> Mentions(init, name) || last.name == name || name in last.parents
  {
    var init := refs[..|refs| - 1];
    assert forall i :: 0 <= i < |init| ==> init[i] == refs[i];
    if Mentions(refs, name) {
      var i :| 0 <= i < |refs| && (refs[i].name == name || name in refs[i].parents);
      if i < |init| {
        assert init[i] == refs[i];
      }
    }
  }

  /** Appending a reference adds its parents to those declared for its own name, and to no other name's. */
  lemma DeclaredParentsSnoc(refs: seq<Ref>, name: string)
    requires refs != []
    ensures var init, last := refs[..|refs| - 1], refs[|refs| - 1];
      DeclaredParents(refs, name)
      == DeclaredParents(init, name) + (if name == last.name then set p | p in last.parents else {})
  {
    var init := refs[..|refs| - 1];
    var last := refs[|refs| - 1];
    forall p
      ensures p in DeclaredParents(refs, name) <==>
        p in DeclaredParents(init, name) || (name == last.name && p in last.parents)
    {
      if p in DeclaredParents(refs, name) {
        var i :| 0 <= i < |refs| && refs[i].name == name && p in refs[i].parents;
        if i < |init| {
          assert init[i] == refs[i];
        }
      }
      if p in DeclaredParents(init, name) {
        var i :| 0 <= i < |init| && init[i].name == name && p in init[i].parents;
        assert refs[i] == init[i];
      }
    }
  }

  /**
    After `setupSourceSetsTree`, exactly the existing source sets and those the references
    mention exist; each keeps what it depended on and now also depends on every parent any
    reference of its name declares; nothing else changes.
  */
  lemma {:induction false} TreeAt(m: Container, refs: seq<Ref>, name: string)
    ensures var t := Tree(m, refs);
      && (name in t <==> name in m || Mentions(refs, name))
      && (name in t ==> t[name] == Existing(m, name) + DeclaredParents(refs, name))
    decreases |refs|
  {
    if refs == [] {
      assert DeclaredParents(refs, name) == {};
    } else {
      var init := refs[..|refs| - 1];
      TreeAt(m, init, name);
      SetupRefAt(Tree(m, init), refs[|refs| - 1], name);
      MentionsSnoc(refs, name);
      DeclaredParentsSnoc(refs, name);
    }
  }

  /** What `setupMainAndTestSourceSets` leaves: the container, and the source set it failed to find, if any. */
  datatype Setup = Setup(sourceSets: Container, missing: Option<string>)

  function MainAndTestSetup(m: Container, baseRefs: seq<Ref>, flavor: string): Setup
  {
    if "commonMain" !in m then Setup(m, Some("commonMain"))
    else if "commonTest" !in m then Setup(m, Some("commonTest"))
    else
      var trees := Tree(Tree(m, WithAppendedNames(baseRefs, flavor + "Main")), WithAppendedNames(baseRefs, flavor + "Test"));
      var main := "native" + flavor + "Main";
      var test := "native" + flavor + "Test";
      if main !in trees then Setup(trees, Some(main))
      else
        var wired := AddDependency(trees, main, "commonMain");
        if test !in wired then Setup(wired, Some(test))
        else Setup(AddDependency(wired, test, "commonTest"), None)
  }

  lemma MainAndTestNamesDiffer(flavor: string)
    ensures "native" + flavor + "Main" != "native" + flavor + "Test"
  {
    var prefix := "native" + flavor;
    assert (prefix + "Main")[|prefix|] == 'M';
    assert (prefix + "Test")[|prefix|] == 'T';
  }

  /** Appending the same suffix keeps names apart. */
  lemma SuffixCancels(a: string, b: string, suffix: string)
    requires a + suffix == b + suffix
    ensures a == b
  {
    assert |a| == |b|;
    assert a == (a + suffix)[..|a|];
    assert b == (b + suffix)[..|b|];
  }

  /** The suffixed references mention exactly the suffixed names the references mention. */
  lemma AppendedNamesMentions(refs: seq<Ref>, suffix: string, x: string)
    ensures Mentions(WithAppendedNames(refs, suffix), x) <==> exists n :: x == n + suffix && Mentions(refs, n)
  {
    var r := WithAppendedNames(refs, suffix);
    if Mentions(r, x) {
      var i :| 0 <= i < |r| && (r[i].name == x || x in r[i].parents);
      if r[i].name == x {
        assert Mentions(refs, refs[i].name);
      } else {
        var j :| 0 <= j < |r[i].parents| && r[i].parents[j] == x;
        assert refs[i].parents[j] in refs[i].parents;
        assert Mentions(refs, refs[i].parents[j]);
      }
    }
    if exists n :: x == n + suffix && Mentions(refs, n) {
      var n :| x == n + suffix && Mentions(refs, n);
      var i :| 0 <= i < |refs| && (refs[i].name == n || n in refs[i].parents);
      if refs[i].name != n {
        var j :| 0 <= j < |refs[i].parents| && refs[i].parents[j] == n;
        assert r[i].parents[j] == x;
      }
    }
  }

  /** The parents declared for a suffixed name are the suffixed parents declared for the name. */
  lemma AppendedNamesParents(refs: seq<Ref>, suffix: string, n: string)
    ensures DeclaredParents(WithAppendedNames(refs, suffix), n + suffix)
      == set p | p in DeclaredParents(refs, n) :: p + suffix
  {
    var r := WithAppendedNames(refs, suffix);
    forall x
      ensures x in DeclaredParents(r, n + suffix) <==> exists p :: p in DeclaredParents(refs, n) && x == p + suffix
    {
      if x in DeclaredParents(r, n + suffix) {
        var i, q :| 0 <= i < |r| && r[i].name == n + suffix && q in r[i].parents && x == q;
        SuffixCancels(refs[i].name, n, suffix);
        var j :| 0 <= j < |r[i].parents| && r[i].parents[j] == q;
        assert refs[i].parents[j] in refs[i].parents;
        assert refs[i].parents[j] in DeclaredParents(refs, n);
      }
      if exists p :: p in DeclaredParents(refs, n) && x == p + suffix {
        var p :| p in DeclaredParents(refs, n) && x == p + suffix;
        var i, q :| 0 <= i < |refs| && refs[i].name == n && q in refs[i].parents && p == q;
        var j :| 0 <= j < |refs[i].parents| && refs[i].parents[j] == q;
        assert r[i].parents[j] == x;
        assert x in r[i].parents;
      }
    }
  }

  /**
    `setupSourceSetsTree(baseRefs.withAppendedNames(suffix))`: a suffixed source set exists after
    it exactly when it existed or its base name is mentioned, and it now depends on the suffixed
    parents declared for its base name.
  */
  lemma AppendedTreeAt(m: Container, refs: seq<Ref>, suffix: string, n: string)
    ensures var t := Tree(m, WithAppendedNames(refs, suffix));
      && (n + suffix in t <==> n + suffix in m || Mentions(refs, n))
      && (n + suffix in t ==> t[n + suffix] == Existing(m, n + suffix) + set p | p in DeclaredParents(refs, n) :: p + suffix)
  {
    TreeAt(m, WithAppendedNames(refs, suffix), n + suffix);
    AppendedNamesMentions(refs, suffix, n + suffix);
    AppendedNamesParents(refs, suffix, n);
    if exists n' :: n + suffix == n' + suffix && Mentions(refs, n') {
      var n' :| n + suffix == n' + suffix && Mentions(refs, n');
      SuffixCancels(n, n', suffix);
    }
  }

  /**
    With commonMain and commonTest present and native among the references, the setup
    succeeds: nativeMain depends on commonMain and nativeTest on commonTest (for the flavor).
  */
  lemma MainAndTestWiring(m: Container, baseRefs: seq<Ref>, flavor: string, k: nat)
    requires "commonMain" in m && "commonTest" in m
    requires k < |baseRefs| && baseRefs[k].name == "native"
    ensures var s := MainAndTestSetup(m, baseRefs, flavor);
      && s.missing == None
      && "native" + flavor + "Main" in s.sourceSets && "commonMain" in s.sourceSets["native" + flavor + "Main"]
      && "native" + flavor + "Test" in s.sourceSets && "commonTest" in s.sourceSets["native" + flavor + "Test"]
  {
    var mainRefs := WithAppendedNames(baseRefs, flavor + "Main");
    var testRefs := WithAppendedNames(baseRefs, flavor + "Test");
    var main := "native" + flavor + "Main";
    var test := "native" + flavor + "Test";
    assert main == "native" + (flavor + "Main");
    assert test == "native" + (flavor + "Test");
    assert Mentions(baseRefs, "native");
    AppendedNamesMentions(baseRefs, flavor + "Main", main);
    AppendedNamesMentions(baseRefs, flavor + "Test", test);
    TreeAt(m, mainRefs, main);
    TreeAt(Tree(m, mainRefs), testRefs, main);
    TreeAt(Tree(m, mainRefs), testRefs, test);
    MainAndTestNamesDiffer(flavor);
  }

  /** Setting up the references of a list of names that includes native succeeds and ties native to common. */
  lemma RefsSetupSucceeds(m: Container, h: Hierarchy, names: seq<string>, flavor: string)
    requires "commonMain" in m && "commonTest" in m
    requires "native" in names
    ensures var s := MainAndTestSetup(m, RefsOf(h, names), flavor);
      && s.missing == None
      && "native" + flavor + "Main" in s.sourceSets && "commonMain" in s.sourceSets["native" + flavor + "Main"]
      && "native" + flavor + "Test" in s.sourceSets && "commonTest" in s.sourceSets["native" + flavor + "Test"]
  {
    var k :| 0 <= k < |names| && names[k] == "native";
    MainAndTestWiring(m, RefsOf(h, names), flavor, k);
  }

  /** `darwinTargets` and `nativeTargets`: both reference lists hold native, so their setup succeeds. */
  lemma TargetsSetupSucceeds(m: Container, names: seq<string>, flavor: string)
    requires "commonMain" in m && "commonTest" in m
    requires (set n | n in names) == DarwinRelatedNames || (set n | n in names) == NativeNames
    ensures MainAndTestSetup(m, RefsOf(NativeHierarchy, names), flavor).missing == None
  {
    assert "native" in (set n | n in names);
    RefsSetupSucceeds(m, NativeHierarchy, names, flavor);
  }

  /** The container the build configures, with the source-set operations it uses. */
  class SourceSetContainer {
    var sourceSets: Container

    constructor (existing: Container)
      ensures sourceSets == existing
    {
      sourceSets := existing;
    }

    method GetOrCreateSourceSet(name: string)
      modifies this
      ensures sourceSets == GetOrCreate(old(sourceSets), name)
    {
      if name !in sourceSets {
        sourceSets := sourceSets[name := {}];
      }
    }

    method DependsOn(child: string, parent: string)
      requires child in sourceSets && parent in sourceSets
      modifies this
      ensures sourceSets == old(sourceSets)[child := old(sourceSets)[child] + {parent}]
    {
      sourceSets := sourceSets[child := sourceSets[child] + {parent}];
    }

    /** `setupSourceSetsTree`: finds or creates each reference's source set and makes it depend on its parents'. */
    method SetupSourceSetsTree(refs: seq<Ref>)
      modifies this
      ensures sourceSets == Tree(old(sourceSets), refs)
    {
      var i := 0;
      while i < |refs|
        invariant i <= |refs|
        invariant sourceSets == Tree(old(sourceSets), refs[..i])
      {
        var ref := refs[i];
        GetOrCreateSourceSet(ref.name);
        ghost var created := sourceSets;
        var j := 0;
        while j < |ref.parents|
          invariant j <= |ref.parents|
          invariant sourceSets == Wire(created, ref.name, ref.parents[..j])
          invariant ref.name in sourceSets
        {
          var parent := ref.parents[j];
          GetOrCreateSourceSet(parent);
          DependsOn(ref.name, parent);
          assert ref.parents[..j + 1][..j] == ref.parents[..j];
          j := j + 1;
        }
        assert ref.parents[..j] == ref.parents;
        assert refs[..i + 1][..i] == refs[..i];
        i := i + 1;
      }
      assert refs[..i] == refs;
    }

    /** `setupMainAndTestSourceSets`: both trees for the flavor, then nativeMain and nativeTest on commonMain and commonTest. */
    method SetupMainAndTestSourceSets(baseRefs: seq<Ref>, flavor: string) returns (missing: Option<string>)
      modifies this
      ensures Setup(sourceSets, missing) == MainAndTestSetup(old(sourceSets), baseRefs, flavor)
    {
      if "commonMain" !in sourceSets {
        return Some("commonMain");
      }
      if "commonTest" !in sourceSets {
        return Some("commonTest");
      }
      SetupSourceSetsTree(WithAppendedNames(baseRefs, flavor + "Main"));
      SetupSourceSetsTree(WithAppendedNames(baseRefs, flavor + "Test"));
      var main := "native" + flavor + "Main";
      if main !in sourceSets {
        return Some(main);
      }
      DependsOn(main, "commonMain");
      var test := "native" + flavor + "Test";
      if test !in sourceSets {
        return Some(test);
      }
      DependsOn(test, "commonTest");
      return None;
    }
  }
}
