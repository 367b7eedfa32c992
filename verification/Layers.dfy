/** What the entries of an image layer do to a directory tree, in place and as the
    layering rules mean it. */
module LayerModel {
  import opened Common

  /** Absolute paths, as their names from the root down. */
  type Path = seq<string>
  type Tree = map<Path, string>

  /** What iterating over a path yields. */
  datatype Component = RootDir | CurDir | ParentDir | Normal(name: string)

  /** A tar entry: its path and, for anything but a marker, its content. */
  datatype Entry = Entry(path: seq<Component>, content: string)

  datatype Effect = Put(path: Path, content: string) | Hide(path: Path) | Clear(path: Path) | Skip

  // ----- reading an entry -----

  function FileName(p: seq<Component>): string {
    if p != [] && p[|p| - 1].Normal? then p[|p| - 1].name else ""
  }

  function Parent(p: seq<Component>): seq<Component> {
    if p == [] then [] else p[..|p| - 1]
  }

  /** The components of a bare name once joined to a directory. */
  function NameParts(name: string): seq<Component> {
    if name == "" then [] else if name == "." then [CurDir] else if name == ".." then [ParentDir] else [Normal(name)]
  }

  predicate Plain(c: Component) {
    c.Normal? || c.CurDir?
  }

  function Names(p: seq<Component>): Path {
    if p == [] then []
    else
      var last := p[|p| - 1];
      Names(p[..|p| - 1]) + if last.Normal? then [last.name] else []
  }

  /** `safe_join`: only plain components, appended below the stage. */
  function SafeJoin(stage: Path, rel: seq<Component>): (r: Option<Path>) {
    if AllPlain(rel) then Some(stage + Names(rel)) else None
  }

  const OPAQUE := ".wh..wh..opq"
  const WHITEOUT := ".wh."

  /** What one entry does; the archive library skips entries with `..` and empty names. */
  function EffectOf(stage: Path, e: Entry): Effect {
    var f := FileName(e.path);
    if f == OPAQUE then
      match SafeJoin(stage, Parent(e.path))
      case Some(d) => Clear(d)
      case None => Skip
    else if WHITEOUT <= f then
      match SafeJoin(stage, Parent(e.path) + NameParts(f[4..]))
      case Some(t) => Hide(t)
      case None => Skip
    else if ParentDir in e.path || Names(e.path) == [] then Skip
    else Put(stage + Names(e.path), e.content)
  }

  function EffectsOf(stage: Path, layer: seq<Entry>): (es: seq<Effect>) {
    seq(|layer|, i requires 0 <= i < |layer| => EffectOf(stage, layer[i]))
  }

  // ----- in place -----

  predicate Hides(e: Effect, p: Path) {
    (e.Hide? && e.path <= p) || (e.Clear? && e.path < p)
  }

  function Step(t: Tree, e: Effect): Tree {
    if e.Put? then t[e.path := e.content] else map p | p in t && !Hides(e, p) :: t[p]
  }

  /** One entry after the other, on the tree as it is. */
  function InPlace(es: seq<Effect>, t: Tree): Tree {
    if es == [] then t else Step(InPlace(es[..|es| - 1], t), es[|es| - 1])
  }

  // ----- layered -----

  function LastPut(es: seq<Effect>, p: Path): (c: Option<string>)
    ensures c.Some? <==> exists i :: 0 <= i < |es| && es[i].Put? && es[i].path == p
  {
    if es == [] then None
    else
      var init, last := es[..|es| - 1], es[|es| - 1];
      assert forall i :: 0 <= i < |es| - 1 ==> es[i] == init[i];
      if last.Put? && last.path == p then assert es[|es| - 1].Put?; Some(last.content) else LastPut(init, p)
  }

  predicate HiddenBy(es: seq<Effect>, p: Path) {
    exists i :: 0 <= i < |es| && Hides(es[i], p)
  }

  function PutPaths(es: seq<Effect>): set<Path> {
    set i | 0 <= i < |es| && es[i].Put? :: es[i].path
  }

  /** The layer's markers hide only what lies below the layer; then its entries go on top. */
  function Layered(es: seq<Effect>, t: Tree): Tree {
    map p | p in t.Keys + PutPaths(es) && (LastPut(es, p).Some? || (p in t && !HiddenBy(es, p)))
      :: if LastPut(es, p).Some? then LastPut(es, p).value else t[p]
  }

  function Meant(es: seq<Effect>, t: Tree, p: Path): Option<string> {
    match LastPut(es, p)
    case Some(c) => Some(c)
    case None => if HiddenBy(es, p) then None else Look(t, p)
  }

  lemma LayeredAt(es: seq<Effect>, t: Tree, p: Path)
    ensures Look(Layered(es, t), p) == Meant(es, t, p)
  {
    if LastPut(es, p).Some? {
      var i :| 0 <= i < |es| && es[i].Put? && es[i].path == p;
      assert p in PutPaths(es);
    }
  }

  function Look(t: Tree, p: Path): Option<string> {
    if p in t then Some(t[p]) else None
  }

  /** No entry is followed by a marker that hides it, unless it is put again later. */
  ghost predicate Orderly(es: seq<Effect>) {
    forall i, j | 0 <= i < j < |es| :: es[i].Put? && Hides(es[j], es[i].path) ==> PutAfter(es, j, es[i].path)
  }

  ghost predicate PutAfter(es: seq<Effect>, j: nat, p: Path) {
    exists k :: j < k < |es| && es[k].Put? && es[k].path == p
  }

  /** What the last effect on a path leaves there. */
  lemma {:induction false} InPlaceAt(es: seq<Effect>, t: Tree, p: Path)
    ensures LastPut(es, p) == None ==> Look(InPlace(es, t), p) == if HiddenBy(es, p) then None else Look(t, p)
    ensures forall j :: 0 <= j < |es| && Hides(es[j], p) && !PutAfter(es, j, p) ==> Look(InPlace(es, t), p) == None
    ensures LastPut(es, p).Some? && (forall j :: 0 <= j < |es| && Hides(es[j], p) ==> PutAfter(es, j, p)) ==>
              Look(InPlace(es, t), p) == LastPut(es, p)
  {
    if es != [] {
      var init, last, n := es[..|es| - 1], es[|es| - 1], |es| - 1;
      InPlaceAt(init, t, p);
      assert HiddenBy(es, p) <==> HiddenBy(init, p) || Hides(last, p);
      if last.Put? && last.path == p {
        forall j | 0 <= j < |es| && Hides(es[j], p) ensures PutAfter(es, j, p) {
          assert n > j && es[n].Put?;
        }
      } else {
        forall j | 0 <= j < n ensures PutAfter(es, j, p) <==> PutAfter(init, j, p) {
          if PutAfter(es, j, p) {
            var k :| j < k < |es| && es[k].Put? && es[k].path == p;
            assert init[k] == es[k];
          }
          if PutAfter(init, j, p) {
            var k :| j < k < |init| && init[k].Put? && init[k].path == p;
            assert es[k] == init[k];
          }
        }
        if Hides(last, p) {
          assert !PutAfter(es, n, p);
        }
      }
    }
  }

  lemma OrderlyAt(es: seq<Effect>, t: Tree, p: Path)
    requires Orderly(es)
    ensures Look(InPlace(es, t), p) == Meant(es, t, p)
  {
    InPlaceAt(es, t, p);
    if LastPut(es, p).Some? {
      forall j | 0 <= j < |es| && Hides(es[j], p) ensures PutAfter(es, j, p) {
        var i :| 0 <= i < |es| && es[i].Put? && es[i].path == p;
        if i > j { assert es[i].Put?; }
      }
    }
  }

  lemma SameLooks(a: Tree, b: Tree)
    requires forall p :: Look(a, p) == Look(b, p)
    ensures a == b
  {
    forall p ensures (p in a <==> p in b) && (p in a ==> a[p] == b[p]) {
      assert Look(a, p) == Look(b, p);
    }
  }

  /** MAIN: on any tree, applying a layer in place gives what the layering rules mean
      exactly when the layer is orderly. */
  lemma InPlaceIsLayeredIff(es: seq<Effect>, t: Tree)
    ensures InPlace(es, t) == Layered(es, t) <==> Orderly(es)
  {
    if Orderly(es) {
      forall p ensures Look(InPlace(es, t), p) == Look(Layered(es, t), p) {
        OrderlyAt(es, t, p);
        LayeredAt(es, t, p);
      }
      SameLooks(InPlace(es, t), Layered(es, t));
    } else {
      var i, j :| 0 <= i < j < |es| && es[i].Put? && Hides(es[j], es[i].path) && !PutAfter(es, j, es[i].path);
      InPlaceAt(es, t, es[i].path);
      LayeredAt(es, t, es[i].path);
      assert LastPut(es, es[i].path).Some?;
    }
  }

  /** Markers ahead of all entries make a layer orderly. */
  lemma MarkersFirst(es: seq<Effect>, n: nat)
    requires n <= |es| && (forall i :: 0 <= i < n ==> !es[i].Put?) && (forall i :: n <= i < |es| ==> es[i].Put?)
    ensures Orderly(es)
  {
  }

  function Flatten(layers: seq<seq<Effect>>, t: Tree): Tree {
    if layers == [] then t else InPlace(layers[|layers| - 1], Flatten(layers[..|layers| - 1], t))
  }

  function LayeredAll(layers: seq<seq<Effect>>, t: Tree): Tree {
    if layers == [] then t else Layered(layers[|layers| - 1], LayeredAll(layers[..|layers| - 1], t))
  }

  /** Entries take effect in their order, one after the other. */
  lemma {:induction false} InPlaceInOrder(a: seq<Effect>, b: seq<Effect>, e: Effect, t: Tree)
    ensures InPlace(a + b, t) == InPlace(b, InPlace(a, t)) && InPlace([e], t) == Step(t, e)
  {
    assert [e][..0] == [];
    if b == [] {
      assert a + b == a;
    } else {
      assert (a + b)[..|a + b| - 1] == a + b[..|b| - 1];
      InPlaceInOrder(a, b[..|b| - 1], e, t);
    }
  }

  /** Layers take effect in their order, later ones on top. */
  lemma {:induction false} FlattenInOrder(a: seq<seq<Effect>>, b: seq<seq<Effect>>, l: seq<Effect>, t: Tree)
    ensures Flatten(a + b, t) == Flatten(b, Flatten(a, t)) && Flatten([l], t) == InPlace(l, t)
  {
    assert [l][..0] == [];
    if b == [] {
      assert a + b == a;
    } else {
      assert (a + b)[..|a + b| - 1] == a + b[..|b| - 1];
      FlattenInOrder(a, b[..|b| - 1], l, t);
    }
  }

  /** MAIN: flattening any list of orderly layers, in order and in place, is layering them. */
  lemma {:induction false} FlattenIsLayered(layers: seq<seq<Effect>>, t: Tree)
    requires forall i :: 0 <= i < |layers| ==> Orderly(layers[i])
    ensures Flatten(layers, t) == LayeredAll(layers, t)
  {
    if layers != [] {
      var init := layers[..|layers| - 1];
      FlattenIsLayered(init, t);
      InPlaceIsLayeredIff(layers[|layers| - 1], Flatten(init, t));
    }
  }

  // ----- nothing outside the stage -----

  lemma EffectInside(stage: Path, e: Entry)
    ensures EffectOf(stage, e).Skip? || stage <= EffectOf(stage, e).path
  {
  }

  lemma {:induction false} OutsideUntouched(stage: Path, layer: seq<Entry>, n: nat, t: Tree, p: Path)
    requires n <= |layer| && !(stage <= p)
    ensures Look(InPlace(EffectsOf(stage, layer)[..n], t), p) == Look(t, p)
  {
    if n > 0 {
      var es := EffectsOf(stage, layer)[..n];
      OutsideUntouched(stage, layer, n - 1, t, p);
      EffectInside(stage, layer[n - 1]);
      assert es[..n - 1] == EffectsOf(stage, layer)[..n - 1];
    }
  }

  lemma {:induction false} NamesAppend(a: seq<Component>, b: seq<Component>)
    ensures Names(a + b) == Names(a) + Names(b)
  {
    if b == [] {
      assert a + b == a;
    } else {
      assert (a + b)[..|a + b| - 1] == a + b[..|b| - 1];
      NamesAppend(a, b[..|b| - 1]);
    }
  }

  predicate AllPlain(p: seq<Component>) {
    forall i :: 0 <= i < |p| ==> Plain(p[i])
  }

  lemma JoinedName(parent: seq<Component>, name: string)
    ensures AllPlain(parent + NameParts(name)) <==> AllPlain(parent) && name != ".."
    ensures name != ".." ==> (Names(parent + NameParts(name)) == [] <==> Names(parent) == [] && (name == "" || name == "."))
  {
    var part := NameParts(name);
    var rel := parent + part;
    NamesAppend(parent, part);
    assert Names(part) == (if name == "" || name == "." || name == ".." then [] else [name]) by {
      if part != [] { assert part[..0] == []; }
    }
    assert AllPlain(rel) <==> AllPlain(parent) && AllPlain(part) by {
      assert forall i :: 0 <= i < |parent| ==> rel[i] == parent[i];
      assert forall i :: 0 <= i < |part| ==> rel[|parent| + i] == part[i];
    }
    assert AllPlain(part) <==> name != ".." by {
      if name == ".." { assert part[0] == ParentDir; }
    }
  }

  lemma Below(stage: Path, rest: Path)
    ensures stage + rest == stage <==> rest == []
  {
    assert |stage + rest| == |stage| + |rest|;
  }

  /** A marker can take away the stage itself: exactly the names `.wh.` and `.wh..` at
      the top do. */
  lemma StageHiddenIff(stage: Path, e: Entry)
    ensures EffectOf(stage, e) == Hide(stage) <==>
            (FileName(e.path) == ".wh." || FileName(e.path) == ".wh..") && AllPlain(Parent(e.path)) && Names(Parent(e.path)) == []
  {
    var f := FileName(e.path);
    if f != OPAQUE && WHITEOUT <= f {
      var name := f[4..];
      assert f == WHITEOUT + name;
      JoinedName(Parent(e.path), name);
      Below(stage, Names(Parent(e.path) + NameParts(name)));
      assert name == "" <==> f == ".wh.";
      assert name == "." <==> f == ".wh..";
    }
  }
}

/** What single entries do to a tree, in names and paths. */
module Entries {
  import opened Common
  import opened LayerModel

  /** A path as an archive spells it. */
  function Spelt(names: seq<string>): seq<Component> {
    seq(|names|, i requires 0 <= i < |names| => Normal(names[i]))
  }

  lemma {:induction false} NamesOfSpelt(names: seq<string>)
    ensures Names(Spelt(names)) == names && AllPlain(Spelt(names))
  {
    if names != [] {
      var init := names[..|names| - 1];
      NamesOfSpelt(init);
      assert Spelt(names)[..|names| - 1] == Spelt(init);
      assert names == init + [names[|names| - 1]];
    }
  }

  lemma SplitSpelt(dir: seq<string>, name: string)
    ensures Spelt(dir + [name]) == Spelt(dir) + [Normal(name)]
    ensures FileName(Spelt(dir + [name])) == name && Parent(Spelt(dir + [name])) == Spelt(dir)
  {
  }

  lemma DotJoins(stage: Path, rel: seq<Component>)
    ensures SafeJoin(stage, [CurDir] + rel) == SafeJoin(stage, rel) && Names([CurDir] + rel) == Names(rel)
  {
    var q := [CurDir] + rel;
    assert [CurDir][..0] == [] && Names([CurDir]) == [];
    NamesAppend([CurDir], rel);
    assert Names(q) == Names(rel);
    assert AllPlain(q) <==> AllPlain(rel) by {
      assert q[0] == CurDir && q[1..] == rel;
      if AllPlain(rel) {
        forall i | 0 <= i < |q| ensures Plain(q[i]) { assert i > 0 ==> q[i] == rel[i - 1]; }
      }
      if AllPlain(q) {
        forall i | 0 <= i < |rel| ensures Plain(rel[i]) { assert q[i + 1] == rel[i]; }
      }
    }
  }

  /** A leading dot does not matter. */
  lemma DotSkipped(stage: Path, names: seq<string>, content: string)
    requires names != []
    ensures EffectOf(stage, Entry([CurDir] + Spelt(names), content)) == EffectOf(stage, Entry(Spelt(names), content))
  {
    var p, q := Spelt(names), [CurDir] + Spelt(names);
    var f, up := FileName(p), Parent(p);
    assert FileName(q) == f && Parent(q) == [CurDir] + up;
    DotJoins(stage, up);
    DotJoins(stage, p);
    assert ParentDir in q <==> ParentDir in p;
    if WHITEOUT <= f {
      var rest := NameParts(f[4..]);
      DotJoins(stage, up + rest);
      assert Parent(q) + rest == [CurDir] + (up + rest);
    }
  }

  /** Exactly these paths are gone, and nothing else has changed. */
  ghost predicate Removes(t: Tree, t': Tree, gone: Path -> bool) {
    && (forall p :: p in t' <==> p in t && !gone(p))
    && (forall p :: p in t' ==> t'[p] == t[p])
  }

  /** An opaque marker in a directory takes away exactly what lies strictly below it. */
  lemma OpaqueClears(stage: Path, dir: seq<string>, content: string, t: Tree)
    ensures var e := Entry(Spelt(dir + [".wh..wh..opq"]), content);
            Removes(t, Step(t, EffectOf(stage, e)), p => |stage + dir| < |p| && p[..|stage + dir|] == stage + dir)
  {
    SplitSpelt(dir, ".wh..wh..opq");
    NamesOfSpelt(dir);
    var e := Entry(Spelt(dir + [".wh..wh..opq"]), content);
    assert EffectOf(stage, e) == Clear(stage + dir);
    forall p: Path ensures Hides(Clear(stage + dir), p) <==> |stage + dir| < |p| && p[..|stage + dir|] == stage + dir {
    }
  }

  /** A whiteout of a name in a directory takes away exactly that path and what is below it. */
  lemma WhiteoutRemoves(stage: Path, dir: seq<string>, name: string, content: string, t: Tree)
    requires name != "" && name != "." && name != ".." && name != ".wh..opq"
    ensures var e := Entry(Spelt(dir + [".wh." + name]), content);
            var target := stage + dir + [name];
            Removes(t, Step(t, EffectOf(stage, e)), p => |target| <= |p| && p[..|target|] == target)
  {
    var mark := ".wh." + name;
    SplitSpelt(dir, mark);
    SplitSpelt(dir, name);
    NamesOfSpelt(dir + [name]);
    var e := Entry(Spelt(dir + [mark]), content);
    assert mark[4..] == name && WHITEOUT <= mark;
    assert OPAQUE[4..] == ".wh..opq";
    var target := stage + dir + [name];
    assert stage + (dir + [name]) == target;
    assert EffectOf(stage, e) == Hide(target);
    forall p: Path ensures Hides(Hide(target), p) <==> |target| <= |p| && p[..|target|] == target {
    }
  }

  /** Any other plain entry makes exactly its own path hold its own content. */
  lemma EntryPuts(stage: Path, dir: seq<string>, name: string, content: string, t: Tree)
    requires !(".wh." <= name)
    ensures Step(t, EffectOf(stage, Entry(Spelt(dir + [name]), content))) == t[stage + dir + [name] := content]
  {
    SplitSpelt(dir, name);
    NamesOfSpelt(dir + [name]);
    var e := Entry(Spelt(dir + [name]), content);
    assert ParentDir !in e.path;
    assert OPAQUE[..4] == ".wh.";
    assert stage + (dir + [name]) == stage + dir + [name];
    assert EffectOf(stage, e) == Put(stage + dir + [name], content);
  }

  /** Entries that climb, or that name nothing, change nothing. */
  lemma ClimbingSkipped(stage: Path, e: Entry, t: Tree)
    requires ParentDir in e.path
    ensures Step(t, EffectOf(stage, e)) == t || FileName(e.path) == ".wh..wh..opq" || ".wh." <= FileName(e.path)
    ensures ParentDir in Parent(e.path) ==> Step(t, EffectOf(stage, e)) == t
  {
    var up := Parent(e.path);
    if ParentDir in up {
      var i :| 0 <= i < |up| && up[i] == ParentDir;
      var rel := up + NameParts(FileName(e.path)[Common.Min(4, |FileName(e.path)|)..]);
      assert rel[i] == ParentDir && !Plain(up[i]) && !Plain(rel[i]);
      assert SafeJoin(stage, up) == None && SafeJoin(stage, rel) == None;
    }
  }
}

module Layers {
  import opened Common
  import opened LayerModel

  /** The file system, changed entry by entry. */
  class FileSystem {
    var tree: Tree

    constructor (t: Tree)
      ensures tree == t
    {
      tree := t;
    }

    /** A file, or a directory with everything in it. */
    method RemovePath(p: Path)
      modifies this
      ensures tree == Step(old(tree), Hide(p))
    {
      tree := map q | q in tree && !(p <= q) :: tree[q];
    }

    /** Every child of a directory, one after the other. */
    method ClearDirContents(d: Path)
      modifies this
      ensures tree == Step(old(tree), Clear(d))
    {
      ghost var t := tree;
      var todo := set q | q in tree && d < q :: q[|d|];
      ghost var all := todo;
      while todo != {}
        invariant todo <= all
        invariant tree == map q | q in t && !(d < q && q[|d|] in all - todo) :: t[q]
        decreases todo
      {
        var name :| name in todo;
        ghost var was := tree;
        RemovePath(d + [name]);
        BelowChild(d, name);
        todo := todo - {name};
      }
      assert forall q :: q in t && d < q ==> q[|d|] in all;
    }

    method FlattenOne(layer: seq<Entry>, stage: Path)
      modifies this
      ensures tree == InPlace(EffectsOf(stage, layer), old(tree))
      ensures forall p :: !(stage <= p) ==> Look(tree, p) == Look(old(tree), p)
    {
      ghost var es := EffectsOf(stage, layer);
      for i := 0 to |layer|
        invariant tree == InPlace(es[..i], old(tree))
      {
        assert es[..i + 1][..i] == es[..i];
        Unpack(layer[i], stage);
      }
      assert es[..|layer|] == es;
      forall p | !(stage <= p) ensures Look(tree, p) == Look(old(tree), p) {
        OutsideUntouched(stage, layer, |layer|, old(tree), p);
      }
    }

    /** One entry: opaque marker, whiteout, or anything else. */
    method Unpack(e: Entry, stage: Path)
      modifies this
      ensures tree == Step(old(tree), EffectOf(stage, e))
    {
      var f := FileName(e.path);
      if f == OPAQUE {
        var dir := Join(stage, Parent(e.path));
        if dir.Some? { ClearDirContents(dir.value); }
      } else if WHITEOUT <= f {
        var target := Join(stage, Parent(e.path) + NameParts(f[4..]));
        if target.Some? { RemovePath(target.value); }
      } else if ParentDir !in e.path && Names(e.path) != [] {
        tree := tree[stage + Names(e.path) := e.content];
      }
    }

    method FlattenLayers(layers: seq<seq<Entry>>, stage: Path)
      modifies this
      ensures tree == Flatten(seq(|layers|, i requires 0 <= i < |layers| => EffectsOf(stage, layers[i])), old(tree))
      ensures forall p :: !(stage <= p) ==> Look(tree, p) == Look(old(tree), p)
    {
      ghost var all := seq(|layers|, i requires 0 <= i < |layers| => EffectsOf(stage, layers[i]));
      for i := 0 to |layers|
        invariant tree == Flatten(all[..i], old(tree))
        invariant forall p :: !(stage <= p) ==> Look(tree, p) == Look(old(tree), p)
      {
        assert all[..i + 1][..i] == all[..i];
        FlattenOne(layers[i], stage);
      }
      assert all[..|layers|] == all;
    }
  }

  /** `safe_join`, component by component. */
  method Join(stage: Path, rel: seq<Component>) returns (r: Option<Path>)
    ensures r == SafeJoin(stage, rel)
    ensures r.Some? ==> stage <= r.value
    ensures r == None <==> RootDir in rel || ParentDir in rel
  {
    var out := stage;
    for i := 0 to |rel|
      invariant out == stage + Names(rel[..i])
      invariant forall j :: 0 <= j < i ==> Plain(rel[j])
    {
      assert rel[..i + 1][..i] == rel[..i];
      match rel[i]
      case Normal(name) => out := out + [name];
      case CurDir =>
      case RootDir => return None;
      case ParentDir => return None;
    }
    assert rel[..|rel|] == rel;
    return Some(out);
  }

  lemma BelowChild(d: Path, name: string)
    ensures forall q: Path :: d + [name] <= q <==> d < q && q[|d|] == name
  {
    forall q: Path ensures d + [name] <= q <==> d < q && q[|d|] == name {
      if d < q && q[|d|] == name {
        assert q[..|d| + 1] == d + [name];
      }
      if d + [name] <= q {
        assert q[..|d| + 1] == d + [name] && q[..|d|] == d;
      }
    }
  }
}
