/**
 Which files an image holds after its layers. The inspection follows each expected file through
 the layers; the reference applies every layer to a full tree.
 */
module OciLayers {
  import opened Common

  datatype Kind = Regular(digest: string) | Directory | Special

  /** A member of a layer's archive. */
  datatype Member = Member(rawName: string, kind: Kind)

  type Layer = seq<Member>

  // ----- names -----

  function StripSlashes(s: string): (r: string)
    ensures r == "" || r[0] != '/'
  {
    if s != "" && s[0] == '/' then StripSlashes(s[1..]) else s
  }

  function Name(m: Member): (name: string)
    ensures name == "" || name[0] != '/'
  {
    StripSlashes(if "./" <= m.rawName then m.rawName[2..] else m.rawName)
  }

  predicate AllSlashes(s: string) {
    forall i | 0 <= i < |s| :: s[i] == '/'
  }

  lemma {:induction false} StripsSlashes(slashes: string, name: string)
    requires AllSlashes(slashes) && (name == "" || name[0] != '/')
    ensures StripSlashes(slashes + name) == name
  {
    if slashes == "" {
      assert slashes + name == name;
    } else {
      assert (slashes + name)[1..] == slashes[1..] + name;
      StripsSlashes(slashes[1..], name);
    }
  }

  /** However an archive spells a path, with or without a leading "./" and slashes, it has the same name. */
  lemma NameIsThePath(slashes: string, path: string, kind: Kind)
    requires AllSlashes(slashes) && (path == "" || path[0] != '/')
    ensures Name(Member("./" + slashes + path, kind)) == path
    ensures !("./" <= path) || slashes != "" ==> Name(Member(slashes + path, kind)) == path
  {
    StripsSlashes(slashes, path);
    assert ("./" + slashes + path)[2..] == slashes + path;
    assert slashes == "" ==> slashes + path == path;
  }

  /** The components of a name. */
  function Components(s: string): (parts: seq<string>)
    ensures |parts| > 0
  {
    if s == "" then [""]
    else
      var rest := Components(s[1..]);
      if s[0] == '/' then [""] + rest else [[s[0]] + rest[0]] + rest[1..]
  }

  predicate Below(dir: seq<string>, path: seq<string>) {
    dir < path
  }

  lemma PrefixByHead(d: seq<string>, n: seq<string>)
    requires |d| > 0 && |n| > 0
    ensures d < n <==> d[0] == n[0] && d[1..] < n[1..]
  {
    assert d == [d[0]] + d[1..] && n == [n[0]] + n[1..];
  }

  lemma SameFirstByte(c: char, d: seq<string>, n: seq<string>)
    requires |d| > 0 && |n| > 0
    ensures [""] + d < [""] + n <==> d < n
    ensures [[c] + d[0]] + d[1..] < [[c] + n[0]] + n[1..] <==> d < n
  {
    PrefixByHead(d, n);
    PrefixByHead([""] + d, [""] + n);
    PrefixByHead([[c] + d[0]] + d[1..], [[c] + n[0]] + n[1..]);
    assert ([c] + d[0])[1..] == d[0] && ([c] + n[0])[1..] == n[0];
    assert ([""] + d)[1..] == d && ([""] + n)[1..] == n;
  }

  /** A name with a slash appended is a prefix of another one if and only if its components are. */
  lemma {:induction false} PrefixIsBelow(dir: string, name: string)
    ensures dir + "/" <= name <==> Below(Components(dir), Components(name))
  {
    if dir != "" && name != "" {
      PrefixIsBelow(dir[1..], name[1..]);
      assert (dir + "/")[1..] == dir[1..] + "/";
      assert dir + "/" <= name <==> dir[0] == name[0] && dir[1..] + "/" <= name[1..];
      if dir[0] == name[0] {
        SameFirstByte(dir[0], Components(dir[1..]), Components(name[1..]));
      } else if dir[0] == '/' || name[0] == '/' {
        assert Components(dir)[0] != Components(name)[0];
      } else {
        assert Components(dir)[0][0] == dir[0] && Components(name)[0][0] == name[0];
      }
    } else if name != "" {
      assert Components(name)[0] == "" <==> name[0] == '/';
    }
  }

  lemma {:induction false} ComponentsInjective(a: string, b: string)
    requires Components(a) == Components(b)
    ensures a == b
  {
    if a != "" && b != "" {
      var ca, cb := Components(a[1..]), Components(b[1..]);
      if a[0] == '/' {
        assert b[0] == '/';
        assert ca == Components(a)[1..] && cb == Components(b)[1..];
      } else {
        assert b[0] != '/' && Components(a)[0][0] == a[0] && Components(b)[0][0] == b[0];
        assert ca == [Components(a)[0][1..]] + Components(a)[1..] && cb == [Components(b)[0][1..]] + Components(b)[1..];
      }
      ComponentsInjective(a[1..], b[1..]);
    }
  }

  lemma {:induction false} ComponentsOfLeaf(leaf: string)
    requires '/' !in leaf
    ensures Components(leaf) == [leaf]
  {
    if leaf != "" {
      ComponentsOfLeaf(leaf[1..]);
      assert [leaf[0]] + leaf[1..] == leaf;
    }
  }

  lemma {:induction false} ComponentsOfChild(parent: string, leaf: string)
    requires '/' !in leaf
    ensures Components(parent + "/" + leaf) == Components(parent) + [leaf]
  {
    if parent == "" {
      ComponentsOfLeaf(leaf);
      assert (parent + "/" + leaf)[1..] == leaf;
    } else {
      ComponentsOfChild(parent[1..], leaf);
      assert (parent + "/" + leaf)[1..] == parent[1..] + "/" + leaf;
    }
  }

  // ----- whiteouts -----

  const WHITEOUT := ".wh."
  const OPAQUE := ".wh..wh..opq"

  datatype Parted = Parted(parent: string, leaf: string)

  /** Parted at the last slash; the parent is empty without one. */
  function Part(name: string): (p: Parted)
    ensures '/' !in p.leaf
    ensures name == p.parent + "/" + p.leaf || (name == p.leaf && p.parent == "")
  {
    if name == "" then Parted("", "")
    else
      var front, c := name[..|name| - 1], name[|name| - 1];
      if c == '/' then Parted(front, "") else Part(front).(leaf := Part(front).leaf + [c])
  }

  predicate IsWhiteout(name: string) {
    WHITEOUT <= Part(name).leaf
  }

  /** The path a whiteout removes, as the inspection computes it. */
  function Removed(name: string): string
    requires IsWhiteout(name)
  {
    var p := Part(name);
    if p.leaf == OPAQUE then p.parent
    else if p.parent == "" then p.leaf[4..]
    else p.parent + "/" + p.leaf[4..]
  }

  predicate Removes(name: string, full: string) {
    && IsWhiteout(name)
    && var removed := Removed(name);
       removed == "" || full == removed || removed + "/" <= full
  }

  /**
   What a whiteout removes from a tree: an opaque one everything in its directory, any other one
   the path it names with all below it.
   */
  predicate Hides(name: string, path: seq<string>) {
    && IsWhiteout(name)
    && var parts, leaf := Components(name), Part(name).leaf;
       var parent := parts[..|parts| - 1];
       if leaf == OPAQUE then parent < path else parent + [leaf[4..]] <= path
  }

  /** A whiteout without a name in the image's root. */
  const NAMELESS := ".wh."

  lemma ComponentsOfParted(name: string)
    requires name == "" || name[0] != '/'
    ensures var p, parts := Part(name), Components(name);
            parts[..|parts| - 1] == (if p.parent == "" then [] else Components(p.parent))
  {
    var p := Part(name);
    if p.parent == "" {
      ComponentsOfLeaf(p.leaf);
    } else {
      ComponentsOfChild(p.parent, p.leaf);
    }
  }

  /** A path and everything below it, in names and in components. */
  lemma SameOrBelow(removed: string, full: string)
    ensures full == removed || removed + "/" <= full <==> Components(removed) <= Components(full)
  {
    PrefixIsBelow(removed, full);
    if Components(full) == Components(removed) {
      ComponentsInjective(full, removed);
    }
  }

  lemma HiddenName(leaf: string)
    requires WHITEOUT <= leaf && '/' !in leaf
    ensures '/' !in leaf[4..] && (leaf[4..] == "" ==> leaf == NAMELESS)
  {
    assert leaf == leaf[..4] + leaf[4..];
  }

  lemma RemovedComponents(name: string)
    requires (name == "" || name[0] != '/') && IsWhiteout(name) && Part(name).leaf != OPAQUE
    ensures var p := Part(name);
            && Components(Removed(name)) == (if p.parent == "" then [] else Components(p.parent)) + [p.leaf[4..]]
            && (Removed(name) == "" ==> name == NAMELESS)
  {
    var p := Part(name);
    HiddenName(p.leaf);
    if p.parent == "" {
      ComponentsOfLeaf(p.leaf[4..]);
    } else {
      ComponentsOfChild(p.parent, p.leaf[4..]);
    }
  }

  lemma OpaqueRemovesIsHides(name: string, full: string)
    requires (name == "" || name[0] != '/') && IsWhiteout(name) && Part(name).leaf == OPAQUE
    ensures Removes(name, full) <==> Hides(name, Components(full)) || OpaqueIn(name, Components(full))
  {
    ComponentsOfParted(name);
    SameOrBelow(Removed(name), full);
  }

  lemma NamedRemovesIsHides(name: string, full: string)
    requires (name == "" || name[0] != '/') && IsWhiteout(name) && Part(name).leaf != OPAQUE && name != NAMELESS
    ensures Removes(name, full) <==> Hides(name, Components(full))
  {
    ComponentsOfParted(name);
    RemovedComponents(name);
    SameOrBelow(Removed(name), full);
  }

  /** The inspection removes what the whiteout hides, and at most the opaque directory itself besides. */
  lemma RemovesIsHides(name: string, full: string)
    requires (name == "" || name[0] != '/') && name != NAMELESS
    ensures Removes(name, full) <==> Hides(name, Components(full)) || OpaqueIn(name, Components(full))
  {
    if IsWhiteout(name) {
      if Part(name).leaf == OPAQUE {
        OpaqueRemovesIsHides(name, full);
      } else {
        NamedRemovesIsHides(name, full);
      }
    }
  }

  /** An opaque whiteout directly in a directory. */
  predicate OpaqueIn(name: string, dir: seq<string>) {
    && IsWhiteout(name) && Part(name).leaf == OPAQUE
    && var parts := Components(name); parts[..|parts| - 1] == dir
  }

  // ----- the reference: a full tree -----

  datatype Node = Absent | Present(kind: Kind)

  type Tree = seq<string> -> Node

  function EmptyTree(): Tree {
    path => Absent
  }

  function FileAt(tree: Tree, path: seq<string>): Option<string> {
    match tree(path)
    case Present(Regular(digest)) => Some(digest)
    case _ => None
  }

  predicate Hidden(layer: Layer, path: seq<string>) {
    exists m | m in layer :: Hides(Name(m), path)
  }

  function Cleared(tree: Tree, layer: Layer): Tree {
    path => if Hidden(layer, path) then Absent else tree(path)
  }

  /** A member makes its ancestors directories; one that is no directory leaves nothing below itself. */
  function Put(tree: Tree, m: Member): Tree {
    var name := Name(m);
    var at := Components(name);
    path =>
      if path < at then Present(Directory)
      else if IsWhiteout(name) then tree(path)
      else if path == at then Present(m.kind)
      else if at < path && m.kind != Directory then Absent
      else tree(path)
  }

  function PutAll(tree: Tree, layer: Layer): Tree {
    if layer == [] then tree else Put(PutAll(tree, layer[..|layer| - 1]), layer[|layer| - 1])
  }

  /** Whiteouts affect what lower layers hold, never their own layer. */
  function TreeOf(layers: seq<Layer>): Tree {
    if layers == [] then EmptyTree()
    else
      var top := layers[|layers| - 1];
      PutAll(Cleared(TreeOf(layers[..|layers| - 1]), top), top)
  }

  /** Only directories have anything below them. */
  ghost predicate IsTree(tree: Tree) {
    forall path, below | path < below && tree(below) != Absent :: path == [] || tree(path) == Present(Directory)
  }

  // ----- one file through the layers -----

  predicate AllRegular(layer: Layer, full: string) {
    forall m | m in layer && Name(m) == full :: m.kind.Regular?
  }

  /** The digest of the last member of this name. */
  function LastWrite(layer: Layer, full: string): Option<string> {
    if layer == [] then None
    else
      var m := layer[|layer| - 1];
      if Name(m) == full && m.kind.Regular? then Some(m.kind.digest) else LastWrite(layer[..|layer| - 1], full)
  }

  predicate RemovedBy(layer: Layer, full: string) {
    exists m | m in layer :: Removes(Name(m), full)
  }

  function DigestAfterLayer(layer: Layer, full: string, was: Option<string>): Option<string> {
    if LastWrite(layer, full).Some? then LastWrite(layer, full)
    else if RemovedBy(layer, full) then None
    else was
  }

  function DigestAfter(layers: seq<Layer>, full: string): Option<string> {
    if layers == [] then None
    else DigestAfterLayer(layers[|layers| - 1], full, DigestAfter(layers[..|layers| - 1], full))
  }

  // ----- where both agree -----

  /** A member that needs a directory where the file is, or puts something else above it. */
  predicate Buries(m: Member, path: seq<string>) {
    var at := Components(Name(m));
    path < at || (at < path && !IsWhiteout(Name(m)) && m.kind != Directory)
  }

  /** A member buries the file and none after it writes the file again. */
  predicate Buried(layer: Layer, full: string) {
    && layer != []
    && var m := layer[|layer| - 1];
       Name(m) != full && (Buries(m, Components(full)) || Buried(layer[..|layer| - 1], full))
  }

  lemma FileAfterPut(tree: Tree, m: Member, full: string)
    requires !IsWhiteout(full) && (Name(m) == full ==> m.kind.Regular?)
    ensures FileAt(Put(tree, m), Components(full)) ==
            if Name(m) == full then Some(m.kind.digest)
            else if Buries(m, Components(full)) then None
            else FileAt(tree, Components(full))
  {
    if Components(Name(m)) == Components(full) {
      ComponentsInjective(Name(m), full);
    }
  }

  lemma {:induction false} FileAfterPuts(tree: Tree, layer: Layer, full: string)
    requires AllRegular(layer, full) && !IsWhiteout(full)
    ensures FileAt(PutAll(tree, layer), Components(full)) ==
            if Buried(layer, full) then None
            else if LastWrite(layer, full).Some? then LastWrite(layer, full)
            else FileAt(tree, Components(full))
  {
    if layer != [] {
      var front, m := layer[..|layer| - 1], layer[|layer| - 1];
      FileAfterPuts(tree, front, full);
      FileAfterPut(PutAll(tree, front), m, full);
    }
  }

  /**
   The layers on which the inspection and the tree part ways: a buried file that the layer writes or
   leaves in place, or an unhidden one that only a nameless whiteout removes.
   */
  predicate Misread(layer: Layer, full: string, was: Option<string>) {
    if Buried(layer, full) then LastWrite(layer, full).Some? || (was.Some? && !RemovedBy(layer, full))
    else
      && was.Some? && LastWrite(layer, full).None?
      && !Hidden(layer, Components(full)) && exists m | m in layer :: Name(m) == NAMELESS
  }

  lemma {:induction false} OpaqueInBuries(layer: Layer, full: string, m: Member)
    requires m in layer && OpaqueIn(Name(m), Components(full)) && LastWrite(layer, full).None? && AllRegular(layer, full)
    ensures Buried(layer, full)
  {
    var front, last := layer[..|layer| - 1], layer[|layer| - 1];
    if m == last {
      assert Components(full) < Components(Name(m));
    } else {
      OpaqueInBuries(front, full, m);
    }
  }

  lemma NamelessRemovesAll(full: string)
    ensures Removes(NAMELESS, full)
  {
    ComponentsOfLeaf(NAMELESS);
    assert Part(NAMELESS).leaf == NAMELESS;
  }

  /** Unless the layer buries it, an unwritten file is removed exactly when it is hidden or a nameless whiteout stands in the root. */
  lemma RemovedIffHidden(layer: Layer, full: string)
    requires AllRegular(layer, full) && LastWrite(layer, full).None? && !Buried(layer, full)
    ensures RemovedBy(layer, full) <==> Hidden(layer, Components(full)) || exists m | m in layer :: Name(m) == NAMELESS
  {
    forall m | m in layer && Name(m) != NAMELESS
      ensures Removes(Name(m), full) <==> Hides(Name(m), Components(full))
    {
      RemovesIsHides(Name(m), full);
      if OpaqueIn(Name(m), Components(full)) {
        OpaqueInBuries(layer, full, m);
      }
    }
    NamelessRemovesAll(full);
  }

  /** One layer more: the inspection agrees with the tree if and only if the layer is not misread. */
  lemma LayerAgreesIffNotMisread(tree: Tree, layer: Layer, full: string)
    requires AllRegular(layer, full) && !IsWhiteout(full)
    ensures var was := FileAt(tree, Components(full));
            DigestAfterLayer(layer, full, was) == FileAt(PutAll(Cleared(tree, layer), layer), Components(full))
            <==> !Misread(layer, full, was)
  {
    FileAfterPuts(Cleared(tree, layer), layer, full);
    if LastWrite(layer, full).None? && !Buried(layer, full) {
      RemovedIffHidden(layer, full);
    }
  }

  /** No member of a layer misleads the inspection, whatever lower layers hold. */
  predicate Faithful(layer: Layer, full: string) {
    !Buried(layer, full) && forall m | m in layer :: Name(m) != NAMELESS
  }

  /** The inspection follows a file through faithful layers as the full tree does. */
  lemma {:induction false} InspectionAgreesWithTree(layers: seq<Layer>, full: string)
    requires !IsWhiteout(full)
    requires forall i | 0 <= i < |layers| :: AllRegular(layers[i], full) && Faithful(layers[i], full)
    ensures DigestAfter(layers, full) == FileAt(TreeOf(layers), Components(full))
  {
    if layers != [] {
      var n := |layers| - 1;
      InspectionAgreesWithTree(layers[..n], full);
      LayerAgreesIffNotMisread(TreeOf(layers[..n]), layers[n], full);
    }
  }

  /** A run of layers: as long as they have agreed, the next one decides whether they still do. */
  lemma AgreementBreaksExactlyWhereMisread(layers: seq<Layer>, full: string)
    requires layers != [] && !IsWhiteout(full) && AllRegular(layers[|layers| - 1], full)
    requires var front := layers[..|layers| - 1]; DigestAfter(front, full) == FileAt(TreeOf(front), Components(full))
    ensures DigestAfter(layers, full) == FileAt(TreeOf(layers), Components(full))
            <==> !Misread(layers[|layers| - 1], full, DigestAfter(layers[..|layers| - 1], full))
  {
    LayerAgreesIffNotMisread(TreeOf(layers[..|layers| - 1]), layers[|layers| - 1], full);
  }

  /** What a wrong answer looks like: a directory replaced by a link still seems to hold the file. */
  lemma ReplacedDirectoryIsMisread(digest: string)
    ensures var layers := [[Member("a/b", Regular(digest))], [Member("a", Special)]];
            DigestAfter(layers, "a/b") == Some(digest) && FileAt(TreeOf(layers), Components("a/b")) == None
  {
    var lower, upper := [Member("a/b", Regular(digest))], [Member("a", Special)];
    var file, link := lower[0], upper[0];
    assert Name(file) == "a/b" && Name(link) == "a";
    ComponentsOfLeaf("a");
    ComponentsOfChild("a", "b");
    assert Components("a/b") == ["a", "b"] by {
      assert "a" + "/" + "b" == "a/b";
    }
    assert [lower, upper][..1] == [lower] && [lower][..0] == [] && lower[..0] == [] && upper[..0] == [];
    assert LastWrite(lower, "a/b") == Some(digest);
    assert DigestAfter([lower], "a/b") == Some(digest);
    assert LastWrite([], "a/b") == None && LastWrite(upper, "a/b") == None;
    assert Part("a").leaf == "a" && Part("a/b").leaf == "b" by {
      assert "a"[..0] == "" && "a/b"[..2] == "a/" && "a/"[..1] == "a";
    }
    assert !IsWhiteout("a") && !IsWhiteout("a/b");
    assert !RemovedBy(upper, "a/b");
    LayerAgreesIffNotMisread(TreeOf([lower]), upper, "a/b");
    assert Buries(link, ["a", "b"]) && Buried(upper, "a/b");
    FileAfterPuts(Cleared(TreeOf([lower]), upper), upper, "a/b");
  }

  /** The reference is a tree whatever the layers are, as long as whiteouts hide whole subtrees. */
  lemma {:induction false} PutAllKeepsTree(tree: Tree, layer: Layer)
    requires IsTree(tree)
    ensures IsTree(PutAll(tree, layer))
  {
    if layer != [] {
      var front, m := layer[..|layer| - 1], layer[|layer| - 1];
      PutAllKeepsTree(tree, front);
      PutKeepsTree(PutAll(tree, front), m);
    }
  }

  lemma PutKeepsTree(tree: Tree, m: Member)
    requires IsTree(tree)
    ensures IsTree(Put(tree, m))
  {
    var at := Components(Name(m));
    forall path, below | path < below && Put(tree, m)(below) != Absent
      ensures path == [] || Put(tree, m)(path) == Present(Directory)
    {
      if below < at {
        assert path < at;
      } else if below == at {
        assert path < at;
      } else if path < at {
      } else if at < below {
        assert path == at || at < path by {
          PrefixesCompare(path, at, below);
        }
      }
    }
  }

  lemma PrefixesCompare(a: seq<string>, b: seq<string>, whole: seq<string>)
    requires a < whole && b < whole
    ensures a < b || a == b || b < a
  {
    assert a == whole[..|a|] && b == whole[..|b|];
  }

  lemma {:induction false} ReferenceIsTree(layers: seq<Layer>)
    ensures IsTree(TreeOf(layers))
  {
    if layers != [] {
      var below, top := TreeOf(layers[..|layers| - 1]), layers[|layers| - 1];
      ReferenceIsTree(layers[..|layers| - 1]);
      forall path, q | path < q && Hidden(top, path)
        ensures Hidden(top, q)
      {
        var m :| m in top && Hides(Name(m), path);
        assert Hides(Name(m), q);
      }
      PutAllKeepsTree(Cleared(below, top), top);
    }
  }

  // ----- the inspection -----

  function Lookup(files: map<string, string>, target: string): Option<string> {
    if target in files then Some(files[target]) else None
  }

  datatype Inspection = Accepted(observed: map<string, string>) | Mismatch(observed: map<string, string>) | NotRegular

  /** What is observed of the expected files is what following each of them through the layers gives. */
  predicate Follows(observed: map<string, string>, expected: map<string, string>, prefix: string, layers: seq<Layer>) {
    && observed.Keys <= expected.Keys
    && forall target | target in expected :: Lookup(observed, target) == DigestAfter(layers, prefix + target)
  }

  predicate RegularIn(layer: Layer, expected: map<string, string>, prefix: string) {
    forall target | target in expected :: AllRegular(layer, prefix + target)
  }

  method InspectLayers(layers: seq<Layer>, expected: map<string, string>, prefix: string) returns (r: Inspection)
    ensures r.NotRegular? <==> exists k | 0 <= k < |layers| :: !RegularIn(layers[k], expected, prefix)
    ensures !r.NotRegular? ==> Follows(r.observed, expected, prefix, layers)
    ensures !r.NotRegular? ==> (r.Accepted? <==> r.observed == expected)
  {
    var observed: map<string, string> := map[];
    for k := 0 to |layers|
      invariant forall i | 0 <= i < k :: RegularIn(layers[i], expected, prefix)
      invariant Follows(observed, expected, prefix, layers[..k])
    {
      assert layers[..k + 1][..k] == layers[..k];
      var kept := RemoveWhitedOut(layers[k], observed, prefix);
      var regular, written := WriteMembers(layers[k], kept, expected, prefix);
      if !regular {
        return NotRegular;
      }
      observed := written;
    }
    assert layers[..|layers|] == layers;
    r := if observed == expected then Accepted(observed) else Mismatch(observed);
  }

  method RemoveWhitedOut(layer: Layer, observed: map<string, string>, prefix: string) returns (kept: map<string, string>)
    ensures kept.Keys <= observed.Keys
    ensures forall target :: Lookup(kept, target) == if RemovedBy(layer, prefix + target) then None else Lookup(observed, target)
  {
    kept := observed;
    for k := 0 to |layer|
      invariant kept.Keys <= observed.Keys
      invariant forall target :: Lookup(kept, target) == if RemovedBy(layer[..k], prefix + target) then None else Lookup(observed, target)
    {
      RemovedByOneMore(layer, k, prefix);
      if IsWhiteout(Name(layer[k])) {
        kept := DeleteRemoved(Name(layer[k]), kept, prefix);
      }
    }
    assert layer[..|layer|] == layer;
  }

  lemma RemovedByOneMore(layer: Layer, k: nat, prefix: string)
    requires k < |layer|
    ensures forall full :: RemovedBy(layer[..k + 1], full) <==> RemovedBy(layer[..k], full) || Removes(Name(layer[k]), full)
  {
    assert layer[..k + 1] == layer[..k] + [layer[k]];
    forall full
      ensures RemovedBy(layer[..k + 1], full) <==> RemovedBy(layer[..k], full) || Removes(Name(layer[k]), full)
    {
      assert forall m :: m in layer[..k + 1] <==> m in layer[..k] || m == layer[k];
    }
  }

  method DeleteRemoved(whiteout: string, observed: map<string, string>, prefix: string) returns (kept: map<string, string>)
    requires IsWhiteout(whiteout)
    ensures kept.Keys <= observed.Keys
    ensures forall target :: Lookup(kept, target) == if Removes(whiteout, prefix + target) then None else Lookup(observed, target)
  {
    kept := observed;
    var removed := Removed(whiteout);
    var pending := observed.Keys;
    while pending != {}
      invariant pending <= observed.Keys && kept.Keys <= observed.Keys
      invariant forall target :: Lookup(kept, target) ==
                  if target !in pending && Removes(whiteout, prefix + target) then None else Lookup(observed, target)
      decreases |pending|
    {
      var target :| target in pending;
      pending := pending - {target};
      var full := prefix + target;
      if removed == "" || full == removed || removed + "/" <= full {
        kept := kept - {target};
      }
    }
  }

  method WriteMembers(layer: Layer, observed: map<string, string>, expected: map<string, string>, prefix: string)
    returns (regular: bool, written: map<string, string>)
    requires observed.Keys <= expected.Keys
    ensures regular <==> RegularIn(layer, expected, prefix)
    ensures regular ==> written.Keys <= expected.Keys && forall target | target in expected ::
                          Lookup(written, target) == WrittenBy(layer, prefix + target, Lookup(observed, target))
  {
    written := observed;
    for k := 0 to |layer|
      invariant RegularIn(layer[..k], expected, prefix) && written.Keys <= expected.Keys
      invariant forall target | target in expected ::
                  Lookup(written, target) == WrittenBy(layer[..k], prefix + target, Lookup(observed, target))
    {
      assert layer[..k + 1][..k] == layer[..k];
      var now;
      regular, now := WriteMember(layer[k], written, expected, prefix);
      if !regular {
        return;
      }
      written := now;
    }
    assert layer[..|layer|] == layer;
    regular := true;
  }

  function WrittenBy(layer: Layer, full: string, was: Option<string>): Option<string> {
    if LastWrite(layer, full).Some? then LastWrite(layer, full) else was
  }

  method WriteMember(m: Member, observed: map<string, string>, expected: map<string, string>, prefix: string)
    returns (regular: bool, written: map<string, string>)
    requires observed.Keys <= expected.Keys
    ensures regular <==> (m.kind.Regular? || forall target | target in expected :: Name(m) != prefix + target)
    ensures regular ==> written.Keys <= expected.Keys && forall target | target in expected ::
                          Lookup(written, target) == if Name(m) == prefix + target then Some(m.kind.digest) else Lookup(observed, target)
  {
    written := observed;
    var pending := expected.Keys;
    while pending != {}
      invariant pending <= expected.Keys && written.Keys <= expected.Keys
      invariant m.kind.Regular? || forall target | target in expected && target !in pending :: Name(m) != prefix + target
      invariant forall target | target in expected :: Lookup(written, target) ==
                  if target !in pending && Name(m) == prefix + target then Some(m.kind.digest) else Lookup(observed, target)
      decreases |pending|
    {
      var target :| target in pending;
      pending := pending - {target};
      if Name(m) == prefix + target {
        if !m.kind.Regular? {
          return false, written;
        }
        written := written[target := m.kind.digest];
      }
    }
    regular := true;
  }

  /** Through faithful layers, exactly the images whose full tree holds every expected file are accepted. */
  lemma AcceptedIffTreeHoldsExpected(
      layers: seq<Layer>, expected: map<string, string>, prefix: string, observed: map<string, string>)
    requires Follows(observed, expected, prefix, layers)
    requires forall target | target in expected :: !IsWhiteout(prefix + target)
    requires forall k, target | 0 <= k < |layers| && target in expected ::
               AllRegular(layers[k], prefix + target) && Faithful(layers[k], prefix + target)
    ensures observed == expected <==>
            forall target | target in expected :: FileAt(TreeOf(layers), Components(prefix + target)) == Some(expected[target])
  {
    forall target | target in expected
      ensures Lookup(observed, target) == FileAt(TreeOf(layers), Components(prefix + target))
    {
      InspectionAgreesWithTree(layers, prefix + target);
    }
    if forall target | target in expected :: Lookup(observed, target) == Some(expected[target]) {
      assert forall target | target in expected :: target in observed && observed[target] == expected[target];
      assert observed.Keys == expected.Keys;
    }
  }
}
