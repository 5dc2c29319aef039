/**
 Asar headers (internal/asar/asar.go): flattening the directory tree into a sorted file list
 whatever order its maps are walked in.
 */
module Asar {
  import opened Basics
  import opened Ordering

  datatype FileEntry = FileEntry(path: string, size: int, sha256: string, isUnpacked: bool)

  /** A node of the header: a file when it has a size, otherwise a directory. */
  datatype RawNode = RawNode(size: Option<int>, isUnpacked: bool, hash: Option<string>, files: map<string, RawNode>)

  /** The names on the way from the header's root to a node. */
  type Address = seq<string>

  // ---------- what the tree holds ----------

  /** The file node at an address; a node with a size is never descended into. */
  ghost function FileAt(dir: RawNode, addr: Address): Option<RawNode>
    decreases |addr|
  {
    if addr == [] || addr[0] !in dir.files then None
    else
      var node := dir.files[addr[0]];
      if node.size.Some? then (if |addr| == 1 then Some(node) else None)
      else FileAt(node, addr[1..])
  }

  function Extend(prefix: string, name: string): string {
    if prefix != "" then prefix + "/" + name else name
  }

  /** The path `walk` gives to an address below `prefix`. */
  ghost function PathOf(prefix: string, addr: Address): string
    decreases |addr|
  {
    if addr == [] then prefix else PathOf(Extend(prefix, addr[0]), addr[1..])
  }

  function EntryOf(path: string, node: RawNode): FileEntry
    requires node.size.Some?
  {
    FileEntry(path, node.size.value, if node.hash.Some? then node.hash.value else "", node.isUnpacked)
  }

  // ---------- walk ----------

  /** The entry is that of the file node at the address, which starts with one of the names. */
  ghost predicate ListsAt(prefix: string, dir: RawNode, file: FileEntry, addr: Address, names: set<string>) {
    && addr != [] && addr[0] in names
    && FileAt(dir, addr).Some?
    && Shows(file, PathOf(prefix, addr), FileAt(dir, addr).value)
  }

  /** An entry has the path, and the size, hash and flag of the node; no hash is the empty one. */
  ghost predicate Shows(file: FileEntry, path: string, node: RawNode) {
    && file.path == path
    && node.size == Some(file.size)
    && file.isUnpacked == node.isUnpacked
    && (node.hash.Some? ==> file.sha256 == node.hash.value)
    && (node.hash.None? ==> file.sha256 == "")
  }

  /** The list holds the entry of every file node below the given names once. */
  ghost predicate Lists(prefix: string, dir: RawNode, files: seq<FileEntry>, addrs: seq<Address>, names: set<string>) {
    && |files| == |addrs| && Distinct(addrs)
    && (forall i :: 0 <= i < |addrs| ==> ListsAt(prefix, dir, files[i], addrs[i], names))
    && (forall addr :: FileAt(dir, addr).Some? && addr[0] in names ==> addr in addrs)
  }

  function Prepend(name: string, addrs: seq<Address>): seq<Address> {
    seq(|addrs|, i requires 0 <= i < |addrs| => [name] + addrs[i])
  }

  lemma {:induction false} FileAtStep(dir: RawNode, name: string, addr: Address)
    requires name in dir.files && dir.files[name].size.None?
    ensures FileAt(dir, [name] + addr) == FileAt(dir.files[name], addr)
    ensures forall prefix :: PathOf(prefix, [name] + addr) == PathOf(Extend(prefix, name), addr)
  {
    assert ([name] + addr)[1..] == addr;
  }

  lemma {:induction false} AddFile(prefix: string, dir: RawNode, files: seq<FileEntry>, addrs: seq<Address>, names: set<string>, name: string)
    requires Lists(prefix, dir, files, addrs, names)
    requires name in dir.files && name !in names && dir.files[name].size.Some?
    ensures Lists(prefix, dir, files + [EntryOf(Extend(prefix, name), dir.files[name])], addrs + [[name]], names + {name})
  {
    var files', addrs', names' := files + [EntryOf(Extend(prefix, name), dir.files[name])], addrs + [[name]], names + {name};
    assert [name][1..] == [];
    forall i | 0 <= i < |addrs'| ensures ListsAt(prefix, dir, files'[i], addrs'[i], names') {
      if i < |addrs| { assert ListsAt(prefix, dir, files[i], addrs[i], names); }
    }
    forall addr | FileAt(dir, addr).Some? && addr[0] in names' ensures addr in addrs' {
      if addr[0] == name {
        assert addr == [name];
        assert addrs'[|addrs|] == [name];
      } else {
        assert addr in addrs;
      }
    }
  }

  lemma {:induction false} DistinctJoined(addrs: seq<Address>, name: string, inner: seq<Address>)
    requires Distinct(addrs) && Distinct(inner)
    requires forall i :: 0 <= i < |addrs| ==> addrs[i] != [] && addrs[i][0] != name
    ensures Distinct(addrs + Prepend(name, inner))
  {
    var all := addrs + Prepend(name, inner);
    forall i, j | 0 <= i < j < |all| ensures all[i] != all[j] {
      if i >= |addrs| {
        assert all[i][1..] == inner[i - |addrs|] && all[j][1..] == inner[j - |addrs|];
      }
    }
  }

  lemma {:induction false} DirEntry(prefix: string, dir: RawNode, name: string, file: FileEntry, addr: Address, names: set<string>)
    requires name in dir.files && dir.files[name].size.None? && name in names
    requires ListsAt(Extend(prefix, name), dir.files[name], file, addr, dir.files[name].files.Keys)
    ensures ListsAt(prefix, dir, file, [name] + addr, names)
  {
    FileAtStep(dir, name, addr);
  }

  lemma {:induction false} DirComplete(prefix: string, dir: RawNode, name: string, inner: seq<FileEntry>, innerAddrs: seq<Address>, addr: Address)
    requires name in dir.files && dir.files[name].size.None?
    requires Lists(Extend(prefix, name), dir.files[name], inner, innerAddrs, dir.files[name].files.Keys)
    requires FileAt(dir, addr).Some? && addr[0] == name
    ensures addr in Prepend(name, innerAddrs)
  {
    assert addr == [name] + addr[1..];
    FileAtStep(dir, name, addr[1..]);
    assert addr[1..] in innerAddrs;
    var k :| 0 <= k < |innerAddrs| && innerAddrs[k] == addr[1..];
    assert Prepend(name, innerAddrs)[k] == addr;
  }

  lemma {:induction false} AddDir(prefix: string, dir: RawNode, files: seq<FileEntry>, addrs: seq<Address>, names: set<string>,
               name: string, inner: seq<FileEntry>, innerAddrs: seq<Address>)
    requires Lists(prefix, dir, files, addrs, names)
    requires name in dir.files && name !in names && dir.files[name].size.None?
    requires Lists(Extend(prefix, name), dir.files[name], inner, innerAddrs, dir.files[name].files.Keys)
    ensures Lists(prefix, dir, files + inner, addrs + Prepend(name, innerAddrs), names + {name})
  {
    var files', addrs', names' := files + inner, addrs + Prepend(name, innerAddrs), names + {name};
    assert Distinct(addrs') by {
      forall i | 0 <= i < |addrs| ensures addrs[i] != [] && addrs[i][0] != name {
        assert ListsAt(prefix, dir, files[i], addrs[i], names);
      }
      DistinctJoined(addrs, name, innerAddrs);
    }
    forall i | 0 <= i < |addrs'| ensures ListsAt(prefix, dir, files'[i], addrs'[i], names') {
      if i < |addrs| {
        assert ListsAt(prefix, dir, files[i], addrs[i], names);
      } else {
        DirEntry(prefix, dir, name, inner[i - |addrs|], innerAddrs[i - |addrs|], names');
      }
    }
    forall addr | FileAt(dir, addr).Some? && addr[0] in names' ensures addr in addrs' {
      if addr[0] == name {
        DirComplete(prefix, dir, name, inner, innerAddrs, addr);
      } else {
        assert addr in addrs;
      }
    }
  }

  /** `walk`, visiting the names of each directory in any order. */
  method Walk(prefix: string, dir: RawNode) returns (files: seq<FileEntry>, ghost addrs: seq<Address>)
    ensures Lists(prefix, dir, files, addrs, dir.files.Keys)
    decreases dir
  {
    files, addrs := [], [];
    var todo := dir.files.Keys;
    while todo != {}
      invariant todo <= dir.files.Keys
      invariant Lists(prefix, dir, files, addrs, dir.files.Keys - todo)
      decreases todo
    {
      var name :| name in todo;
      var path, node := Extend(prefix, name), dir.files[name];
      assert dir.files.Keys - todo + {name} == dir.files.Keys - (todo - {name});
      if node.size.Some? {
        AddFile(prefix, dir, files, addrs, dir.files.Keys - todo, name);
        files, addrs := files + [EntryOf(path, node)], addrs + [[name]];
      } else {
        var inner, innerAddrs := Walk(path, node);
        AddDir(prefix, dir, files, addrs, dir.files.Keys - todo, name, inner, innerAddrs);
        files, addrs := files + inner, addrs + Prepend(name, innerAddrs);
      }
      todo := todo - {name};
    }
    assert dir.files.Keys - todo == dir.files.Keys;
  }

  // ---------- which addresses share a path ----------

  /** The parts of a string between its slashes, one more than there are slashes. */
  function Split(s: string): (parts: seq<string>)
    ensures parts != []
  {
    if s == "" then [""]
    else
      var rest := Split(s[1..]);
      if s[0] == '/' then [""] + rest else [[s[0]] + rest[0]] + rest[1..]
  }

  ghost function Join(parts: seq<string>): string
    requires parts != []
  {
    if |parts| == 1 then parts[0] else parts[0] + "/" + Join(parts[1..])
  }

  lemma {:induction false} JoinSplit(s: string)
    ensures Join(Split(s)) == s
  {
    if s != "" {
      var rest := Split(s[1..]);
      JoinSplit(s[1..]);
      assert s == [s[0]] + s[1..];
      if s[0] == '/' {
        assert ([""] + rest)[1..] == rest;
      } else {
        assert ([[s[0]] + rest[0]] + rest[1..])[1..] == rest[1..];
        assert |rest| > 1 ==> [s[0]] + rest[0] + "/" + Join(rest[1..]) == [s[0]] + (rest[0] + "/" + Join(rest[1..]));
      }
    }
  }

  lemma {:induction false} SplitAtSlash(a: string, b: string)
    ensures Split(a + "/" + b) == Split(a) + Split(b)
  {
    var whole := a + "/" + b;
    if a == "" {
      assert whole[0] == '/' && whole[1..] == b;
    } else {
      assert whole[0] == a[0] && whole[1..] == a[1..] + "/" + b;
      SplitAtSlash(a[1..], b);
    }
  }

  lemma {:induction false} SplitPlain(name: string)
    requires '/' !in name
    ensures Split(name) == [name]
  {
    if name != "" {
      SplitPlain(name[1..]);
      assert name == [name[0]] + name[1..];
    }
  }

  /** The names of an address, with those that have slashes taken apart. */
  function Pieces(addr: Address): seq<string> {
    if addr == [] then [] else Split(addr[0]) + Pieces(addr[1..])
  }

  /** An address without the empty names it begins with: `walk` joins nothing to an empty prefix. */
  function Strip(addr: Address): Address {
    if addr != [] && addr[0] == "" then Strip(addr[1..]) else addr
  }

  lemma {:induction false} StripKeepsPath(addr: Address)
    ensures PathOf("", addr) == PathOf("", Strip(addr))
  {
    if addr != [] && addr[0] == "" { StripKeepsPath(addr[1..]); }
  }

  lemma {:induction false} PathBelow(prefix: string, addr: Address)
    requires prefix != ""
    ensures PathOf(prefix, addr) != "" && Split(PathOf(prefix, addr)) == Split(prefix) + Pieces(addr)
    decreases |addr|
  {
    hide Split;
    if addr != [] {
      SplitAtSlash(prefix, addr[0]);
      PathBelow(prefix + "/" + addr[0], addr[1..]);
      assert Split(prefix) + Split(addr[0]) + Pieces(addr[1..]) == Split(prefix) + Pieces(addr);
    }
  }

  /** A path is empty when no name is left, and otherwise its parts are the pieces of the names left. */
  lemma {:induction false} PathPieces(addr: Address)
    ensures PathOf("", addr) == "" <==> Strip(addr) == []
    ensures PathOf("", addr) != "" ==> Split(PathOf("", addr)) == Pieces(Strip(addr))
  {
    var rest := Strip(addr);
    StripKeepsPath(addr);
    if rest != [] {
      StripNonEmpty(addr);
      PathBelow(rest[0], rest[1..]);
    }
  }

  lemma {:induction false} StripNonEmpty(addr: Address)
    ensures Strip(addr) != [] ==> Strip(addr)[0] != ""
  {
    if addr != [] && addr[0] == "" { StripNonEmpty(addr[1..]); }
  }

  /** Two addresses have one path exactly when, leading empty names aside, they have the same pieces. */
  lemma {:induction false} SamePath(a: Address, b: Address)
    ensures PathOf("", a) == PathOf("", b) <==> Pieces(Strip(a)) == Pieces(Strip(b))
  {
    PathPieces(a);
    PathPieces(b);
    JoinSplit(PathOf("", a));
    JoinSplit(PathOf("", b));
  }

  predicate ValidName(name: string) {
    name != "" && '/' !in name
  }

  ghost predicate ValidTree(dir: RawNode) {
    forall name :: name in dir.files ==> ValidName(name) && ValidTree(dir.files[name])
  }

  ghost predicate ValidAddress(addr: Address) {
    forall i :: 0 <= i < |addr| ==> ValidName(addr[i])
  }

  lemma {:induction false} FileHasSize(dir: RawNode, addr: Address)
    requires FileAt(dir, addr).Some?
    ensures addr != [] && addr[0] in dir.files && FileAt(dir, addr).value.size.Some?
    decreases |addr|
  {
    var node := dir.files[addr[0]];
    if node.size.None? { FileHasSize(node, addr[1..]); }
  }

  lemma {:induction false} FileAddressValid(dir: RawNode, addr: Address)
    requires ValidTree(dir) && FileAt(dir, addr).Some?
    ensures ValidAddress(addr)
    decreases |addr|
  {
    var node := dir.files[addr[0]];
    if node.size.None? {
      FileAddressValid(node, addr[1..]);
      assert forall i :: 0 < i < |addr| ==> addr[i] == addr[1..][i - 1];
    }
  }

  lemma {:induction false} PiecesOfValid(addr: Address)
    requires ValidAddress(addr)
    ensures Pieces(addr) == addr && Strip(addr) == addr
  {
    if addr != [] {
      SplitPlain(addr[0]);
      PiecesOfValid(addr[1..]);
      assert addr == [addr[0]] + addr[1..];
    }
  }

  /** Different addresses of valid names have different paths. */
  lemma {:induction false} PathInjective(a: Address, b: Address)
    requires ValidAddress(a) && ValidAddress(b) && PathOf("", a) == PathOf("", b)
    ensures a == b
  {
    SamePath(a, b);
    PiecesOfValid(a);
    PiecesOfValid(b);
  }

  /** No two file nodes of a header have the same pieces. */
  ghost predicate Unambiguous(dir: RawNode) {
    forall a, b :: FileAt(dir, a).Some? && FileAt(dir, b).Some? && Pieces(Strip(a)) == Pieces(Strip(b)) ==> a == b
  }

  lemma {:induction false} ValidIsUnambiguous(dir: RawNode)
    requires ValidTree(dir)
    ensures Unambiguous(dir)
  {
    forall a, b | FileAt(dir, a).Some? && FileAt(dir, b).Some? && Pieces(Strip(a)) == Pieces(Strip(b)) ensures a == b {
      FileAddressValid(dir, a);
      FileAddressValid(dir, b);
      SamePath(a, b);
      PathInjective(a, b);
    }
  }

  // ---------- the sorted inventory ----------

  function ByPath(): (FileEntry, FileEntry) -> bool {
    (a: FileEntry, b: FileEntry) => Less(a.path, b.path)
  }

  lemma {:induction false} ByPathOrders()
    ensures WeakOrder(ByPath())
  {
    forall a: FileEntry, b: FileEntry ensures !(ByPath()(a, b) && ByPath()(b, a)) { LessAsymmetric(a.path, b.path); }
    forall a: FileEntry, b: FileEntry, c: FileEntry | !ByPath()(a, b) && !ByPath()(b, c) ensures !ByPath()(a, c) {
      LessTotal(a.path, b.path);
      LessTotal(b.path, c.path);
      LessAsymmetric(a.path, c.path);
      if Less(c.path, b.path) && Less(b.path, a.path) { LessTransitive(c.path, b.path, a.path); }
    }
  }

  /** The paths come in ascending order, and no two are equal. */
  ghost predicate Ascending(files: seq<FileEntry>) {
    forall i, j :: 0 <= i < j < |files| ==> Less(files[i].path, files[j].path)
  }

  ghost predicate DistinctPaths(files: seq<FileEntry>) {
    forall i, j :: 0 <= i < j < |files| ==> files[i].path != files[j].path
  }

  /** Sorting entries with different paths gives a strictly sorted list of the same entries. */
  lemma {:induction false} SortByPath(files: seq<FileEntry>)
    requires DistinctPaths(files)
    ensures Ascending(Sort(ByPath(), files))
    ensures forall e :: e in Sort(ByPath(), files) <==> e in files
  {
    var sorted := Sort(ByPath(), files);
    ByPathOrders();
    SortSorted(ByPath(), files);
    SortPermutes(ByPath(), files);
    DistinctPermuted(files, sorted);
    SameMembers(files, sorted);
    forall i, j | 0 <= i < j < |sorted| ensures Less(sorted[i].path, sorted[j].path) {
      assert !ByPath()(sorted[j], sorted[i]);
      LessTotal(sorted[i].path, sorted[j].path);
      assert sorted[i] in files && sorted[j] in files;
    }
  }

  /** The entry of some file node of the tree. */
  ghost predicate OfTree(dir: RawNode, e: FileEntry) {
    exists addr :: FileAt(dir, addr).Some? && ListsAt("", dir, e, addr, dir.files.Keys)
  }

  /** The file list of a header: strictly sorted by path, one entry per file node and nothing else. */
  ghost predicate Inventory(dir: RawNode, files: seq<FileEntry>) {
    Ascending(files) && forall e :: e in files <==> OfTree(dir, e)
  }

  /** The walked list has distinct paths exactly when the header is unambiguous. */
  lemma {:induction false} ListedPathsDistinct(dir: RawNode, files: seq<FileEntry>, addrs: seq<Address>)
    requires Lists("", dir, files, addrs, dir.files.Keys)
    ensures DistinctPaths(files) <==> Unambiguous(dir)
  {
    if Unambiguous(dir) {
      forall i, j | 0 <= i < j < |files| ensures files[i].path != files[j].path {
        assert ListsAt("", dir, files[i], addrs[i], dir.files.Keys) && ListsAt("", dir, files[j], addrs[j], dir.files.Keys);
        SamePath(addrs[i], addrs[j]);
      }
    }
    if DistinctPaths(files) {
      forall a, b | FileAt(dir, a).Some? && FileAt(dir, b).Some? && Pieces(Strip(a)) == Pieces(Strip(b)) ensures a == b {
        FileHasSize(dir, a);
        FileHasSize(dir, b);
        SamePath(a, b);
        var i :| 0 <= i < |addrs| && addrs[i] == a;
        var j :| 0 <= j < |addrs| && addrs[j] == b;
        assert ListsAt("", dir, files[i], addrs[i], dir.files.Keys) && ListsAt("", dir, files[j], addrs[j], dir.files.Keys);
        assert files[i].path == files[j].path;
        assert i == j;
      }
    }
  }

  lemma {:induction false} ListedIsTree(dir: RawNode, files: seq<FileEntry>, addrs: seq<Address>, e: FileEntry)
    requires Lists("", dir, files, addrs, dir.files.Keys)
    ensures e in files <==> OfTree(dir, e)
  {
    if e in files {
      var i :| 0 <= i < |files| && files[i] == e;
      assert ListsAt("", dir, files[i], addrs[i], dir.files.Keys);
    }
    if OfTree(dir, e) {
      var addr :| FileAt(dir, addr).Some? && ListsAt("", dir, e, addr, dir.files.Keys);
      var i :| 0 <= i < |addrs| && addrs[i] == addr;
      assert ListsAt("", dir, files[i], addrs[i], dir.files.Keys);
    }
  }

  lemma {:induction false} AscendsByPath(files: seq<FileEntry>)
    requires Sorted(ByPath(), files)
    ensures forall i, j :: 0 <= i < j < |files| ==> !Less(files[j].path, files[i].path)
  {
    forall i, j | 0 <= i < j < |files| ensures !Less(files[j].path, files[i].path) {
      assert !ByPath()(files[j], files[i]);
    }
  }

  lemma {:induction false} StrictIsDistinct(files: seq<FileEntry>)
    requires Ascending(files)
    ensures DistinctPaths(files)
  {
    forall i, j | 0 <= i < j < |files| ensures files[i].path != files[j].path {
      LessAsymmetric(files[i].path, files[j].path);
    }
  }

  lemma {:induction false} PathsPermuted(a: seq<FileEntry>, b: seq<FileEntry>)
    requires DistinctPaths(a) && multiset(a) == multiset(b)
    ensures DistinctPaths(b)
  {
    DistinctPermuted(a, b);
    SameMembers(a, b);
    forall i, j | 0 <= i < j < |b| ensures b[i].path != b[j].path {
      assert b[i] in a && b[j] in a;
    }
  }

  /**
   `parseHeaderJSON`, from the decoded header. `walked` are the entries in the order of `addrs`, one for each
   file node. The list has one path for each node exactly when no two nodes have the same pieces.
   */
  method ParseHeader(header: RawNode) returns (files: seq<FileEntry>, ghost walked: seq<FileEntry>, ghost addrs: seq<Address>)
    ensures Lists("", header, walked, addrs, header.files.Keys) && multiset(files) == multiset(walked)
    ensures forall i, j :: 0 <= i < j < |files| ==> !Less(files[j].path, files[i].path)
    ensures forall e :: e in files <==> OfTree(header, e)
    ensures DistinctPaths(files) <==> Unambiguous(header)
    ensures Inventory(header, files) <==> Unambiguous(header)
    ensures ValidTree(header) ==> Inventory(header, files)
  {
    hide Unambiguous, OfTree, Lists, DistinctPaths, Sorted, Sort;
    var unsorted;
    unsorted, addrs := Walk("", header);
    walked := unsorted;
    files := Sort(ByPath(), unsorted);
    ByPathOrders();
    SortSorted(ByPath(), walked);
    AscendsByPath(files);
    SortPermutes(ByPath(), walked);
    SameMembers(walked, files);
    forall e ensures e in walked <==> OfTree(header, e) { ListedIsTree(header, walked, addrs, e); }
    ListedPathsDistinct(header, walked, addrs);
    if DistinctPaths(walked) {
      SortByPath(walked);
      PathsPermuted(walked, files);
    }
    if DistinctPaths(files) { PathsPermuted(files, walked); }
    if Ascending(files) { StrictIsDistinct(files); }
    if ValidTree(header) { ValidIsUnambiguous(header); }
  }

  /** The inventory does not depend on the order the maps were walked in. */
  lemma {:induction false} InventoryUnique(dir: RawNode, a: seq<FileEntry>, b: seq<FileEntry>)
    requires Inventory(dir, a) && Inventory(dir, b)
    ensures a == b
  {
    forall x: FileEntry, y: FileEntry ensures !(ByPath()(x, y) && ByPath()(y, x)) { LessAsymmetric(x.path, y.path); }
    assert forall i, j :: 0 <= i < j < |a| ==> ByPath()(a[i], a[j]);
    assert forall i, j :: 0 <= i < j < |b| ==> ByPath()(b[i], b[j]);
    StrictlySortedUnique(ByPath(), a, b);
  }

  /** File nodes and inventory entries correspond one to one, through the path. */
  lemma {:induction false} InventoryBijection(dir: RawNode, files: seq<FileEntry>, addr: Address, other: Address)
    requires Unambiguous(dir) && Inventory(dir, files) && FileAt(dir, addr).Some? && FileAt(dir, other).Some?
    ensures exists e :: e in files && Shows(e, PathOf("", addr), FileAt(dir, addr).value)
    ensures PathOf("", addr) == PathOf("", other) <==> addr == other
  {
    FileHasSize(dir, addr);
    SamePath(addr, other);
    var e := EntryOf(PathOf("", addr), FileAt(dir, addr).value);
    assert ListsAt("", dir, e, addr, dir.files.Keys);
    assert OfTree(dir, e);
  }

  const FILE := RawNode(Some(1), false, None, map[])

  function Directory(files: map<string, RawNode>): RawNode {
    RawNode(None, false, None, files)
  }

  /** With a slash in a name, two file nodes can share a path. */
  lemma {:induction false} SlashCollides()
    ensures var header := Directory(map["a/b" := FILE, "a" := Directory(map["b" := FILE])]);
            FileAt(header, ["a/b"]).Some? && FileAt(header, ["a", "b"]).Some? && PathOf("", ["a/b"]) == PathOf("", ["a", "b"])
  {
    assert ["a/b"][1..] == [] && ["a", "b"][1..] == ["b"] && ["b"][1..] == [];
  }

  /** So they can below an empty name at the top, with no slash in any name. */
  lemma {:induction false} EmptyNameCollides()
    ensures var header := Directory(map["a" := FILE, "" := Directory(map["a" := FILE])]);
            FileAt(header, ["a"]).Some? && FileAt(header, ["", "a"]).Some? && PathOf("", ["a"]) == PathOf("", ["", "a"])
  {
    assert ["a"][1..] == [] && ["", "a"][1..] == ["a"];
  }
}
