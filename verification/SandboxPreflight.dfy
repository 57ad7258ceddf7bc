/** The sandbox compares what an archive unpacked to with what its listing promised: the
    listing is parsed into a manifest under the limits of the request, and the output tree
    is accepted only if its files are the listed ones. */
module SandboxPreflight {
  import opened Counting
  import opened Words
  import opened JvmDescriptors
  import opened Texts
  import opened JvmArchiveEntries
  import BytecodeContract

  datatype Request = Request(sevenZip: bool, maxEntries: nat, maxEntryBytes: int64, maxExpandedBytes: int64)

  datatype Item = Item(path: string, size: int64, directory: bool)

  // ---------------------------------------------------------------- text

  /** strings.Split */
  function SplitOn(s: string, separator: string): (parts: seq<string>)
    requires separator != ""
    ensures |parts| > 0
  {
    if s == "" then [""]
    else if HasPrefix(s, separator) then [""] + SplitOn(s[|separator|..], separator)
    else
      var rest := SplitOn(s[1..], separator);
      [[s[0]] + rest[0]] + rest[1..]
  }

  /** strings.Cut */
  function Cut(s: string, separator: string): Option<(string, string)>
    requires separator != ""
  {
    if HasPrefix(s, separator) then Some(("", s[|separator|..]))
    else if s == "" then None
    else
      match Cut(s[1..], separator)
      case None => None
      case Some((before, after)) => Some(([s[0]] + before, after))
  }

  /** strings.ReplaceAll(s, "\r\n", with) */
  function ReplaceLineEnds(s: string, with: string): string {
    if s == "" then ""
    else if HasPrefix(s, "\r\n") then with + ReplaceLineEnds(s[2..], with)
    else [s[0]] + ReplaceLineEnds(s[1..], with)
  }

  function TrimNewlines(s: string): string {
    if s != "" && s[|s| - 1] == '\n' then TrimNewlines(s[..|s| - 1]) else s
  }

  /** unicode.IsSpace */
  predicate Space(c: char) {
    var v := c as int;
    9 <= v <= 13 || v == 0x20 || v == 0x85 || v == 0xA0 || v == 0x1680 || 0x2000 <= v <= 0x200A ||
    v == 0x2028 || v == 0x2029 || v == 0x202F || v == 0x205F || v == 0x3000
  }

  predicate Blank(s: string) { forall i | 0 <= i < |s| :: Space(s[i]) }

  /** unicode.IsControl */
  predicate Control(c: char) { c as int < 0x20 || 0x7F <= c as int <= 0x9F }

  /** validRelativeOutputPath. What has only proper parts is clean. */
  predicate OutputPath(s: string) {
    && Length(s) <= 2048 && '\\' !in s
    && (forall p | p in Parts(s) :: ProperPart(p) && Length(p) <= 255 && forall i | 0 <= i < |p| :: !Control(p[i]))
    && !(|s| >= 2 && s[1] == ':' && Letter(s[0]))
  }

  // ---------------------------------------------------------------- one member

  const KEYS := {"Path", "Size", "Packed Size", "Modified", "Attributes", "CRC", "Encrypted", "Method", "Block"}

  /** The fields of a block, if each line is one known field and none comes twice. */
  function Fields(lines: seq<string>): Option<map<string, string>> {
    if lines == [] then Some(map[])
    else
      match (Fields(lines[..|lines| - 1]), Cut(lines[|lines| - 1], " = "))
      case (Some(fields), Some((key, value))) =>
        if key in KEYS && key !in fields then Some(fields[key := value]) else None
      case _ => None
  }

  /** What the attributes say: a directory, a file, or something that is refused. */
  predicate Refused(attributes: string) {
    'l' in attributes || 'L' in attributes || ('r' in attributes && '-' !in attributes)
  }

  /** The member that the fields describe. */
  function ItemOf(fields: map<string, string>, req: Request): Option<Item> {
    if "Path" !in fields || "Size" !in fields || "Attributes" !in fields then None
    else if "Encrypted" in fields && fields["Encrypted"] != "-" then None
    else if req.sevenZip && "Encrypted" !in fields then None
    else if !OutputPath(fields["Path"]) || Refused(fields["Attributes"]) then None
    else
      var directory, size := 'D' in fields["Attributes"], Atoi(fields["Size"]);
      if size.None? || size.value > MAX_INT64 || size.value < 0 then None
      else if directory && size.value != 0 then None
      else if !directory && size.value > req.maxEntryBytes as int then None
      else Some(Item(fields["Path"], size.value as int64, directory))
  }

  function Read(block: string, req: Request): Option<Item> {
    match Fields(SplitOn(block, "\n"))
    case None => None
    case Some(fields) => ItemOf(fields, req)
  }

  method ReadFields(lines: seq<string>) returns (r: Option<map<string, string>>)
    ensures r == Fields(lines)
  {
    hide Cut;
    var fields: map<string, string>, n := map[], 0;
    while n < |lines|
      invariant 0 <= n <= |lines| && Fields(lines[..n]) == Some(fields)
    {
      assert lines[..n + 1][..n] == lines[..n];
      var cut := Cut(lines[n], " = ");
      if cut.None? || cut.value.0 !in KEYS || cut.value.0 in fields {
        FieldsStop(lines, n + 1);
        return None;
      }
      fields := fields[cut.value.0 := cut.value.1];
      n := n + 1;
    }
    assert lines[..|lines|] == lines;
    return Some(fields);
  }

  lemma {:induction false} FieldsStop(lines: seq<string>, n: nat)
    requires n <= |lines| && Fields(lines[..n]).None?
    ensures Fields(lines).None?
    decreases |lines| - n
  {
    if n < |lines| {
      assert lines[..n + 1][..n] == lines[..n];
      FieldsStop(lines, n + 1);
    } else {
      assert lines[..n] == lines;
    }
  }

  // ---------------------------------------------------------------- the listing

  /** The text of a listing that can be split at all: no NUL and no bare carriage return. */
  predicate Readable(listing: string) {
    '\0' !in listing && (Blank(listing) || '\r' !in ReplaceLineEnds(listing, ""))
  }

  function Blocks(listing: string): seq<string> {
    if Blank(listing) then [] else SplitOn(TrimNewlines(ReplaceLineEnds(listing, "\n")), "\n\n")
  }

  /** The members of the blocks that can be read. */
  function Items(blocks: seq<string>, req: Request): seq<Item> {
    if blocks == [] then []
    else
      var front, last := Items(blocks[..|blocks| - 1], req), blocks[|blocks| - 1];
      if Blank(last) || Read(last, req).None? then front else front + [Read(last, req).value]
  }

  predicate AllRead(blocks: seq<string>, req: Request) {
    forall i | 0 <= i < |blocks| && !Blank(blocks[i]) :: Read(blocks[i], req).Some?
  }

  function PathsOf(items: seq<Item>): seq<string> { seq(|items|, i requires 0 <= i < |items| => items[i].path) }

  function Total(items: seq<Item>): int {
    if items == [] then 0 else Total(items[..|items| - 1]) + items[|items| - 1].size as int
  }

  /** A manifest within the limits of the request, with no path twice. */
  predicate Within(items: seq<Item>, req: Request) {
    && |items| <= req.maxEntries && Total(items) <= req.maxExpandedBytes as int
    && BytecodeContract.NoRepeats(PathsOf(items))
  }

  lemma {:induction false} ItemsGrow(blocks: seq<string>, req: Request, n: nat)
    requires n <= |blocks|
    ensures Items(blocks[..n], req) <= Items(blocks, req)
    decreases |blocks| - n
  {
    hide Read, Blank;
    if n < |blocks| {
      assert blocks[..n + 1][..n] == blocks[..n];
      ItemsGrow(blocks, req, n + 1);
    } else {
      assert blocks[..n] == blocks;
    }
  }

  lemma {:induction false} SizesAreNatural(blocks: seq<string>, req: Request)
    ensures forall i | 0 <= i < |Items(blocks, req)| ::
      && 0 <= Items(blocks, req)[i].size && OutputPath(Items(blocks, req)[i].path)
      && (if Items(blocks, req)[i].directory then Items(blocks, req)[i].size == 0
          else Items(blocks, req)[i].size <= req.maxEntryBytes)
  {
    hide Blank, Fields, OutputPath, Refused, Atoi;
    if blocks != [] { SizesAreNatural(blocks[..|blocks| - 1], req); }
  }

  lemma {:induction false} TotalGrows(items: seq<Item>, n: nat)
    requires n <= |items| && forall i | 0 <= i < |items| :: 0 <= items[i].size
    ensures Total(items[..n]) <= Total(items)
    decreases |items| - n
  {
    if n < |items| {
      assert items[..n + 1][..n] == items[..n];
      TotalGrows(items, n + 1);
    } else {
      assert items[..n] == items;
    }
  }

  /** What is over a limit, or there twice, stays so. */
  lemma {:induction false} NeverWithin(blocks: seq<string>, req: Request, n: nat)
    requires n <= |blocks| && !Within(Items(blocks[..n], req), req)
    ensures !Within(Items(blocks, req), req)
  {
    hide Items;
    var some, all := Items(blocks[..n], req), Items(blocks, req);
    ItemsGrow(blocks, req, n);
    SizesAreNatural(blocks, req);
    assert some == all[..|some|];
    TotalGrows(all, |some|);
    if !BytecodeContract.NoRepeats(PathsOf(some)) {
      assert PathsOf(some) <= PathsOf(all);
      BytecodeContract.RepeatsStay(PathsOf(some), PathsOf(all));
    }
  }

  /** One more member: its path is new, and the limits allow it. */
  lemma {:induction false} OneMoreItem(items: seq<Item>, item: Item, req: Request)
    requires Within(items, req)
    ensures Within(items + [item], req) <==>
      && |items| < req.maxEntries && Total(items) + item.size as int <= req.maxExpandedBytes as int
      && item.path !in PathsOf(items)
    ensures PathsOf(items + [item]) == PathsOf(items) + [item.path]
    ensures Total(items + [item]) == Total(items) + item.size as int
  {
    var all := items + [item];
    assert all[..|items|] == items;
    assert PathsOf(all) == PathsOf(items) + [item.path];
    BytecodeContract.Appended(PathsOf(items), item.path);
  }

  /** parseSevenZipListing: it accepts a listing exactly when it can be split, every block
      describes a member, and the members are within the limits of the request. */
  method ParseListing(listing: string, req: Request) returns (r: Option<seq<Item>>)
    requires 0 < req.maxEntryBytes && 0 < req.maxExpandedBytes
    ensures r.Some? <==> Readable(listing) && AllRead(Blocks(listing), req) && Within(Items(Blocks(listing), req), req)
    ensures r.Some? ==> r.value == Items(Blocks(listing), req)
  {
    hide Blank, Fields, OutputPath, Refused, Atoi, SplitOn, TrimNewlines, ReplaceLineEnds, Within, ItemOf, Items, Total, PathsOf;
    NothingListed(req);
    if '\0' in listing { return None; }
    if Blank(listing) { return Some([]); }
    if '\r' in ReplaceLineEnds(listing, "") { return None; }
    var blocks := SplitOn(TrimNewlines(ReplaceLineEnds(listing, "\n")), "\n\n");
    var items: seq<Item>, seen: set<string>, total: int64, n := [], {}, 0, 0;
    assert blocks[..0] == [];
    while n < |blocks|
      invariant 0 <= n <= |blocks| && items == Items(blocks[..n], req) && Within(items, req)
      invariant forall i | 0 <= i < n && !Blank(blocks[i]) :: Read(blocks[i], req).Some?
      invariant (forall p :: p in seen <==> p in PathsOf(items)) && total as int == Total(items)
      invariant 0 <= total <= req.maxExpandedBytes
    {
      NextItem(blocks, req, n);
      if !Blank(blocks[n]) {
        var fields := ReadFields(SplitOn(blocks[n], "\n"));
        if fields.None? { return None; }
        var item := ItemOf(fields.value, req);
        if item.None? { return None; }
        assert Read(blocks[n], req) == item;
        OneMoreItem(items, item.value, req);
        SizesAreNatural(blocks[..n + 1], req);
        assert Items(blocks[..n + 1], req)[|items|] == item.value;
        if item.value.path in seen {
          NeverWithin(blocks, req, n + 1);
          return None;
        }
        seen := seen + {item.value.path};
        if |items| >= req.maxEntries || item.value.size > req.maxExpandedBytes - total {
          NeverWithin(blocks, req, n + 1);
          return None;
        }
        total := total + item.value.size;
        items := items + [item.value];
      }
      n := n + 1;
    }
    assert blocks[..|blocks|] == blocks;
    return Some(items);
  }

  lemma {:induction false} NothingListed(req: Request)
    requires 0 < req.maxExpandedBytes
    ensures Within([], req) && Items([], req) == [] && Total([]) == 0 && PathsOf([]) == []
  {}

  lemma {:induction false} NextItem(blocks: seq<string>, req: Request, n: nat)
    requires n < |blocks|
    ensures Items(blocks[..n + 1], req) ==
              if Blank(blocks[n]) || Read(blocks[n], req).None? then Items(blocks[..n], req)
              else Items(blocks[..n], req) + [Read(blocks[n], req).value]
  {
    hide Blank, Read;
    assert blocks[..n + 1][..n] == blocks[..n];
  }

  // ---------------------------------------------------------------- the output tree

  datatype Node = File(size: int64) | Directory

  /** The files of a tree, and the files of a manifest, by path. */
  function Files(tree: map<string, Node>): map<string, int64> {
    map name | name in tree && tree[name].File? :: tree[name].size
  }

  function Listed(items: seq<Item>): map<string, int64> {
    if items == [] then map[]
    else
      var front, last := Listed(items[..|items| - 1]), items[|items| - 1];
      if last.directory then front else front[last.path := last.size]
  }

  /** filepath.Dir of a path that is clean and relative. */
  function Parent(path: string): (r: string)
    ensures r == "." || |r| < |path|
  {
    if path == "" then "."
    else if path[|path| - 1] == '/' then path[..|path| - 1]
    else Parent(path[..|path| - 1])
  }

  /** The directories that lead to a path. */
  function Ancestors(path: string): set<string>
    decreases |path|
  {
    var up := Parent(path);
    if up == "." || |up| >= |path| then {} else {up} + Ancestors(up)
  }

  /** The directories that a manifest accounts for. */
  function Expected(items: seq<Item>): set<string> {
    if items == [] then {}
    else
      var front, last := Expected(items[..|items| - 1]), items[|items| - 1];
      front + (if last.directory then {last.path} else Ancestors(last.path))
  }

  /** The tree has the listed files, with their sizes, and no directory that no member
      accounts for. */
  predicate Agrees(tree: map<string, Node>, items: seq<Item>) {
    && Files(tree) == Listed(items)
    && forall name | name in tree && tree[name].Directory? :: name in Expected(items)
  }

  /** The walk up from one listed file. */
  method AddAncestors(path: string, directories: set<string>) returns (now: set<string>)
    ensures now == directories + Ancestors(path)
  {
    now := directories;
    var parent, here := Parent(path), path;
    while parent != "." && |parent| < |here|
      invariant parent == Parent(here)
      invariant now + Ancestors(here) == directories + Ancestors(path)
      decreases |here|
    {
      now := now + {parent};
      here, parent := parent, Parent(parent);
    }
    assert Ancestors(here) == {};
  }

  /** validatePreflightOutput: accepts exactly the trees that agree with the manifest. */
  method ValidateOutput(tree: map<string, Node>, items: seq<Item>) returns (ok: bool)
    ensures ok <==> Agrees(tree, items)
  {
    hide Ancestors;
    var files: map<string, int64>, directories: set<string>, n := map[], {}, 0;
    while n < |items|
      invariant 0 <= n <= |items|
      invariant files == Listed(items[..n]) && directories == Expected(items[..n])
    {
      assert items[..n + 1][..n] == items[..n];
      if items[n].directory {
        directories := directories + {items[n].path};
      } else {
        files := files[items[n].path := items[n].size];
        directories := AddAncestors(items[n].path, directories);
      }
      n := n + 1;
    }
    assert items[..|items|] == items;
    var actual: map<string, int64>, left := map[], tree.Keys;
    while left != {}
      invariant left <= tree.Keys
      invariant forall name :: name in actual <==> name in tree && name !in left && tree[name].File?
      invariant forall name | name in actual :: actual[name] == tree[name].size
      invariant forall name | name in tree && name !in left && tree[name].Directory? :: name in directories
      decreases left
    {
      var name :| name in left;
      if tree[name].Directory? {
        if name !in directories { return false; }
      } else {
        actual := actual[name := tree[name].size];
      }
      left := left - {name};
    }
    assert actual == Files(tree);
    if |actual| != |files| { return false; }
    ok := SameFiles(actual, files);
  }

  /** As many files, and every listed one there with its size: the same files. */
  method SameFiles(actual: map<string, int64>, files: map<string, int64>) returns (ok: bool)
    requires |actual| == |files|
    ensures ok <==> actual == files
  {
    var left := files.Keys;
    while left != {}
      invariant left <= files.Keys
      invariant forall path | path in files && path !in left :: path in actual && actual[path] == files[path]
      decreases left
    {
      var path :| path in left;
      if path !in actual || actual[path] != files[path] { return false; }
      left := left - {path};
    }
    SameSize(files.Keys, actual.Keys);
    return true;
  }

  lemma {:induction false} SameSize(a: set<string>, b: set<string>)
    requires a <= b && |a| == |b|
    ensures a == b
  {
    assert b == a + (b - a);
    assert |b| == |a| + |b - a|;
  }

  // ---------------------------------------------------------------- what it means

  /** A listed file is a member that is no directory. Paths are unique, so each is itself. */
  lemma {:induction false} ListedMembers(items: seq<Item>)
    requires BytecodeContract.NoRepeats(PathsOf(items))
    ensures forall path :: path in Listed(items) <==>
              exists i :: 0 <= i < |items| && items[i].path == path && !items[i].directory
    ensures forall i | 0 <= i < |items| && !items[i].directory ::
              items[i].path in Listed(items) && Listed(items)[items[i].path] == items[i].size
  {
    if items != [] {
      var front, last := items[..|items| - 1], items[|items| - 1];
      assert forall i | 0 <= i < |front| :: PathsOf(front)[i] == PathsOf(items)[i];
      ListedMembers(front);
      forall i | 0 <= i < |front| ensures items[i].path != last.path {
        assert PathsOf(items)[i] != PathsOf(items)[|items| - 1];
      }
      forall path ensures path in Listed(items) <==>
        exists i :: 0 <= i < |items| && items[i].path == path && !items[i].directory
      {
        if path in Listed(front) {
          var i :| 0 <= i < |front| && front[i].path == path && !front[i].directory;
          assert items[i].path == path;
        }
        if i :| 0 <= i < |items| && items[i].path == path && !items[i].directory {
          if i < |front| { assert front[i] == items[i]; }
        }
      }
    }
  }

  /** Sizes over a map of files. */
  ghost function Bytes(files: map<string, int64>): int
    decreases |files|
  {
    if files == map[] then 0
    else
      var path :| path in files;
      files[path] as int + Bytes(files - {path})
  }

  lemma {:induction false} BytesTake(files: map<string, int64>, path: string)
    requires path in files
    ensures Bytes(files) == files[path] as int + Bytes(files - {path})
    decreases |files|
  {
    var p :| p in files && Bytes(files) == files[p] as int + Bytes(files - {p});
    if p != path {
      BytesTake(files - {p}, path);
      BytesTake(files - {path}, p);
      assert files - {p} - {path} == files - {path} - {p};
    }
  }

  /** The listed files are no more, and no larger, than the members. */
  lemma {:induction false} ListedBounds(items: seq<Item>)
    requires BytecodeContract.NoRepeats(PathsOf(items)) && forall i | 0 <= i < |items| :: 0 <= items[i].size
    ensures |Listed(items)| <= |items| && Bytes(Listed(items)) <= Total(items)
  {
    if items != [] {
      var front, last := items[..|items| - 1], items[|items| - 1];
      assert forall i | 0 <= i < |front| :: PathsOf(front)[i] == PathsOf(items)[i];
      ListedBounds(front);
      ListedMembers(front);
      if !last.directory {
        forall i | 0 <= i < |front| ensures front[i].path != last.path {
          assert PathsOf(items)[i] != PathsOf(items)[|items| - 1];
        }
        var now := Listed(front)[last.path := last.size];
        BytesTake(now, last.path);
        assert now - {last.path} == Listed(front);
      }
    }
  }

  /** The agreement: if a listing was parsed and the output was accepted against it, the
      files on disk are exactly the listed members that are no directories, with their
      sizes; every directory is a listed one or leads to a listed file; and so the files
      are within the limits of the request, in number, each, and together. */
  lemma {:induction false} OutputWithinLimits(listing: string, req: Request, tree: map<string, Node>)
    requires AllRead(Blocks(listing), req) && Within(Items(Blocks(listing), req), req)
    requires Agrees(tree, Items(Blocks(listing), req))
    ensures var items := Items(Blocks(listing), req);
      && (forall name :: name in tree && tree[name].File? <==>
            exists i :: 0 <= i < |items| && items[i].path == name && !items[i].directory)
      && (forall i | 0 <= i < |items| && !items[i].directory ::
            items[i].path in tree && tree[items[i].path] == File(items[i].size))
    ensures forall name | name in tree && tree[name].Directory? ::
      exists item | item in Items(Blocks(listing), req) ::
        if item.directory then item.path == name else LeadsTo(name, item.path)
    ensures |Files(tree)| <= req.maxEntries
    ensures forall name | name in tree && tree[name].File? :: 0 <= tree[name].size <= req.maxEntryBytes
    ensures Bytes(Files(tree)) <= req.maxExpandedBytes as int
  {
    hide Items, AllRead, Bytes, OutputPath, Total;
    var items := Items(Blocks(listing), req);
    SizesAreNatural(Blocks(listing), req);
    ListedMembers(items);
    ListedBounds(items);
    forall name ensures name in tree && tree[name].File? <==> name in Files(tree) {}
    forall name | name in tree && tree[name].File? ensures 0 <= tree[name].size <= req.maxEntryBytes {
      assert name in Files(tree) && Files(tree)[name] == tree[name].size;
      var i :| 0 <= i < |items| && items[i].path == name && !items[i].directory;
    }
    forall i | 0 <= i < |items| && !items[i].directory
      ensures items[i].path in tree && tree[items[i].path] == File(items[i].size)
    {
      assert items[i].path in Files(tree);
    }
    forall name | name in tree && tree[name].Directory?
      ensures exists item | item in items :: if item.directory then item.path == name else LeadsTo(name, item.path)
    {
      DirectoryListed(items, name);
    }
  }

  /** A directory that is accounted for is a listed one, or leads to a listed file. */
  lemma {:induction false} DirectoryListed(items: seq<Item>, name: string)
    requires name in Expected(items) && forall i | 0 <= i < |items| :: OutputPath(items[i].path)
    ensures exists item | item in items :: if item.directory then item.path == name else LeadsTo(name, item.path)
  {
    hide OutputPath, Ancestors, LeadsTo;
    DirectoriesAccounted(items, name);
    var i :| 0 <= i < |items| && Accounts(items[i], name);
    if !items[i].directory {
      OutputPathIsProper(items[i].path);
      AncestorsArePrefixes(items[i].path, name);
    }
    assert items[i] in items;
  }

  /** A member accounts for the directory that it is, or for those that lead to it. */
  predicate Accounts(item: Item, name: string) {
    if item.directory then item.path == name else name in Ancestors(item.path)
  }

  /** A directory of an accepted tree is listed, or is on the way to a listed file. */
  lemma {:induction false} DirectoriesAccounted(items: seq<Item>, name: string)
    ensures name in Expected(items) <==> exists i :: 0 <= i < |items| && Accounts(items[i], name)
  {
    hide Ancestors;
    if items != [] {
      var front := items[..|items| - 1];
      DirectoriesAccounted(front, name);
      if name in Expected(front) {
        var i :| 0 <= i < |front| && Accounts(front[i], name);
        assert items[i] == front[i];
      }
      if i :| 0 <= i < |items| && Accounts(items[i], name) {
        if i < |front| { assert front[i] == items[i]; }
      }
    }
  }

  /** The parts of a path before its last slash, and the part after it. */
  lemma {:induction false} PartsSplit(front: string, last: string)
    requires '/' !in last
    ensures Parts(front + "/" + last) == Parts(front) + [last]
  {
    var s := front + "/" + last;
    if last == "" {
      assert s[..|s| - 1] == front;
    } else {
      PartsSplit(front, last[..|last| - 1]);
      assert s[..|s| - 1] == front + "/" + last[..|last| - 1];
      assert last == last[..|last| - 1] + [last[|last| - 1]];
    }
  }

  /** Where the parent of a path ends. */
  lemma {:induction false} ParentIs(path: string) returns (cut: nat)
    ensures if '/' in path
            then cut < |path| && path[cut] == '/' && '/' !in path[cut + 1..] && Parent(path) == path[..cut]
            else Parent(path) == "."
  {
    cut := 0;
    if path != "" {
      var n := |path| - 1;
      if path[n] == '/' {
        cut := n;
      } else {
        cut := ParentIs(path[..n]);
        assert path == path[..n] + [path[n]];
        if '/' in path { assert path[cut + 1..] == path[..n][cut + 1..] + [path[n]]; }
      }
    }
  }

  /** The directory `name` is on the way to `path`. */
  predicate LeadsTo(name: string, path: string) {
    |name| < |path| && path[..|name|] == name && path[|name|] == '/'
  }

  predicate Proper(path: string) { forall p | p in Parts(path) :: ProperPart(p) }

  lemma DotIsNotProper()
    ensures !Proper(".")
  {
    var s := ".";
    assert s[..0] == "" && Parts("") == [""];
    assert Parts(s)[0] == ".";
    assert "." in Parts(s) && !ProperPart(".");
  }

  /** The ancestors of a path of proper parts are exactly its beginnings before a slash. */
  lemma {:induction false} AncestorsArePrefixes(path: string, name: string)
    requires Proper(path)
    ensures name in Ancestors(path) <==> LeadsTo(name, path)
    decreases |path|
  {
    var cut := ParentIs(path);
    if '/' in path {
      var up := path[..cut];
      assert path == up + "/" + path[cut + 1..];
      PartsSplit(up, path[cut + 1..]);
      assert forall p | p in Parts(up) :: p in Parts(path);
      DotIsNotProper();
      AncestorsArePrefixes(up, name);
      if |name| < |path| && path[..|name|] == name && path[|name|] == '/' {
        assert forall i | cut < i < |path| :: path[i] == path[cut + 1..][i - cut - 1];
        assert |name| <= cut;
        assert |name| < cut ==> up[..|name|] == name && up[|name|] == '/';
        assert |name| == cut ==> name == up;
      }
      if name in Ancestors(up) { assert path[..|name|] == up[..|name|]; }
    } else {
      assert |name| < |path| ==> path[|name|] in path;
    }
  }

  lemma OutputPathIsProper(path: string)
    requires OutputPath(path)
    ensures Proper(path)
  {}
}
