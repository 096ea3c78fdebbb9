/** The explorer view: one folder of the catalog, its direct files and its subfolders with totals. */
module Explorer {
  import opened Order
  import opened Catalog
  import opened ExplorerPaths
  import opened PathRules

  // Paths.

  /** What remains of a path below a folder; None if the path is not below it. */
  function PathRemainder(path: string, current: string): Option<string> {
    if current == "" then Some(path)
    else if path == current then None
    else if !HasPrefix(path, current + "/") then None
    else Some(path[|current| + 1..])
  }

  /** Below a folder, at any depth. */
  predicate Below(path: string, current: string) {
    PathRemainder(path, current).Some? && PathRemainder(path, current).value != ""
  }

  /** A file of the folder itself. */
  predicate Direct(path: string, current: string) {
    Below(path, current) && SlashIndex(PathRemainder(path, current).value) == |PathRemainder(path, current).value|
  }

  /** Inside the subfolder of the given name. */
  predicate InFolder(path: string, current: string, name: string) {
    Below(path, current) && !Direct(path, current) && FolderName(path, current) == name
  }

  /** The name of the subfolder a path is in. */
  function FolderName(path: string, current: string): string
    requires Below(path, current)
  {
    var rest := PathRemainder(path, current).value;
    rest[..SlashIndex(rest)]
  }

  /** What every path below a folder starts with. */
  function Base(current: string): string {
    if current == "" then "" else current + "/"
  }

  lemma RemainderAfterBase(path: string, current: string)
    ensures PathRemainder(path, current)
      == if HasPrefix(path, Base(current)) then Some(path[|Base(current)|..]) else None
  {
  }

  lemma PrefixSplit(path: string, a: string, b: string)
    ensures HasPrefix(path, a + b) <==> HasPrefix(path, a) && HasPrefix(path[|a|..], b)
  {
    if HasPrefix(path, a + b) {
      assert path[..|a|] == path[..|a + b|][..|a|] == a;
      assert path[|a|..][..|b|] == path[..|a + b|][|a|..] == b;
    }
    if HasPrefix(path, a) && HasPrefix(path[|a|..], b) {
      assert path[..|a + b|] == path[..|a|] + path[|a|..][..|b|];
    }
  }

  /** Starting with a name and a slash is having the first slash right after the name. */
  lemma NamePrefix(rest: string, name: string)
    requires SlashIndex(name) == |name|
    ensures HasPrefix(rest, name + "/") <==> SlashIndex(rest) < |rest| && rest[..SlashIndex(rest)] == name
  {
    if HasPrefix(rest, name + "/") {
      assert rest[|name|] == (name + "/")[|name|];
      assert forall j :: 0 <= j < |name| ==> rest[j] == (name + "/")[j];
      SlashFirst(rest, |name|);
      assert rest[..|name|] == (name + "/")[..|name|];
    }
    if SlashIndex(rest) < |rest| && rest[..SlashIndex(rest)] == name {
      assert rest[..|name| + 1] == name + [rest[|name|]];
    }
  }

  /** Where a path belongs, by its text: it is below a folder if it goes on after what all paths below it start with,
      and a file of the folder if no slash comes after that. */
  lemma PlaceOfPath(path: string, current: string)
    ensures var base := if current == "" then "" else current + "/";
      && (Below(path, current) <==> |base| < |path| && path[..|base|] == base)
      && (Direct(path, current) <==> |base| < |path| && path[..|base|] == base && '/' !in path[|base|..])
  {
    RemainderAfterBase(path, current);
    if Below(path, current) {
      var rest := PathRemainder(path, current).value;
      assert SlashIndex(rest) < |rest| ==> rest[SlashIndex(rest)] == '/';
    }
  }

  /** Being in a subfolder is starting with its path and a slash. */
  lemma SubfolderPrefix(path: string, current: string, name: string)
    requires SlashIndex(name) == |name|
    ensures InFolder(path, current, name) <==> HasPrefix(path, Base(current) + (name + "/"))
  {
    RemainderAfterBase(path, current);
    PrefixSplit(path, Base(current), name + "/");
    if HasPrefix(path, Base(current)) {
      NamePrefix(path[|Base(current)|..], name);
    }
  }

  /** Being below a path is starting with it and a slash, and more after that. */
  lemma BelowPrefix(path: string, folder: string)
    requires folder != ""
    ensures HasPrefix(path, folder + "/") <==> Below(path, folder) || path == folder + "/"
    ensures !Below(folder + "/", folder)
  {
    RemainderAfterBase(path, folder);
    RemainderAfterBase(folder + "/", folder);
    if HasPrefix(path, folder + "/") {
      assert path == folder + "/" + path[|folder + "/"|..];
    }
  }

  /** Being in a subfolder is being below its path, except for the subfolder's own path with a slash after it. */
  lemma SubfolderIsBelow(path: string, current: string, name: string)
    requires JoinPath(current, name) != "" && SlashIndex(name) == |name|
    ensures var folder := JoinPath(current, name);
      InFolder(path, current, name) <==> Below(path, folder) || path == folder + "/"
    ensures !Below(JoinPath(current, name) + "/", JoinPath(current, name))
  {
    SubfolderPrefix(path, current, name);
    BelowPrefix(path, JoinPath(current, name));
    FolderBase(current, name);
  }

  /** A subfolder's name has no slash. */
  lemma NameHasNoSlash(path: string, current: string)
    requires Below(path, current)
    ensures SlashIndex(FolderName(path, current)) == |FolderName(path, current)|
  {
    SlashFirst(FolderName(path, current), |FolderName(path, current)|);
  }

  // Counting.

  datatype Item = Item(path: string, size: int)

  function Count(items: seq<Item>, wanted: string -> bool): nat {
    if items == [] then 0
    else
      var last := items[|items| - 1];
      Count(items[..|items| - 1], wanted) + if wanted(last.path) then 1 else 0
  }

  function Bytes(items: seq<Item>, wanted: string -> bool): int {
    if items == [] then 0
    else
      var last := items[|items| - 1];
      Bytes(items[..|items| - 1], wanted) + if wanted(last.path) then last.size else 0
  }

  lemma CountAppend(items: seq<Item>, x: Item, wanted: string -> bool)
    ensures Count(items + [x], wanted) == Count(items, wanted) + if wanted(x.path) then 1 else 0
    ensures Bytes(items + [x], wanted) == Bytes(items, wanted) + if wanted(x.path) then x.size else 0
  {
    assert (items + [x])[..|items|] == items;
  }

  lemma {:induction false} SameCount(items: seq<Item>, wanted: string -> bool, other: string -> bool)
    requires forall x :: x in items ==> (wanted(x.path) <==> other(x.path))
    ensures Count(items, wanted) == Count(items, other) && Bytes(items, wanted) == Bytes(items, other)
  {
    if items != [] {
      var last := items[|items| - 1];
      assert last in items;
      SameCount(items[..|items| - 1], wanted, other);
    }
  }

  function IsBelow(current: string): string -> bool { path => Below(path, current) }

  function IsDirect(current: string): string -> bool { path => Direct(path, current) }

  function IsIn(current: string, name: string): string -> bool { path => InFolder(path, current, name) }

  // The view.

  datatype Folder = Folder(name: string, path: string, fileCount: nat, totalBytes: int)

  /** The view before its lists are sorted and its files paged. */
  datatype View = View(folders: seq<Folder>, files: seq<Item>, totalBytes: int)

  /** A folder's record: the number and size of the items inside it, at any depth. */
  ghost predicate ShowsFolder(f: Folder, items: seq<Item>, current: string) {
    f.path == JoinPath(current, f.name) && f.fileCount == Count(items, IsIn(current, f.name)) > 0
    && f.totalBytes == Bytes(items, IsIn(current, f.name))
  }

  ghost predicate Named(folders: seq<Folder>, name: string) {
    exists k :: 0 <= k < |folders| && folders[k].name == name
  }

  predicate DistinctNames(folders: seq<Folder>) {
    forall j, k :: 0 <= j < k < |folders| ==> folders[j].name != folders[k].name
  }

  /** Each subfolder with something in it, once. */
  ghost predicate ShowsFolders(folders: seq<Folder>, items: seq<Item>, current: string) {
    && (forall k :: 0 <= k < |folders| ==> ShowsFolder(folders[k], items, current))
    && DistinctNames(folders)
    && (forall x ::
          x in items && Below(x.path, current) && !Direct(x.path, current) ==>
          Named(folders, FolderName(x.path, current)))
  }

  /** What a view shows: each subfolder once with its totals, the direct files, and the bytes of everything below. */
  ghost predicate Shows(view: View, items: seq<Item>, current: string) {
    && ShowsFolders(view.folders, items, current)
    && |view.files| == Count(items, IsDirect(current)) && SizeOf(view.files) == Bytes(items, IsDirect(current))
    && (forall x :: x in view.files <==> x in items && Direct(x.path, current))
    && view.totalBytes == Bytes(items, IsBelow(current))
  }

  function SizeOf(files: seq<Item>): int {
    if files == [] then 0 else SizeOf(files[..|files| - 1]) + files[|files| - 1].size
  }

  function FolderCount(folders: seq<Folder>): nat {
    if folders == [] then 0 else FolderCount(folders[..|folders| - 1]) + folders[|folders| - 1].fileCount
  }

  function FolderBytes(folders: seq<Folder>): int {
    if folders == [] then 0 else FolderBytes(folders[..|folders| - 1]) + folders[|folders| - 1].totalBytes
  }

  // Building a view.

  /** The items a listing is made of: the locations that pass the filters, in order. */
  function Kept(asset: Asset, ls: seq<Location>, keep: (Asset, Location) -> bool): seq<Item> {
    if ls == [] then []
    else
      var last := ls[|ls| - 1];
      Kept(asset, ls[..|ls| - 1], keep)
        + if keep(asset, last) then [Item(last.file.relativePath, last.file.size)] else []
  }

  function Listed(assets: seq<Asset>, keepAsset: Asset -> bool, keep: (Asset, Location) -> bool): seq<Item> {
    if assets == [] then []
    else
      var last := assets[|assets| - 1];
      Listed(assets[..|assets| - 1], keepAsset, keep) + if keepAsset(last) then Kept(last, last.locations, keep) else []
  }

  /** The folder index knows every folder by its path, and nothing else. */
  ghost predicate FolderIndex(index: map<string, nat>, folders: seq<Folder>) {
    && (forall k :: 0 <= k < |folders| ==> folders[k].path in index && index[folders[k].path] == k)
    && (forall p :: p in index ==> index[p] < |folders| && folders[index[p]].path == p)
  }

  datatype Response = Listing(current: string, view: View) | BadRequest

  /** A request is refused exactly when its path does not normalise; otherwise it shows the folder at the normalised
      path. The filters of the request are two predicates. */
  method BuildExplorerView(assets: seq<Asset>, path: string, keepAsset: Asset -> bool, keep: (Asset, Location) -> bool)
    returns (response: Response)
    ensures response.BadRequest? <==> !NormalizeExplorerPath(path).At?
    ensures response.BadRequest? ==> forall q :: !Opens(path, q)
    ensures response.Listing? ==>
      response.current == NormalizeExplorerPath(path).path && Opens(path, response.current)
      && Shows(response.view, Listed(assets, keepAsset, keep), response.current)
  {
    var request := NormalizeExplorerPath(path);
    forall q ensures request == At(q) <==> Opens(path, q) {
      RequestOpens(path, q);
    }
    if !request.At? {
      return BadRequest;
    }
    var view := AddAssets(assets, request.path, keepAsset, keep);
    return Listing(request.path, view);
  }

  /** The loops over the assets and their locations. */
  method AddAssets(assets: seq<Asset>, current: string, keepAsset: Asset -> bool, keep: (Asset, Location) -> bool)
    returns (view: View)
    ensures Shows(view, Listed(assets, keepAsset, keep), current)
  {
    view := View([], [], 0);
    var index: map<string, nat> := map[];
    for i := 0 to |assets|
      invariant Shows(view, Listed(assets[..i], keepAsset, keep), current) && FolderIndex(index, view.folders)
    {
      assert assets[..i + 1][..i] == assets[..i];
      if keepAsset(assets[i]) {
        view, index := AddLocations(view, index, assets[i], keep, Listed(assets[..i], keepAsset, keep), current);
      } else {
        assert Listed(assets[..i + 1], keepAsset, keep) == Listed(assets[..i], keepAsset, keep);
      }
    }
    assert assets[..|assets|] == assets;
  }

  /** The inner loop, over the locations of one asset. */
  method AddLocations(before: View, known: map<string, nat>, asset: Asset, keep: (Asset, Location) -> bool,
                      ghost items: seq<Item>, current: string)
    returns (view: View, index: map<string, nat>)
    requires Shows(before, items, current) && FolderIndex(known, before.folders)
    ensures Shows(view, items + Kept(asset, asset.locations, keep), current) && FolderIndex(index, view.folders)
  {
    view, index := before, known;
    var ls := asset.locations;
    ghost var seen := items;
    assert items + [] == items;
    for j := 0 to |ls|
      invariant seen == items + Kept(asset, ls[..j], keep)
      invariant Shows(view, seen, current) && FolderIndex(index, view.folders)
    {
      NextKept(items, asset, ls, j, keep);
      if keep(asset, ls[j]) {
        var item := Item(ls[j].file.relativePath, ls[j].file.size);
        view, index := Place(view, index, item, seen, current);
        seen := seen + [item];
      }
    }
    assert ls[..|ls|] == ls;
  }

  lemma NextKept(items: seq<Item>, asset: Asset, ls: seq<Location>, j: nat, keep: (Asset, Location) -> bool)
    requires j < |ls|
    ensures items + Kept(asset, ls[..j + 1], keep)
      == items + Kept(asset, ls[..j], keep)
         + if keep(asset, ls[j]) then [Item(ls[j].file.relativePath, ls[j].file.size)] else []
  {
    assert ls[..j + 1][..j] == ls[..j];
  }

  /** The body of the inner loop, once the filters are passed. */
  method Place(before: View, known: map<string, nat>, x: Item, ghost items: seq<Item>, current: string)
    returns (view: View, index: map<string, nat>)
    requires Shows(before, items, current) && FolderIndex(known, before.folders)
    ensures Shows(view, items + [x], current) && FolderIndex(index, view.folders)
  {
    view, index := before, known;
    CountAppend(items, x, IsBelow(current));
    CountAppend(items, x, IsDirect(current));
    var rest := PathRemainder(x.path, current);
    if rest == None || rest.value == "" {
      OtherFolders(before.folders, x, items, current);
      return;
    }
    view := view.(totalBytes := view.totalBytes + x.size);
    var slash := SlashIndex(rest.value);
    if slash < |rest.value| {
      var folders;
      folders, index := PlaceInFolder(before.folders, known, rest.value[..slash], x, items, current);
      view := view.(folders := folders);
    } else {
      OtherFolders(before.folders, x, items, current);
      view := view.(files := view.files + [x]);
      assert view.files[..|before.files|] == before.files;
    }
  }

  /** A file in a subfolder: the folder's record, made on its first file, grows by it. */
  method PlaceInFolder(before: seq<Folder>, known: map<string, nat>, name: string, x: Item, ghost items: seq<Item>,
                       current: string)
    returns (folders: seq<Folder>, index: map<string, nat>)
    requires FolderIndex(known, before) && ShowsFolders(before, items, current)
    requires InFolder(x.path, current, name)
    ensures FolderIndex(index, folders) && ShowsFolders(folders, items + [x], current)
  {
    var found, k;
    found, index, k := RecordAt(before, known, name, items, current);
    CountAppend(items, x, IsIn(current, name));
    var f := found[k].(fileCount := found[k].fileCount + 1, totalBytes := found[k].totalBytes + x.size);
    folders := found[k := f];
    StillGrows(before, found, k, f);
    GrownFolders(before, folders, k, x, items, current);
  }

  /** The folders before, with the one at k changed or added at the end. */
  ghost predicate Grows(before: seq<Folder>, folders: seq<Folder>, k: nat) {
    && |before| <= |folders| && k < |folders| && DistinctNames(folders)
    && (forall i :: 0 <= i < |folders| && i != k ==> OneOf(before, i, folders[i]))
    && (k < |before| ==> folders[k].name == before[k].name)
  }

  ghost predicate OneOf(before: seq<Folder>, i: nat, f: Folder) {
    i < |before| && before[i] == f
  }

  lemma StillGrows(before: seq<Folder>, found: seq<Folder>, k: nat, f: Folder)
    requires Grows(before, found, k) && f.name == found[k].name
    ensures Grows(before, found[k := f], k)
  {
    var folders := found[k := f];
    assert forall i :: 0 <= i < |folders| ==> folders[i].name == found[i].name;
  }

  /** The place of a folder's record, which is made if there is none. */
  method RecordAt(before: seq<Folder>, known: map<string, nat>, name: string, ghost items: seq<Item>, current: string)
    returns (folders: seq<Folder>, index: map<string, nat>, k: nat)
    requires FolderIndex(known, before) && ShowsFolders(before, items, current)
    ensures FolderIndex(index, folders) && Grows(before, folders, k)
    ensures folders[k]
      == Folder(name, JoinPath(current, name), Count(items, IsIn(current, name)), Bytes(items, IsIn(current, name)))
  {
    folders, index := before, known;
    var path := JoinPath(current, name);
    if path !in index {
      folders := folders + [Folder(name, path, 0, 0)];
      index := index[path := |before|];
      assert forall i :: 0 <= i < |before| ==> before[i].path == JoinPath(current, before[i].name);
      CountNowhere(items, IsIn(current, name));
    }
    k := index[path];
    assert folders[k].name == name by { SameName(current, folders[k].name, name); }
  }

  /** One folder has grown by an item, or is new with it, and the others are as they were. */
  lemma GrownFolders(before: seq<Folder>, folders: seq<Folder>, k: nat, x: Item, items: seq<Item>, current: string)
    requires ShowsFolders(before, items, current) && Grows(before, folders, k)
    requires InFolder(x.path, current, folders[k].name) && ShowsFolder(folders[k], items + [x], current)
    ensures ShowsFolders(folders, items + [x], current)
  {
    forall i | 0 <= i < |folders| && i != k ensures ShowsFolder(folders[i], items + [x], current) {
      OtherFolder(folders[i], x, items, current);
    }
    forall y | y in items + [x] && Below(y.path, current) && !Direct(y.path, current)
      ensures Named(folders, FolderName(y.path, current))
    {
      if y in items {
        var i :| 0 <= i < |before| && before[i].name == FolderName(y.path, current);
        assert folders[i].name == FolderName(y.path, current);
      }
    }
  }

  lemma SameName(current: string, a: string, b: string)
    requires JoinPath(current, a) == JoinPath(current, b)
    ensures a == b
  {
    if current != "" {
      assert JoinPath(current, a)[|current| + 1..] == a;
      assert JoinPath(current, b)[|current| + 1..] == b;
    }
  }

  lemma OtherFolder(f: Folder, x: Item, items: seq<Item>, current: string)
    requires ShowsFolder(f, items, current) && !InFolder(x.path, current, f.name)
    ensures ShowsFolder(f, items + [x], current)
  {
    CountAppend(items, x, IsIn(current, f.name));
  }

  /** A file in no subfolder leaves the folders as they are. */
  lemma OtherFolders(folders: seq<Folder>, x: Item, items: seq<Item>, current: string)
    requires ShowsFolders(folders, items, current) && !(Below(x.path, current) && !Direct(x.path, current))
    ensures ShowsFolders(folders, items + [x], current)
  {
    forall k | 0 <= k < |folders| ensures ShowsFolder(folders[k], items + [x], current) {
      OtherFolder(folders[k], x, items, current);
    }
  }

  lemma {:induction false} CountNowhere(items: seq<Item>, wanted: string -> bool)
    requires forall y :: y in items ==> !wanted(y.path)
    ensures Count(items, wanted) == 0 && Bytes(items, wanted) == 0
  {
    if items != [] {
      CountNowhere(items[..|items| - 1], wanted);
    }
  }

  // A view accounts for everything below it.

  /** In one of the named folders. */
  ghost function IsInSome(current: string, folders: seq<Folder>): string -> bool {
    path => exists k :: 0 <= k < |folders| && InFolder(path, current, folders[k].name)
  }

  /** The folders' totals together count everything in one of them, once. */
  lemma {:induction false} FoldersAddUp(folders: seq<Folder>, items: seq<Item>, current: string)
    requires DistinctNames(folders) && forall k :: 0 <= k < |folders| ==> ShowsFolder(folders[k], items, current)
    ensures FolderCount(folders) == Count(items, IsInSome(current, folders))
    ensures FolderBytes(folders) == Bytes(items, IsInSome(current, folders))
  {
    if folders == [] {
      CountNowhere(items, IsInSome(current, folders));
    } else {
      var before, last := folders[..|folders| - 1], folders[|folders| - 1];
      FoldersAddUp(before, items, current);
      LastFolder(folders, current);
      CountSplit(items, IsInSome(current, folders), IsInSome(current, before), IsIn(current, last.name));
    }
  }

  lemma LastFolder(folders: seq<Folder>, current: string)
    requires folders != [] && DistinctNames(folders)
    ensures var before, last := folders[..|folders| - 1], IsIn(current, folders[|folders| - 1].name);
      forall path :: (IsInSome(current, folders)(path) <==> IsInSome(current, before)(path) || last(path))
        && !(IsInSome(current, before)(path) && last(path))
  {
    var before, n := folders[..|folders| - 1], |folders| - 1;
    forall path
      ensures IsInSome(current, folders)(path)
        <==> IsInSome(current, before)(path) || InFolder(path, current, folders[n].name)
    {
      if k: nat :| k < |before| && InFolder(path, current, before[k].name) {
        assert InFolder(path, current, folders[k].name);
      }
      if k: nat :| k < |folders| && InFolder(path, current, folders[k].name) {
        assert k < n ==> InFolder(path, current, before[k].name);
      }
    }
  }

  lemma {:induction false} CountSplit(items: seq<Item>, whole: string -> bool, a: string -> bool, b: string -> bool)
    requires forall path :: (whole(path) <==> a(path) || b(path)) && !(a(path) && b(path))
    ensures Count(items, whole) == Count(items, a) + Count(items, b)
    ensures Bytes(items, whole) == Bytes(items, a) + Bytes(items, b)
  {
    if items != [] {
      CountSplit(items[..|items| - 1], whole, a, b);
    }
  }

  /** A view's bytes are its folders' bytes and its direct files' bytes, and likewise for the number of files below. */
  lemma ViewAddsUp(view: View, items: seq<Item>, current: string)
    requires Shows(view, items, current)
    ensures view.totalBytes == FolderBytes(view.folders) + SizeOf(view.files)
    ensures Count(items, IsBelow(current)) == FolderCount(view.folders) + |view.files|
  {
    FoldersAddUp(view.folders, items, current);
    var inSome: string -> bool := path => Below(path, current) && !Direct(path, current);
    forall x | x in items ensures IsInSome(current, view.folders)(x.path) <==> inSome(x.path) {
      if inSome(x.path) {
        var k :| 0 <= k < |view.folders| && view.folders[k].name == FolderName(x.path, current);
        assert InFolder(x.path, current, view.folders[k].name);
      }
    }
    SameCount(items, IsInSome(current, view.folders), inSome);
    CountSplit(items, IsBelow(current), inSome, IsDirect(current));
  }

  // Opening a folder of a view.

  predicate HasPath(items: seq<Item>, path: string) {
    exists x :: x in items && x.path == path
  }

  /** Opening a folder that opens itself shows exactly what its record announced, unless a path is that of the folder
      with a slash after it: that one is in the folder's record and not in its view. */
  lemma DrillDown(view: View, f: Folder, inner: View, items: seq<Item>, current: string)
    requires Shows(view, items, current) && f in view.folders
    requires OpensItself(f.path) && Shows(inner, items, NormalizeExplorerPath(f.path).path)
    ensures f.fileCount == |inner.files| + FolderCount(inner.folders) <==> !HasPath(items, f.path + "/")
    ensures !HasPath(items, f.path + "/")
      ==> f.totalBytes == inner.totalBytes == SizeOf(inner.files) + FolderBytes(inner.folders)
  {
    FolderHasName(view, f, items, current);
    ViewAddsUp(inner, items, f.path);
    RecordIsView(items, current, f.name);
  }

  function IsPath(path: string): string -> bool { p => p == path }

  /** What the record of a folder counts and its own view does not. */
  lemma RecordIsView(items: seq<Item>, current: string, name: string)
    requires NoSlash(name) && JoinPath(current, name) != ""
    ensures var p := JoinPath(current, name);
      && (Count(items, IsIn(current, name)) == Count(items, IsBelow(p)) <==> !HasPath(items, p + "/"))
      && (!HasPath(items, p + "/") ==> Bytes(items, IsIn(current, name)) == Bytes(items, IsBelow(p)))
  {
    var p := JoinPath(current, name);
    forall path
      ensures IsIn(current, name)(path) <==> IsBelow(p)(path) || IsPath(p + "/")(path)
      ensures !(IsBelow(p)(path) && IsPath(p + "/")(path))
    {
      SubfolderIsBelow(path, current, name);
    }
    CountSplit(items, IsIn(current, name), IsBelow(p), IsPath(p + "/"));
    if HasPath(items, p + "/") {
      var x :| x in items && x.path == p + "/";
      CountSome(items, IsPath(p + "/"), x);
    } else {
      CountNowhere(items, IsPath(p + "/"));
    }
  }

  lemma {:induction false} CountSome(items: seq<Item>, wanted: string -> bool, x: Item)
    requires x in items && wanted(x.path)
    ensures Count(items, wanted) > 0
  {
    if items[|items| - 1] != x {
      assert x in items[..|items| - 1];
      CountSome(items[..|items| - 1], wanted, x);
    }
  }

  /** Opening the folder succeeds and shows as many files and bytes as its record announces. */
  ghost predicate Agrees(items: seq<Item>, current: string, name: string) {
    var target := NormalizeExplorerPath(JoinPath(current, name));
    && target.At?
    && Count(items, IsIn(current, name)) == Count(items, IsBelow(target.path))
    && Bytes(items, IsIn(current, name)) == Bytes(items, IsBelow(target.path))
  }

  /** A folder agrees with its view in every catalog that shows it, leaving aside the path with a slash after it,
      exactly if its path opens itself. */
  lemma DrillDownExactly(current: string, name: string)
    requires NoSlash(name)
    ensures OpensItself(JoinPath(current, name)) <==>
      forall items :: Count(items, IsIn(current, name)) > 0 && !HasPath(items, JoinPath(current, name) + "/")
        ==> Agrees(items, current, name)
  {
    var p := JoinPath(current, name);
    if OpensItself(p) {
      forall items | Count(items, IsIn(current, name)) > 0 && !HasPath(items, p + "/")
        ensures Agrees(items, current, name)
      {
        RecordIsView(items, current, name);
      }
    } else {
      var items := Disagreement(current, name);
    }
  }

  /** For a folder that does not open itself: one file in it, or that file and one more that its view shows and its
      record does not know. */
  lemma Disagreement(current: string, name: string) returns (items: seq<Item>)
    requires NoSlash(name) && !OpensItself(JoinPath(current, name))
    ensures Count(items, IsIn(current, name)) > 0 && !HasPath(items, JoinPath(current, name) + "/")
      && !Agrees(items, current, name)
  {
    items := OneInside(current, name);
    if Agrees(items, current, name) {
      var y := Item(Base(NormalizeExplorerPath(JoinPath(current, name)).path) + "z", 1);
      OutsideFolder(current, name, y.path);
      OneMoreDisagrees(items, y, current, name);
      OtherEnd(JoinPath(current, name), y.path);
      items := items + [y];
    }
  }

  /** A catalog of one file, which is in the folder. */
  lemma OneInside(current: string, name: string) returns (items: seq<Item>)
    requires NoSlash(name)
    ensures Count(items, IsIn(current, name)) == 1 && !HasPath(items, JoinPath(current, name) + "/")
  {
    var x := Item(JoinPath(current, name) + "/" + "a", 1);
    InsideFolder(current, name);
    OnlyFile(x, IsIn(current, name));
    OtherEnd(JoinPath(current, name), x.path);
    items := [x];
  }

  lemma OnlyFile(x: Item, wanted: string -> bool)
    requires wanted(x.path)
    ensures Count([x], wanted) == 1
  {
    assert [x] == [] + [x];
    CountAppend([], x, wanted);
  }

  lemma OtherEnd(p: string, path: string)
    requires path != "" && path[|path| - 1] != '/'
    ensures path != p + "/"
  {
    assert (p + "/")[|p + "/"| - 1] == '/';
  }

  /** A file that is shown and not announced spoils the agreement. */
  lemma OneMoreDisagrees(items: seq<Item>, y: Item, current: string, name: string)
    requires Agrees(items, current, name) && !InFolder(y.path, current, name)
    requires Below(y.path, NormalizeExplorerPath(JoinPath(current, name)).path)
    ensures Count(items + [y], IsIn(current, name)) == Count(items, IsIn(current, name))
      && !Agrees(items + [y], current, name)
  {
    CountAppend(items, y, IsIn(current, name));
    CountAppend(items, y, IsBelow(NormalizeExplorerPath(JoinPath(current, name)).path));
  }

  /** A file that opening a folder shows although it is not in the folder. */
  lemma OutsideFolder(current: string, name: string, path: string)
    requires NoSlash(name) && !OpensItself(JoinPath(current, name))
      && NormalizeExplorerPath(JoinPath(current, name)).At?
    requires path == Base(NormalizeExplorerPath(JoinPath(current, name)).path) + "z"
    ensures Below(path, NormalizeExplorerPath(JoinPath(current, name)).path) && !InFolder(path, current, name)
  {
    var p := JoinPath(current, name);
    var q := NormalizeExplorerPath(p).path;
    DirectFile(q);
    NormalizeShortens(p);
    SubfolderPrefix(path, current, name);
    FolderBase(current, name);
    NotUnder(p, q);
  }

  lemma FolderBase(current: string, name: string)
    ensures Base(current) + (name + "/") == JoinPath(current, name) + "/"
  {
  }

  lemma DirectFile(q: string)
    ensures Below(Base(q) + "z", q)
  {
    var path := Base(q) + "z";
    RemainderAfterBase(path, q);
    assert path[..|Base(q)|] == Base(q) && path[|Base(q)|..] == "z";
  }

  lemma NotUnder(p: string, q: string)
    requires |q| <= |p| && (p == q ==> p == "")
    ensures !HasPrefix(Base(q) + "z", p + "/")
  {
    var path := Base(q) + "z";
    PrefixSplit(path, p, "/");
    assert path[|path| - 1] == 'z';
    assert |p| == |q| && p != "" ==> path[..|p|] == q;
    if |p| < |path| {
      assert path[|p|..][..1] == [path[|p|]];
    }
  }

  /** A file in a folder. */
  lemma InsideFolder(current: string, name: string)
    requires NoSlash(name)
    ensures InFolder(JoinPath(current, name) + "/" + "a", current, name)
  {
    var p := JoinPath(current, name);
    var path := p + "/" + "a";
    assert path[..|p| + 1] == p + "/";
    FolderBase(current, name);
    SubfolderPrefix(path, current, name);
  }

  /** A shown folder's name comes from an item's path, so it has no slash. */
  lemma FolderHasName(view: View, f: Folder, items: seq<Item>, current: string)
    requires Shows(view, items, current) && f in view.folders
    ensures SlashIndex(f.name) == |f.name| && f.path == JoinPath(current, f.name)
  {
    var k :| 0 <= k < |view.folders| && view.folders[k] == f;
    assert ShowsFolder(view.folders[k], items, current);
    var x := SomeCounted(items, IsIn(current, f.name));
    NameHasNoSlash(x.path, current);
  }

  lemma {:induction false} SomeCounted(items: seq<Item>, wanted: string -> bool) returns (x: Item)
    requires Count(items, wanted) > 0
    ensures x in items && wanted(x.path)
  {
    x := items[|items| - 1];
    if !wanted(x.path) {
      x := SomeCounted(items[..|items| - 1], wanted);
    }
  }
}
